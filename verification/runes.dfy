/** Text helpers over rune sequences, each following the Go library function
    the core calls: `unicode.IsSpace`, `strings.TrimSpace`, `strings.Fields`,
    `strings.Join`, `strings.Split`, `strings.ToLower` and `(?i)` matching. */
module Runes {

  /** `unicode.IsSpace`: the Latin-1 spaces plus the Unicode White_Space runes above Latin-1. */
  predicate IsSpace(c: char) {
    c == '\t' || c == '\n' || c == '\U{000B}' || c == '\U{000C}' || c == '\r' || c == ' '
    || c == '\U{0085}' || c == '\U{00A0}' || c == '\U{1680}'
    || ('\U{2000}' <= c <= '\U{200A}') || c == '\U{2028}' || c == '\U{2029}'
    || c == '\U{202F}' || c == '\U{205F}' || c == '\U{3000}'
  }

  /** RE2's `\s`: only `[\t\n\f\r ]` (no vertical tab, nothing beyond ASCII). */
  predicate Re2Space(c: char) {
    c == '\t' || c == '\n' || c == '\U{000C}' || c == '\r' || c == ' '
  }

  lemma Re2SpaceIsSpace(c: char)
    ensures Re2Space(c) ==> IsSpace(c)
  {
  }

  /** RE2's `.` (without the `s` flag) over t[a..b]: every rune but a newline. */
  predicate Dots(t: string, a: nat, b: nat)
    requires a <= b <= |t|
  {
    forall k | a <= k < b :: t[k] != '\n'
  }

  /** The length of the run of RE2 `\s` runes in t from position i. */
  function SpaceRun(t: string, i: nat): (n: nat)
    requires i <= |t|
    ensures i + n <= |t|
    ensures forall k | i <= k < i + n :: Re2Space(t[k])
    ensures i + n < |t| ==> !Re2Space(t[i + n])
    decreases |t| - i
  {
    if i < |t| && Re2Space(t[i]) then 1 + SpaceRun(t, i + 1) else 0
  }

  /** `!strings.ContainsRune(s, c)`. */
  predicate NoRune(s: string, c: char) {
    forall k | 0 <= k < |s| :: s[k] != c
  }

  predicate NoSpace(s: string) {
    forall i | 0 <= i < |s| :: !IsSpace(s[i])
  }

  predicate AllSpace(s: string) {
    forall i | 0 <= i < |s| :: IsSpace(s[i])
  }

  /** Length of the run of `unicode.IsSpace` runes at the front of `s`. */
  function LeadingSpace(s: string): (n: nat)
    ensures n <= |s|
    ensures AllSpace(s[..n])
    ensures n < |s| ==> !IsSpace(s[n])
    decreases |s|
  {
    if |s| == 0 || !IsSpace(s[0]) then 0
    else
      var n := 1 + LeadingSpace(s[1..]);
      assert forall i | 1 <= i < n :: s[..n][i] == s[1..][..n - 1][i - 1];
      n
  }

  /** Length of the run of `unicode.IsSpace` runes at the end of `s`. */
  function TrailingSpace(s: string): (n: nat)
    ensures n <= |s|
    ensures AllSpace(s[|s| - n..])
    ensures n < |s| ==> !IsSpace(s[|s| - n - 1])
    decreases |s|
  {
    if |s| == 0 || !IsSpace(s[|s| - 1]) then 0
    else
      var m := TrailingSpace(s[..|s| - 1]);
      TrailingStep(s[..|s| - 1], s[|s| - 1], m);
      assert s == s[..|s| - 1] + [s[|s| - 1]];
      m + 1
  }

  /** One more space at the end lengthens the trailing run by one. */
  lemma TrailingStep(p: string, c: char, m: nat)
    requires IsSpace(c) && m <= |p| && AllSpace(p[|p| - m..])
    requires m < |p| ==> !IsSpace(p[|p| - m - 1])
    ensures var s := p + [c];
      AllSpace(s[|s| - (m + 1)..]) && (m + 1 < |s| ==> !IsSpace(s[|s| - (m + 1) - 1]))
  {
    var s := p + [c];
    assert s[|s| - (m + 1)..] == p[|p| - m..] + [c];
    assert m + 1 < |s| ==> s[|s| - (m + 1) - 1] == p[|p| - m - 1];
  }

  /** `strings.TrimSpace`: the slice of `s` between its leading and trailing white space. */
  function TrimSpace(s: string): (r: string)
    ensures |r| <= |s|
    ensures |r| > 0 ==> !IsSpace(r[0]) && !IsSpace(r[|r| - 1])
    ensures var i := LeadingSpace(s);
      i + |r| <= |s| && r == s[i..i + |r|] && AllSpace(s[..i]) && AllSpace(s[i + |r|..])
  {
    var a := LeadingSpace(s);
    var b := TrailingSpace(s[a..]);
    TrimBounds(s, a, b);
    s[a..][..|s| - a - b]
  }

  lemma TrimBounds(s: string, a: nat, b: nat)
    requires a == LeadingSpace(s) && b == TrailingSpace(s[a..])
    ensures var r := s[a..][..|s| - a - b];
      && |r| <= |s|
      && (|r| > 0 ==> !IsSpace(r[0]) && !IsSpace(r[|r| - 1]))
      && a + |r| <= |s| && r == s[a..a + |r|] && AllSpace(s[..a]) && AllSpace(s[a + |r|..])
  {
    var rest := s[a..];
    var r := rest[..|rest| - b];
    assert s[a + |r|..] == rest[|rest| - b..];
    assert |r| > 0 ==> r[0] == s[a] && r[|r| - 1] == rest[|rest| - b - 1];
  }

  lemma TrimSpaceOfTrimmed(s: string)
    requires |s| == 0 || (!IsSpace(s[0]) && !IsSpace(s[|s| - 1]))
    ensures TrimSpace(s) == s
  {
  }

  /** The longest prefix of `s` with no white space. */
  function WordLength(s: string): (n: nat)
    ensures n <= |s|
    ensures NoSpace(s[..n])
    ensures n < |s| ==> IsSpace(s[n])
    decreases |s|
  {
    if |s| == 0 || IsSpace(s[0]) then 0
    else
      var n := 1 + WordLength(s[1..]);
      assert forall i | 1 <= i < n :: s[..n][i] == s[1..][..n - 1][i - 1];
      n
  }

  /** `strings.Fields`: the maximal runs of non-space runes, in order. */
  function Fields(s: string): (ws: seq<string>)
    ensures forall k | 0 <= k < |ws| :: |ws[k]| > 0 && NoSpace(ws[k])
    decreases |s|
  {
    var t := s[LeadingSpace(s)..];
    if |t| == 0 then []
    else
      var n := WordLength(t);
      [t[..n]] + Fields(t[n..])
  }

  /** `strings.Join(ws, sep)`. */
  function Join(ws: seq<string>, sep: string): string {
    if |ws| == 0 then ""
    else if |ws| == 1 then ws[0]
    else ws[0] + sep + Join(ws[1..], sep)
  }

  predicate IsWords(ws: seq<string>) {
    forall k | 0 <= k < |ws| :: |ws[k]| > 0 && NoSpace(ws[k])
  }

  /** Words joined by single spaces: no space at either end, none doubled, no other white space. */
  predicate SingleSpaced(s: string) {
    && (|s| > 0 ==> s[0] != ' ' && s[|s| - 1] != ' ')
    && (forall i | 0 <= i < |s| :: IsSpace(s[i]) ==> s[i] == ' ')
    && (forall i | 0 <= i < |s| - 1 :: s[i] == ' ' ==> s[i + 1] != ' ')
  }

  /** Joining words with single spaces gives single-spaced text. */
  lemma {:induction false} JoinWordsSingleSpaced(ws: seq<string>)
    requires IsWords(ws)
    ensures SingleSpaced(Join(ws, " "))
    ensures |ws| > 0 ==> |Join(ws, " ")| > 0
  {
    if |ws| >= 2 {
      var rest := Join(ws[1..], " ");
      JoinWordsSingleSpaced(ws[1..]);
      var s := ws[0] + " " + rest;
      var w := ws[0];
      assert forall i | 0 <= i < |w| :: s[i] == w[i];
      assert s[|w|] == ' ';
      assert forall i | |w| < i < |s| :: s[i] == rest[i - |w| - 1];
      assert s[0] == w[0] && !IsSpace(w[0]);
      assert s[|s| - 1] == rest[|rest| - 1];
    }
  }

  /** Splitting a single-spaced join recovers the words. */
  lemma {:induction false} FieldsOfJoin(ws: seq<string>)
    requires IsWords(ws)
    ensures Fields(Join(ws, " ")) == ws
  {
    if |ws| == 1 {
      var w := ws[0];
      assert w + "" == w;
      FieldsWordFirst(w, "");
      assert Fields("") == [];
    } else if |ws| >= 2 {
      var w := ws[0];
      var rest := Join(ws[1..], " ");
      assert Join(ws, " ") == w + (" " + rest);
      FieldsOfJoin(ws[1..]);
      FieldsAfterWord(w, rest);
    }
  }

  /** A word and a single space come off the front as one field. */
  lemma FieldsAfterWord(w: string, rest: string)
    requires |w| > 0 && NoSpace(w)
    ensures Fields(w + (" " + rest)) == [w] + Fields(rest)
  {
    FieldsWordFirst(w, " " + rest);
    FieldsSkipSpace(' ', rest);
    assert [' '] + rest == " " + rest;
  }

  lemma FieldsWordFirst(w: string, r: string)
    requires |w| > 0 && NoSpace(w)
    requires |r| == 0 || IsSpace(r[0])
    ensures Fields(w + r) == [w] + Fields(r)
  {
    var s := w + r;
    assert LeadingSpace(s) == 0 by { assert s[0] == w[0]; }
    assert s[0..] == s;
    WordLengthOfWord(w, r);
    assert s[..|w|] == w;
    assert s[|w|..] == r;
    var t := r[LeadingSpace(r)..];
    if |r| > 0 {
      assert Fields(r) == Fields(t) by {
        FieldsOfStripped(r);
      }
    }
  }

  /** Fields ignores leading white space. */
  lemma FieldsOfStripped(r: string)
    ensures Fields(r) == Fields(r[LeadingSpace(r)..])
  {
    var t := r[LeadingSpace(r)..];
    assert LeadingSpace(t) == 0;
    assert t[0..] == t;
  }

  lemma FieldsSkipSpace(c: char, r: string)
    requires IsSpace(c)
    ensures Fields([c] + r) == Fields(r)
  {
    var s := [c] + r;
    assert s[1..] == r;
    assert LeadingSpace(s) == 1 + LeadingSpace(r);
    assert s[LeadingSpace(s)..] == r[LeadingSpace(r)..];
  }

  lemma {:induction false} WordLengthOfWord(w: string, rest: string)
    requires |w| > 0 && NoSpace(w)
    requires |rest| == 0 || IsSpace(rest[0])
    ensures WordLength(w + rest) == |w|
    decreases |w|
  {
    var s := w + rest;
    assert s[0] == w[0];
    assert s[1..] == w[1..] + rest;
    if |w| > 1 {
      WordLengthOfWord(w[1..], rest);
    } else {
      assert w[1..] + rest == rest;
    }
  }

  /** The words `Fields` finds are exactly the non-space runes of the input, in order. */
  function Concat(ws: seq<string>): string {
    if |ws| == 0 then "" else ws[0] + Concat(ws[1..])
  }

  function RemoveSpace(s: string): string {
    if |s| == 0 then "" else (if IsSpace(s[0]) then "" else [s[0]]) + RemoveSpace(s[1..])
  }

  lemma {:induction false} RemoveSpaceAppend(a: string, b: string)
    ensures RemoveSpace(a + b) == RemoveSpace(a) + RemoveSpace(b)
    decreases |a|
  {
    if |a| > 0 {
      assert (a + b)[1..] == a[1..] + b;
      RemoveSpaceAppend(a[1..], b);
    } else {
      assert a + b == b;
    }
  }

  lemma {:induction false} RemoveSpaceOfNoSpace(s: string)
    requires NoSpace(s)
    ensures RemoveSpace(s) == s
    decreases |s|
  {
    if |s| > 0 {
      RemoveSpaceOfNoSpace(s[1..]);
      assert s == [s[0]] + s[1..];
    }
  }

  lemma {:induction false} RemoveSpaceOfAllSpace(s: string)
    requires AllSpace(s)
    ensures RemoveSpace(s) == ""
    decreases |s|
  {
    if |s| > 0 {
      RemoveSpaceOfAllSpace(s[1..]);
    }
  }

  /** `Fields` drops the white space and nothing else. */
  lemma {:induction false} FieldsKeepsText(s: string)
    ensures Concat(Fields(s)) == RemoveSpace(s)
    decreases |s|
  {
    var a := LeadingSpace(s);
    var t := s[a..];
    assert s == s[..a] + t;
    RemoveSpaceAppend(s[..a], t);
    RemoveSpaceOfAllSpace(s[..a]);
    if |t| > 0 {
      var n := WordLength(t);
      assert t == t[..n] + t[n..];
      RemoveSpaceAppend(t[..n], t[n..]);
      RemoveSpaceOfNoSpace(t[..n]);
      assert n > 0;
      FieldsKeepsText(t[n..]);
    }
  }

  /** The rune `strings.ToLower` produces, for every rune whose lower case is ASCII
      (ASCII capitals, U+0130 LATIN CAPITAL I WITH DOT, U+212A KELVIN SIGN).
      All other runes are returned unchanged; since the core only ever compares
      lower-cased text with ASCII literals, the result of every such comparison is exact. */
  function LowerRune(c: char): char {
    if 'A' <= c <= 'Z' then ((c as int) + 32) as char
    else if c == '\U{0130}' then 'i'
    else if c == '\U{212A}' then 'k'
    else c
  }

  function ToLower(s: string): (r: string)
    ensures |r| == |s|
    ensures forall i | 0 <= i < |s| :: r[i] == LowerRune(s[i])
  {
    seq(|s|, i requires 0 <= i < |s| => LowerRune(s[i]))
  }

  /** The representative of a rune's simple case-folding orbit, for the
      orbits of ASCII letters: a capital letter stands for its small letter,
      U+212A KELVIN SIGN for `k` and U+017F LATIN SMALL LETTER LONG S for `s`.
      (U+0130 is in an orbit of its own, unlike under `ToLower`.) */
  function FoldRune(c: char): char {
    if 'A' <= c <= 'Z' then ((c as int) + 32) as char
    else if c == '\U{212A}' then 'k'
    else if c == '\U{017F}' then 's'
    else c
  }

  /** `(?i)` matching of one rune against a rune of an ASCII pattern: RE2
      accepts every rune of the pattern rune's case-folding orbit. */
  predicate FoldEq(c: char, lit: char) {
    FoldRune(c) == FoldRune(lit)
  }

  predicate FoldPrefixAt(s: string, i: nat, lit: string) {
    i + |lit| <= |s| && forall k | 0 <= k < |lit| :: FoldEq(s[i + k], lit[k])
  }

  predicate PrefixAt(s: string, i: nat, lit: string) {
    i + |lit| <= |s| && s[i..i + |lit|] == lit
  }

  predicate HasPrefix(s: string, p: string) {
    |p| <= |s| && s[..|p|] == p
  }

  predicate HasSuffix(s: string, p: string) {
    |p| <= |s| && s[|s| - |p|..] == p
  }

  /** `s` ends in `p` exactly when it is some text followed by `p`. */
  lemma HasSuffixIff(s: string, p: string)
    ensures HasSuffix(s, p) <==> exists q: string :: q + p == s
  {
    if HasSuffix(s, p) {
      assert s[..|s| - |p|] + p == s;
    }
    forall q: string | q + p == s ensures HasSuffix(s, p) {
      assert s[|q|..] == p;
    }
  }

  /** `strings.Contains`. */
  predicate Contains(s: string, sub: string) {
    exists i | 0 <= i <= |s| - |sub| :: PrefixAt(s, i, sub)
  }

  /** `s` contains `sub` exactly when it is some text, then `sub`, then
      some more text. */
  lemma ContainsIff(s: string, sub: string)
    ensures Contains(s, sub) <==> exists pre: string, post: string :: pre + sub + post == s
  {
    if Contains(s, sub) {
      var i :| 0 <= i <= |s| - |sub| && PrefixAt(s, i, sub);
      assert s[..i] + sub + s[i + |sub|..] == s;
    }
    forall pre: string, post: string | pre + sub + post == s ensures Contains(s, sub) {
      assert s[|pre|..|pre| + |sub|] == sub;
      assert PrefixAt(s, |pre|, sub);
    }
  }

  function CountRune(s: string, c: char): nat {
    if |s| == 0 then 0 else (if s[0] == c then 1 else 0) + CountRune(s[1..], c)
  }

  function IndexOf(s: string, c: char): (i: int)
    ensures -1 <= i < |s|
    ensures i >= 0 ==> s[i] == c && forall k | 0 <= k < i :: s[k] != c
    ensures i < 0 ==> forall k | 0 <= k < |s| :: s[k] != c
    decreases |s|
  {
    if |s| == 0 then -1
    else if s[0] == c then 0
    else
      var j := IndexOf(s[1..], c);
      if j < 0 then -1 else j + 1
  }

  function LastIndexOf(s: string, c: char): (i: int)
    ensures -1 <= i < |s|
    ensures i >= 0 ==> s[i] == c && forall k | i < k < |s| :: s[k] != c
    ensures i < 0 ==> forall k | 0 <= k < |s| :: s[k] != c
    decreases |s|
  {
    if |s| == 0 then -1
    else if s[|s| - 1] == c then |s| - 1
    else LastIndexOf(s[..|s| - 1], c)
  }

  /** `strings.Split(s, string(c))`: n separators give n+1 parts. */
  function Split(s: string, c: char): (parts: seq<string>)
    ensures |parts| == CountRune(s, c) + 1
    decreases |s|
  {
    var i := IndexOf(s, c);
    if i < 0 then
      NoRuneCount(s, c);
      [s]
    else
      CountSplitAt(s, c, i);
      [s[..i]] + Split(s[i + 1..], c)
  }

  lemma {:induction false} NoRuneCount(s: string, c: char)
    requires forall k | 0 <= k < |s| :: s[k] != c
    ensures CountRune(s, c) == 0
    decreases |s|
  {
    if |s| > 0 { NoRuneCount(s[1..], c); }
  }

  lemma {:induction false} CountSplitAt(s: string, c: char, i: nat)
    requires i < |s| && s[i] == c
    requires forall k | 0 <= k < i :: s[k] != c
    ensures CountRune(s, c) == 1 + CountRune(s[i + 1..], c)
    decreases i
  {
    if i > 0 {
      assert s[1..][i..] == s[i + 1..];
      CountSplitAt(s[1..], c, i - 1);
    }
  }

  /** Joining the parts of a split with the separator gives the input back. */
  lemma {:induction false} JoinSplit(s: string, c: char)
    ensures Join(Split(s, c), [c]) == s
    decreases |s|
  {
    var i := IndexOf(s, c);
    if i >= 0 {
      JoinSplit(s[i + 1..], c);
      assert s == s[..i] + [c] + s[i + 1..];
    }
  }

  lemma IndexOfIs(s: string, c: char, i: nat)
    requires i < |s| && s[i] == c
    requires forall k | 0 <= k < i :: s[k] != c
    ensures IndexOf(s, c) == i
  {
  }

  /** The first separator splits off the first part. */
  lemma SplitCons(x: string, y: string, c: char)
    requires forall k | 0 <= k < |x| :: x[k] != c
    ensures Split(x + [c] + y, c) == [x] + Split(y, c)
  {
    var s := x + [c] + y;
    IndexOfIs(s, c, |x|);
    assert s[..|x|] == x;
    assert s[|x| + 1..] == y;
  }

  /** A separator between two strings concatenates their parts. */
  lemma {:induction false} SplitAppend(x: string, y: string, c: char)
    ensures Split(x + [c] + y, c) == Split(x, c) + Split(y, c)
    decreases |x|
  {
    var i := IndexOf(x, c);
    if i < 0 {
      SplitCons(x, y, c);
    } else {
      var s := x + [c] + y;
      IndexOfIs(s, c, i);
      assert s[..i] == x[..i];
      assert s[i + 1..] == x[i + 1..] + [c] + y;
      SplitAppend(x[i + 1..], y, c);
    }
  }

  /** Text without the separator is a single part. */
  lemma SplitNone(s: string, c: char)
    requires forall k | 0 <= k < |s| :: s[k] != c
    ensures Split(s, c) == [s]
  {
    assert IndexOf(s, c) < 0;
  }

  /** No part of a split holds the separator. */
  lemma SplitLacks(s: string, c: char)
    ensures forall k | 0 <= k < |Split(s, c)| :: forall i | 0 <= i < |Split(s, c)[k]| :: Split(s, c)[k][i] != c
    decreases |s|
  {
    var i := IndexOf(s, c);
    if i >= 0 {
      SplitLacks(s[i + 1..], c);
    }
  }

  /** Splitting undoes joining when no part holds the separator. */
  lemma {:induction false} SplitJoin(ws: seq<string>, c: char)
    requires |ws| > 0
    requires forall k | 0 <= k < |ws| :: forall i | 0 <= i < |ws[k]| :: ws[k][i] != c
    ensures Split(Join(ws, [c]), c) == ws
    decreases |ws|
  {
    if |ws| == 1 {
      SplitNone(ws[0], c);
    } else {
      SplitJoin(ws[1..], c);
      SplitCons(ws[0], Join(ws[1..], [c]), c);
      assert ws == [ws[0]] + ws[1..];
    }
  }
}
