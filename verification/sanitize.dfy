/** The two file-name sanitisers of the system:
    - `SanitizeFileName` (pkg/util/util.go, and the identical copy in processor.go):
      slashes become `_`, the other seven unsafe runes are deleted, then white
      space is trimmed and collapsed to single spaces;
    - `SanitizeDashes` (util.go's `sanitizeFilename`): every unsafe rune becomes `-`. */
module Sanitize {
  import opened Runes

  /** The nine runes neither sanitiser lets through: `\ / : * ? " < > |`. */
  predicate Unsafe(c: char) {
    c == '\\' || c == '/' || c == ':' || c == '*' || c == '?' || c == '"' || c == '<' || c == '>' || c == '|'
  }

  predicate Lacks(s: string, c: char) {
    forall i | 0 <= i < |s| :: s[i] != c
  }

  predicate AllSafe(s: string) {
    forall i | 0 <= i < |s| :: !Unsafe(s[i])
  }

  /** `strings.ReplaceAll(s, string(c), rep)` for a one-rune pattern. */
  function ReplaceRune(s: string, c: char, rep: string): string
    decreases |s|
  {
    if |s| == 0 then ""
    else (if s[0] == c then rep else [s[0]]) + ReplaceRune(s[1..], c, rep)
  }

  /** After the replacement, `c` is gone (unless the replacement brings it back)
      and no rune absent before appears unless the replacement holds it. */
  lemma {:induction false} ReplaceRuneLacks(s: string, c: char, rep: string, d: char)
    requires Lacks(rep, d)
    requires d == c || Lacks(s, d)
    ensures Lacks(ReplaceRune(s, c, rep), d)
    decreases |s|
  {
    if |s| > 0 {
      ReplaceRuneLacks(s[1..], c, rep, d);
      var head := if s[0] == c then rep else [s[0]];
      var r := ReplaceRune(s, c, rep);
      assert r == head + ReplaceRune(s[1..], c, rep);
      assert Lacks(head, d);
      forall i | 0 <= i < |r| ensures r[i] != d {
        if i < |head| { assert r[i] == head[i]; }
        else { assert r[i] == ReplaceRune(s[1..], c, rep)[i - |head|]; }
      }
    }
  }

  lemma {:induction false} ReplaceRuneAbsent(s: string, c: char, rep: string)
    requires Lacks(s, c)
    ensures ReplaceRune(s, c, rep) == s
    decreases |s|
  {
    if |s| > 0 {
      ReplaceRuneAbsent(s[1..], c, rep);
      assert s == [s[0]] + s[1..];
    }
  }

  /** The replacement stage of `SanitizeFileName`, one `strings.ReplaceAll` per unsafe rune, in source order. */
  function StripUnsafe(name: string): string {
    var n := ReplaceRune(name, '/', "_");
    var n := ReplaceRune(n, '\\', "_");
    var n := ReplaceRune(n, ':', "");
    var n := ReplaceRune(n, '*', "");
    var n := ReplaceRune(n, '?', "");
    var n := ReplaceRune(n, '"', "");
    var n := ReplaceRune(n, '<', "");
    var n := ReplaceRune(n, '>', "");
    ReplaceRune(n, '|', "")
  }

  /** `SanitizeFileName`: strip, trim, and collapse white space to single spaces. */
  function SanitizeFileName(name: string): string {
    Join(Fields(TrimSpace(StripUnsafe(name))), " ")
  }

  lemma {:induction false} StripUnsafeLacks(name: string, d: char)
    requires Unsafe(d) || Lacks(name, d)
    requires d != '_'
    ensures Lacks(StripUnsafe(name), d)
  {
    var n1 := ReplaceRune(name, '/', "_");
    if d == '/' || Lacks(name, d) { ReplaceRuneLacks(name, '/', "_", d); }
    var n2 := ReplaceRune(n1, '\\', "_");
    if d == '\\' || Lacks(n1, d) { ReplaceRuneLacks(n1, '\\', "_", d); }
    var n3 := ReplaceRune(n2, ':', "");
    if d == ':' || Lacks(n2, d) { ReplaceRuneLacks(n2, ':', "", d); }
    var n4 := ReplaceRune(n3, '*', "");
    if d == '*' || Lacks(n3, d) { ReplaceRuneLacks(n3, '*', "", d); }
    var n5 := ReplaceRune(n4, '?', "");
    if d == '?' || Lacks(n4, d) { ReplaceRuneLacks(n4, '?', "", d); }
    var n6 := ReplaceRune(n5, '"', "");
    if d == '"' || Lacks(n5, d) { ReplaceRuneLacks(n5, '"', "", d); }
    var n7 := ReplaceRune(n6, '<', "");
    if d == '<' || Lacks(n6, d) { ReplaceRuneLacks(n6, '<', "", d); }
    var n8 := ReplaceRune(n7, '>', "");
    if d == '>' || Lacks(n7, d) { ReplaceRuneLacks(n7, '>', "", d); }
    ReplaceRuneLacks(n8, '|', "", d);
  }

  lemma StripUnsafeSafe(name: string)
    ensures AllSafe(StripUnsafe(name))
  {
    var r := StripUnsafe(name);
    forall i | 0 <= i < |r| ensures !Unsafe(r[i]) {
      if Unsafe(r[i]) {
        StripUnsafeLacks(name, r[i]);
      }
    }
  }

  lemma StripUnsafeOfSafe(name: string)
    requires AllSafe(name)
    ensures StripUnsafe(name) == name
  {
    ReplaceRuneAbsent(name, '/', "_");
    ReplaceRuneAbsent(name, '\\', "_");
    ReplaceRuneAbsent(name, ':', "");
    ReplaceRuneAbsent(name, '*', "");
    ReplaceRuneAbsent(name, '?', "");
    ReplaceRuneAbsent(name, '"', "");
    ReplaceRuneAbsent(name, '<', "");
    ReplaceRuneAbsent(name, '>', "");
    ReplaceRuneAbsent(name, '|', "");
  }

  /** A rune of a join of words comes from one of the words (or is the separator). */
  lemma {:induction false} JoinRunes(ws: seq<string>, c: char)
    requires forall k | 0 <= k < |ws| :: Lacks(ws[k], c)
    requires c != ' '
    ensures Lacks(Join(ws, " "), c)
  {
    if |ws| >= 2 {
      JoinRunes(ws[1..], c);
      var rest := Join(ws[1..], " ");
      var s := ws[0] + " " + rest;
      forall i | 0 <= i < |s| ensures s[i] != c {
        if i < |ws[0]| { assert s[i] == ws[0][i]; }
        else if i > |ws[0]| { assert s[i] == rest[i - |ws[0]| - 1]; }
      }
    }
  }

  /** The words of a trimmed string are its words. */
  lemma FieldsRunes(s: string, c: char)
    requires Lacks(s, c)
    ensures forall k | 0 <= k < |Fields(s)| :: Lacks(Fields(s)[k], c)
  {
    var ws := Fields(s);
    FieldsKeepsText(s);
    forall k | 0 <= k < |ws| ensures Lacks(ws[k], c) {
      ConcatHolds(ws, k);
      RemoveSpaceLacks(s, c);
      var pre := Concat(ws[..k]);
      forall i | 0 <= i < |ws[k]| ensures ws[k][i] != c {
        assert Concat(ws)[|pre| + i] == ws[k][i];
      }
    }
  }

  lemma {:induction false} ConcatHolds(ws: seq<string>, k: nat)
    requires k < |ws|
    ensures |Concat(ws[..k])| + |ws[k]| <= |Concat(ws)|
    ensures forall i | 0 <= i < |ws[k]| :: Concat(ws)[|Concat(ws[..k])| + i] == ws[k][i]
  {
    if k == 0 {
      assert ws[..0] == [];
    } else {
      ConcatHolds(ws[1..], k - 1);
      assert ws[1..][..k - 1] == ws[1..k];
      assert ws[..k] == [ws[0]] + ws[1..k];
      assert Concat(ws[..k]) == ws[0] + Concat(ws[1..k]);
    }
  }

  lemma {:induction false} RemoveSpaceLacks(s: string, c: char)
    requires Lacks(s, c)
    ensures Lacks(RemoveSpace(s), c)
    decreases |s|
  {
    if |s| > 0 {
      RemoveSpaceLacks(s[1..], c);
      var head := if IsSpace(s[0]) then "" else [s[0]];
      var r := RemoveSpace(s);
      forall i | 0 <= i < |r| ensures r[i] != c {
        if i < |head| { assert r[i] == s[0]; }
        else { assert r[i] == RemoveSpace(s[1..])[i - |head|]; }
      }
    }
  }

  /** `SanitizeFileName`'s output holds no unsafe rune and is single-spaced. */
  lemma SanitizeFileNameClean(name: string)
    ensures AllSafe(SanitizeFileName(name))
    ensures SingleSpaced(SanitizeFileName(name))
  {
    JoinWordsSingleSpaced(Fields(TrimSpace(StripUnsafe(name))));
    var r := SanitizeFileName(name);
    forall i | 0 <= i < |r| ensures !Unsafe(r[i]) {
      if Unsafe(r[i]) {
        SanitizeFileNameLacks(name, r[i]);
      }
    }
  }

  lemma SanitizeFileNameLacks(name: string, c: char)
    requires Unsafe(c)
    ensures Lacks(SanitizeFileName(name), c)
  {
    var t := TrimSpace(StripUnsafe(name));
    StripUnsafeLacks(name, c);
    TrimSpaceLacks(StripUnsafe(name), c);
    FieldsRunes(t, c);
    JoinRunes(Fields(t), c);
  }

  lemma TrimSpaceLacks(s: string, c: char)
    requires Lacks(s, c)
    ensures Lacks(TrimSpace(s), c)
  {
    var r := TrimSpace(s);
    var i :| 0 <= i <= |s| - |r| && r == s[i..i + |r|] && AllSpace(s[..i]) && AllSpace(s[i + |r|..]);
    forall k | 0 <= k < |r| ensures r[k] != c {
      assert r[k] == s[i + k];
    }
  }

  /** Sanitising twice changes nothing more than sanitising once. */
  lemma SanitizeFileNameIdempotent(name: string)
    ensures SanitizeFileName(SanitizeFileName(name)) == SanitizeFileName(name)
  {
    var r := SanitizeFileName(name);
    var ws := Fields(TrimSpace(StripUnsafe(name)));
    SanitizeFileNameClean(name);
    StripUnsafeOfSafe(r);
    JoinWordsSingleSpaced(ws);
    TrimSpaceOfTrimmed(r);
    FieldsOfJoin(ws);
  }

  /** Sanitising keeps every safe, non-space rune of the name, in order. */
  lemma SanitizeFileNameKeepsText(name: string)
    ensures RemoveSpace(SanitizeFileName(name)) == RemoveSpace(StripUnsafe(name))
  {
    var s := StripUnsafe(name);
    var t := TrimSpace(s);
    var ws := Fields(t);
    FieldsOfJoin(ws);
    FieldsKeepsText(SanitizeFileName(name));
    FieldsKeepsText(t);
    TrimSpaceKeepsText(s);
  }

  lemma TrimSpaceKeepsText(s: string)
    ensures RemoveSpace(TrimSpace(s)) == RemoveSpace(s)
  {
    var t := TrimSpace(s);
    var i := LeadingSpace(s);
    ThreeSlices(s, i, i + |t|);
    RemoveAround(s[..i], t, s[i + |t|..]);
  }

  lemma ThreeSlices(s: string, i: nat, j: nat)
    requires i <= j <= |s|
    ensures s == s[..i] + s[i..j] + s[j..]
  {
  }

  /** White space around a text does not survive removal. */
  lemma RemoveAround(a: string, t: string, b: string)
    requires AllSpace(a) && AllSpace(b)
    ensures RemoveSpace(a + t + b) == RemoveSpace(t)
  {
    RemoveSpaceAppend(a + t, b);
    RemoveSpaceAppend(a, t);
    RemoveSpaceOfAllSpace(a);
    RemoveSpaceOfAllSpace(b);
  }

  /** util.go's `sanitizeFilename`: the character class `[\\/:*?"<>|]` replaced by `-`. */
  function SanitizeDashes(name: string): (r: string)
    ensures |r| == |name|
    ensures forall i | 0 <= i < |name| :: r[i] == (if Unsafe(name[i]) then '-' else name[i])
  {
    seq(|name|, i requires 0 <= i < |name| => if Unsafe(name[i]) then '-' else name[i])
  }

  lemma SanitizeDashesProperties(name: string)
    ensures AllSafe(SanitizeDashes(name))
    ensures SanitizeDashes(SanitizeDashes(name)) == SanitizeDashes(name)
    ensures AllSafe(name) ==> SanitizeDashes(name) == name
  {
  }
}
