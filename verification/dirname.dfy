/** `parseArtistTitleYearFromDir` (scanner.go and pkg/scanner/scanner.go,
    the same in both): the fallback that reads artist, title and year from
    an album directory's name when there is no readable Info.txt. Two
    anchored patterns are tried in turn,

      full:   ^(.+?)\s*-\s*(.+?)(?:\s*\(?(\d{4})\)?)?(?:\s+WAV\+CUE)?$
      simple: ^(.+?)(?:\s*\(?(\d{4})\)?)?(?:\s+WAV\+CUE)?$

    and each is written here as an explicit search that makes RE2's
    leftmost-first choices: lazy groups as short as possible, greedy runs
    and optional parts as long as possible, earlier choices first. */
module DirName {
  import opened Wrappers
  import opened Runes
  import opened Decimal
  import opened Search

  const UnknownArtist: string := "Unknown Artist"

  /** `\s+WAV\+CUE` covering all of u. */
  predicate WavCue(u: string) {
    |u| > 7 && SpaceRun(u, 0) == |u| - 7 && u[|u| - 7..] == "WAV+CUE"
  }

  /** `\s*\(?(\d{4})\)?` at the front of u, as the only way RE2 can take it
      there: all leading white space, the bracket when present, four ASCII
      digits and the closing bracket when present. Gives the length taken
      and the digits. */
  function YearPart(u: string): (r: Option<(nat, string)>)
    ensures r.Some? ==> r.value.0 <= |u| && |r.value.1| == 4 && AllDigits(r.value.1)
  {
    var w := SpaceRun(u, 0);
    var j := if w < |u| && u[w] == '(' then w + 1 else w;
    if j + 4 <= |u| && AllDigits(u[j..j + 4]) then
      var k := j + 4;
      Some((if k < |u| && u[k] == ')' then k + 1 else k, u[j..j + 4]))
    else None
  }

  /** The outcome of the two patterns' common tail. */
  datatype Tail = NoTail | TailYear(year: string)

  /** `(?:\s*\(?(\d{4})\)?)?(?:\s+WAV\+CUE)?$` against all of u: the year
      part is tried first and captures its digits; without it the tail is
      either nothing or the `WAV+CUE` marker alone. */
  function TailOf(u: string): (r: Tail)
    ensures r.TailYear? && r.year != "" ==> |r.year| == 4 && AllDigits(r.year)
    ensures u == "" || WavCue(u) ==> r.TailYear?
  {
    match YearPart(u)
    case Some((n, y)) =>
      if n == |u| || WavCue(u[n..]) then TailYear(y)
      else if u == "" || WavCue(u) then TailYear("")
      else NoTail
    case None =>
      if u == "" || WavCue(u) then TailYear("") else NoTail
  }

  // ---------------------------------------------------------------------
  // The full pattern

  /** `\s*-` after a first group ending at a: the position of the dash. */
  function DashAfter(t: string, a: nat): (r: Option<nat>)
    requires a <= |t|
    ensures r.Some? ==> a <= r.value < |t| && t[r.value] == '-'
  {
    var b := a + SpaceRun(t, a);
    if b < |t| && t[b] == '-' then Some(b) else None
  }

  /** A match of the full pattern whose first group is t[..a] and whose
      second group is t[c..d]. */
  predicate FullCandidate(t: string, a: nat, c: nat, d: nat) {
    && 0 < a <= |t| && Dots(t, 0, a)
    && DashAfter(t, a).Some?
    && var b := DashAfter(t, a).value;
      && b + 1 <= c <= b + 1 + SpaceRun(t, b + 1)
      && SecondOk(t, c, d)
  }

  /** A second group t[c..e] followed by a tail that completes the match. */
  predicate SecondOk(t: string, c: nat, e: nat) {
    c < e <= |t| && Dots(t, c, e) && TailOf(t[e..]).TailYear?
  }

  /** The lazy second group: its shortest end from d on that the tail can
      complete. */
  function SecondEnd(t: string, c: nat, d: nat): (r: Option<nat>)
    requires d <= |t| + 1
    ensures r.Some? ==> d <= r.value && SecondOk(t, c, r.value)
    ensures r.Some? ==> forall e | d <= e < r.value :: !SecondOk(t, c, e)
    ensures r.None? ==> forall e | d <= e :: !SecondOk(t, c, e)
  {
    var hits := seq(|t| + 1, e requires 0 <= e <= |t| => SecondOk(t, c, e));
    assert forall e | 0 <= e <= |t| :: hits[e] == SecondOk(t, c, e);
    FirstHit(hits, d)
  }

  /** The greedy `\s*` before the second group, tried from its longest
      extent (start c) down to the dash. */
  function SecondStart(t: string, a: nat, b: nat, c: nat): (r: Option<(nat, nat)>)
    requires 0 < a <= |t| && Dots(t, 0, a) && DashAfter(t, a) == Some(b)
    requires b + 1 <= c + 1 && c <= b + 1 + SpaceRun(t, b + 1)
    ensures r.Some? ==> b + 1 <= r.value.0 <= c && FullCandidate(t, a, r.value.0, r.value.1)
    ensures r.Some? ==> forall c': nat, d': nat | r.value.0 < c' <= c :: !FullCandidate(t, a, c', d')
    ensures r.Some? ==> forall d': nat | d' < r.value.1 :: !FullCandidate(t, a, r.value.0, d')
    ensures r.None? ==> forall c': nat, d': nat | c' <= c :: !FullCandidate(t, a, c', d')
    decreases c + 1 - b
  {
    if c < b + 1 then None
    else
      match SecondEnd(t, c, c + 1)
      case Some(d) =>
        SecondFound(t, a, b, c, d);
        Some((c, d))
      case None =>
        SecondMissing(t, a, b, c);
        var r := SecondStart(t, a, b, c - 1);
        SecondBelow(t, a, c, r);
        r
  }

  /** A search from c - 1 down, after c itself failed, is a search from c. */
  lemma SecondBelow(t: string, a: nat, c: nat, r: Option<(nat, nat)>)
    requires forall d': nat :: !FullCandidate(t, a, c, d')
    requires r.Some? ==> r.value.0 < c
    requires r.Some? ==> forall c': nat, d': nat | r.value.0 < c' <= c - 1 :: !FullCandidate(t, a, c', d')
    requires r.None? ==> forall c': nat, d': nat | c' <= c - 1 :: !FullCandidate(t, a, c', d')
    ensures r.Some? ==> forall c': nat, d': nat | r.value.0 < c' <= c :: !FullCandidate(t, a, c', d')
    ensures r.None? ==> forall c': nat, d': nat | c' <= c :: !FullCandidate(t, a, c', d')
  {
  }

  /** Second-group start c admits d as its shortest end. */
  lemma SecondFound(t: string, a: nat, b: nat, c: nat, d: nat)
    requires 0 < a <= |t| && Dots(t, 0, a) && DashAfter(t, a) == Some(b)
    requires b + 1 <= c <= b + 1 + SpaceRun(t, b + 1)
    requires SecondEnd(t, c, c + 1) == Some(d)
    ensures FullCandidate(t, a, c, d)
    ensures forall d': nat | d' < d :: !FullCandidate(t, a, c, d')
  {
  }

  /** Second-group start c admits no end at all. */
  lemma SecondMissing(t: string, a: nat, b: nat, c: nat)
    requires 0 < a <= |t| && Dots(t, 0, a) && DashAfter(t, a) == Some(b)
    requires b + 1 <= c <= b + 1 + SpaceRun(t, b + 1)
    requires SecondEnd(t, c, c + 1).None?
    ensures forall d': nat :: !FullCandidate(t, a, c, d')
  {
  }

  datatype FullSpan = FullSpan(a: nat, c: nat, d: nat)

  ghost predicate FirstFull(t: string, from: nat, m: FullSpan) {
    && FullCandidate(t, m.a, m.c, m.d)
    && (forall a': nat, c': nat, d': nat | from <= a' < m.a :: !FullCandidate(t, a', c', d'))
    && (forall c': nat, d': nat | m.c < c' :: !FullCandidate(t, m.a, c', d'))
    && (forall d': nat | d' < m.d :: !FullCandidate(t, m.a, m.c, d'))
  }

  /** The lazy first group, tried from end a upwards. */
  function FullFrom(t: string, a: nat): (r: Option<FullSpan>)
    requires 0 < a
    ensures r.Some? ==> a <= r.value.a && FirstFull(t, a, r.value)
    ensures r.None? ==> forall a': nat, c': nat, d': nat | a <= a' :: !FullCandidate(t, a', c', d')
    decreases |t| + 1 - a
  {
    if a > |t| || !Dots(t, 0, a) then
      NoDotsBeyond(t, a);
      None
    else if DashAfter(t, a).None? then
      SkipStart(t, a, FullFrom(t, a + 1));
      FullFrom(t, a + 1)
    else
      var b := DashAfter(t, a).value;
      var top := b + 1 + SpaceRun(t, b + 1);
      NoCandidateAbove(t, a, b);
      match SecondStart(t, a, b, top)
      case Some((c, d)) => Some(FullSpan(a, c, d))
      case None =>
        SkipStart(t, a, FullFrom(t, a + 1));
        FullFrom(t, a + 1)
  }

  /** No second group starts beyond the greedy run after the dash. */
  lemma NoCandidateAbove(t: string, a: nat, b: nat)
    requires 0 < a <= |t| && DashAfter(t, a) == Some(b)
    ensures forall c': nat, d': nat | b + 1 + SpaceRun(t, b + 1) < c' :: !FullCandidate(t, a, c', d')
  {
  }

  /** A start with no match does not change the search's outcome. */
  lemma SkipStart(t: string, a: nat, r: Option<FullSpan>)
    requires forall c': nat, d': nat :: !FullCandidate(t, a, c', d')
    requires r.Some? ==> a + 1 <= r.value.a && FirstFull(t, a + 1, r.value)
    requires r.None? ==> forall a': nat, c': nat, d': nat | a + 1 <= a' :: !FullCandidate(t, a', c', d')
    ensures r.Some? ==> a <= r.value.a && FirstFull(t, a, r.value)
    ensures r.None? ==> forall a': nat, c': nat, d': nat | a <= a' :: !FullCandidate(t, a', c', d')
  {
  }

  lemma NoDotsBeyond(t: string, a: nat)
    requires a <= |t| ==> !Dots(t, 0, a)
    ensures forall a' | a <= a' <= |t| :: !Dots(t, 0, a')
  {
  }

  /** `reFull.FindStringSubmatch`: the one match of the anchored pattern
      that RE2's choices select. */
  function FullMatch(t: string): (r: Option<FullSpan>)
    ensures r.Some? ==> FirstFull(t, 1, r.value)
    ensures r.None? ==> forall a: nat, c: nat, d: nat :: !FullCandidate(t, a, c, d)
  {
    FullFrom(t, 1)
  }

  // ---------------------------------------------------------------------
  // The simple pattern

  predicate SimpleCandidate(t: string, d: nat) {
    0 < d <= |t| && Dots(t, 0, d) && TailOf(t[d..]).TailYear?
  }

  /** `reSimple.FindStringSubmatch`: the end of the lazy group, the first
      from d on. */
  function SimpleFrom(t: string, d: nat): (r: Option<nat>)
    requires 0 < d
    ensures r.Some? ==> d <= r.value && SimpleCandidate(t, r.value)
    ensures r.Some? ==> forall e: nat | d <= e < r.value :: !SimpleCandidate(t, e)
    ensures r.None? ==> forall e: nat | d <= e :: !SimpleCandidate(t, e)
  {
    if d > |t| then None
    else
      var hits := seq(|t| + 1, e requires 0 <= e <= |t| => SimpleCandidate(t, e));
      assert forall e | 0 <= e <= |t| :: hits[e] == SimpleCandidate(t, e);
      FirstHit(hits, d)
  }

  function SimpleMatch(t: string): (r: Option<nat>)
    ensures r.Some? ==> SimpleCandidate(t, r.value) && forall e: nat | e < r.value :: !SimpleCandidate(t, e)
    ensures r.None? ==> forall e: nat :: !SimpleCandidate(t, e)
  {
    SimpleFrom(t, 1)
  }

  // ---------------------------------------------------------------------
  // The fallback

  datatype DirInfo = DirInfo(artist: string, title: string, year: string)

  /** `parseArtistTitleYearFromDir`: the full pattern's trimmed groups; else
      the simple pattern's trimmed title under "Unknown Artist"; else the
      name itself as the title. */
  function ParseDirName(name: string): DirInfo {
    match FullMatch(name)
    case Some(m) =>
      DirInfo(TrimSpace(name[..m.a]), TrimSpace(name[m.c..m.d]), TailOf(name[m.d..]).year)
    case None =>
      match SimpleMatch(name)
      case Some(d) => DirInfo(UnknownArtist, TrimSpace(name[..d]), TailOf(name[d..]).year)
      case None => DirInfo(UnknownArtist, name, "")
  }

  // ---------------------------------------------------------------------
  // Properties

  /** The year is either absent or four ASCII digits. */
  lemma YearShape(name: string)
    ensures var y := ParseDirName(name).year; y == "" || (|y| == 4 && AllDigits(y))
  {
  }

  /** A name without a dash never matches the full pattern, so the artist
      is "Unknown Artist". */
  lemma NoDashUnknownArtist(name: string)
    requires forall k | 0 <= k < |name| :: name[k] != '-'
    ensures FullMatch(name).None?
    ensures ParseDirName(name).artist == UnknownArtist
  {
    forall a: nat, c: nat, d: nat
      ensures !FullCandidate(name, a, c, d)
    {
    }
  }

  /** The simple pattern matches every non-empty name without a newline
      (its lazy group can always run to the end), so the last resort is
      reached exactly for the empty name. */
  lemma SimpleMatchesUnlessEmpty(name: string)
    requires Dots(name, 0, |name|)
    ensures SimpleMatch(name).None? <==> name == ""
  {
    if name != "" {
      assert name[|name|..] == "";
      assert SimpleCandidate(name, |name|);
    }
  }

  lemma EmptyName()
    ensures ParseDirName("") == DirInfo(UnknownArtist, "", "")
  {
    SimpleMatchesUnlessEmpty("");
  }


  /** An artist part fit for the full pattern's lazy first group: no dash
      and no white space, so the first dash of the name follows it. */
  predicate ArtistWord(a: string) {
    |a| > 0 && NoRune(a, '-') && forall k | 0 <= k < |a| :: !IsSpace(a[k])
  }

  /** The selected match is the first candidate in RE2's order: the
      shortest first group, then the latest second-group start, then the
      shortest second group. */
  lemma FullMatchIs(t: string, m: FullSpan)
    requires FullCandidate(t, m.a, m.c, m.d)
    requires NoEarlierStart(t, m.a) && NoLaterSecond(t, m.a, m.c) && NoShorterSecond(t, m.a, m.c, m.d)
    ensures FullMatch(t) == Some(m)
  {
    var r := FullMatch(t).value;
    SameStart(t, m, r);
    SameSecondStart(t, m, r);
    SameSecondEnd(t, m, r);
  }

  ghost predicate NoEarlierStart(t: string, a: nat) {
    forall a': nat, c': nat, d': nat | a' < a :: !FullCandidate(t, a', c', d')
  }

  ghost predicate NoLaterSecond(t: string, a: nat, c: nat) {
    forall c': nat, d': nat | c < c' :: !FullCandidate(t, a, c', d')
  }

  ghost predicate NoShorterSecond(t: string, a: nat, c: nat, d: nat) {
    forall d': nat | d' < d :: !FullCandidate(t, a, c, d')
  }

  lemma SameStart(t: string, m: FullSpan, r: FullSpan)
    requires FullCandidate(t, m.a, m.c, m.d)
    requires forall a': nat, c': nat, d': nat | a' < m.a :: !FullCandidate(t, a', c', d')
    requires FirstFull(t, 1, r)
    ensures r.a == m.a
  {
  }

  lemma SameSecondStart(t: string, m: FullSpan, r: FullSpan)
    requires FullCandidate(t, m.a, m.c, m.d) && r.a == m.a
    requires forall c': nat, d': nat | m.c < c' :: !FullCandidate(t, m.a, c', d')
    requires FirstFull(t, 1, r)
    ensures r.c == m.c
  {
  }

  lemma SameSecondEnd(t: string, m: FullSpan, r: FullSpan)
    requires FullCandidate(t, m.a, m.c, m.d) && r.a == m.a && r.c == m.c
    requires forall d': nat | d' < m.d :: !FullCandidate(t, m.a, m.c, d')
    requires FirstFull(t, 1, r)
    ensures r == m
  {
  }

  /** A title part fit for the examples: it neither starts nor ends with
      white space and holds no newline. */
  predicate PlainTitle(title: string) {
    |title| > 0 && !IsSpace(title[0]) && !IsSpace(title[|title| - 1]) && Dots(title, 0, |title|)
  }

  /** No tail of the pattern starts strictly inside the title. */
  ghost predicate NoInnerTail(title: string, suffix: string) {
    forall e: nat | 0 < e < |title| :: InnerTail(title, suffix, e).NoTail?
  }

  /** The tail read from inside the title at e on. */
  function InnerTail(title: string, suffix: string, e: nat): Tail
    requires e <= |title|
  {
    TailOf(title[e..] + suffix)
  }

  /** A name of the form "<artist> - <title><suffix>". */
  function DashName(artist: string, title: string, suffix: string): string {
    artist + " - " + (title + suffix)
  }

  /** The pieces of such a name, as slices of it. */
  ghost predicate DashShaped(t: string, artist: string, title: string, suffix: string) {
    && |t| == |artist| + 3 + |title| + |suffix|
    && t[..|artist|] == artist
    && t[|artist|] == ' ' && t[|artist| + 1] == '-' && t[|artist| + 2] == ' '
    && t[|artist| + 3..|artist| + 3 + |title|] == title
    && t[|artist| + 3 + |title|..] == suffix
  }

  lemma DashNameShaped(artist: string, title: string, suffix: string)
    ensures DashShaped(DashName(artist, title, suffix), artist, title, suffix)
  {
  }

  /** The first group of the full pattern ends right after a dash-free,
      space-free artist, and the greedy `\s*` after the dash takes exactly
      one space when the title starts with a non-space. */
  lemma DashAt(t: string, artist: string, title: string, suffix: string)
    requires DashShaped(t, artist, title, suffix) && ArtistWord(artist) && PlainTitle(title)
    ensures DashAfter(t, |artist|) == Some(|artist| + 1)
    ensures SpaceRun(t, |artist| + 2) == 1
    ensures Dots(t, 0, |artist|)
    ensures forall a' | 0 < a' < |artist| :: DashAfter(t, a').None?
  {
    var n := |artist|;
    assert forall k | 0 <= k < n :: t[k] == artist[k] by {
      forall k | 0 <= k < n ensures t[k] == artist[k] { assert t[..n][k] == t[k]; }
    }
    assert SpaceRun(t, n + 1) == 0;
    assert SpaceRun(t, n) == 1;
    assert t[n + 3] == title[0] by { assert t[n + 3..n + 3 + |title|][0] == t[n + 3]; }
    Re2SpaceIsSpace(title[0]);
    assert SpaceRun(t, n + 3) == 0;
    forall a' | 0 < a' < n
      ensures DashAfter(t, a').None?
    {
      Re2SpaceIsSpace(artist[a']);
      assert SpaceRun(t, a') == 0;
    }
  }

  /** The title's runes are runes of the name. */
  lemma TitleAt(t: string, artist: string, title: string, suffix: string)
    requires DashShaped(t, artist, title, suffix)
    ensures forall k | 0 <= k < |title| :: t[|artist| + 3 + k] == title[k]
  {
    var c := |artist| + 3;
    forall k | 0 <= k < |title| ensures t[c + k] == title[k] {
      assert t[c..c + |title|][k] == t[c + k];
    }
  }

  lemma DashCandidate(t: string, artist: string, title: string, suffix: string, a: nat, c: nat, d: nat)
    requires a == |artist| && c == a + 3 && d == c + |title|
    requires DashShaped(t, artist, title, suffix)
    requires ArtistWord(artist) && PlainTitle(title) && TailOf(suffix).TailYear?
    ensures FullCandidate(t, a, c, d)
  {
    DashAt(t, artist, title, suffix);
    TitleAt(t, artist, title, suffix);
    assert Dots(t, c, d) by {
      forall k | c <= k < d ensures t[k] != '\n' { assert t[c + (k - c)] == title[k - c]; }
    }
  }

  lemma DashFirstGroup(t: string, artist: string, title: string, suffix: string, a: nat, c: nat)
    requires a == |artist| && c == a + 3
    requires DashShaped(t, artist, title, suffix) && ArtistWord(artist) && PlainTitle(title)
    ensures NoEarlierStart(t, a)
    ensures NoLaterSecond(t, a, c)
  {
    DashAt(t, artist, title, suffix);
    NoCandidateAbove(t, |artist|, |artist| + 1);
  }

  lemma DashShortest(t: string, artist: string, title: string, suffix: string, a: nat, c: nat, d: nat)
    requires a == |artist| && c == a + 3 && d == c + |title|
    requires DashShaped(t, artist, title, suffix)
    requires ArtistWord(artist) && PlainTitle(title) && NoInnerTail(title, suffix)
    ensures NoShorterSecond(t, a, c, d)
  {
    forall e: nat | c < e < d
      ensures TailOf(t[e..]).NoTail?
    {
      InnerSlice(t, c, d, e);
      assert t[e..] == title[e - c..] + suffix;
      assert InnerTail(title, suffix, e - c).NoTail?;
    }
  }

  /** A slice from inside t[c..d] on is the rest of t[c..d] and then t[d..]. */
  lemma InnerSlice(t: string, c: nat, d: nat, e: nat)
    requires c <= e <= d <= |t|
    ensures t[e..] == t[c..d][e - c..] + t[d..]
  {
  }

  /** The full pattern takes the artist, the dash and the title exactly. */
  lemma DashMatch(t: string, artist: string, title: string, suffix: string, a: nat, c: nat, d: nat)
    requires a == |artist| && c == a + 3 && d == c + |title|
    requires DashShaped(t, artist, title, suffix)
    requires ArtistWord(artist) && PlainTitle(title) && TailOf(suffix).TailYear? && NoInnerTail(title, suffix)
    ensures FullMatch(t) == Some(FullSpan(a, c, d))
  {
    DashShortest(t, artist, title, suffix, a, c, d);
    DashFirstGroup(t, artist, title, suffix, a, c);
    DashCandidate(t, artist, title, suffix, a, c, d);
    FullMatchAt(t, a, c, d);
  }

  /** `FullMatchIs` for the span's bounds given one by one. */
  lemma FullMatchAt(t: string, a: nat, c: nat, d: nat)
    requires FullCandidate(t, a, c, d)
    requires NoEarlierStart(t, a) && NoLaterSecond(t, a, c) && NoShorterSecond(t, a, c, d)
    ensures FullMatch(t) == Some(FullSpan(a, c, d))
  {
    FullMatchIs(t, FullSpan(a, c, d));
  }

  /** "<artist> - <title><suffix>" reads as the artist, the title and the
      suffix's year, whenever the suffix is a tail of the pattern and no
      tail starts inside the title. */
  lemma DashFields(t: string, artist: string, title: string, suffix: string)
    requires DashShaped(t, artist, title, suffix)
    requires ArtistWord(artist) && PlainTitle(title) && TailOf(suffix).TailYear? && NoInnerTail(title, suffix)
    ensures ParseDirName(t) == DirInfo(artist, title, TailOf(suffix).year)
  {
    DashSpanFields(t, artist, title, suffix, |artist|, |artist| + 3, |artist| + 3 + |title|);
  }

  lemma DashSpanFields(t: string, artist: string, title: string, suffix: string, a: nat, c: nat, d: nat)
    requires a == |artist| && c == a + 3 && d == c + |title|
    requires DashShaped(t, artist, title, suffix)
    requires ArtistWord(artist) && PlainTitle(title) && TailOf(suffix).TailYear? && NoInnerTail(title, suffix)
    ensures ParseDirName(t) == DirInfo(artist, title, TailOf(suffix).year)
  {
    DashMatch(t, artist, title, suffix, a, c, d);
    DashRead(t, FullSpan(a, c, d), artist, title, suffix);
  }

  lemma DashRead(t: string, m: FullSpan, artist: string, title: string, suffix: string)
    requires FullMatch(t) == Some(m)
    requires m.a == |artist| && m.c == m.a + 3 && m.d == m.c + |title|
    requires DashShaped(t, artist, title, suffix) && ArtistWord(artist) && PlainTitle(title)
    requires TailOf(suffix).TailYear?
    ensures ParseDirName(t) == DirInfo(artist, title, TailOf(suffix).year)
  {
    TrimSpaceOfTrimmed(artist);
    TrimSpaceOfTrimmed(title);
    ParseSpan(t, m.a, m.c, m.d, artist, title, suffix);
  }

  lemma ParseSpan(t: string, a: nat, c: nat, d: nat, artist: string, title: string, suffix: string)
    requires FullMatch(t) == Some(FullSpan(a, c, d))
    requires t[..a] == artist && TrimSpace(artist) == artist
    requires t[c..d] == title && TrimSpace(title) == title
    requires t[d..] == suffix
    ensures ParseDirName(t) == DirInfo(artist, title, TailOf(suffix).year)
  {
    ParseFull(t, FullSpan(a, c, d));
  }

  lemma ParseFull(t: string, m: FullSpan)
    requires FullMatch(t) == Some(m)
    ensures ParseDirName(t) == DirInfo(TrimSpace(t[..m.a]), TrimSpace(t[m.c..m.d]), TailOf(t[m.d..]).year)
  {
  }

  /** "Artist - Title (1999) WAV+CUE": artist, title and year, when the
      title holds no digit and no opening bracket. */
  lemma YearInBrackets(artist: string, title: string, year: string)
    requires ArtistWord(artist) && PlainTitle(title)
    requires forall k | 0 <= k < |title| :: !IsDigit(title[k]) && title[k] != '('
    requires |year| == 4 && AllDigits(year)
    ensures ParseDirName(artist + " - " + title + " (" + year + ") WAV+CUE") == DirInfo(artist, title, year)
  {
    var suffix := YearSuffix(year);
    assert artist + " - " + title + " (" + year + ") WAV+CUE" == DashName(artist, title, suffix);
    BracketedTail(year);
    BracketInner(title, year);
    DashNameShaped(artist, title, suffix);
    DashFields(DashName(artist, title, suffix), artist, title, suffix);
  }

  lemma BracketInner(title: string, year: string)
    requires PlainTitle(title)
    requires forall k | 0 <= k < |title| :: !IsDigit(title[k]) && title[k] != '('
    ensures NoInnerTail(title, YearSuffix(year))
  {
    forall e: nat | 0 < e < |title|
      ensures InnerTail(title, YearSuffix(year), e).NoTail?
    {
      TitleRestNoTail(title, e, year);
    }
  }

  /** A rune that ends a title which the year part cannot end in. */
  predicate PlainEnd(c: char) {
    !IsSpace(c) && !IsDigit(c) && c != '(' && c != ')'
  }

  /** "劉德華 - 笨小孩 1993-1998 國語精選 WAV+CUE": a title with digits
      inside but not at its end keeps them all, and there is no year. */
  lemma MarkerWithoutYear(artist: string, title: string)
    requires ArtistWord(artist) && PlainTitle(title) && PlainEnd(title[|title| - 1])
    ensures ParseDirName(artist + " - " + title + " WAV+CUE") == DirInfo(artist, title, "")
  {
    var suffix := " WAV+CUE";
    assert artist + " - " + title + " WAV+CUE" == DashName(artist, title, suffix);
    MarkerTail();
    MarkerInner(title);
    DashNameShaped(artist, title, suffix);
    DashFields(DashName(artist, title, suffix), artist, title, suffix);
  }

  lemma MarkerInner(title: string)
    requires PlainTitle(title) && PlainEnd(title[|title| - 1])
    ensures NoInnerTail(title, " WAV+CUE")
  {
    forall e: nat | 0 < e < |title|
      ensures InnerTail(title, " WAV+CUE", e).NoTail?
    {
      InnerNoTail(title[e..], " WAV+CUE");
    }
  }

  lemma MarkerTail()
    ensures TailOf(" WAV+CUE") == TailYear("")
  {
    var u := " WAV+CUE";
    assert SpaceRun(u, 0) == 1;
  }

  /** Text ending in a rune the year part cannot end in, followed by a tail
      of at least seven runes, is no tail itself. */
  lemma InnerNoTail(r: string, suffix: string)
    requires |r| > 0 && PlainEnd(r[|r| - 1]) && |suffix| >= 7
    ensures TailOf(r + suffix).NoTail?
  {
    var u := r + suffix;
    var last := |r| - 1;
    Re2SpaceIsSpace(u[last]);
    NotWavCue(r, suffix);
    var w := SpaceRun(u, 0);
    assert w <= last;
    var j := if w < |u| && u[w] == '(' then w + 1 else w;
    assert j <= last;
    match YearPart(u)
    case None =>
    case Some((n, y)) =>
      assert AllDigits(u[j..j + 4]);
      forall k | j <= k < j + 4
        ensures IsDigit(u[k])
      {
        assert u[k] == u[j..j + 4][k - j];
      }
      assert j + 4 <= last;
      assert n <= last;
      assert u[n..] == r[n..] + suffix;
      NotWavCue(r[n..], suffix);
  }

  lemma NotWavCue(x: string, suffix: string)
    requires |x| > 0 && !IsSpace(x[|x| - 1]) && |suffix| >= 7
    ensures !WavCue(x + suffix)
  {
    var u := x + suffix;
    Re2SpaceIsSpace(u[|x| - 1]);
  }

  /** The bracketed year and the marker that follow the title. */
  function YearSuffix(year: string): string {
    " (" + year + ") WAV+CUE"
  }

  lemma BracketedTail(year: string)
    requires |year| == 4 && AllDigits(year)
    ensures TailOf(YearSuffix(year)) == TailYear(year)
  {
    var u := YearSuffix(year);
    assert SpaceRun(u, 0) == 1;
    assert u[2..6] == year;
    assert u[7..] == " WAV+CUE";
    assert SpaceRun(u[7..], 0) == 1;
  }

  /** A tail that starts inside such a title is no match: its first
      non-space rune is neither a digit nor a bracket. */
  lemma TitleRestNoTail(title: string, e: nat, year: string)
    requires e < |title| && !IsSpace(title[|title| - 1])
    requires forall k | 0 <= k < |title| :: !IsDigit(title[k]) && title[k] != '('
    ensures TailOf(title[e..] + YearSuffix(year)).NoTail?
  {
    var r := title[e..];
    assert forall k | 0 <= k < |r| :: r[k] == title[e + k];
    var u := r + YearSuffix(year);
    var w := SpaceRun(u, 0);
    Re2SpaceIsSpace(u[|r| - 1]);
    assert w < |r|;
    assert YearPart(u).None?;
  }

  lemma ExampleWithYear(name: string)
    requires name == "Artist - Title (1999) WAV+CUE"
    ensures ParseDirName(name) == DirInfo("Artist", "Title", "1999")
  {
    WithYearParts("Artist", "Title", "1999");
    YearInBrackets("Artist", "Title", "1999");
  }

  lemma WithYearParts(artist: string, title: string, year: string)
    requires artist == "Artist" && title == "Title" && year == "1999"
    ensures artist + " - " + title + " (" + year + ") WAV+CUE" == "Artist - Title (1999) WAV+CUE"
    ensures ArtistWord(artist) && PlainTitle(title) && |year| == 4 && AllDigits(year)
    ensures forall k | 0 <= k < |title| :: !IsDigit(title[k]) && title[k] != '('
  {
    assert ArtistWord(artist) && PlainTitle(title);
  }

  lemma ExampleWithoutYear(name: string)
    requires name == "劉德華 - 笨小孩 1993-1998 國語精選 WAV+CUE"
    ensures ParseDirName(name) == DirInfo("劉德華", "笨小孩 1993-1998 國語精選", "")
  {
    WithoutYearParts("劉德華", "笨小孩 1993-1998 國語精選");
    MarkerWithoutYear("劉德華", "笨小孩 1993-1998 國語精選");
  }

  lemma WithoutYearParts(artist: string, title: string)
    requires artist == "劉德華" && title == "笨小孩 1993-1998 國語精選"
    ensures artist + " - " + title + " WAV+CUE" == "劉德華 - 笨小孩 1993-1998 國語精選 WAV+CUE"
    ensures ArtistWord(artist) && PlainTitle(title) && PlainEnd(title[|title| - 1])
  {
    assert ArtistWord(artist);
    assert PlainTitle(title);
  }
}
