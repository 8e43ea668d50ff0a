/** The duet split of `processCueFile` (parser.go). A track title such as
    "笨小孩 （与柯受良合唱）" names a guest singer. The title is first tested
    for the substrings " （与" and " (与"; only then is the pattern
    `(.+)[ （](?:与|feat\.)(.+)[）)]` searched for. On a match the title
    becomes the trimmed first group, and the track artist becomes the album
    artist, ", " and the converted second group. */
module GuestSplit {
  import opened Wrappers
  import opened Runes

  predicate Opener(c: char) {
    c == ' ' || c == '（'
  }

  predicate Closer(c: char) {
    c == '）' || c == ')'
  }

  /** `[ （](?:与|feat\.)` at position p, giving where the second group
      starts; the two alternatives cannot both match at one position. */
  function ConnectorEnd(t: string, p: nat): (r: Option<nat>)
    ensures r.Some? ==> p < |t| && Opener(t[p]) && p + 2 <= r.value <= |t|
    ensures r.Some? <==> p < |t| && Opener(t[p]) && (PrefixAt(t, p + 1, "与") || PrefixAt(t, p + 1, "feat."))
  {
    if p < |t| && Opener(t[p]) && PrefixAt(t, p + 1, "与") then Some(p + 2)
    else if p < |t| && Opener(t[p]) && PrefixAt(t, p + 1, "feat.") then Some(p + 6)
    else None
  }

  /** `(.+)[）)]` from j with the closing bracket at e. */
  predicate SecondGroup(t: string, j: nat, e: nat) {
    j < e < |t| && Dots(t, j, e) && Closer(t[e])
  }

  /** A match of the whole pattern starting at i, whose first group ends at
      e1 and whose second group ends at e2. */
  predicate Candidate(t: string, i: nat, e1: nat, e2: nat) {
    && i < e1 < |t|
    && Dots(t, i, e1)
    && ConnectorEnd(t, e1).Some?
    && SecondGroup(t, ConnectorEnd(t, e1).value, e2)
  }

  /** The greedy second group: the last closing bracket at or below k that
      is reachable from j without a newline. */
  function CloseFrom(t: string, j: nat, k: int): (r: Option<nat>)
    requires k < |t|
    ensures r.Some? ==> j < r.value <= k && SecondGroup(t, j, r.value)
    ensures r.Some? ==> forall e | r.value < e <= k :: !SecondGroup(t, j, e)
    ensures r.None? ==> forall e | j < e <= k :: !SecondGroup(t, j, e)
    decreases k
  {
    if k <= j then None
    else if SecondGroup(t, j, k) then Some(k)
    else CloseFrom(t, j, k - 1)
  }

  /** Whether some second group follows a connector ending at j. */
  function Tail(t: string, j: nat): (r: Option<nat>)
    ensures r.Some? ==> SecondGroup(t, j, r.value) && forall e | r.value < e :: !SecondGroup(t, j, e)
    ensures r.None? ==> forall e :: !SecondGroup(t, j, e)
  {
    CloseFrom(t, j, |t| - 1)
  }

  predicate FirstGroupEnd(t: string, i: nat, e1: nat) {
    i < e1 < |t| && Dots(t, i, e1) && ConnectorEnd(t, e1).Some? && Tail(t, ConnectorEnd(t, e1).value).Some?
  }

  lemma CandidatesEnd(t: string, i: nat)
    ensures forall e1, e2 :: Candidate(t, i, e1, e2) ==> FirstGroupEnd(t, i, e1)
  {
  }

  /** The greedy first group from i: the largest end at or below k. */
  function GroupFrom(t: string, i: nat, k: int): (r: Option<nat>)
    requires k < |t|
    ensures r.Some? ==> i < r.value <= k && FirstGroupEnd(t, i, r.value)
    ensures r.Some? ==> forall e | r.value < e <= k :: !FirstGroupEnd(t, i, e)
    ensures r.None? ==> forall e | i < e <= k :: !FirstGroupEnd(t, i, e)
    decreases k
  {
    if k <= i then None
    else if FirstGroupEnd(t, i, k) then Some(k)
    else GroupFrom(t, i, k - 1)
  }

  /** Positions of a match: its start, the ends of both groups, and where
      the second group begins. */
  datatype Span = Span(start: nat, end1: nat, start2: nat, end2: nat)

  ghost predicate LeftmostFrom(t: string, i: nat, m: Span) {
    && Candidate(t, m.start, m.end1, m.end2)
    && m.start2 == ConnectorEnd(t, m.end1).value
    && (forall s, e1, e2 | i <= s < m.start :: !Candidate(t, s, e1, e2))
    && (forall e1, e2 | m.end1 < e1 :: !Candidate(t, m.start, e1, e2))
    && (forall e2 | m.end2 < e2 :: !Candidate(t, m.start, m.end1, e2))
  }

  /** The leftmost-first search from start position i onwards. */
  function FindFrom(t: string, i: nat): (r: Option<Span>)
    ensures r.Some? ==> i <= r.value.start && LeftmostFrom(t, i, r.value)
    ensures r.None? ==> forall s, e1, e2 | i <= s :: !Candidate(t, s, e1, e2)
    decreases |t| - i
  {
    if i >= |t| then None
    else
      match GroupFrom(t, i, |t| - 1)
      case Some(e1) =>
        var j := ConnectorEnd(t, e1).value;
        var e2 := Tail(t, j).value;
        FoundAt(t, i, e1, j, e2);
        Some(Span(i, e1, j, e2))
      case None =>
        NoneAt(t, i);
        var r := FindFrom(t, i + 1);
        SkipFrom(t, i, r);
        r
  }

  /** The greedy groups from start i make the leftmost match from i. */
  lemma FoundAt(t: string, i: nat, e1: nat, j: nat, e2: nat)
    requires i < |t| && GroupFrom(t, i, |t| - 1) == Some(e1)
    requires ConnectorEnd(t, e1) == Some(j) && Tail(t, j) == Some(e2)
    ensures LeftmostFrom(t, i, Span(i, e1, j, e2))
  {
    CandidatesEnd(t, i);
  }

  /** No first group from i means no match starts at i. */
  lemma NoneAt(t: string, i: nat)
    requires i < |t| && GroupFrom(t, i, |t| - 1).None?
    ensures forall e1, e2 :: !Candidate(t, i, e1, e2)
  {
    CandidatesEnd(t, i);
  }

  /** A start with no match does not change the search's outcome. */
  lemma SkipFrom(t: string, i: nat, r: Option<Span>)
    requires forall e1, e2 :: !Candidate(t, i, e1, e2)
    requires r.Some? ==> i + 1 <= r.value.start && LeftmostFrom(t, i + 1, r.value)
    requires r.None? ==> forall s, e1, e2 | i + 1 <= s :: !Candidate(t, s, e1, e2)
    ensures r.Some? ==> i <= r.value.start && LeftmostFrom(t, i, r.value)
    ensures r.None? ==> forall s, e1, e2 | i <= s :: !Candidate(t, s, e1, e2)
  {
  }

  /** `regexp.FindStringSubmatch` of the duet pattern: the span of the
      leftmost match, with both groups as long as they can be. */
  function Find(t: string): (r: Option<Span>)
    ensures r.Some? ==> LeftmostFrom(t, 0, r.value)
    ensures r.None? ==> forall s, e1, e2 :: !Candidate(t, s, e1, e2)
  {
    FindFrom(t, 0)
  }

  /** The title test that guards the search. */
  predicate Guard(title: string) {
    Contains(title, " （与") || Contains(title, " (与")
  }

  /** A track's title and performing artist. */
  datatype Credit = Credit(title: string, artist: string)

  /** The credit of a track whose (converted) cue title is `title`; `t2s`
      is the traditional-to-simplified conversion. */
  function SplitGuest(title: string, albumArtist: string, t2s: string -> string): Credit {
    if Guard(title) then
      match Find(title)
      case Some(m) =>
        Credit(TrimSpace(title[m.start..m.end1]), albumArtist + ", " + t2s(title[m.start2..m.end2]))
      case None => Credit(title, albumArtist)
    else Credit(title, albumArtist)
  }

  /** The credit changes exactly when the guard holds and the pattern
      matches somewhere; otherwise title and artist are left as they are. */
  lemma SplitGuestIff(title: string, albumArtist: string, t2s: string -> string)
    ensures SplitGuest(title, albumArtist, t2s).artist != albumArtist
        <==> Guard(title) && exists s, e1, e2 :: Candidate(title, s, e1, e2)
    ensures SplitGuest(title, albumArtist, t2s).artist == albumArtist
        ==> SplitGuest(title, albumArtist, t2s) == Credit(title, albumArtist)
  {
    var c := SplitGuest(title, albumArtist, t2s);
    if Guard(title) && Find(title).Some? {
      assert |c.artist| > |albumArtist|;
    }
  }

  /** On a title without newlines every match starts at the first rune, so
      the new title is a trimmed prefix of the old one. */
  lemma MatchStartsAtFront(t: string)
    requires forall k | 0 <= k < |t| :: t[k] != '\n'
    requires Find(t).Some?
    ensures Find(t).value.start == 0
  {
    var m := Find(t).value;
    assert Candidate(t, 0, m.end1, m.end2);
  }


  /** Text lacking the first rune of `sub` does not contain `sub`. */
  lemma LacksHead(s: string, sub: string)
    requires |sub| > 0 && NoRune(s, sub[0])
    ensures !Contains(s, sub)
  {
  }

  /** A title with no space at all fails the guard: "A（与B）" keeps its
      title and the album artist. */
  lemma UnspacedNotSplit(title: string, albumArtist: string, t2s: string -> string)
    requires NoRune(title, ' ')
    ensures SplitGuest(title, albumArtist, t2s) == Credit(title, albumArtist)
  {
    LacksHead(title, " （与");
    LacksHead(title, " (与");
  }

  lemma TrimOneSpace(a: string)
    requires |a| > 0 && !IsSpace(a[0]) && !IsSpace(a[|a| - 1])
    ensures TrimSpace(a + " ") == a
  {
    var s := a + " ";
    assert LeadingSpace(s) == 0;
    assert s[..|s| - 1] == a;
    assert TrailingSpace(a) == 0;
    assert TrailingSpace(s) == 1;
  }

  predicate DuetParts(a: string, b: string) {
    NoRune(a, '\n') && NoRune(b, '\n') && |b| > 0 && NoRune(b, ' ') && NoRune(b, '（')
  }

  lemma DuetGuard(a: string, b: string)
    ensures Guard(a + " （与" + b + "）")
  {
    var t := a + " （与" + b + "）";
    assert PrefixAt(t, |a|, " （与");
  }

  /** In "A （与B）" the first group is "A " (the full-width bracket is the
      last opener followed by 与) and the second group runs to the final
      bracket. */
  lemma DuetFind(a: string, b: string)
    requires DuetParts(a, b)
    ensures Find(a + " （与" + b + "）") == Some(Span(0, |a| + 1, |a| + 3, |a| + 3 + |b|))
  {
    var t := a + " （与" + b + "）";
    var e1 := |a| + 1;
    var j := |a| + 3;
    var e2 := |t| - 1;
    assert t[e1] == '（' && t[e1 + 1..e1 + 2] == "与";
    assert ConnectorEnd(t, e1) == Some(j);
    assert SecondGroup(t, j, e2);
    assert Candidate(t, 0, e1, e2);
    var m := Find(t).value;
    MatchStartsAtFront(t);
    forall e | e1 < e < |t|
      ensures ConnectorEnd(t, e).None?
    {
      if j <= e < e2 { assert t[e] == b[e - j]; }
    }
    assert m.end1 == e1;
  }

  /** The full-width form "A （与B）" splits into the title A and the artist
      "<album artist>, B". */
  lemma FullWidthDuet(a: string, b: string, albumArtist: string, t2s: string -> string)
    requires |a| > 0 && !IsSpace(a[0]) && !IsSpace(a[|a| - 1])
    requires DuetParts(a, b)
    ensures SplitGuest(a + " （与" + b + "）", albumArtist, t2s) == Credit(a, albumArtist + ", " + t2s(b))
  {
    var t := a + " （与" + b + "）";
    DuetGuard(a, b);
    DuetFind(a, b);
    assert t[0..|a| + 1] == a + " ";
    assert t[|a| + 3..|a| + 3 + |b|] == b;
    TrimOneSpace(a);
  }

  /** The ASCII form "A (与B)" passes the guard, but the pattern's opening
      class holds only the space and the full-width bracket, so no match
      exists and the title is kept whole. */
  lemma AsciiDuetNotSplit(a: string, b: string, albumArtist: string, t2s: string -> string)
    requires NoRune(a, ' ') && NoRune(a, '（') && NoRune(b, ' ') && NoRune(b, '（')
    ensures Guard(a + " (与" + b + ")")
    ensures SplitGuest(a + " (与" + b + ")", albumArtist, t2s) == Credit(a + " (与" + b + ")", albumArtist)
  {
    var t := a + " (与" + b + ")";
    assert PrefixAt(t, |a|, " (与");
    forall s: nat, e1: nat, e2: nat
      ensures !Candidate(t, s, e1, e2)
    {
      if e1 < |t| && Opener(t[e1]) {
        assert e1 == |a|;
        assert t[e1 + 1] == '(';
      }
    }
  }
}
