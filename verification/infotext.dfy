/** `parseInfoContent` (scanner.go and pkg/scanner/scanner.go, the same in
    both): the album title, year and artist read from the text of an
    Info.txt by three patterns,

      title:  (?i)专辑名称：\s*(.+)
      year:   (?i)出版日期：\s*(\d{4})年
      artist: ^(.+)《

    each written here as an explicit leftmost-first search. The `(?i)` flag
    changes nothing: no rune of either label has another case. */
module InfoText {
  import opened Wrappers
  import opened Runes
  import opened Decimal
  import opened AlbumModel

  const TitleLabel: string := "专辑名称："
  const DateLabel: string := "出版日期："
  const UnknownArtist: string := "Unknown Artist"

  /** Where the line holding position g ends: the first newline at or after
      g, or the end of the text. */
  function LineEnd(t: string, g: nat): (e: nat)
    requires g <= |t|
    ensures g <= e <= |t| && Dots(t, g, e)
    ensures e < |t| ==> t[e] == '\n'
    decreases |t| - g
  {
    if g == |t| || t[g] == '\n' then g else LineEnd(t, g + 1)
  }

  // ---------------------------------------------------------------------
  // Title

  /** A title match with the label at p and the group starting at g: the
      greedy `\s*` ends at g, and `.+` needs one rune that is not a newline. */
  predicate TitleCandidate(t: string, p: nat, g: nat) {
    && PrefixAt(t, p, TitleLabel)
    && p + 5 <= g <= p + 5 + SpaceRun(t, p + 5)
    && g < |t| && t[g] != '\n'
  }

  /** The greedy `\s*`: the latest group start at or below g. */
  function TitleGroupFrom(t: string, p: nat, g: int): (r: Option<nat>)
    requires PrefixAt(t, p, TitleLabel) && g <= p + 5 + SpaceRun(t, p + 5)
    ensures r.Some? ==> r.value <= g && TitleCandidate(t, p, r.value)
    ensures r.Some? ==> forall g': nat | r.value < g' <= g :: !TitleCandidate(t, p, g')
    ensures r.None? ==> forall g': nat | g' <= g :: !TitleCandidate(t, p, g')
    decreases g
  {
    if g < p + 5 then None
    else if g < |t| && t[g] != '\n' then Some(g)
    else TitleGroupFrom(t, p, g - 1)
  }

  datatype Hit = Hit(start: nat, group: nat)

  ghost predicate FirstTitle(t: string, from: nat, h: Hit) {
    && TitleCandidate(t, h.start, h.group)
    && (forall p: nat, g: nat | from <= p < h.start :: !TitleCandidate(t, p, g))
    && (forall g: nat | h.group < g :: !TitleCandidate(t, h.start, g))
  }

  function TitleFrom(t: string, p: nat): (r: Option<Hit>)
    ensures r.Some? ==> p <= r.value.start && FirstTitle(t, p, r.value)
    ensures r.None? ==> forall p': nat, g: nat | p <= p' :: !TitleCandidate(t, p', g)
    decreases |t| - p
  {
    if p >= |t| then None
    else if !PrefixAt(t, p, TitleLabel) then TitleFrom(t, p + 1)
    else
      var top := p + 5 + SpaceRun(t, p + 5);
      match TitleGroupFrom(t, p, top)
      case Some(g) => Some(Hit(p, g))
      case None => TitleFrom(t, p + 1)
  }

  /** `reAlbumName.FindStringSubmatch`: the trimmed group is the rest of the
      line after the label and its white space. */
  function TitleMatch(t: string): (r: Option<string>)
    ensures r.None? <==> forall p: nat, g: nat :: !TitleCandidate(t, p, g)
    ensures r.Some? ==> exists h :: FirstTitle(t, 0, h) && r.value == TrimSpace(t[h.group..LineEnd(t, h.group)])
  {
    match TitleFrom(t, 0)
    case Some(h) => Some(TrimSpace(t[h.group..LineEnd(t, h.group)]))
    case None => None
  }

  // ---------------------------------------------------------------------
  // Year

  /** A year match with the label at p: after all the white space, four
      ASCII digits and 年. */
  predicate YearCandidate(t: string, p: nat) {
    && PrefixAt(t, p, DateLabel)
    && var g := p + 5 + SpaceRun(t, p + 5);
      g + 5 <= |t| && AllDigits(t[g..g + 4]) && t[g + 4] == '年'
  }

  /** The four digits of a year match with the label at p. */
  function YearDigits(t: string, p: nat): string
    requires YearCandidate(t, p)
  {
    var g := p + 5 + SpaceRun(t, p + 5);
    t[g..g + 4]
  }

  ghost predicate FirstYear(t: string, p: nat) {
    YearCandidate(t, p) && forall p': nat | p' < p :: !YearCandidate(t, p')
  }

  function YearFrom(t: string, p: nat): (r: Option<nat>)
    ensures r.Some? ==> p <= r.value && YearCandidate(t, r.value)
    ensures r.Some? ==> forall p': nat | p <= p' < r.value :: !YearCandidate(t, p')
    ensures r.None? ==> forall p': nat | p <= p' :: !YearCandidate(t, p')
    decreases |t| - p
  {
    if p >= |t| then None
    else if YearCandidate(t, p) then Some(p)
    else YearFrom(t, p + 1)
  }

  /** `reDate.FindStringSubmatch`: the four digits of the first dated label. */
  function YearMatch(t: string): (r: Option<string>)
    ensures r.None? <==> forall p: nat :: !YearCandidate(t, p)
    ensures r.Some? ==> |r.value| == 4 && AllDigits(r.value)
    ensures r.Some? ==> exists p: nat :: FirstYear(t, p) && r.value == YearDigits(t, p)
  {
    match YearFrom(t, 0)
    case Some(p) => Some(YearDigits(t, p))
    case None => None
  }

  // ---------------------------------------------------------------------
  // Artist

  /** `^(.+)《` with the bracket at e: the group is the text's start up to e,
      without a newline. */
  predicate ArtistCandidate(t: string, e: nat) {
    0 < e < |t| && Dots(t, 0, e) && t[e] == '《'
  }

  function ArtistFrom(t: string, e: int): (r: Option<nat>)
    requires e < |t|
    ensures r.Some? ==> r.value <= e && ArtistCandidate(t, r.value)
    ensures r.Some? ==> forall e': nat | r.value < e' <= e :: !ArtistCandidate(t, e')
    ensures r.None? ==> forall e': nat | e' <= e :: !ArtistCandidate(t, e')
    decreases e
  {
    if e <= 0 then None
    else if ArtistCandidate(t, e) then Some(e)
    else ArtistFrom(t, e - 1)
  }

  /** `reArtist.FindStringSubmatch`: the greedy group ends at the last 《
      of the first line. */
  function ArtistMatch(t: string): (r: Option<nat>)
    ensures r.Some? ==> ArtistCandidate(t, r.value) && forall e: nat | r.value < e :: !ArtistCandidate(t, e)
    ensures r.None? <==> forall e: nat :: !ArtistCandidate(t, e)
  {
    ArtistFrom(t, |t| - 1)
  }

  // ---------------------------------------------------------------------
  // parseInfoContent

  /** `parseInfoContent`: a label that is missing leaves its field as it
      was; the artist is always set, to "Unknown Artist" when the first
      line has no 《. */
  function ParseInfo(a: Album): (r: Album)
    ensures r.path == a.path && r.coverArt == a.coverArt && r.discs == a.discs && r.infoContent == a.infoContent
    ensures TitleMatch(a.infoContent).None? ==> r.title == a.title
    ensures TitleMatch(a.infoContent).Some? ==> r.title == TitleMatch(a.infoContent).value
    ensures YearMatch(a.infoContent).None? ==> r.year == a.year
    ensures YearMatch(a.infoContent).Some? ==> r.year == YearMatch(a.infoContent).value
    ensures ArtistMatch(a.infoContent).Some? ==> r.artist == TrimSpace(a.infoContent[..ArtistMatch(a.infoContent).value])
    ensures ArtistMatch(a.infoContent).None? ==> r.artist == UnknownArtist
  {
    var t := a.infoContent;
    var title := match TitleMatch(t) case Some(v) => v case None => a.title;
    var year := match YearMatch(t) case Some(v) => v case None => a.year;
    var artist := match ArtistMatch(t) case Some(e) => TrimSpace(t[..e]) case None => UnknownArtist;
    a.(title := title, year := year, artist := artist)
  }

  // ---------------------------------------------------------------------
  // Properties

  /** `l` does not occur in `pre + l` before the copy at the end. */
  predicate LabelOnlyAtEnd(pre: string, l: string) {
    forall p: nat | p < |pre| :: !PrefixAt(pre + l, p, l)
  }

  /** Text after the label's first occurrence cannot create an earlier one. */
  lemma EarlierLabel(pre: string, l: string, rest: string, p: nat)
    requires p < |pre| && PrefixAt(pre + l + rest, p, l)
    ensures PrefixAt(pre + l, p, l)
  {
    var t := pre + l + rest;
    assert t[..|pre| + |l|] == pre + l;
    assert (pre + l)[p..p + |l|] == t[p..p + |l|];
  }

  /** Where a rest of the line ends. */
  lemma {:induction false} LineEndIs(t: string, g: nat, e: nat)
    requires g <= e <= |t| && Dots(t, g, e) && (e == |t| || t[e] == '\n')
    ensures LineEnd(t, g) == e
    decreases e - g
  {
    if g < e {
      LineEndIs(t, g + 1, e);
    }
  }

  /** A line break or the end of the text. */
  predicate LineBreak(post: string) {
    post == "" || post[0] == '\n'
  }

  lemma TitleLabelAt(pre: string, name: string, post: string)
    requires |name| > 0 && !Re2Space(name[0])
    ensures PrefixAt(pre + TitleLabel + name + post, |pre|, TitleLabel)
    ensures SpaceRun(pre + TitleLabel + name + post, |pre| + 5) == 0
  {
    var t := pre + TitleLabel + name + post;
    assert t[|pre|..|pre| + 5] == TitleLabel;
    assert t[|pre| + 5] == name[0];
  }

  /** The title is the trimmed rest of the line after the first label, when
      that rest starts with a rune that is not white space. */
  lemma TitleAfterLabel(pre: string, name: string, post: string)
    requires LabelOnlyAtEnd(pre, TitleLabel)
    requires |name| > 0 && !Re2Space(name[0]) && Dots(name, 0, |name|) && LineBreak(post)
    ensures TitleMatch(pre + TitleLabel + name + post) == Some(TrimSpace(name))
  {
    var t := pre + TitleLabel + name + post;
    var q := |pre| + 5;
    TitleLabelAt(pre, name, post);
    assert t[q] == name[0];
    assert TitleCandidate(t, |pre|, q);
    forall p: nat, g: nat | p < |pre|
      ensures !TitleCandidate(t, p, g)
    {
      if PrefixAt(t, p, TitleLabel) {
        assert t == pre + TitleLabel + (name + post);
        EarlierLabel(pre, TitleLabel, name + post, p);
      }
    }
    var h := TitleFrom(t, 0).value;
    assert h.start == |pre|;
    assert h.group == q;
    assert t[q..q + |name|] == name;
    assert Dots(t, q, q + |name|) by {
      forall k | q <= k < q + |name| ensures t[k] != '\n' {
        assert t[k] == name[k - q];
      }
    }
    if post != "" {
      assert t[q + |name|] == post[0];
    }
    LineEndIs(t, q, q + |name|);
  }

  /** `\s*` crosses line ends: a label that ends its line takes its title
      from the next line. */
  lemma TitleOnNextLine()
    ensures TitleMatch(TitleLabel + "\nX") == Some("X")
  {
    var t := TitleLabel + "\nX";
    assert t[5] == '\n' && t[6] == 'X';
    assert SpaceRun(t, 6) == 0;
    assert SpaceRun(t, 5) == 1;
    assert TitleGroupFrom(t, 0, 6) == Some(6);
    assert TitleFrom(t, 0) == Some(Hit(0, 6));
    assert LineEnd(t, 6) == 7;
    assert t[6..7] == "X";
    assert LeadingSpace("X") == 0;
    assert TrimSpace("X") == "X";
  }

  lemma DateLabelAt(pre: string, y: string, post: string)
    requires |y| == 4 && AllDigits(y)
    ensures YearCandidate(pre + DateLabel + y + "年" + post, |pre|)
  {
    var t := pre + DateLabel + y + "年" + post;
    var q := |pre| + 5;
    assert t[|pre|..q] == DateLabel;
    assert t[q] == y[0];
    assert !Re2Space(y[0]);
    assert t[q..q + 4] == y;
    assert t[q + 4] == '年';
  }

  /** The year is the four digits after the first dated label. */
  lemma YearAfterLabel(pre: string, y: string, post: string)
    requires LabelOnlyAtEnd(pre, DateLabel)
    requires |y| == 4 && AllDigits(y)
    ensures YearMatch(pre + DateLabel + y + "年" + post) == Some(y)
  {
    var t := pre + DateLabel + y + "年" + post;
    DateLabelAt(pre, y, post);
    forall p: nat | p < |pre|
      ensures !YearCandidate(t, p)
    {
      if PrefixAt(t, p, DateLabel) {
        assert t == pre + DateLabel + (y + "年" + post);
        EarlierLabel(pre, DateLabel, y + "年" + post, p);
      }
    }
    var p := YearFrom(t, 0).value;
    assert p == |pre|;
    assert t[|pre| + 5..|pre| + 9] == y;
  }

  /** The artist is what precedes the last 《 of the first line. */
  lemma ArtistBeforeBracket(a: string, rest: string, post: string)
    requires |a| > 0 && Dots(a, 0, |a|)
    requires NoRune(rest, '《') && Dots(rest, 0, |rest|) && LineBreak(post)
    ensures ArtistMatch(a + "《" + rest + post) == Some(|a|)
  {
    var t := a + "《" + rest + post;
    assert t[|a|] == '《';
    assert Dots(t, 0, |a|) by {
      forall k | 0 <= k < |a| ensures t[k] != '\n' { assert t[k] == a[k]; }
    }
    assert ArtistCandidate(t, |a|);
    forall e: nat | |a| < e
      ensures !ArtistCandidate(t, e)
    {
      if e < |a| + 1 + |rest| {
        assert t[e] == rest[e - |a| - 1];
      } else if e < |t| {
        var nl := |a| + 1 + |rest|;
        assert t[nl] == post[0];
        if nl < e { assert !Dots(t, 0, e); }
      }
    }
  }

  /** A first line without 《 gives no artist. */
  lemma NoBracketNoArtist(line: string, post: string)
    requires NoRune(line, '《') && Dots(line, 0, |line|) && LineBreak(post)
    ensures ArtistMatch(line + post).None?
  {
    var t := line + post;
    forall e: nat
      ensures !ArtistCandidate(t, e)
    {
      if e < |line| {
        assert t[e] == line[e];
      } else if |line| < e < |t| {
        assert t[|line|] == post[0];
        assert !Dots(t, 0, e);
      }
    }
  }

  /** An Info.txt laid out as its authors expect: a first line
      "<artist>《<album>》…", a title line and a date line. */
  function Layout(artist: string, rest: string, name: string, y: string, post: string): string {
    artist + "《" + rest + "\n" + TitleLabel + name + "\n" + DateLabel + y + "年" + post
  }

  lemma LayoutSplits(artist: string, rest: string, name: string, y: string, post: string)
    ensures Layout(artist, rest, name, y, post)
      == (artist + "《" + rest + "\n") + TitleLabel + name + ("\n" + DateLabel + y + "年" + post)
    ensures Layout(artist, rest, name, y, post)
      == (artist + "《" + rest + "\n" + TitleLabel + name + "\n") + DateLabel + y + "年" + post
    ensures Layout(artist, rest, name, y, post)
      == artist + "《" + rest + ("\n" + TitleLabel + name + "\n" + DateLabel + y + "年" + post)
  {
  }

  lemma LayoutArtist(artist: string, rest: string, name: string, y: string, post: string)
    requires |artist| > 0 && Dots(artist, 0, |artist|) && NoRune(rest, '《') && Dots(rest, 0, |rest|)
    ensures ArtistMatch(Layout(artist, rest, name, y, post)) == Some(|artist|)
    ensures Layout(artist, rest, name, y, post)[..|artist|] == artist
  {
    LayoutSplits(artist, rest, name, y, post);
    ArtistBeforeBracket(artist, rest, "\n" + TitleLabel + name + "\n" + DateLabel + y + "年" + post);
  }

  /** Parsing such a file sets all three fields. */
  lemma ParseInfoOfLayout(a: Album, artist: string, rest: string, name: string, y: string, post: string)
    requires |artist| > 0 && Dots(artist, 0, |artist|) && NoRune(rest, '《') && Dots(rest, 0, |rest|)
    requires |name| > 0 && !Re2Space(name[0]) && Dots(name, 0, |name|)
    requires |y| == 4 && AllDigits(y)
    requires LabelOnlyAtEnd(artist + "《" + rest + "\n", TitleLabel)
    requires LabelOnlyAtEnd(artist + "《" + rest + "\n" + TitleLabel + name + "\n", DateLabel)
    requires a.infoContent == Layout(artist, rest, name, y, post)
    ensures ParseInfo(a) == a.(artist := TrimSpace(artist), title := TrimSpace(name), year := y)
  {
    LayoutSplits(artist, rest, name, y, post);
    TitleAfterLabel(artist + "《" + rest + "\n", name, "\n" + DateLabel + y + "年" + post);
    YearAfterLabel(artist + "《" + rest + "\n" + TitleLabel + name + "\n", y, post);
    LayoutArtist(artist, rest, name, y, post);
  }
}
