/** Cue sheets written in the usual layout, and the proof that the parser
    reads every such sheet back: one FILE line, an album TITLE, then per track
    a TRACK, a TITLE and an INDEX 01 line. */
module CueSheetText {
  import opened Wrappers
  import opened Decimal
  import opened Runes
  import opened Utf8
  import opened CueTime
  import opened AlbumModel
  import opened CueParser

  /** One track as a sheet writes it: the digits of its number, its title and
      its `mm:ss:ff` position. */
  datatype Entry = Entry(digits: string, title: string, time: string)

  /** A title the line classifier reads back as itself: not empty, no quote
      (which would end it), no digit (which could spell a TRACK line inside
      it) and no newline. */
  predicate PlainTitle(t: string) {
    |t| > 0 && forall k | 0 <= k < |t| :: t[k] != '"' && !IsDigit(t[k]) && t[k] != '\n'
  }

  predicate PlainName(w: string) {
    |w| > 0 && forall k | 0 <= k < |w| :: w[k] != '"' && w[k] != '\n'
  }

  predicate WellFormed(e: Entry) {
    |e.digits| > 0 && AllDigits(e.digits) && PlainTitle(e.title) && TimeShape(e.time)
  }

  function TrackText(d: string): string { "TRACK " + d + " AUDIO" }
  function TitleText(t: string): string { "TITLE \"" + t + "\"" }
  function IndexText(time: string): string { "INDEX 01 " + time }
  function FileText(w: string): string { "FILE \"" + w + "\" WAVE" }

  function EntryLines(es: seq<Entry>): seq<string> {
    if |es| == 0 then []
    else [TrackText(es[0].digits), TitleText(es[0].title), IndexText(es[0].time)] + EntryLines(es[1..])
  }

  function SheetLines(wav: string, album: string, es: seq<Entry>): seq<string> {
    [FileText(wav), TitleText(album)] + EntryLines(es)
  }

  function SheetText(wav: string, album: string, es: seq<Entry>): string {
    Join(SheetLines(wav, album, es), "\n")
  }

  /** The track an entry describes. */
  function EntryTrack(e: Entry): Track {
    NewTrack(Atoi(e.digits)).(title := e.title, startTime := IndexStart(e.time))
  }

  function EntryTracks(es: seq<Entry>): seq<Track> {
    if |es| == 0 then [] else [EntryTrack(es[0])] + EntryTracks(es[1..])
  }

  function EntryKinds(es: seq<Entry>): seq<LineKind> {
    if |es| == 0 then []
    else [TrackLine(Atoi(es[0].digits)), TitleLine(es[0].title), IndexLine(IndexStart(es[0].time))]
         + EntryKinds(es[1..])
  }

  // ---------------------------------------------------------------------
  // Lines

  predicate NoNewline(s: string) {
    forall i | 0 <= i < |s| :: s[i] != '\n'
  }

  lemma {:induction false} EntryLinesShape(es: seq<Entry>)
    requires forall i | 0 <= i < |es| :: WellFormed(es[i])
    ensures |EntryLines(es)| == 3 * |es|
    ensures forall k | 0 <= k < |EntryLines(es)| :: NoNewline(EntryLines(es)[k])
    ensures |es| > 0 ==> EntryLines(es)[|EntryLines(es)| - 1] == IndexText(es[|es| - 1].time)
    decreases |es|
  {
    if |es| > 0 {
      EntryLinesShape(es[1..]);
      EntryNoNewline(es[0]);
      if |es| > 1 {
        assert es[1..][|es[1..]| - 1] == es[|es| - 1];
      }
    }
  }

  /** None of the three lines of a well-formed entry holds a newline. */
  lemma EntryNoNewline(e: Entry)
    requires WellFormed(e)
    ensures NoNewline(TrackText(e.digits)) && NoNewline(TitleText(e.title)) && NoNewline(IndexText(e.time))
  {
    var head := [TrackText(e.digits), TitleText(e.title), IndexText(e.time)];
    assert NoNewline(head[0]) by { assert forall i | 6 <= i < 6 + |e.digits| :: head[0][i] == e.digits[i - 6]; }
    assert NoNewline(head[1]) by { assert forall i | 7 <= i < 7 + |e.title| :: head[1][i] == e.title[i - 7]; }
    assert NoNewline(head[2]) by { assert forall i | 9 <= i < 17 :: head[2][i] == e.time[i - 9]; }
  }

  lemma SheetLinesRead(wav: string, album: string, es: seq<Entry>)
    requires PlainName(wav) && PlainTitle(album) && |es| > 0
    requires forall i | 0 <= i < |es| :: WellFormed(es[i])
    ensures Lines(SheetText(wav, album, es)) == SheetLines(wav, album, es)
  {
    SheetLinesShape(wav, album, es);
    LinesOfJoin(SheetLines(wav, album, es));
  }

  lemma SheetLinesShape(wav: string, album: string, es: seq<Entry>)
    requires PlainName(wav) && PlainTitle(album) && |es| > 0
    requires forall i | 0 <= i < |es| :: WellFormed(es[i])
    ensures var ls := SheetLines(wav, album, es);
      && (forall k | 0 <= k < |ls| :: NoNewline(ls[k]))
      && |ls| > 0 && |ls[|ls| - 1]| > 0
  {
    var ls := SheetLines(wav, album, es);
    EntryLinesShape(es);
    assert NoNewline(ls[0]) by { assert forall i | 6 <= i < 6 + |wav| :: ls[0][i] == wav[i - 6]; }
    assert NoNewline(ls[1]) by { assert forall i | 7 <= i < 7 + |album| :: ls[1][i] == album[i - 7]; }
    assert forall k | 2 <= k < |ls| :: ls[k] == EntryLines(es)[k - 2];
    assert ls[|ls| - 1] == IndexText(es[|es| - 1].time);
  }

  /** Lines without newlines, the last one not empty, joined by newlines are
      read back as those lines. */
  lemma LinesOfJoin(ls: seq<string>)
    requires |ls| > 0 && |ls[|ls| - 1]| > 0
    requires forall k | 0 <= k < |ls| :: NoNewline(ls[k])
    ensures Lines(Join(ls, "\n")) == ls
  {
    assert "\n" == ['\n'];
    SplitJoin(ls, '\n');
  }

  // ---------------------------------------------------------------------
  // Classification

  lemma TrimmedLine(line: string)
    requires |line| > 0 && !IsSpace(line[0]) && !IsSpace(line[|line| - 1]) && line[|line| - 1] != '\r'
    ensures TrimSpace(DropCR(line)) == line
  {
    TrimSpaceOfTrimmed(line);
  }

  lemma {:induction false} KindsAppend(a: seq<string>, b: seq<string>)
    ensures Kinds(a + b) == Kinds(a) + Kinds(b)
  {
    forall k | 0 <= k < |a + b| ensures Kinds(a + b)[k] == (Kinds(a) + Kinds(b))[k] {
      KindAt(a, b, k);
    }
  }

  lemma KindAt(a: seq<string>, b: seq<string>, k: nat)
    requires k < |a + b|
    ensures Kinds(a + b)[k] == (Kinds(a) + Kinds(b))[k]
  {
    if k < |a| {
      KindsAgree(a + b, a, k, k);
    } else {
      KindsAgree(a + b, b, k, k - |a|);
    }
  }

  lemma KindsAgree(x: seq<string>, y: seq<string>, i: nat, j: nat)
    requires i < |x| && j < |y| && x[i] == y[j]
    ensures Kinds(x)[i] == Kinds(y)[j]
  {
  }

  lemma TitleKind(t: string)
    requires PlainTitle(t)
    ensures Kinds([TitleText(t)]) == [TitleLine(t)]
  {
    var line := TitleText(t);
    TrimmedLine(line);
    ClassifyTitleLine(t);
  }

  lemma TrackKind(d: string)
    requires |d| > 0 && AllDigits(d)
    ensures Kinds([TrackText(d)]) == [TrackLine(Atoi(d))]
  {
    TrimmedLine(TrackText(d));
    ClassifyTrackLine(d);
  }

  lemma IndexKind(time: string)
    requires TimeShape(time)
    ensures Kinds([IndexText(time)]) == [IndexLine(IndexStart(time))]
  {
    TrimmedLine(IndexText(time));
    ClassifyIndexLine(time);
  }

  lemma EntryKind(e: Entry)
    requires WellFormed(e)
    ensures Kinds([TrackText(e.digits), TitleText(e.title), IndexText(e.time)])
         == [TrackLine(Atoi(e.digits)), TitleLine(e.title), IndexLine(IndexStart(e.time))]
  {
    var a, b, c := TrackText(e.digits), TitleText(e.title), IndexText(e.time);
    TrackKind(e.digits);
    TitleKind(e.title);
    IndexKind(e.time);
    KindsAppend([a], [b]);
    KindsAppend([a, b], [c]);
    assert [a] + [b] == [a, b] && [a, b] + [c] == [a, b, c];
  }

  lemma {:induction false} EntryKindsOfLines(es: seq<Entry>)
    requires forall i | 0 <= i < |es| :: WellFormed(es[i])
    ensures Kinds(EntryLines(es)) == EntryKinds(es)
    decreases |es|
  {
    if |es| > 0 {
      var e := es[0];
      assert WellFormed(e);
      EntryKind(e);
      EntryKindsOfLines(es[1..]);
      KindsAppend([TrackText(e.digits), TitleText(e.title), IndexText(e.time)], EntryLines(es[1..]));
    }
  }

  lemma FileKind(wav: string)
    requires PlainName(wav)
    ensures Kinds([FileText(wav)]) == [FileLine(wav)]
  {
    var line := FileText(wav);
    TrimmedLine(line);
    assert line == "FILE \"" + wav + "\"" + " WAVE";
    ClassifyFileLine(wav, " WAVE");
  }

  // ---------------------------------------------------------------------
  // The reference reading of a written sheet

  lemma {:induction false} EntryKindsHaveNoFile(es: seq<Entry>)
    ensures forall k | 0 <= k < |EntryKinds(es)| :: !EntryKinds(es)[k].FileLine?
    ensures |es| > 0 ==> EntryKinds(es)[0].TrackLine?
    decreases |es|
  {
    if |es| > 0 {
      EntryKindsHaveNoFile(es[1..]);
    }
  }

  lemma {:induction false} RefTracksOfEntries(es: seq<Entry>)
    ensures RefTracks(EntryKinds(es)) == EntryTracks(es)
    decreases |es|
  {
    if |es| > 0 {
      var e := es[0];
      var rest := EntryKinds(es[1..]);
      var ks := EntryKinds(es);
      var tail := [TitleLine(e.title), IndexLine(IndexStart(e.time))];
      assert ks[1..] == tail + rest;
      EntryKindsHaveNoFile(es[1..]);
      assert SegLen(ks[1..]) == 2 by {
        assert ks[1..][0] == tail[0] && ks[1..][1] == tail[1];
        if |rest| > 0 { assert ks[1..][2] == rest[0]; }
      }
      assert ks[1..][..2] == tail;
      assert Settle(NewTrack(Atoi(e.digits)), tail) == EntryTrack(e) by {
        assert LastOf(tail, TitleTag) == 0;
        assert LastOf(tail, IndexTag) == 1;
      }
      RefTracksSkipsPreamble(tail, rest);
      RefTracksOfEntries(es[1..]);
    }
  }

  lemma SheetKinds(wav: string, album: string, es: seq<Entry>)
    requires PlainName(wav) && PlainTitle(album)
    requires forall i | 0 <= i < |es| :: WellFormed(es[i])
    ensures Kinds(SheetLines(wav, album, es)) == [FileLine(wav), TitleLine(album)] + EntryKinds(es)
  {
    var a := [FileText(wav), TitleText(album)];
    var b := EntryLines(es);
    HeadKinds(wav, album);
    EntryKindsOfLines(es);
    KindsAppend(a, b);
    assert SheetLines(wav, album, es) == a + b;
  }

  lemma HeadKinds(wav: string, album: string)
    requires PlainName(wav) && PlainTitle(album)
    ensures Kinds([FileText(wav), TitleText(album)]) == [FileLine(wav), TitleLine(album)]
  {
    FileKind(wav);
    TitleKind(album);
    KindsAppend([FileText(wav)], [TitleText(album)]);
    assert [FileText(wav)] + [TitleText(album)] == [FileText(wav), TitleText(album)];
  }

  /** Round trip: a sheet written in the usual layout is read back as its
      audio file name and one track per entry, in order, with the entry's
      number, title and position. */
  lemma ParseWrittenSheet(cuePath: string, wav: string, album: string, es: seq<Entry>)
    requires PlainName(wav) && PlainTitle(album) && |es| > 0
    requires forall i | 0 <= i < |es| :: WellFormed(es[i])
    requires forall k | 0 <= k < |SheetLines(wav, album, es)| :: |Encode(SheetLines(wav, album, es)[k])| < MaxTokenSize
    ensures ParseCue(cuePath, SheetText(wav, album, es)).Ok?
    ensures ParseCue(cuePath, SheetText(wav, album, es)).value.wavFile == wav
    ensures ParseCue(cuePath, SheetText(wav, album, es)).value.tracks == EntryTracks(es)
  {
    var ks := [FileLine(wav), TitleLine(album)] + EntryKinds(es);
    SheetClassified(wav, album, es);
    SheetReference(wav, album, es);
    SheetLinesRead(wav, album, es);
    ParseCueReads(cuePath, SheetText(wav, album, es), ks);
  }

  lemma SheetClassified(wav: string, album: string, es: seq<Entry>)
    requires PlainName(wav) && PlainTitle(album) && |es| > 0
    requires forall i | 0 <= i < |es| :: WellFormed(es[i])
    ensures Kinds(Lines(SheetText(wav, album, es))) == [FileLine(wav), TitleLine(album)] + EntryKinds(es)
    ensures HasTrackLine([FileLine(wav), TitleLine(album)] + EntryKinds(es))
  {
    SheetLinesRead(wav, album, es);
    SheetKinds(wav, album, es);
    var ks := [FileLine(wav), TitleLine(album)] + EntryKinds(es);
    EntryKindsHaveNoFile(es);
    assert ks[2] == EntryKinds(es)[0];
  }

  /** The reference reading of the classified lines of a written sheet. */
  lemma SheetReference(wav: string, album: string, es: seq<Entry>)
    ensures RefWav([FileLine(wav), TitleLine(album)] + EntryKinds(es)) == wav
    ensures RefTracks([FileLine(wav), TitleLine(album)] + EntryKinds(es)) == EntryTracks(es)
  {
    var pre := [FileLine(wav), TitleLine(album)];
    var ks := pre + EntryKinds(es);
    EntryKindsHaveNoFile(es);
    RefTracksSkipsPreamble(pre, EntryKinds(es));
    RefTracksOfEntries(es);
    assert forall k | 0 < k < |ks| :: !ks[k].FileLine? by {
      forall k | 0 < k < |ks| ensures !ks[k].FileLine? {
        if k >= 2 { assert ks[k] == EntryKinds(es)[k - 2]; }
      }
    }
    assert Tagged(ks[0], FileTag);
  }

  /** A three-track sheet read back: the album title names no track, and
      there is one track per entry. */
  lemma ThreeTrackSheet(path: string, wav: string, album: string, es: seq<Entry>)
    requires path == "CDImage.cue" && wav == "CDImage.wav" && album == "Album"
    requires es == [Entry("01", "Sea", "00:00:00"), Entry("02", "Moon", "03:30:00"), Entry("03", "Rain", "07:12:50")]
    ensures ParseCue(path, SheetText(wav, album, es)).Ok?
    ensures ParseCue(path, SheetText(wav, album, es)).value.wavFile == wav
    ensures ParseCue(path, SheetText(wav, album, es)).value.tracks == EntryTracks(es)
  {
    assert WellFormed(es[0]) && WellFormed(es[1]) && WellFormed(es[2]);
    assert PlainName(wav) && PlainTitle(album);
    SheetLinesFit(wav, album, es);
    ParseWrittenSheet(path, wav, album, es);
  }

  /** Every written line fits the scanner's buffer when the names in it are
      short enough, a rune taking at most four bytes. */
  lemma SheetLinesFit(wav: string, album: string, es: seq<Entry>)
    requires |wav| < 16000 && |album| < 16000
    requires forall i | 0 <= i < |es| :: |es[i].digits| < 16000 && |es[i].title| < 16000 && |es[i].time| < 16000
    ensures forall k | 0 <= k < |SheetLines(wav, album, es)| :: |Encode(SheetLines(wav, album, es)[k])| < MaxTokenSize
  {
    var ls := SheetLines(wav, album, es);
    EntryLinesShort(es);
    assert forall k | 2 <= k < |ls| :: ls[k] == EntryLines(es)[k - 2];
    forall k | 0 <= k < |ls|
      ensures |Encode(ls[k])| < MaxTokenSize
    {
      EncodeLength(ls[k]);
    }
  }

  lemma {:induction false} EntryLinesShort(es: seq<Entry>)
    requires forall i | 0 <= i < |es| :: |es[i].digits| < 16000 && |es[i].title| < 16000 && |es[i].time| < 16000
    ensures forall k | 0 <= k < |EntryLines(es)| :: |EntryLines(es)[k]| < 16100
    decreases |es|
  {
    if |es| > 0 {
      EntryLinesShort(es[1..]);
      var head := [TrackText(es[0].digits), TitleText(es[0].title), IndexText(es[0].time)];
      assert forall k | 3 <= k < |EntryLines(es)| :: EntryLines(es)[k] == EntryLines(es[1..])[k - 3];
    }
  }
}
