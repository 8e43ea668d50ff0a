/** `parseCueFile` (parser.go): the decoded text of a cue sheet is cut into
    lines, each line is trimmed and classified by four case-insensitive
    regular expressions tried in a fixed order, and a small state machine
    opens and closes tracks. The matchers are written out as the leftmost
    searches RE2 performs for these four patterns. */
module CueParser {
  import opened Wrappers
  import opened GoInt
  import opened Decimal
  import opened Runes
  import opened Utf8
  import opened TextReader
  import opened CueTime
  import opened AlbumModel
  import opened Search

  /** `CueSheet`: the audio file the sheet names and its tracks. */
  datatype CueSheet = CueSheet(wavFile: string, tracks: seq<Track>)

  // ---------------------------------------------------------------------
  // Lines

  predicate EndsInNewline(s: string) {
    |s| > 0 && s[|s| - 1] == '\n'
  }

  /** The tokens of `bufio.ScanLines`: the pieces between newlines, except
      that a last empty piece (after a final newline, or of empty text) is no
      line. Joined by newlines they give the text back, less its final
      newline if it has one; empty text is the only text without lines. */
  function Lines(content: string): (lines: seq<string>)
    ensures forall k | 0 <= k < |lines| :: forall i | 0 <= i < |lines[k]| :: lines[k][i] != '\n'
    ensures |lines| == 0 <==> |content| == 0
    ensures EndsInNewline(content) ==> Join(lines, "\n") + "\n" == content
    ensures !EndsInNewline(content) ==> Join(lines, "\n") == content
  {
    LinesRejoin(content);
    DropFinalEmpty(Split(content, '\n'))
  }

  function DropFinalEmpty(parts: seq<string>): seq<string>
    requires |parts| > 0
  {
    if |parts[|parts| - 1]| == 0 then parts[..|parts| - 1] else parts
  }

  lemma LinesRejoin(content: string)
    ensures var lines := DropFinalEmpty(Split(content, '\n'));
      && (forall k | 0 <= k < |lines| :: forall i | 0 <= i < |lines[k]| :: lines[k][i] != '\n')
      && (|lines| == 0 <==> |content| == 0)
      && (EndsInNewline(content) ==> Join(lines, "\n") + "\n" == content)
      && (!EndsInNewline(content) ==> Join(lines, "\n") == content)
  {
    SplitLacks(content, '\n');
    JoinSplit(content, '\n');
    assert "\n" == ['\n'];
    DropFinalRejoin(Split(content, '\n'), content);
  }

  /** Dropping a last empty piece leaves pieces that join to the text, or to
      the text without its final newline exactly when it ends in one. */
  lemma DropFinalRejoin(parts: seq<string>, content: string)
    requires |parts| > 0 && Join(parts, "\n") == content
    requires forall k | 0 <= k < |parts| :: forall i | 0 <= i < |parts[k]| :: parts[k][i] != '\n'
    ensures var lines := DropFinalEmpty(parts);
      && (forall k | 0 <= k < |lines| :: forall i | 0 <= i < |lines[k]| :: lines[k][i] != '\n')
      && (|lines| == 0 <==> |content| == 0)
      && (EndsInNewline(content) ==> Join(lines, "\n") + "\n" == content)
      && (!EndsInNewline(content) ==> Join(lines, "\n") == content)
  {
    var n := |parts|;
    var last := parts[n - 1];
    if n > 1 {
      JoinLast(parts, "\n");
    }
    if |last| == 0 {
      var lines := parts[..n - 1];
      assert forall k | 0 <= k < |lines| :: lines[k] == parts[k];
    } else {
      assert content[|content| - 1] == last[|last| - 1];
    }
  }

  /** A join ends with its last piece. */
  lemma {:induction false} JoinLast(ws: seq<string>, sep: string)
    requires |ws| > 1
    ensures Join(ws, sep) == Join(ws[..|ws| - 1], sep) + sep + ws[|ws| - 1]
    decreases |ws|
  {
    if |ws| == 2 {
      assert ws[..1] == [ws[0]];
    } else {
      JoinLast(ws[1..], sep);
      assert ws[..|ws| - 1][1..] == ws[1..][..|ws| - 2];
    }
  }

  /** `ScanLines` also drops a carriage return before the newline. */
  function DropCR(line: string): string {
    if |line| > 0 && line[|line| - 1] == '\r' then line[..|line| - 1] else line
  }

  /** One carriage return before the line end is dropped, and nothing else:
      a line that does not end in one is left alone. */
  lemma DropCRInverse(w: string)
    ensures DropCR(w + "\r") == w
    ensures (|w| == 0 || w[|w| - 1] != '\r') ==> DropCR(w) == w
  {
    assert (w + "\r")[..|w|] == w;
  }

  // ---------------------------------------------------------------------
  // The four patterns

  datatype Pattern = FilePattern | TrackPattern | TitlePattern | IndexPattern

  /** The literal each pattern starts with, matched without regard to case. */
  function Keyword(p: Pattern): string {
    match p
    case FilePattern => "FILE \""
    case TrackPattern => "TRACK "
    case TitlePattern => "TITLE \""
    case IndexPattern => "INDEX 01 "
  }

  const AudioKeyword: string := " AUDIO"

  /** Length of the run of ASCII digits (`\d`) at position j. */
  function DigitRun(s: string, j: nat): (n: nat)
    requires j <= |s|
    ensures j + n <= |s|
    ensures forall k | j <= k < j + n :: IsDigit(s[k])
    ensures j + n < |s| ==> !IsDigit(s[j + n])
    decreases |s| - j
  {
    if j < |s| && IsDigit(s[j]) then 1 + DigitRun(s, j + 1) else 0
  }

  /** `KEYWORD "([^"]+)"` at position i: the text between the keyword's quote
      and the next quote, which must not be empty. */
  function QuotedAt(line: string, i: nat, keyword: string): (g: Option<string>)
    ensures g.Some? <==> FoldPrefixAt(line, i, keyword) && i + |keyword| < |line| && line[i + |keyword|] != '"'
                         && exists k | i + |keyword| < k < |line| :: line[k] == '"'
    ensures g.Some? ==> |g.value| > 0 && PrefixAt(line, i + |keyword|, g.value + "\"")
    ensures g.Some? ==> forall k | 0 <= k < |g.value| :: g.value[k] != '"'
  {
    if !FoldPrefixAt(line, i, keyword) then None
    else
      var j := i + |keyword|;
      var k := IndexOf(line[j..], '"');
      if k < 0 then
        assert forall m | j < m < |line| :: line[m] == line[j..][m - j];
        None
      else if k == 0 then None
      else
        assert line[j..j + k + 1] == line[j..j + k] + "\"";
        assert line[j + k] == '"';
        Some(line[j..j + k])
  }

  /** `TRACK (\d+) AUDIO` at position i. The digit run is maximal: a shorter
      one would be followed by a digit, never by the space of " AUDIO". */
  function TrackAt(line: string, i: nat): (g: Option<string>)
    ensures g.Some? ==> FoldPrefixAt(line, i, Keyword(TrackPattern))
    ensures g.Some? ==> |g.value| > 0 && AllDigits(g.value) && PrefixAt(line, i + 6, g.value)
    ensures g.Some? ==> FoldPrefixAt(line, i + 6 + |g.value|, AudioKeyword)
  {
    if !FoldPrefixAt(line, i, Keyword(TrackPattern)) then None
    else
      var j := i + 6;
      var n := DigitRun(line, j);
      if n > 0 && FoldPrefixAt(line, j + n, AudioKeyword) then Some(line[j..j + n]) else None
  }

  /** Every way of reading `TRACK <digits> AUDIO` at i gives the same group:
      the greedy `\d+` cannot stop early. */
  lemma TrackAtComplete(line: string, i: nat, n: nat)
    requires FoldPrefixAt(line, i, Keyword(TrackPattern))
    requires 0 < n && i + 6 + n <= |line|
    requires forall k | i + 6 <= k < i + 6 + n :: IsDigit(line[k])
    requires FoldPrefixAt(line, i + 6 + n, AudioKeyword)
    ensures TrackAt(line, i) == Some(line[i + 6..i + 6 + n])
  {
    var j := i + 6;
    var m := DigitRun(line, j);
    assert FoldEq(line[j + n], AudioKeyword[0]);
    assert !IsDigit(line[j + n]);
  }

  /** Six digits laid out as `dd:dd:dd`. */
  predicate TimeShape(s: string) {
    |s| == 8 && IsDigit(s[0]) && IsDigit(s[1]) && s[2] == ':' && IsDigit(s[3]) && IsDigit(s[4])
    && s[5] == ':' && IsDigit(s[6]) && IsDigit(s[7])
  }

  /** `INDEX 01 (\d{2}:\d{2}:\d{2})` at position i. */
  function IndexAt(line: string, i: nat): (g: Option<string>)
    ensures g.Some? ==> FoldPrefixAt(line, i, Keyword(IndexPattern)) && TimeShape(g.value)
    ensures g.Some? ==> PrefixAt(line, i + 9, g.value)
    ensures FoldPrefixAt(line, i, Keyword(IndexPattern)) && i + 17 <= |line| && TimeShape(line[i + 9..i + 17])
            ==> g == Some(line[i + 9..i + 17])
  {
    var j := i + 9;
    if FoldPrefixAt(line, i, Keyword(IndexPattern)) && j + 8 <= |line| && TimeShape(line[j..j + 8])
    then Some(line[j..j + 8])
    else None
  }

  /** The capture group of pattern p for a match starting at i, if one does. */
  function GroupAt(p: Pattern, line: string, i: nat): (g: Option<string>)
    ensures g.Some? ==> FoldPrefixAt(line, i, Keyword(p))
  {
    match p
    case FilePattern => QuotedAt(line, i, Keyword(FilePattern))
    case TrackPattern => TrackAt(line, i)
    case TitlePattern => QuotedAt(line, i, Keyword(TitlePattern))
    case IndexPattern => IndexAt(line, i)
  }

  /** Whether pattern p matches starting at each position of the line. */
  function Hits(p: Pattern, line: string): (h: seq<bool>)
    ensures |h| == |line| + 1
  {
    seq(|line| + 1, k requires 0 <= k <= |line| => GroupAt(p, line, k).Some?)
  }

  /** The leftmost start position at which pattern p matches. */
  function Leftmost(p: Pattern, line: string): (r: Option<nat>)
    ensures r.Some? ==> r.value <= |line| && GroupAt(p, line, r.value).Some?
    ensures r.Some? ==> forall k | 0 <= k < r.value :: GroupAt(p, line, k).None?
    ensures r.None? ==> forall k | 0 <= k <= |line| :: GroupAt(p, line, k).None?
  {
    var hits := Hits(p, line);
    var r := FirstHit(hits, 0);
    assert forall k | 0 <= k <= |line| :: hits[k] == GroupAt(p, line, k).Some?;
    r
  }

  /** `FindStringSubmatch(line)[1]`: the group of the leftmost match. */
  function Submatch(p: Pattern, line: string): (g: Option<string>)
    ensures g.Some? <==> exists j | 0 <= j <= |line| :: GroupAt(p, line, j).Some?
    ensures g.Some? ==> exists j | 0 <= j <= |line| :: GroupAt(p, line, j) == g
                                 && forall k | 0 <= k < j :: GroupAt(p, line, k).None?
  {
    match Leftmost(p, line)
    case None => None
    case Some(j) => GroupAt(p, line, j)
  }

  // ---------------------------------------------------------------------
  // Classification of a line

  datatype LineKind =
    | FileLine(name: string)
    | TrackLine(number: int)
    | TitleLine(title: string)
    | IndexLine(start: int)
    | OtherLine

  /** The offset an `INDEX 01` line sets; `parseCueTime`'s error is dropped
      and would leave 0, but a `dd:dd:dd` group always parses. */
  function IndexStart(g: string): int {
    match ParseCueTime(g)
    case Ok(d) => d
    case Err(_) => 0
  }

  /** The branch of the loop body a trimmed line takes: FILE first, then
      TRACK, then TITLE, then INDEX 01. */
  function Classify(line: string): (k: LineKind)
  {
    match Submatch(FilePattern, line)
    case Some(f) => FileLine(f)
    case None =>
      match Submatch(TrackPattern, line)
      case Some(n) => TrackLine(Atoi(n))
      case None =>
        match Submatch(TitlePattern, line)
        case Some(t) => TitleLine(t)
        case None =>
          match Submatch(IndexPattern, line)
          case Some(d) => IndexLine(IndexStart(d))
          case None => OtherLine
  }

  function Kinds(lines: seq<string>): (ks: seq<LineKind>)
    ensures |ks| == |lines|
  {
    seq(|lines|, k requires 0 <= k < |lines| => Classify(TrimSpace(DropCR(lines[k]))))
  }

  // ---------------------------------------------------------------------
  // The state machine

  /** The loop's variables: `cue.WavFile`, `cue.Tracks` and `currentTrack`. */
  datatype ParseState = ParseState(wavFile: string, tracks: seq<Track>, current: Option<Track>)

  const Start: ParseState := ParseState("", [], None)

  function Open(current: Option<Track>): seq<Track> {
    if current.Some? then [current.value] else []
  }

  /** One line: FILE sets the audio file wherever it appears; TRACK closes the
      open track and opens a new one; TITLE and INDEX 01 change only an open
      track. */
  function Step(st: ParseState, k: LineKind): (st': ParseState)
    ensures st'.current.None? ==> st.current.None?
    ensures !k.TrackLine? ==> st'.tracks == st.tracks
    ensures k.TrackLine? ==> st'.tracks == st.tracks + Open(st.current) && st'.current == Some(NewTrack(k.number))
  {
    match k
    case FileLine(f) => st.(wavFile := f)
    case TrackLine(n) => ParseState(st.wavFile, st.tracks + Open(st.current), Some(NewTrack(n)))
    case _ => st.(current := if st.current.Some? then Some(Amend(st.current.value, k)) else None)
  }

  /** What a TITLE or INDEX 01 line does to the open track. */
  function Amend(t: Track, k: LineKind): Track {
    match k
    case TitleLine(x) => t.(title := x)
    case IndexLine(d) => t.(startTime := d)
    case _ => t
  }

  function Run(st: ParseState, ks: seq<LineKind>): ParseState
    decreases |ks|
  {
    if |ks| == 0 then st else Run(Step(st, ks[0]), ks[1..])
  }

  /** After the loop the open track is appended. */
  function Finish(st: ParseState): seq<Track> {
    st.tracks + Open(st.current)
  }

  // ---------------------------------------------------------------------
  // The reference reading of a cue sheet

  datatype Tag = FileTag | TitleTag | IndexTag

  predicate Tagged(k: LineKind, tag: Tag) {
    match tag
    case FileTag => k.FileLine?
    case TitleTag => k.TitleLine?
    case IndexTag => k.IndexLine?
  }

  /** Position of the last line of a kind, or -1. */
  function LastOf(ks: seq<LineKind>, tag: Tag): (p: int)
    ensures -1 <= p < |ks|
    ensures p >= 0 ==> Tagged(ks[p], tag)
    ensures forall k | p < k < |ks| :: !Tagged(ks[k], tag)
    decreases |ks|
  {
    if |ks| == 0 then -1
    else if Tagged(ks[|ks| - 1], tag) then |ks| - 1
    else LastOf(ks[..|ks| - 1], tag)
  }

  /** Number of lines before the next TRACK line. */
  function SegLen(ks: seq<LineKind>): (n: nat)
    ensures n <= |ks|
    ensures forall k | 0 <= k < n :: !ks[k].TrackLine?
    ensures n < |ks| ==> ks[n].TrackLine?
    decreases |ks|
  {
    if |ks| == 0 || ks[0].TrackLine? then 0 else 1 + SegLen(ks[1..])
  }

  /** A track after the lines of its segment: the last TITLE gives the title,
      the last INDEX 01 the start, and without one the field is unchanged. */
  function Settle(t: Track, seg: seq<LineKind>): Track {
    var ti := LastOf(seg, TitleTag);
    var ix := LastOf(seg, IndexTag);
    t.(title := if ti >= 0 then seg[ti].title else t.title,
       startTime := if ix >= 0 then seg[ix].start else t.startTime)
  }

  /** One track per TRACK line, in file order, each settled by the lines up
      to the next TRACK line; lines before the first TRACK belong to none. */
  function RefTracks(ks: seq<LineKind>): seq<Track>
    decreases |ks|
  {
    if |ks| == 0 then []
    else if ks[0].TrackLine? then
      [Settle(NewTrack(ks[0].number), ks[1..][..SegLen(ks[1..])])] + RefTracks(ks[1..])
    else RefTracks(ks[1..])
  }

  /** The name on the last FILE line, or "" when there is none. */
  function RefWav(ks: seq<LineKind>): string {
    var p := LastOf(ks, FileTag);
    if p >= 0 then ks[p].name else ""
  }

  function Pending(current: Option<Track>, seg: seq<LineKind>): seq<Track> {
    if current.Some? then [Settle(current.value, seg)] else []
  }

  lemma LastOfCons(k: LineKind, ks: seq<LineKind>, tag: Tag)
    ensures LastOf([k] + ks, tag) == (if LastOf(ks, tag) >= 0 then LastOf(ks, tag) + 1
                                      else if Tagged(k, tag) then 0 else -1)
  {
    var s := [k] + ks;
    var p := LastOf(ks, tag);
    var r := if p >= 0 then p + 1 else if Tagged(k, tag) then 0 else -1;
    forall j | r < j < |s| ensures !Tagged(s[j], tag) {
      if j > 0 { assert s[j] == ks[j - 1]; }
    }
    assert r >= 0 ==> s[r] == (if p >= 0 then ks[p] else k);
    LastOfUnique(s, tag, r);
  }

  /** The last position of a kind is the only one with none of it after. */
  lemma LastOfUnique(s: seq<LineKind>, tag: Tag, r: int)
    requires -1 <= r < |s| && (r >= 0 ==> Tagged(s[r], tag))
    requires forall j | r < j < |s| :: !Tagged(s[j], tag)
    ensures LastOf(s, tag) == r
  {
  }

  lemma SettleEmpty(t: Track)
    ensures Settle(t, []) == t
  {
  }

  /** The lines of a segment before a non-TRACK line act through one step. */
  lemma SettleCons(t: Track, k: LineKind, seg: seq<LineKind>)
    requires !k.TrackLine?
    ensures Settle(Amend(t, k), seg) == Settle(t, [k] + seg)
  {
    SettleTitleCons(t, k, seg);
    SettleStartCons(t, k, seg);
  }

  lemma SettleTitleCons(t: Track, k: LineKind, seg: seq<LineKind>)
    ensures Settle(Amend(t, k), seg).title == Settle(t, [k] + seg).title
  {
    LastOfCons(k, seg, TitleTag);
    var s := [k] + seg;
    var p := LastOf(seg, TitleTag);
    if p >= 0 { assert s[p + 1] == seg[p]; }
  }

  lemma SettleStartCons(t: Track, k: LineKind, seg: seq<LineKind>)
    ensures Settle(Amend(t, k), seg).startTime == Settle(t, [k] + seg).startTime
  {
    LastOfCons(k, seg, IndexTag);
    var s := [k] + seg;
    var p := LastOf(seg, IndexTag);
    if p >= 0 { assert s[p + 1] == seg[p]; }
  }

  /** The state machine computes the reference reading, from any state. */
  lemma {:induction false} RunFinish(st: ParseState, ks: seq<LineKind>)
    ensures Finish(Run(st, ks)) == st.tracks + Pending(st.current, ks[..SegLen(ks)]) + RefTracks(ks)
    ensures Run(st, ks).wavFile == (if LastOf(ks, FileTag) >= 0 then ks[LastOf(ks, FileTag)].name else st.wavFile)
    decreases |ks|
  {
    RunTracks(st, ks);
    RunWav(st, ks);
  }

  lemma {:induction false} RunTracks(st: ParseState, ks: seq<LineKind>)
    ensures Finish(Run(st, ks)) == st.tracks + Pending(st.current, ks[..SegLen(ks)]) + RefTracks(ks)
    decreases |ks|
  {
    if |ks| == 0 {
      if st.current.Some? { SettleEmpty(st.current.value); }
    } else {
      RunTracks(Step(st, ks[0]), ks[1..]);
      StepTracks(st, ks[0], ks[1..]);
      assert ks == [ks[0]] + ks[1..];
    }
  }

  /** One step moves a line from the reference reading into the state. */
  lemma StepTracks(st: ParseState, k: LineKind, rest: seq<LineKind>)
    ensures var ks := [k] + rest;
      var st' := Step(st, k);
      st.tracks + Pending(st.current, ks[..SegLen(ks)]) + RefTracks(ks)
        == st'.tracks + Pending(st'.current, rest[..SegLen(rest)]) + RefTracks(rest)
  {
    var ks := [k] + rest;
    assert ks[1..] == rest;
    if k.TrackLine? {
      if st.current.Some? { SettleEmpty(st.current.value); }
    } else {
      if st.current.Some? { SettleCons(st.current.value, k, rest[..SegLen(rest)]); }
      assert ks[..SegLen(ks)] == [k] + rest[..SegLen(rest)];
    }
  }

  lemma {:induction false} RunWav(st: ParseState, ks: seq<LineKind>)
    ensures Run(st, ks).wavFile == (if LastOf(ks, FileTag) >= 0 then ks[LastOf(ks, FileTag)].name else st.wavFile)
    decreases |ks|
  {
    if |ks| > 0 {
      var k, rest := ks[0], ks[1..];
      RunWav(Step(st, k), rest);
      assert ks == [k] + rest;
      LastOfCons(k, rest, FileTag);
      var p := LastOf(rest, FileTag);
      if p >= 0 { assert ks[p + 1] == rest[p]; }
    }
  }

  /** From the initial state: the closed tracks are the reference tracks and
      the audio file is the last FILE line's. */
  lemma RunMatchesReference(ks: seq<LineKind>)
    ensures Finish(Run(Start, ks)) == RefTracks(ks)
    ensures Run(Start, ks).wavFile == RefWav(ks)
  {
    RunFinish(Start, ks);
  }

  // ---------------------------------------------------------------------
  // parseCueFile

  predicate HasTrackLine(ks: seq<LineKind>) {
    exists k | 0 <= k < |ks| :: ks[k].TrackLine?
  }

  function CountTrackLines(ks: seq<LineKind>): nat {
    if |ks| == 0 then 0 else (if ks[0].TrackLine? then 1 else 0) + CountTrackLines(ks[1..])
  }

  /** One reference track per TRACK line. */
  lemma {:induction false} RefTracksCount(ks: seq<LineKind>)
    ensures |RefTracks(ks)| == CountTrackLines(ks)
    ensures |RefTracks(ks)| > 0 <==> HasTrackLine(ks)
    decreases |ks|
  {
    if |ks| > 0 {
      RefTracksCount(ks[1..]);
      if HasTrackLine(ks[1..]) {
        var k :| 0 <= k < |ks[1..]| && ks[1..][k].TrackLine?;
        assert ks[k + 1].TrackLine?;
      }
      if HasTrackLine(ks) && !ks[0].TrackLine? {
        var k :| 0 <= k < |ks| && ks[k].TrackLine?;
        assert ks[1..][k - 1].TrackLine?;
      }
    }
  }

  /** The loop over the scanner's lines and the check for tracks: a sheet
      without a single TRACK line is rejected, one without a FILE line is
      not. */
  function ScanSheet(cuePath: string, content: string): (r: Result<CueSheet>)
    ensures r.Ok? <==> HasTrackLine(Kinds(Lines(content)))
    ensures r.Ok? ==> r.value.tracks == RefTracks(Kinds(Lines(content)))
    ensures r.Ok? ==> r.value.wavFile == RefWav(Kinds(Lines(content)))
  {
    var ks := Kinds(Lines(content));
    var st := Run(Start, ks);
    RunMatchesReference(ks);
    RefTracksCount(ks);
    var tracks := Finish(st);
    if |tracks| == 0 then Err("no tracks found in cue file '" + cuePath + "'")
    else Ok(CueSheet(st.wavFile, tracks))
  }

  /** The cue sheet of a text, whose bytes in Go are its UTF-8 encoding. The
      scanner's error is checked after the loop and before the track count,
      so a line too long for the scanner fails the sheet whatever else it
      holds. */
  function ParseCue(cuePath: string, content: string): (r: Result<CueSheet>)
    ensures r.Ok? <==> !TooLong(Encode(content)) && HasTrackLine(Kinds(Lines(content)))
    ensures TooLong(Encode(content)) ==> r == Err(ErrTooLong)
    ensures r.Ok? ==> r.value.tracks == RefTracks(Kinds(Lines(content)))
    ensures r.Ok? ==> r.value.wavFile == RefWav(Kinds(Lines(content)))
  {
    if TooLong(Encode(content)) then Err(ErrTooLong) else ScanSheet(cuePath, content)
  }

  /** The outcome of parsing text whose lines classify as `ks` and all fit
      the scanner's buffer. */
  lemma ParseCueReads(cuePath: string, content: string, ks: seq<LineKind>)
    requires Kinds(Lines(content)) == ks && HasTrackLine(ks)
    requires forall k | 0 <= k < |Lines(content)| :: |Encode(Lines(content)[k])| < MaxTokenSize
    ensures ParseCue(cuePath, content).Ok?
    ensures ParseCue(cuePath, content).value.tracks == RefTracks(ks)
    ensures ParseCue(cuePath, content).value.wavFile == RefWav(ks)
  {
    TooLongLines(content);
  }

  /** `parseCueFile`: read and decode the file, then parse it. The scanner
      counts the bytes the reader returned; the patterns see their runes. */
  function ParseCueFile(cuePath: string, file: Result<seq<byte>>, gbk: seq<byte> -> Result<seq<byte>>): (r: Result<CueSheet>)
    ensures ReadText(file, gbk).Err? ==> r.Err?
    ensures ReadText(file, gbk).Ok? && TooLong(ReadText(file, gbk).value) ==> r == Err(ErrTooLong)
    ensures ReadText(file, gbk).Ok? && !TooLong(ReadText(file, gbk).value)
            ==> r == ScanSheet(cuePath, Decode(ReadText(file, gbk).value))
  {
    match ReadText(file, gbk)
    case Err(e) => Err("failed to read CUE file with encoding detection: " + e)
    case Ok(bs) => if TooLong(bs) then Err(ErrTooLong) else ScanSheet(cuePath, Decode(bs))
  }

  /** A file that reads as the encoding of a text parses as that text. */
  lemma ParseCueFileOfText(cuePath: string, file: Result<seq<byte>>, gbk: seq<byte> -> Result<seq<byte>>, s: string)
    requires ReadText(file, gbk) == Ok(Encode(s))
    ensures ParseCueFile(cuePath, file, gbk) == ParseCue(cuePath, s)
  {
    DecodeEncode(s);
  }

  // ---------------------------------------------------------------------
  // The scanner's token limit

  /** `bufio.MaxScanTokenSize`: the most bytes a `bufio.Scanner` buffers while
      it looks for the end of a line. */
  const MaxTokenSize: nat := 65536

  const ErrTooLong: string := "bufio.Scanner: token too long"

  /** The buffer, filled from byte i on, holds no newline. */
  predicate FullBufferAt(bs: seq<byte>, i: nat) {
    i + MaxTokenSize <= |bs| && forall k | i <= k < i + MaxTokenSize :: bs[k] != 10
  }

  /** `bufio.ErrTooLong`: the scanner's buffer has grown to its limit and is
      full of one line, with no newline in it. */
  predicate TooLong(bs: seq<byte>) {
    exists i: nat | i < |bs| :: FullBufferAt(bs, i)
  }

  /** In terms of lines: a text is too long for the scanner exactly when one
      of its lines takes `MaxTokenSize` bytes or more in UTF-8. */
  lemma TooLongLines(content: string)
    ensures TooLong(Encode(content)) <==> exists k | 0 <= k < |Lines(content)| :: |Encode(Lines(content)[k])| >= MaxTokenSize
  {
    var lines := Lines(content);
    var body := Encode(Join(lines, "\n"));
    TooLongJoin(lines);
    if EndsInNewline(content) {
      EncodeAppend(Join(lines, "\n"), "\n");
      assert Encode("\n") == [10];
      TooLongSplit(body, []);
      assert body + [10] + [] == Encode(content);
      assert !FullBufferAt([], 0);
    }
  }

  /** Newline-free pieces joined by newlines: too long exactly when a piece is. */
  lemma {:induction false} TooLongJoin(ws: seq<string>)
    requires forall k | 0 <= k < |ws| :: forall i | 0 <= i < |ws[k]| :: ws[k][i] != '\n'
    ensures TooLong(Encode(Join(ws, "\n"))) <==> exists k | 0 <= k < |ws| :: |Encode(ws[k])| >= MaxTokenSize
    decreases |ws|
  {
    if |ws| == 0 {
      assert Encode(Join(ws, "\n")) == [];
    } else if |ws| == 1 {
      TooLongPiece(ws[0]);
    } else {
      var rest := Join(ws[1..], "\n");
      assert Join(ws, "\n") == ws[0] + "\n" + rest;
      EncodeAppend(ws[0] + "\n", rest);
      EncodeAppend(ws[0], "\n");
      assert Encode("\n") == [10];
      TooLongSplit(Encode(ws[0]), Encode(rest));
      TooLongPiece(ws[0]);
      TooLongJoin(ws[1..]);
      if exists k | 0 <= k < |ws| - 1 :: |Encode(ws[1..][k])| >= MaxTokenSize {
        var k :| 0 <= k < |ws| - 1 && |Encode(ws[1..][k])| >= MaxTokenSize;
        assert ws[k + 1] == ws[1..][k];
      }
      if exists k | 1 <= k < |ws| :: |Encode(ws[k])| >= MaxTokenSize {
        var k :| 1 <= k < |ws| && |Encode(ws[k])| >= MaxTokenSize;
        assert ws[1..][k - 1] == ws[k];
      }
    }
  }

  /** A newline-free piece is too long exactly when it fills the buffer. */
  lemma TooLongPiece(w: string)
    requires forall i | 0 <= i < |w| :: w[i] != '\n'
    ensures TooLong(Encode(w)) <==> |Encode(w)| >= MaxTokenSize
  {
    EncodeNoNewline(w);
    if |Encode(w)| >= MaxTokenSize {
      assert FullBufferAt(Encode(w), 0);
    }
  }

  /** A newline byte separates: no full buffer reaches across it. */
  lemma TooLongSplit(x: seq<byte>, y: seq<byte>)
    ensures TooLong(x + [10] + y) <==> TooLong(x) || TooLong(y)
  {
    var z := x + [10] + y;
    var n := |x| + 1;
    if TooLong(z) {
      var i: nat :| i < |z| && FullBufferAt(z, i);
      assert z[|x|] == 10;
      if i + MaxTokenSize <= |x| {
        assert forall k | i <= k < i + MaxTokenSize :: x[k] == z[k];
        assert FullBufferAt(x, i);
      } else {
        var j: nat := i - n;
        assert forall k | j <= k < j + MaxTokenSize :: y[k] == z[k + n];
        assert FullBufferAt(y, j);
      }
    }
    if TooLong(x) {
      var i: nat :| i < |x| && FullBufferAt(x, i);
      assert forall k | i <= k < i + MaxTokenSize :: z[k] == x[k];
      assert FullBufferAt(z, i);
    }
    if TooLong(y) {
      var j: nat :| j < |y| && FullBufferAt(y, j);
      assert forall k | j + n <= k < j + n + MaxTokenSize :: z[k] == y[k - n];
      assert FullBufferAt(z, j + n);
    }
  }

  // ---------------------------------------------------------------------
  // Properties of the reference reading

  function TrackNumbers(ks: seq<LineKind>): seq<int> {
    if |ks| == 0 then []
    else (if ks[0].TrackLine? then [ks[0].number] else []) + TrackNumbers(ks[1..])
  }

  function Numbers(ts: seq<Track>): seq<int> {
    if |ts| == 0 then [] else [ts[0].number] + Numbers(ts[1..])
  }

  /** The tracks carry the numbers of the TRACK lines, in file order. */
  lemma {:induction false} RefTracksNumbers(ks: seq<LineKind>)
    ensures Numbers(RefTracks(ks)) == TrackNumbers(ks)
    decreases |ks|
  {
    if |ks| > 0 {
      RefTracksNumbers(ks[1..]);
      if ks[0].TrackLine? {
        var ts := RefTracks(ks);
        assert ts[1..] == RefTracks(ks[1..]);
      }
    }
  }

  /** Lines before the first TRACK line (an album TITLE, say) contribute no
      track and change none. */
  lemma {:induction false} RefTracksSkipsPreamble(pre: seq<LineKind>, ks: seq<LineKind>)
    requires forall k | 0 <= k < |pre| :: !pre[k].TrackLine?
    ensures RefTracks(pre + ks) == RefTracks(ks)
    decreases |pre|
  {
    if |pre| > 0 {
      assert (pre + ks)[1..] == pre[1..] + ks;
      RefTracksSkipsPreamble(pre[1..], ks);
    } else {
      assert pre + ks == ks;
    }
  }

  /** Of two TITLE lines in a track's segment the later one wins. */
  lemma LaterTitleWins(t: Track, a: string, b: string, seg: seq<LineKind>)
    requires forall k | 0 <= k < |seg| :: !seg[k].TitleLine?
    ensures Settle(t, [TitleLine(a), TitleLine(b)] + seg).title == b
  {
    var s := [TitleLine(a), TitleLine(b)] + seg;
    assert s[1] == TitleLine(b);
    assert forall k | 1 < k < |s| :: s[k] == seg[k - 2];
  }

  // ---------------------------------------------------------------------
  // How lines are classified

  /** A pattern cannot match a line none of whose runes is (in any case) the
      pattern's first letter. */
  lemma NoMatchWithoutFirstLetter(p: Pattern, line: string)
    requires forall i | 0 <= i < |line| :: !FoldEq(line[i], Keyword(p)[0])
    ensures Submatch(p, line).None?
  {
    forall j | 0 <= j <= |line| ensures GroupAt(p, line, j).None? {
    }
  }

  /** A match at the very start is the leftmost one. */
  lemma MatchAtStart(p: Pattern, line: string)
    requires GroupAt(p, line, 0).Some?
    ensures Submatch(p, line) == GroupAt(p, line, 0)
  {
  }

  /** The quoted group is exactly the text up to the next quote. */
  lemma QuotedGroup(line: string, i: nat, keyword: string, g: string)
    requires FoldPrefixAt(line, i, keyword)
    requires |g| > 0 && forall k | 0 <= k < |g| :: g[k] != '"'
    requires PrefixAt(line, i + |keyword|, g + "\"")
    ensures QuotedAt(line, i, keyword) == Some(g)
  {
    var j := i + |keyword|;
    assert forall k | 0 <= k < |g| :: line[j + k] == g[k] by {
      forall k | 0 <= k < |g| ensures line[j + k] == g[k] {
        assert line[j..j + |g| + 1][k] == (g + "\"")[k];
      }
    }
    assert line[j + |g|] == '"' by { assert line[j..j + |g| + 1][|g|] == (g + "\"")[|g|]; }
    var r := QuotedAt(line, i, keyword);
    assert r.Some?;
    QuoteFreeUnique(line, j, r.value, g);
  }

  /** At most one quote-free text is followed by a quote from a given position. */
  lemma QuoteFreeUnique(line: string, j: nat, g: string, h: string)
    requires PrefixAt(line, j, g + "\"") && PrefixAt(line, j, h + "\"")
    requires forall k | 0 <= k < |g| :: g[k] != '"'
    requires forall k | 0 <= k < |h| :: h[k] != '"'
    ensures g == h
  {
    assert forall k | 0 <= k <= |g| :: line[j + k] == (g + "\"")[k] by {
      forall k | 0 <= k <= |g| ensures line[j + k] == (g + "\"")[k] {
        assert line[j..j + |g| + 1][k] == (g + "\"")[k];
      }
    }
    assert forall k | 0 <= k <= |h| :: line[j + k] == (h + "\"")[k] by {
      forall k | 0 <= k <= |h| ensures line[j + k] == (h + "\"")[k] {
        assert line[j..j + |h| + 1][k] == (h + "\"")[k];
      }
    }
    var n := if |g| < |h| then |g| else |h|;
    assert (g + "\"")[n] == line[j + n] == (h + "\"")[n];
    assert |g| == |h|;
    assert forall k | 0 <= k < |g| :: g[k] == (g + "\"")[k] == line[j + k] == (h + "\"")[k] == h[k];
  }

  /** A TRACK line gives the number its digits spell. */
  lemma ClassifyTrackLine(d: string)
    requires |d| > 0 && AllDigits(d)
    ensures Classify("TRACK " + d + " AUDIO") == TrackLine(Atoi(d))
  {
    var line := "TRACK " + d + " AUDIO";
    var n := |d|;
    forall i | 0 <= i < |line| ensures !FoldEq(line[i], Keyword(FilePattern)[0]) {
      if i < 6 { assert line[i] == "TRACK "[i]; }
      else if i < 6 + n { assert line[i] == d[i - 6]; }
      else { assert line[i] == " AUDIO"[i - 6 - n]; }
    }
    NoMatchWithoutFirstLetter(FilePattern, line);
    assert forall k | 0 <= k < 6 :: line[k] == Keyword(TrackPattern)[k];
    assert forall k | 0 <= k < 6 :: line[6 + n + k] == AudioKeyword[k];
    TrackAtComplete(line, 0, n);
    assert line[6..6 + n] == d;
    MatchAtStart(TrackPattern, line);
  }

  /** A FILE line names the text between its quotes. */
  lemma ClassifyFileLine(name: string, rest: string)
    requires |name| > 0 && forall k | 0 <= k < |name| :: name[k] != '"'
    ensures Classify("FILE \"" + name + "\"" + rest) == FileLine(name)
  {
    var line := "FILE \"" + name + "\"" + rest;
    var n := |name|;
    assert forall k | 0 <= k < 6 :: line[k] == Keyword(FilePattern)[k];
    assert line[6..6 + n + 1] == name + "\"";
    QuotedGroup(line, 0, Keyword(FilePattern), name);
    MatchAtStart(FilePattern, line);
  }

  /** A FILE match needs a quote five runes after a rune that is f or F,
      with at least one rune after that quote. */
  lemma FileMatchShape(line: string, i: nat)
    ensures GroupAt(FilePattern, line, i).Some? ==>
      i + 6 < |line| && line[i + 5] == '"' && FoldEq(line[i], 'F')
  {
    if GroupAt(FilePattern, line, i).Some? {
      assert FoldEq(line[i + 5], Keyword(FilePattern)[5]);
      assert FoldEq(line[i + 0], Keyword(FilePattern)[0]);
    }
  }

  /** A TITLE line whose text has no quote and no digit names its text. The
      FILE pattern cannot match: its quote would have to be the title's
      opening quote, which is preceded by "ITLE" and not by "FILE"; the TRACK
      pattern needs a digit. */
  lemma ClassifyTitleLine(t: string)
    requires |t| > 0
    requires forall k | 0 <= k < |t| :: t[k] != '"' && !IsDigit(t[k])
    ensures Classify("TITLE \"" + t + "\"") == TitleLine(t)
  {
    var line := "TITLE \"" + t + "\"";
    TitleLineRunes(t, line);
    NoFileMatch(line);
    NoTrackMatch(line);
    assert forall k | 0 <= k < 7 :: line[k] == Keyword(TitlePattern)[k];
    assert line[7..7 + |t| + 1] == t + "\"";
    QuotedGroup(line, 0, Keyword(TitlePattern), t);
    MatchAtStart(TitlePattern, line);
  }

  /** The runes of a TITLE line: no digit anywhere, and quotes only around
      the text. */
  lemma TitleLineRunes(t: string, line: string)
    requires line == "TITLE \"" + t + "\""
    requires forall k | 0 <= k < |t| :: t[k] != '"' && !IsDigit(t[k])
    ensures |line| == |t| + 8 && line[1] == 'I'
    ensures forall i | 0 <= i < |line| :: !IsDigit(line[i]) && (line[i] == '"' ==> i == 6 || i == |line| - 1)
  {
    forall i | 0 <= i < |line| ensures !IsDigit(line[i]) && (line[i] == '"' ==> i == 6 || i == |line| - 1) {
      if i < 7 { assert line[i] == "TITLE \""[i]; }
      else if i < 7 + |t| { assert line[i] == t[i - 7]; }
    }
  }

  /** The FILE pattern needs a quote five runes after an `F`. */
  lemma NoFileMatch(line: string)
    requires |line| > 1 && line[1] == 'I'
    requires forall i | 0 <= i < |line| :: line[i] == '"' ==> i == 6 || i == |line| - 1
    ensures Submatch(FilePattern, line).None?
  {
    forall j | 0 <= j <= |line| ensures GroupAt(FilePattern, line, j).None? {
      FileMatchShape(line, j);
    }
  }

  /** The TRACK pattern needs a digit. */
  lemma NoTrackMatch(line: string)
    requires forall i | 0 <= i < |line| :: !IsDigit(line[i])
    ensures Submatch(TrackPattern, line).None?
  {
    forall j | 0 <= j <= |line| ensures GroupAt(TrackPattern, line, j).None? {
    }
  }

  /** An `INDEX 01 mm:ss:ff` line sets the start to the position it spells. */
  lemma ClassifyIndexLine(time: string)
    requires TimeShape(time)
    ensures Classify("INDEX 01 " + time) == IndexLine(IndexStart(time))
  {
    var line := "INDEX 01 " + time;
    IndexLineLetters(time);
    NoMatchWithoutFirstLetter(FilePattern, line);
    NoMatchWithoutFirstLetter(TrackPattern, line);
    NoMatchWithoutFirstLetter(TitlePattern, line);
    assert forall k | 0 <= k < 9 :: line[k] == Keyword(IndexPattern)[k];
    assert line[9..17] == time;
    MatchAtStart(IndexPattern, line);
  }

  lemma IndexLineLetters(time: string)
    requires TimeShape(time)
    ensures var line := "INDEX 01 " + time;
      forall i | 0 <= i < |line| :: !FoldEq(line[i], 'F') && !FoldEq(line[i], 'T')
  {
    var line := "INDEX 01 " + time;
    forall i | 0 <= i < |line| ensures !FoldEq(line[i], 'F') && !FoldEq(line[i], 'T') {
      if i < 9 { assert line[i] == "INDEX 01 "[i]; }
      else { assert line[i] == time[i - 9]; }
    }
  }

  /** The start an INDEX 01 line sets: minutes, seconds and frames of the
      group, the frames in whole milliseconds, as nanoseconds. */
  lemma IndexStartValue(time: string)
    requires TimeShape(time)
    ensures IndexStart(time) == ExactMillis(DigitsValue(time[..2]), DigitsValue(time[3..5]), DigitsValue(time[6..])) * NanosPerMilli
  {
    var a, b, c := time[..2], time[3..5], time[6..];
    TwoDigits(a, DigitVal(a[0]) * 10 + DigitVal(a[1]));
    TwoDigits(b, DigitVal(b[0]) * 10 + DigitVal(b[1]));
    TwoDigits(c, DigitVal(c[0]) * 10 + DigitVal(c[1]));
    assert time == a + ":" + b + ":" + c;
    ParseCueTimeOf(a, b, c);
  }
}
