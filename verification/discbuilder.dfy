/** `processCueFile` (parser.go): one parsed cue sheet becomes one disc of
    the album. The audio file named by the sheet is looked up next to the
    cue file, each track ends where the next one starts, and every title is
    converted and checked for a guest singer. The file system's answer to
    "does this path not exist?" is the `missing` parameter; `t2s` is the
    traditional-to-simplified conversion. */
module DiscBuilder {
  import opened Wrappers
  import opened Runes
  import opened Paths
  import opened AlbumModel
  import opened CueParser
  import opened GuestSplit
  import opened Utf8

  /** The audio file of a sheet: its `FILE` name joined to the cue file's directory. */
  function WavPathOf(cuePath: string, wavFile: string): string {
    JoinPath(Dir(cuePath), wavFile)
  }

  /** Every track but the last ends where the next one starts. */
  predicate Contiguous(ts: seq<Track>) {
    forall i | 0 <= i < |ts| - 1 :: ts[i].endTime == ts[i + 1].startTime
  }

  /** One disc track from one cue track: the album's title, artist and year
      are copied in, the online fields stay at their zero values. */
  function DiscTrack(ct: Track, endTime: int, album: Album, t2s: string -> string): (t: Track)
    ensures t.number == ct.number && t.startTime == ct.startTime && t.endTime == endTime
    ensures t.album == album.title && t.albumArtist == album.artist && t.year == album.year
    ensures t.onlineId == 0 && t.lyrics == ""
    ensures Credit(t.title, t.artist) == SplitGuest(t2s(ct.title), album.artist, t2s)
  {
    var credit := SplitGuest(t2s(ct.title), album.artist, t2s);
    Track(ct.number, credit.title, credit.artist, ct.startTime, endTime, album.title, album.artist, album.year, 0, "")
  }

  /** The track loop of `processCueFile`: one track per cue track in the
      same order, contiguous, the last one open-ended (end 0). */
  function DiscTracks(cts: seq<Track>, album: Album, t2s: string -> string): (ts: seq<Track>)
    ensures |ts| == |cts|
    ensures Contiguous(ts)
    ensures |ts| > 0 ==> ts[|ts| - 1].endTime == 0
    ensures forall i | 0 <= i < |ts| :: ts[i].number == cts[i].number && ts[i].startTime == cts[i].startTime
    ensures forall i | 0 <= i < |ts| :: ts[i].album == album.title && ts[i].albumArtist == album.artist && ts[i].year == album.year
    ensures forall i | 0 <= i < |ts| :: Credit(ts[i].title, ts[i].artist) == SplitGuest(t2s(cts[i].title), album.artist, t2s)
  {
    var ts := seq(|cts|, i requires 0 <= i < |cts| => DiscTrack(cts[i], NextStart(cts, i), album, t2s));
    assert forall i | 0 <= i < |ts| :: ts[i] == DiscTrack(cts[i], NextStart(cts, i), album, t2s);
    ts
  }

  /** Where track i of a sheet ends: the next track's start, or 0 for the last. */
  function NextStart(cts: seq<Track>, i: nat): int {
    if i + 1 < |cts| then cts[i + 1].startTime else 0
  }

  /** `processCueFile`: the sheet's read or parse error is returned as it
      is; a sheet whose audio file does not exist is an error; otherwise the
      disc holds the cue path, the joined audio path and the tracks. */
  function ProcessCueFile(cuePath: string, file: Result<seq<byte>>, gbk: seq<byte> -> Result<seq<byte>>,
                          album: Album, discNumber: int, missing: string -> bool, t2s: string -> string): (r: Result<Disc>)
    ensures ParseCueFile(cuePath, file, gbk).Err? ==> r == Err(ParseCueFile(cuePath, file, gbk).msg)
    ensures ParseCueFile(cuePath, file, gbk).Ok? ==>
      var wav := WavPathOf(cuePath, ParseCueFile(cuePath, file, gbk).value.wavFile);
      && (missing(wav) ==> r == Err("source WAV file '" + wav + "' specified in CUE not found"))
      && (!missing(wav) ==> r.Ok? && r.value.wavPath == wav)
    ensures r.Ok? ==> r.value.discNumber == discNumber && r.value.cuePath == cuePath
    ensures r.Ok? ==> r.value.tracks == DiscTracks(ParseCueFile(cuePath, file, gbk).value.tracks, album, t2s)
  {
    match ParseCueFile(cuePath, file, gbk)
    case Err(e) => Err(e)
    case Ok(sheet) =>
      var wav := WavPathOf(cuePath, sheet.wavFile);
      if missing(wav) then Err("source WAV file '" + wav + "' specified in CUE not found")
      else Ok(Disc(discNumber, cuePath, wav, DiscTracks(sheet.tracks, album, t2s)))
  }

  /** A plain file name in a sheet's `FILE` line names a file in the cue
      file's own directory. */
  lemma WavBesideCue(cuePath: string, wavFile: string)
    requires SimpleName(wavFile)
    ensures Dir(WavPathOf(cuePath, wavFile)) == Dir(cuePath)
    ensures Base(WavPathOf(cuePath, wavFile)) == wavFile
  {
    var dir := cuePath[..LastIndexOf(cuePath, '/') + 1];
    CleanIsNormal(dir);
    CleanIdempotent(dir);
    DirBaseOfJoin(Dir(cuePath), wavFile);
  }

  /** A sheet without a `FILE` line names the cue file's directory itself
      as the audio file, so it is only accepted when that directory "exists". */
  lemma NoFileLineNamesDirectory(cuePath: string)
    ensures WavPathOf(cuePath, "") == Dir(cuePath)
  {
    var dir := cuePath[..LastIndexOf(cuePath, '/') + 1];
    CleanIsNormal(dir);
    CleanIdempotent(dir);
    var d := Dir(cuePath);
    CleanTrailingSlash(d);
    assert d + "/" + "" == d + "/";
  }
}
