/** `ProcessAlbum` in processor.go (the "root" processor) and in
    pkg/processor/processor.go (the "package" processor): where each track
    of an album is written and which ffmpeg runs produce it. Directory
    creation is the `mkdirOk` oracle; the online metadata look-up, which
    sets a track's online id and lyrics, is the `fetch` oracle. The outcome
    of each ffmpeg run is not an input: a failed run is only logged, so
    nothing the function returns depends on it. */
module Processor {
  import opened Wrappers
  import opened Runes
  import opened GoInt
  import opened Decimal
  import opened Paths
  import opened AlbumModel
  import opened Sanitize
  import opened FFmpegArgs
  import opened FFmpegTime

  datatype Variant = RootProcessor | PackageProcessor

  /** One ffmpeg run: the executable and its arguments. */
  datatype Command = Command(exe: string, args: seq<string>)

  /** What `ProcessAlbum` did: the directory it failed to create, if any
      (it returns an error naming it), and the runs it made before. */
  datatype Outcome = Outcome(failedDir: Option<string>, runs: seq<Command>)

  /** `<target>/<artist>/<title> (<year>)`, artist and title sanitised. */
  function AlbumDir(target: string, a: Album): string {
    JoinPath(JoinPath(target, SanitizeFileName(a.artist)), SanitizeFileName(a.title) + " (" + a.year + ")")
  }

  /** The directory of one disc: a `Disc N` subdirectory only when the
      album has more than one disc. */
  function DiscDir(albumDir: string, a: Album, d: Disc): string {
    if |a.discs| > 1 then JoinPath(albumDir, "Disc " + Itoa(d.discNumber)) else albumDir
  }

  /** `%02d - <title>.flac`. */
  function TrackFileName(t: Track): string {
    FormatPadded(t.number, 2) + " - " + SanitizeFileName(t.title) + ".flac"
  }

  /** `FetchMetadataAndUpdateTrack`: only the online id and the lyrics change. */
  function Fetched(t: Track, fetch: Track -> (int, string)): (r: Track)
    ensures r.(onlineId := t.onlineId, lyrics := t.lyrics) == t
  {
    t.(onlineId := fetch(t).0, lyrics := fetch(t).1)
  }

  /** Every offset of the album is a `time.Duration`. */
  predicate AllFit(a: Album) {
    forall d, t | d in a.discs && t in d.tracks :: DurationsFit(t)
  }

  /** The runs for the tracks of one disc, in order. The root processor
      looks up each track's online metadata first and runs "ffmpeg"; the
      package processor runs its configured executable. */
  function TrackRuns(v: Variant, a: Album, d: Disc, dir: string, ts: seq<Track>, ffmpegPath: string,
                     fetch: Track -> (int, string)): (cs: seq<Command>)
    requires forall t | t in ts :: DurationsFit(t)
    ensures |cs| == |ts|
    ensures forall k | 0 <= k < |ts| :: cs[k] == TrackRun(v, a, d, dir, ts[k], ffmpegPath, fetch)
  {
    seq(|ts|, k requires 0 <= k < |ts| => TrackRun(v, a, d, dir, ts[k], ffmpegPath, fetch))
  }

  /** The run for one track: cut from the disc's audio file into the
      track's file in `dir`, with the album's cover. */
  function TrackRun(v: Variant, a: Album, d: Disc, dir: string, track: Track, ffmpegPath: string,
                    fetch: Track -> (int, string)): (c: Command)
    requires DurationsFit(track)
    ensures c.exe == if v == RootProcessor then "ffmpeg" else ffmpegPath
    ensures ReadArgs(c.args).Some?
    ensures ReadArgs(c.args).value.input == d.wavPath
    ensures ReadArgs(c.args).value.output == JoinPath(dir, TrackFileName(track))
    ensures ReadArgs(c.args).value.start == FormatFFmpegTime(track.startTime)
    ensures ReadArgs(c.args).value.end.Some? <==> track.endTime > 0
    ensures ReadArgs(c.args).value.cover.Some? <==> a.coverArt != ""
    ensures ReadArgs(c.args) == Some(Request(
      FormatFFmpegTime(track.startTime),
      if track.endTime > 0 then Some(FormatFFmpegTime(track.endTime)) else None,
      d.wavPath,
      if a.coverArt != "" then Some(a.coverArt) else None,
      Tags(TagFields(if v == RootProcessor then Fetched(track, fetch) else track)),
      JoinPath(dir, TrackFileName(track))))
  {
    var t := if v == RootProcessor then Fetched(track, fetch) else track;
    var exe := if v == RootProcessor then "ffmpeg" else ffmpegPath;
    Command(exe, BuildArgs(d.wavPath, JoinPath(dir, TrackFileName(t)), t, a.coverArt))
  }

  /** Where the disc loop puts each disc's files. */
  function DiscDirs(albumDir: string, a: Album): Disc -> string {
    d => DiscDir(albumDir, a, d)
  }

  /** The disc loop from disc `ds[0]` on, for any placement `dirOf` of the
      discs; a disc directory that cannot be created ends it with an error. */
  function DiscLoop(v: Variant, a: Album, dirOf: Disc -> string, ds: seq<Disc>, ffmpegPath: string,
                    mkdirOk: string -> bool, fetch: Track -> (int, string)): (o: Outcome)
    requires forall d, t | d in ds && t in d.tracks :: DurationsFit(t)
  {
    if |ds| == 0 then Outcome(None, [])
    else
      var d := ds[0];
      var dir := dirOf(d);
      if |a.discs| > 1 && !mkdirOk(dir) then Outcome(Some(dir), [])
      else
        var rest := DiscLoop(v, a, dirOf, ds[1..], ffmpegPath, mkdirOk, fetch);
        Outcome(rest.failedDir, TrackRuns(v, a, d, dir, d.tracks, ffmpegPath, fetch) + rest.runs)
  }

  /** The disc loop of `ProcessAlbum`, each disc into `DiscDir`. */
  function DiscRuns(v: Variant, a: Album, albumDir: string, ds: seq<Disc>, ffmpegPath: string,
                    mkdirOk: string -> bool, fetch: Track -> (int, string)): (o: Outcome)
    requires forall d, t | d in ds && t in d.tracks :: DurationsFit(t)
  {
    DiscLoop(v, a, DiscDirs(albumDir, a), ds, ffmpegPath, mkdirOk, fetch)
  }

  /** `ProcessAlbum`. */
  function ProcessAlbum(v: Variant, a: Album, target: string, ffmpegPath: string,
                        mkdirOk: string -> bool, fetch: Track -> (int, string)): (o: Outcome)
    requires AllFit(a)
    ensures o.failedDir.None? <==> mkdirOk(AlbumDir(target, a)) && (|a.discs| > 1 ==> forall d | d in a.discs :: mkdirOk(DiscDir(AlbumDir(target, a), a, d)))
    ensures o.failedDir.None? ==> |o.runs| == TrackCount(a.discs)
    ensures o.failedDir.None? ==> o.runs == AlbumRuns(v, a, AlbumDir(target, a), a.discs, ffmpegPath, fetch)
    ensures !mkdirOk(AlbumDir(target, a)) ==> o == Outcome(Some(AlbumDir(target, a)), [])
  {
    var albumDir := AlbumDir(target, a);
    if !mkdirOk(albumDir) then Outcome(Some(albumDir), [])
    else
      DiscRunsFail(v, a, albumDir, a.discs, ffmpegPath, mkdirOk, fetch);
      DiscRunsCount(v, a, albumDir, a.discs, ffmpegPath, mkdirOk, fetch);
      DiscRunsAll(v, a, albumDir, a.discs, ffmpegPath, mkdirOk, fetch);
      DiscRuns(v, a, albumDir, a.discs, ffmpegPath, mkdirOk, fetch)
  }

  /** The runs each disc of `ds` needs: its tracks in order, into the
      directory `dirOf` gives it. */
  function LoopParts(v: Variant, a: Album, dirOf: Disc -> string, ds: seq<Disc>, ffmpegPath: string,
                     fetch: Track -> (int, string)): (ps: seq<seq<Command>>)
    requires forall d, t | d in ds && t in d.tracks :: DurationsFit(t)
    ensures |ps| == |ds|
    ensures forall j | 0 <= j < |ds| :: ps[j] == TrackRuns(v, a, ds[j], dirOf(ds[j]), ds[j].tracks, ffmpegPath, fetch)
  {
    seq(|ds|, j requires 0 <= j < |ds| =>
      TrackRuns(v, a, ds[j], dirOf(ds[j]), ds[j].tracks, ffmpegPath, fetch))
  }

  /** The runs each disc of `ds` needs: its tracks in order, into the disc's
      own directory. */
  function DiscParts(v: Variant, a: Album, albumDir: string, ds: seq<Disc>, ffmpegPath: string,
                     fetch: Track -> (int, string)): (ps: seq<seq<Command>>)
    requires forall d, t | d in ds && t in d.tracks :: DurationsFit(t)
    ensures |ps| == |ds|
    ensures forall j | 0 <= j < |ds| :: |ps[j]| == |ds[j].tracks|
    ensures forall j | 0 <= j < |ds| :: ps[j] == TrackRuns(v, a, ds[j], DiscDir(albumDir, a, ds[j]), ds[j].tracks, ffmpegPath, fetch)
  {
    LoopParts(v, a, DiscDirs(albumDir, a), ds, ffmpegPath, fetch)
  }

  /** The runs the discs `ds` need, disc after disc. */
  function AlbumRuns(v: Variant, a: Album, albumDir: string, ds: seq<Disc>, ffmpegPath: string,
                     fetch: Track -> (int, string)): seq<Command>
    requires forall d, t | d in ds && t in d.tracks :: DurationsFit(t)
  {
    Flatten(DiscParts(v, a, albumDir, ds, ffmpegPath, fetch))
  }

  /** When no disc directory fails, the disc loop makes exactly those runs. */
  lemma {:induction false} DiscRunsAll(v: Variant, a: Album, albumDir: string, ds: seq<Disc>, ffmpegPath: string,
                                       mkdirOk: string -> bool, fetch: Track -> (int, string))
    requires forall d, t | d in ds && t in d.tracks :: DurationsFit(t)
    ensures DiscRuns(v, a, albumDir, ds, ffmpegPath, mkdirOk, fetch).failedDir.None?
      ==> DiscRuns(v, a, albumDir, ds, ffmpegPath, mkdirOk, fetch).runs == AlbumRuns(v, a, albumDir, ds, ffmpegPath, fetch)
    decreases |ds|
  {
    if |ds| > 0 {
      DiscRunsAll(v, a, albumDir, ds[1..], ffmpegPath, mkdirOk, fetch);
      AlbumRunsCons(v, a, albumDir, ds, ffmpegPath, fetch);
    }
  }

  /** The first disc's runs, then the rest's. */
  lemma AlbumRunsCons(v: Variant, a: Album, albumDir: string, ds: seq<Disc>, ffmpegPath: string,
                      fetch: Track -> (int, string))
    requires forall d, t | d in ds && t in d.tracks :: DurationsFit(t)
    requires |ds| > 0
    ensures AlbumRuns(v, a, albumDir, ds, ffmpegPath, fetch)
         == TrackRuns(v, a, ds[0], DiscDir(albumDir, a, ds[0]), ds[0].tracks, ffmpegPath, fetch)
          + AlbumRuns(v, a, albumDir, ds[1..], ffmpegPath, fetch)
  {
    LoopPartsCons(v, a, DiscDirs(albumDir, a), ds, ffmpegPath, fetch);
  }

  /** With several discs, the loop stops at the first disc directory that
      cannot be created, naming it, after the runs of the discs before it. */
  lemma DiscRunsFirstFail(v: Variant, a: Album, albumDir: string, ds: seq<Disc>, ffmpegPath: string,
                          mkdirOk: string -> bool, fetch: Track -> (int, string), i: nat)
    requires forall d, t | d in ds && t in d.tracks :: DurationsFit(t)
    requires |a.discs| > 1 && i < |ds|
    requires !mkdirOk(DiscDir(albumDir, a, ds[i]))
    requires forall j | 0 <= j < i :: mkdirOk(DiscDir(albumDir, a, ds[j]))
    ensures DiscRuns(v, a, albumDir, ds, ffmpegPath, mkdirOk, fetch).failedDir == Some(DiscDir(albumDir, a, ds[i]))
    ensures DiscRuns(v, a, albumDir, ds, ffmpegPath, mkdirOk, fetch).runs == AlbumRuns(v, a, albumDir, ds[..i], ffmpegPath, fetch)
  {
    var dirOf := DiscDirs(albumDir, a);
    assert forall j | 0 <= j < i :: mkdirOk(dirOf(ds[j]));
    LoopFirstFailDir(v, a, dirOf, ds, ffmpegPath, mkdirOk, fetch, i);
    LoopFirstFailRuns(v, a, dirOf, ds, ffmpegPath, mkdirOk, fetch, i);
  }

  /** `DiscRunsFirstFail` for any placement of the discs: the directory. */
  lemma {:induction false} LoopFirstFailDir(v: Variant, a: Album, dirOf: Disc -> string, ds: seq<Disc>, ffmpegPath: string,
                                            mkdirOk: string -> bool, fetch: Track -> (int, string), i: nat)
    requires forall d, t | d in ds && t in d.tracks :: DurationsFit(t)
    requires |a.discs| > 1 && i < |ds|
    requires !mkdirOk(dirOf(ds[i]))
    requires forall j | 0 <= j < i :: mkdirOk(dirOf(ds[j]))
    ensures DiscLoop(v, a, dirOf, ds, ffmpegPath, mkdirOk, fetch).failedDir == Some(dirOf(ds[i]))
    decreases i
  {
    if i > 0 {
      assert ds[1..][i - 1] == ds[i];
      assert forall j | 0 <= j < i - 1 :: ds[1..][j] == ds[j + 1];
      LoopFirstFailDir(v, a, dirOf, ds[1..], ffmpegPath, mkdirOk, fetch, i - 1);
    }
  }

  /** `DiscRunsFirstFail` for any placement of the discs: the runs. */
  lemma {:induction false} LoopFirstFailRuns(v: Variant, a: Album, dirOf: Disc -> string, ds: seq<Disc>, ffmpegPath: string,
                                             mkdirOk: string -> bool, fetch: Track -> (int, string), i: nat)
    requires forall d, t | d in ds && t in d.tracks :: DurationsFit(t)
    requires |a.discs| > 1 && i < |ds|
    requires !mkdirOk(dirOf(ds[i]))
    requires forall j | 0 <= j < i :: mkdirOk(dirOf(ds[j]))
    ensures DiscLoop(v, a, dirOf, ds, ffmpegPath, mkdirOk, fetch).runs == Flatten(LoopParts(v, a, dirOf, ds[..i], ffmpegPath, fetch))
    decreases i
  {
    if i == 0 {
      assert ds[..0] == [];
    } else {
      assert ds[1..][i - 1] == ds[i];
      assert forall j | 0 <= j < i - 1 :: ds[1..][j] == ds[j + 1];
      LoopFirstFailRuns(v, a, dirOf, ds[1..], ffmpegPath, mkdirOk, fetch, i - 1);
      var pre := ds[..i];
      assert pre[0] == ds[0] && pre[1..] == ds[1..][..i - 1];
      LoopPartsCons(v, a, dirOf, pre, ffmpegPath, fetch);
    }
  }

  /** The first disc's runs, then the rest's, for any placement. */
  lemma LoopPartsCons(v: Variant, a: Album, dirOf: Disc -> string, ds: seq<Disc>, ffmpegPath: string,
                      fetch: Track -> (int, string))
    requires forall d, t | d in ds && t in d.tracks :: DurationsFit(t)
    requires |ds| > 0
    ensures Flatten(LoopParts(v, a, dirOf, ds, ffmpegPath, fetch))
         == TrackRuns(v, a, ds[0], dirOf(ds[0]), ds[0].tracks, ffmpegPath, fetch)
          + Flatten(LoopParts(v, a, dirOf, ds[1..], ffmpegPath, fetch))
  {
    var ps := LoopParts(v, a, dirOf, ds, ffmpegPath, fetch);
    var qs := LoopParts(v, a, dirOf, ds[1..], ffmpegPath, fetch);
    assert ps[1..] == qs by {
      forall j | 0 <= j < |qs| ensures ps[1..][j] == qs[j] {
        assert ds[1..][j] == ds[j + 1];
      }
    }
  }

  /** `ProcessAlbum` with several discs whose album directory is created
      but whose disc i is the first disc directory that cannot be: it
      fails naming that directory, after the runs of discs 0 to i - 1. */
  lemma ProcessAlbumDiscFails(v: Variant, a: Album, target: string, ffmpegPath: string,
                              mkdirOk: string -> bool, fetch: Track -> (int, string), i: nat)
    requires AllFit(a) && mkdirOk(AlbumDir(target, a))
    requires |a.discs| > 1 && i < |a.discs|
    requires !mkdirOk(DiscDir(AlbumDir(target, a), a, a.discs[i]))
    requires forall j | 0 <= j < i :: mkdirOk(DiscDir(AlbumDir(target, a), a, a.discs[j]))
    ensures ProcessAlbum(v, a, target, ffmpegPath, mkdirOk, fetch).failedDir == Some(DiscDir(AlbumDir(target, a), a, a.discs[i]))
    ensures ProcessAlbum(v, a, target, ffmpegPath, mkdirOk, fetch).runs
         == AlbumRuns(v, a, AlbumDir(target, a), a.discs[..i], ffmpegPath, fetch)
  {
    DiscRunsFirstFail(v, a, AlbumDir(target, a), a.discs, ffmpegPath, mkdirOk, fetch, i);
  }

  /** The pieces one after another. */
  function Flatten<T>(xss: seq<seq<T>>): seq<T> {
    if |xss| == 0 then [] else xss[0] + Flatten(xss[1..])
  }

  /** Where piece i starts once the pieces are flattened. */
  function Offset<T>(xss: seq<seq<T>>, i: nat): nat
    requires i <= |xss|
  {
    if i == 0 then 0 else |xss[0]| + Offset(xss[1..], i - 1)
  }

  lemma {:induction false} FlattenAt<T>(xss: seq<seq<T>>, i: nat, k: nat)
    requires i < |xss| && k < |xss[i]|
    ensures Offset(xss, i) + k < |Flatten(xss)|
    ensures Flatten(xss)[Offset(xss, i) + k] == xss[i][k]
    decreases i
  {
    if i > 0 {
      assert xss[1..][i - 1] == xss[i];
      FlattenAt(xss[1..], i - 1, k);
    }
  }

  /** Pieces as long as the discs' track lists start where the tracks of the
      discs before them end. */
  lemma {:induction false} OffsetCount<T>(ds: seq<Disc>, xss: seq<seq<T>>, i: nat)
    requires |xss| == |ds| && i <= |ds|
    requires forall j | 0 <= j < |ds| :: |xss[j]| == |ds[j].tracks|
    ensures Offset(xss, i) == TrackCount(ds[..i])
    decreases i
  {
    if i == 0 {
      assert ds[..0] == [];
    } else {
      assert ds[..i][1..] == ds[1..][..i - 1];
      OffsetCount(ds[1..], xss[1..], i - 1);
    }
  }

  lemma {:induction false} DiscRunsFail(v: Variant, a: Album, albumDir: string, ds: seq<Disc>, ffmpegPath: string,
                                        mkdirOk: string -> bool, fetch: Track -> (int, string))
    requires forall d, t | d in ds && t in d.tracks :: DurationsFit(t)
    ensures DiscRuns(v, a, albumDir, ds, ffmpegPath, mkdirOk, fetch).failedDir.None?
      <==> (|a.discs| > 1 ==> forall d | d in ds :: mkdirOk(DiscDir(albumDir, a, d)))
    decreases |ds|
  {
    if |ds| > 0 {
      DiscRunsFail(v, a, albumDir, ds[1..], ffmpegPath, mkdirOk, fetch);
      assert forall d | d in ds :: d == ds[0] || d in ds[1..];
    }
  }

  lemma {:induction false} DiscRunsCount(v: Variant, a: Album, albumDir: string, ds: seq<Disc>, ffmpegPath: string,
                                         mkdirOk: string -> bool, fetch: Track -> (int, string))
    requires forall d, t | d in ds && t in d.tracks :: DurationsFit(t)
    ensures DiscRuns(v, a, albumDir, ds, ffmpegPath, mkdirOk, fetch).failedDir.None?
      ==> |DiscRuns(v, a, albumDir, ds, ffmpegPath, mkdirOk, fetch).runs| == TrackCount(ds)
    decreases |ds|
  {
    if |ds| > 0 {
      DiscRunsCount(v, a, albumDir, ds[1..], ffmpegPath, mkdirOk, fetch);
    }
  }

  // ---------------------------------------------------------------------
  // Where the files go

  /** A decimal numeral holds no separator. */
  lemma NumeralNoSlash(n: int, w: nat)
    ensures NoSlash(FormatPadded(n, w)) && NoSlash(Itoa(n))
  {
    var d := NatToDigits(Abs(n));
    var sign := if n < 0 then "-" else "";
    var pad := if |sign| + |d| < w then w - |sign| - |d| else 0;
    DigitsNoSlash(d);
    DigitsNoSlash(Zeros(pad));
    assert NoSlash(sign);
    ConcatNoSlash(sign, Zeros(pad));
    ConcatNoSlash(sign + Zeros(pad), d);
    ConcatNoSlash(sign, d);
  }

  lemma DigitsNoSlash(s: string)
    requires AllDigits(s)
    ensures NoSlash(s)
  {
  }

  lemma ConcatNoSlash(a: string, b: string)
    requires NoSlash(a) && NoSlash(b)
    ensures NoSlash(a + b)
  {
    forall i | 0 <= i < |a + b| ensures (a + b)[i] != '/' {
      if i >= |a| { assert (a + b)[i] == b[i - |a|]; }
    }
  }

  lemma SanitizedNoSlash(name: string)
    ensures NoSlash(SanitizeFileName(name))
  {
    SanitizeFileNameLacks(name, '/');
    var s := SanitizeFileName(name);
    assert Lacks(s, '/');
  }

  /** Slash-free pieces of three or more characters make an entry name. */
  lemma PiecesAreEntry(a: string, b: string, c: string, d: string)
    requires NoSlash(a) && NoSlash(b) && NoSlash(c) && NoSlash(d) && |b| + |d| >= 3
    ensures SimpleName(a + b + c + d)
  {
    ConcatNoSlash(a, b);
    ConcatNoSlash(a + b, c);
    ConcatNoSlash(a + b + c, d);
    assert |a + b + c + d| >= 3;
  }

  lemma AlbumPieces(title: string, year: string)
    requires NoSlash(title) && NoSlash(year)
    ensures SimpleName(title + " (" + year + ")")
  {
    assert NoSlash(" (") && NoSlash(")");
    PiecesAreEntry(title, " (", year, ")");
  }

  /** A track's file name is a plain directory entry name. */
  lemma TrackFileNameIsEntry(t: Track)
    ensures SimpleName(TrackFileName(t))
  {
    NumeralNoSlash(t.number, 2);
    SanitizedNoSlash(t.title);
    TrackPieces(FormatPadded(t.number, 2), SanitizeFileName(t.title));
  }

  lemma TrackPieces(number: string, title: string)
    requires NoSlash(number) && NoSlash(title)
    ensures SimpleName(number + " - " + title + ".flac")
  {
    assert NoSlash(" - ") && NoSlash(".flac");
    PiecesAreEntry(number, " - ", title, ".flac");
  }

  /** Each track file lies directly in its disc's directory, under its own name. */
  lemma TrackOutputPlacement(dir: string, t: Track)
    requires dir != "" && Clean(dir) == dir
    ensures Dir(JoinPath(dir, TrackFileName(t))) == dir
    ensures Base(JoinPath(dir, TrackFileName(t))) == TrackFileName(t)
  {
    TrackFileNameIsEntry(t);
    DirBaseOfJoin(dir, TrackFileName(t));
  }

  /** With several discs, disc N goes to the subdirectory "Disc N" of the
      album directory; with one disc, straight into the album directory. */
  lemma DiscDirPlacement(albumDir: string, a: Album, d: Disc)
    requires albumDir != "" && Clean(albumDir) == albumDir
    ensures |a.discs| > 1 ==> Dir(DiscDir(albumDir, a, d)) == albumDir
    ensures |a.discs| > 1 ==> Base(DiscDir(albumDir, a, d)) == "Disc " + Itoa(d.discNumber)
    ensures |a.discs| <= 1 ==> DiscDir(albumDir, a, d) == albumDir
    ensures DiscDir(albumDir, a, d) != "" && Clean(DiscDir(albumDir, a, d)) == DiscDir(albumDir, a, d)
  {
    if |a.discs| > 1 {
      DiscNameIsEntry(d.discNumber);
      ChildPlacement(albumDir, "Disc " + Itoa(d.discNumber));
    }
  }

  lemma DiscNameIsEntry(n: int)
    ensures SimpleName("Disc " + Itoa(n))
  {
    NumeralNoSlash(n, 0);
    assert NoSlash("Disc ");
    ConcatNoSlash("Disc ", Itoa(n));
  }

  /** The album directory is "<title> (<year>)" inside "<artist>" inside the
      target directory, names sanitised. */
  lemma AlbumDirPlacement(target: string, a: Album)
    requires target != "" && NoSlash(a.year)
    ensures Dir(AlbumDir(target, a)) == JoinPath(target, SanitizeFileName(a.artist))
    ensures Base(AlbumDir(target, a)) == SanitizeFileName(a.title) + " (" + a.year + ")"
    ensures AlbumDir(target, a) != "" && Clean(AlbumDir(target, a)) == AlbumDir(target, a)
  {
    var title := SanitizeFileName(a.title);
    JoinIsClean(target, SanitizeFileName(a.artist));
    SanitizedNoSlash(a.title);
    AlbumPieces(title, a.year);
    ChildPlacement(JoinPath(target, SanitizeFileName(a.artist)), title + " (" + a.year + ")");
  }

  /** A plain name joined onto a clean directory: the directory and the name
      come back, and the result is clean. */
  lemma ChildPlacement(dir: string, name: string)
    requires dir != "" && Clean(dir) == dir && SimpleName(name)
    ensures Dir(JoinPath(dir, name)) == dir && Base(JoinPath(dir, name)) == name
    ensures JoinPath(dir, name) != "" && Clean(JoinPath(dir, name)) == JoinPath(dir, name)
  {
    DirBaseOfJoin(dir, name);
    JoinIsClean(dir, name);
  }

  // ---------------------------------------------------------------------
  // The two processors

  /** `fd` is disc `d` after the metadata look-up of each of its tracks. */
  predicate FetchedDisc(d: Disc, fd: Disc, fetch: Track -> (int, string)) {
    fd.(tracks := d.tracks) == d && |fd.tracks| == |d.tracks|
    && forall k | 0 <= k < |d.tracks| :: fd.tracks[k] == Fetched(d.tracks[k], fetch)
  }

  /** `FetchMetadataAndUpdateTrack` on every track of the album, as the
      package scheduler does before calling `ProcessAlbum`. */
  function FetchAll(a: Album, fetch: Track -> (int, string)): (r: Album)
    ensures r.(discs := a.discs) == a && |r.discs| == |a.discs|
    ensures forall i | 0 <= i < |a.discs| :: FetchedDisc(a.discs[i], r.discs[i], fetch)
  {
    a.(discs := seq(|a.discs|, i requires 0 <= i < |a.discs| =>
      a.discs[i].(tracks := seq(|a.discs[i].tracks|, k requires 0 <= k < |a.discs[i].tracks| =>
        Fetched(a.discs[i].tracks[k], fetch)))))
  }

  /** The look-up leaves every offset as it was. */
  lemma FetchAllFits(a: Album, fetch: Track -> (int, string))
    requires AllFit(a)
    ensures AllFit(FetchAll(a, fetch))
  {
    var r := FetchAll(a, fetch);
    forall d, t | d in r.discs && t in d.tracks ensures DurationsFit(t) {
      var i :| 0 <= i < |r.discs| && r.discs[i] == d;
      var k :| 0 <= k < |d.tracks| && d.tracks[k] == t;
      assert FetchedDisc(a.discs[i], d, fetch);
      var o := a.discs[i].tracks[k];
      assert a.discs[i] in a.discs && o in a.discs[i].tracks;
      assert DurationsFit(o);
      assert t == Fetched(o, fetch);
      assert t.startTime == o.startTime && t.endTime == o.endTime;
    }
  }

  /** The two processors make the same runs: the root one looking up each
      track as it goes, the package one given tracks looked up beforehand
      and "ffmpeg" as its executable. */
  lemma ProcessorsAgree(a: Album, target: string, mkdirOk: string -> bool,
                        fetch: Track -> (int, string), other: Track -> (int, string))
    requires AllFit(a)
    ensures AllFit(FetchAll(a, fetch))
    ensures ProcessAlbum(PackageProcessor, FetchAll(a, fetch), target, "ffmpeg", mkdirOk, other)
         == ProcessAlbum(RootProcessor, a, target, "ffmpeg", mkdirOk, fetch)
  {
    FetchAllFits(a, fetch);
    var fa := FetchAll(a, fetch);
    assert AlbumDir(target, fa) == AlbumDir(target, a);
    if mkdirOk(AlbumDir(target, a)) {
      DiscRunsAgree(a, fa, AlbumDir(target, a), a.discs, fa.discs, mkdirOk, fetch, other);
    }
  }

  lemma {:induction false} DiscRunsAgree(a: Album, fa: Album, albumDir: string, ds: seq<Disc>, fds: seq<Disc>,
                                         mkdirOk: string -> bool, fetch: Track -> (int, string),
                                         other: Track -> (int, string))
    requires |fa.discs| == |a.discs| && fa.coverArt == a.coverArt
    requires forall d, t | d in ds && t in d.tracks :: DurationsFit(t)
    requires forall d, t | d in fds && t in d.tracks :: DurationsFit(t)
    requires |fds| == |ds| && forall i | 0 <= i < |ds| :: FetchedDisc(ds[i], fds[i], fetch)
    ensures DiscRuns(PackageProcessor, fa, albumDir, fds, "ffmpeg", mkdirOk, other)
         == DiscRuns(RootProcessor, a, albumDir, ds, "ffmpeg", mkdirOk, fetch)
    decreases |ds|
  {
    if |ds| > 0 {
      assert FetchedDisc(ds[0], fds[0], fetch);
      assert fds[0].discNumber == ds[0].discNumber;
      var dir := DiscDir(albumDir, a, ds[0]);
      assert DiscDir(albumDir, fa, fds[0]) == dir;
      DiscRunsAgree(a, fa, albumDir, ds[1..], fds[1..], mkdirOk, fetch, other);
      TrackRunsAgree(a, fa, ds[0], fds[0], dir, ds[0].tracks, fds[0].tracks, fetch, other);
    }
  }

  lemma TrackRunsAgree(a: Album, fa: Album, d: Disc, fd: Disc, dir: string,
                                          ts: seq<Track>, fts: seq<Track>,
                                          fetch: Track -> (int, string), other: Track -> (int, string))
    requires fa.coverArt == a.coverArt && fd.wavPath == d.wavPath
    requires forall t | t in ts :: DurationsFit(t)
    requires forall t | t in fts :: DurationsFit(t)
    requires |fts| == |ts| && forall k | 0 <= k < |ts| :: fts[k] == Fetched(ts[k], fetch)
    ensures TrackRuns(PackageProcessor, fa, fd, dir, fts, "ffmpeg", other)
         == TrackRuns(RootProcessor, a, d, dir, ts, "ffmpeg", fetch)
  {
    forall k | 0 <= k < |ts|
      ensures TrackRun(PackageProcessor, fa, fd, dir, fts[k], "ffmpeg", other)
           == TrackRun(RootProcessor, a, d, dir, ts[k], "ffmpeg", fetch)
    {
      assert fts[k] == Fetched(ts[k], fetch);
    }
  }

  // ---------------------------------------------------------------------
  // The layout of a processed album

  /** With one part per disc, as long as the disc's track list, track k of
      disc i is element `TrackCount(ds[..i]) + k` of the flattened parts:
      the k-th element of part i. */
  lemma PartAt<T>(ds: seq<Disc>, xss: seq<seq<T>>, i: nat, k: nat)
    requires |xss| == |ds| && forall j | 0 <= j < |ds| :: |xss[j]| == |ds[j].tracks|
    requires i < |ds| && k < |ds[i].tracks|
    ensures TrackCount(ds[..i]) + k < |Flatten(xss)|
    ensures Flatten(xss)[TrackCount(ds[..i]) + k] == xss[i][k]
  {
    FlattenAt(xss, i, k);
    OffsetCount(ds, xss, i);
  }

  /** The run for a track of disc d reads the disc's audio file and writes
      `NN - <title>.flac` in the disc's directory, which is "Disc N" inside
      the album directory when there are several discs and the album
      directory itself otherwise. */
  lemma TrackRunLayout(v: Variant, a: Album, target: string, d: Disc, t: Track, ffmpegPath: string,
                       fetch: Track -> (int, string))
    requires target != "" && NoSlash(a.year) && DurationsFit(t)
    ensures var discDir := DiscDir(AlbumDir(target, a), a, d);
            var r := ReadArgs(TrackRun(v, a, d, discDir, t, ffmpegPath, fetch).args).value;
            && r.input == d.wavPath
            && Dir(r.output) == discDir
            && Base(r.output) == TrackFileName(t)
    ensures |a.discs| > 1 ==> Dir(DiscDir(AlbumDir(target, a), a, d)) == AlbumDir(target, a)
    ensures |a.discs| > 1 ==> Base(DiscDir(AlbumDir(target, a), a, d)) == "Disc " + Itoa(d.discNumber)
    ensures |a.discs| <= 1 ==> DiscDir(AlbumDir(target, a), a, d) == AlbumDir(target, a)
  {
    var albumDir := AlbumDir(target, a);
    AlbumDirPlacement(target, a);
    DiscDirPlacement(albumDir, a, d);
    TrackOutputPlacement(DiscDir(albumDir, a, d), t);
  }
}
