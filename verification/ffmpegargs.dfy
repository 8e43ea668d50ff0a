/** `buildFFmpegCommand` and `addMetadata`, identical in processor.go and
    pkg/processor/processor.go: the argument list of the ffmpeg run that
    cuts one track out of a disc's audio file, converts it to FLAC, embeds
    the cover and writes the tags. The list is given a reader, `ReadArgs`,
    that takes it apart again; every list built here reads back as exactly
    the request it was built from. */
module FFmpegArgs {
  import opened Wrappers
  import opened GoInt
  import opened Decimal
  import opened FFmpegTime
  import opened AlbumModel

  /** A Track's offsets are `time.Duration` values. */
  predicate DurationsFit(t: Track) {
    InInt64(t.startTime) && InInt64(t.endTime)
  }

  /** What one ffmpeg run asks for: the cut, the two inputs, the tags
      ("key=value") and the output file. */
  datatype Request = Request(
    start: string,
    end: Option<string>,
    input: string,
    cover: Option<string>,
    tags: seq<string>,
    output: string)

  /** The options that embed the second input as the cover picture. */
  const CoverOptions: seq<string> :=
    ["-map", "1:v", "-c:v", "mjpeg", "-disposition:v", "attached_pic", "-vsync", "0"]

  /** `addMetadata`: one `-metadata key=value` pair, only for a non-empty value. */
  function AddMetadata(args: seq<string>, key: string, value: string): seq<string> {
    if value != "" then args + ["-metadata", key + "=" + value] else args
  }

  /** The tag candidates of a track, in the order they are offered. */
  function TagFields(t: Track): seq<(string, string)> {
    [("title", t.title), ("artist", t.artist), ("album_artist", t.albumArtist),
     ("album", t.album), ("date", t.year), ("track", Itoa(t.number)), ("lyrics", t.lyrics)]
  }

  /** The tags written for a list of candidates: those with a value, in order. */
  function Tags(fs: seq<(string, string)>): (ts: seq<string>)
    ensures |ts| <= |fs|
  {
    if |fs| == 0 then []
    else if fs[0].1 != "" then [fs[0].0 + "=" + fs[0].1] + Tags(fs[1..])
    else Tags(fs[1..])
  }

  /** `buildFFmpegCommand`'s argument list (the executable is not part of it). */
  function BuildArgs(input: string, output: string, t: Track, cover: string): (args: seq<string>)
    requires DurationsFit(t)
    ensures ReadArgs(args) == Some(Request(
      FormatFFmpegTime(t.startTime),
      if t.endTime > 0 then Some(FormatFFmpegTime(t.endTime)) else None,
      input,
      if cover != "" then Some(cover) else None,
      Tags(TagFields(t)),
      output))
  {
    var args := ["-y"];
    var args := args + ["-ss", FormatFFmpegTime(t.startTime)];
    var args := if t.endTime > 0 then args + ["-to", FormatFFmpegTime(t.endTime)] else args;
    var args := args + ["-i", input];
    var args := if cover != "" then args + ["-i", cover] else args;
    var args := args + ["-map", "0:a"];
    var args := if cover != "" then args + CoverOptions else args;
    var args := args + ["-c:a", "flac"];
    var head := args;
    StepwiseHead(FormatFFmpegTime(t.startTime), t.endTime > 0, FormatFFmpegTime(t.endTime), input, cover != "", cover);
    var args := AddMetadata(args, "title", t.title);
    var args := AddMetadata(args, "artist", t.artist);
    var args := AddMetadata(args, "album_artist", t.albumArtist);
    var args := AddMetadata(args, "album", t.album);
    var args := AddMetadata(args, "date", t.year);
    var args := AddMetadata(args, "track", Itoa(t.number));
    var args := if t.lyrics != "" then AddMetadata(args, "lyrics", t.lyrics) else args;
    var args := args + [output];
    BuildReadsBack(input, output, t, cover, head, args);
    args
  }

  // ---------------------------------------------------------------------
  // Reading an argument list back

  /** The `-metadata` pairs of a list that holds nothing else. */
  function ReadTags(xs: seq<string>): (r: Option<seq<string>>)
    decreases |xs|
  {
    if |xs| == 0 then Some([])
    else if |xs| >= 2 && xs[0] == "-metadata" then
      match ReadTags(xs[2..])
      case Some(ts) => Some([xs[1]] + ts)
      case None => None
    else None
  }

  /** The tags and the output file: the pairs, then one last argument. */
  function ReadTail(xs: seq<string>): Option<(seq<string>, string)> {
    if |xs| == 0 then None
    else match ReadTags(xs[..|xs| - 1])
      case Some(ts) => Some((ts, xs[|xs| - 1]))
      case None => None
  }

  /** Whether `lit` occurs in `xs` at position i. */
  predicate At(xs: seq<string>, i: nat, lit: seq<string>) {
    i + |lit| <= |xs| && xs[i..i + |lit|] == lit
  }

  /** The request an argument list makes, if it has the layout of
      `buildFFmpegCommand`'s lists: `-y`, the cut, the audio input, an
      optional cover input, the stream options (with the cover options
      exactly when there is a cover), the codec, the tags, the output. */
  function ReadArgs(args: seq<string>): Option<Request> {
    if !At(args, 0, ["-y", "-ss"]) || |args| < 3 then None
    else
      var start := args[2];
      var end := if At(args, 3, ["-to"]) && |args| > 4 then Some(args[4]) else None;
      var i := if end.Some? then 5 else 3;
      if !At(args, i, ["-i"]) || |args| < i + 2 then None
      else
        var input := args[i + 1];
        var cover := if At(args, i + 2, ["-i"]) && |args| > i + 3 then Some(args[i + 3]) else None;
        var j := if cover.Some? then i + 4 else i + 2;
        if !At(args, j, ["-map", "0:a"]) then None
        else
          var k := if cover.Some? then j + 10 else j + 2;
          if cover.Some? && !At(args, j + 2, CoverOptions) then None
          else if !At(args, k, ["-c:a", "flac"]) then None
          else match ReadTail(args[k + 2..])
            case Some((tags, output)) => Some(Request(start, end, input, cover, tags, output))
            case None => None
  }

  // ---------------------------------------------------------------------
  // Round trip

  /** The tag pairs `addMetadata` appends, flattened. */
  function Pairs(ts: seq<string>): (xs: seq<string>)
    ensures |xs| == 2 * |ts|
  {
    if |ts| == 0 then [] else ["-metadata", ts[0]] + Pairs(ts[1..])
  }

  lemma {:induction false} ReadPairs(ts: seq<string>)
    ensures ReadTags(Pairs(ts)) == Some(ts)
    decreases |ts|
  {
    if |ts| > 0 {
      var xs := Pairs(ts);
      assert xs == ["-metadata", ts[0]] + Pairs(ts[1..]);
      assert xs[0] == "-metadata" && xs[1] == ts[0];
      assert xs[2..] == Pairs(ts[1..]);
      ReadPairs(ts[1..]);
      assert ts == [ts[0]] + ts[1..];
    }
  }

  lemma {:induction false} PairsAppend(a: seq<string>, b: seq<string>)
    ensures Pairs(a + b) == Pairs(a) + Pairs(b)
    decreases |a|
  {
    if |a| > 0 {
      assert (a + b)[0] == a[0];
      assert (a + b)[1..] == a[1..] + b;
      PairsAppend(a[1..], b);
      assert Pairs(a + b) == ["-metadata", a[0]] + Pairs(a[1..] + b);
    } else {
      assert a + b == b;
    }
  }

  lemma ReadTailOf(ts: seq<string>, output: string)
    ensures ReadTail(Pairs(ts) + [output]) == Some((ts, output))
  {
    var xs := Pairs(ts) + [output];
    assert xs[..|xs| - 1] == Pairs(ts);
    ReadPairs(ts);
  }

  /** The seven `addMetadata` calls append the pairs of `Tags`. */
  lemma MetadataPairs(head: seq<string>, t: Track)
    ensures
      var a1 := AddMetadata(head, "title", t.title);
      var a2 := AddMetadata(a1, "artist", t.artist);
      var a3 := AddMetadata(a2, "album_artist", t.albumArtist);
      var a4 := AddMetadata(a3, "album", t.album);
      var a5 := AddMetadata(a4, "date", t.year);
      var a6 := AddMetadata(a5, "track", Itoa(t.number));
      var a7 := if t.lyrics != "" then AddMetadata(a6, "lyrics", t.lyrics) else a6;
      a7 == head + Pairs(Tags(TagFields(t)))
  {
    var a1 := AddMetadata(head, "title", t.title);
    var a2 := AddMetadata(a1, "artist", t.artist);
    var a3 := AddMetadata(a2, "album_artist", t.albumArtist);
    MetadataFirst(head, t);
    MetadataRest(head, t, a3);
  }

  lemma MetadataFirst(head: seq<string>, t: Track)
    ensures
      var a1 := AddMetadata(head, "title", t.title);
      var a2 := AddMetadata(a1, "artist", t.artist);
      var a3 := AddMetadata(a2, "album_artist", t.albumArtist);
      a3 == head + Pairs(Tags(TagFields(t)[..3]))
  {
    var fs := TagFields(t);
    var a1 := AddMetadata(head, "title", t.title);
    var a2 := AddMetadata(a1, "artist", t.artist);
    var a3 := AddMetadata(a2, "album_artist", t.albumArtist);
    AddOne(head, fs, 0);
    assert fs[..1] == [fs[0]];
    AddOne(a1, fs, 1); TagsPrefix(fs, 2); ChainStep(head, fs, a1, a2, 1);
    AddOne(a2, fs, 2); TagsPrefix(fs, 3); ChainStep(head, fs, a2, a3, 2);
  }

  lemma MetadataRest(head: seq<string>, t: Track, a3: seq<string>)
    requires a3 == head + Pairs(Tags(TagFields(t)[..3]))
    ensures
      var a4 := AddMetadata(a3, "album", t.album);
      var a5 := AddMetadata(a4, "date", t.year);
      var a6 := AddMetadata(a5, "track", Itoa(t.number));
      var a7 := if t.lyrics != "" then AddMetadata(a6, "lyrics", t.lyrics) else a6;
      a7 == head + Pairs(Tags(TagFields(t)))
  {
    var fs := TagFields(t);
    var a4 := AddMetadata(a3, "album", t.album);
    var a5 := AddMetadata(a4, "date", t.year);
    var a6 := AddMetadata(a5, "track", Itoa(t.number));
    var a7 := if t.lyrics != "" then AddMetadata(a6, "lyrics", t.lyrics) else a6;
    AddOne(a3, fs, 3); TagsPrefix(fs, 4); ChainStep(head, fs, a3, a4, 3);
    AddOne(a4, fs, 4); TagsPrefix(fs, 5); ChainStep(head, fs, a4, a5, 4);
    AddOne(a5, fs, 5); TagsPrefix(fs, 6); ChainStep(head, fs, a5, a6, 5);
    AddOne(a6, fs, 6); TagsPrefix(fs, 7); ChainStep(head, fs, a6, a7, 6);
    assert fs[..7] == fs;
  }

  /** One `addMetadata` call appends the pairs of one candidate's tags. */
  lemma AddOne(args: seq<string>, fs: seq<(string, string)>, k: nat)
    requires k < |fs|
    ensures AddMetadata(args, fs[k].0, fs[k].1) == args + Pairs(Tags([fs[k]]))
  {
    assert [fs[k]][1..] == [];
  }

  /** Tags distribute over a split of the candidates. */
  lemma {:induction false} TagsAppend(a: seq<(string, string)>, b: seq<(string, string)>)
    ensures Tags(a + b) == Tags(a) + Tags(b)
    decreases |a|
  {
    if |a| > 0 {
      assert (a + b)[0] == a[0];
      assert (a + b)[1..] == a[1..] + b;
      TagsAppend(a[1..], b);
    } else {
      assert a + b == b;
    }
  }

  lemma TagsPrefix(fs: seq<(string, string)>, k: nat)
    requires 0 < k <= |fs|
    ensures Tags(fs[..k]) == Tags(fs[..k - 1]) + Tags([fs[k - 1]])
  {
    assert fs[..k] == fs[..k - 1] + [fs[k - 1]];
    TagsAppend(fs[..k - 1], [fs[k - 1]]);
  }

  lemma ChainStep(head: seq<string>, fs: seq<(string, string)>, prev: seq<string>, next: seq<string>, k: nat)
    requires 0 < k < |fs|
    requires prev == head + Pairs(Tags(fs[..k]))
    requires next == prev + Pairs(Tags([fs[k]]))
    requires Tags(fs[..k + 1]) == Tags(fs[..k]) + Tags([fs[k]])
    ensures next == head + Pairs(Tags(fs[..k + 1]))
  {
    PairsAppend(Tags(fs[..k]), Tags([fs[k]]));
  }

  lemma BuildReadsBack(input: string, output: string, t: Track, cover: string, head: seq<string>, args: seq<string>)
    requires DurationsFit(t)
    requires head == Head(FormatFFmpegTime(t.startTime),
      if t.endTime > 0 then Some(FormatFFmpegTime(t.endTime)) else None,
      input, if cover != "" then Some(cover) else None)
    requires args ==
      (var a1 := AddMetadata(head, "title", t.title);
       var a2 := AddMetadata(a1, "artist", t.artist);
       var a3 := AddMetadata(a2, "album_artist", t.albumArtist);
       var a4 := AddMetadata(a3, "album", t.album);
       var a5 := AddMetadata(a4, "date", t.year);
       var a6 := AddMetadata(a5, "track", Itoa(t.number));
       var a7 := if t.lyrics != "" then AddMetadata(a6, "lyrics", t.lyrics) else a6;
       a7 + [output])
    ensures ReadArgs(args) == Some(Request(
      FormatFFmpegTime(t.startTime),
      if t.endTime > 0 then Some(FormatFFmpegTime(t.endTime)) else None,
      input,
      if cover != "" then Some(cover) else None,
      Tags(TagFields(t)),
      output))
  {
    MetadataPairs(head, t);
    var ts := Tags(TagFields(t));
    assert args == head + (Pairs(ts) + [output]);
    ReadTailOf(ts, output);
    ReadHead(head, Pairs(ts) + [output], FormatFFmpegTime(t.startTime),
      if t.endTime > 0 then Some(FormatFFmpegTime(t.endTime)) else None,
      input, if cover != "" then Some(cover) else None);
  }

  /** The appends of `buildFFmpegCommand` in front of the tags build `Head`. */
  lemma StepwiseHead(start: string, hasEnd: bool, end: string, input: string, hasCover: bool, cover: string)
    ensures
      var a := ["-y"] + ["-ss", start];
      var a := if hasEnd then a + ["-to", end] else a;
      var a := a + ["-i", input];
      var a := if hasCover then a + ["-i", cover] else a;
      var a := a + ["-map", "0:a"];
      var a := if hasCover then a + CoverOptions else a;
      var a := a + ["-c:a", "flac"];
      a == Head(start, if hasEnd then Some(end) else None, input, if hasCover then Some(cover) else None)
  {
  }

  /** The fixed options in front of the tags. */
  function Head(start: string, end: Option<string>, input: string, cover: Option<string>): seq<string> {
    ["-y", "-ss", start]
    + (if end.Some? then ["-to", end.value] else [])
    + ["-i", input]
    + (if cover.Some? then ["-i", cover.value] else [])
    + ["-map", "0:a"]
    + (if cover.Some? then CoverOptions else [])
    + ["-c:a", "flac"]
  }

  /** Where the audio input's `-i` stands. */
  function InputAt(end: Option<string>): nat {
    if end.Some? then 5 else 3
  }

  /** Where `-map 0:a` stands. */
  function MapAt(end: Option<string>, cover: Option<string>): nat {
    InputAt(end) + if cover.Some? then 4 else 2
  }

  /** Where `-c:a flac` stands. */
  function CodecAt(end: Option<string>, cover: Option<string>): nat {
    MapAt(end, cover) + if cover.Some? then 10 else 2
  }

  lemma HeadCut(head: seq<string>, tail: seq<string>, start: string, end: Option<string>, input: string, cover: Option<string>)
    requires head == Head(start, end, input, cover)
    ensures var args := head + tail;
      && At(args, 0, ["-y", "-ss"]) && |args| >= 3 && args[2] == start
      && (At(args, 3, ["-to"]) && |args| > 4 <==> end.Some?)
      && (end.Some? ==> args[4] == end.value)
  {
    var args := head + tail;
    assert args[..|head|] == head;
    assert args[0..2] == ["-y", "-ss"];
    if end.Some? {
      assert args[3..4] == ["-to"];
    } else {
      assert args[3] == "-i";
    }
  }

  lemma HeadInputs(head: seq<string>, tail: seq<string>, start: string, end: Option<string>, input: string, cover: Option<string>)
    requires head == Head(start, end, input, cover)
    ensures var args := head + tail; var i := InputAt(end);
      && At(args, i, ["-i"]) && |args| >= i + 2 && args[i + 1] == input
      && (At(args, i + 2, ["-i"]) && |args| > i + 3 <==> cover.Some?)
      && (cover.Some? ==> args[i + 3] == cover.value)
  {
    var args := head + tail;
    var i := InputAt(end);
    assert args[..|head|] == head;
    assert args[i..i + 1] == ["-i"];
    if cover.Some? {
      assert args[i + 2..i + 3] == ["-i"];
    } else {
      assert args[i + 2] == "-map";
    }
  }

  lemma HeadStreams(head: seq<string>, tail: seq<string>, start: string, end: Option<string>, input: string, cover: Option<string>)
    requires head == Head(start, end, input, cover)
    ensures var args := head + tail; var j := MapAt(end, cover); var k := CodecAt(end, cover);
      && At(args, j, ["-map", "0:a"])
      && (cover.Some? ==> At(args, j + 2, CoverOptions))
      && At(args, k, ["-c:a", "flac"])
      && args[k + 2..] == tail
  {
    var args := head + tail;
    var j := MapAt(end, cover);
    var k := CodecAt(end, cover);
    assert |head| == k + 2;
    assert args[..|head|] == head;
    assert args[j..j + 2] == ["-map", "0:a"];
    if cover.Some? {
      assert args[j + 2..j + 10] == CoverOptions;
    }
    assert args[k..k + 2] == ["-c:a", "flac"];
  }

  lemma ReadHead(head: seq<string>, tail: seq<string>, start: string, end: Option<string>, input: string, cover: Option<string>)
    requires head == Head(start, end, input, cover)
    ensures ReadArgs(head + tail) == (match ReadTail(tail)
      case Some((tags, output)) => Some(Request(start, end, input, cover, tags, output))
      case None => None)
  {
    HeadCut(head, tail, start, end, input, cover);
    HeadInputs(head, tail, start, end, input, cover);
    HeadStreams(head, tail, start, end, input, cover);
  }

  // ---------------------------------------------------------------------
  // Tags

  /** `x` is the tag of a candidate with a value. */
  ghost predicate FromCandidate(fs: seq<(string, string)>, x: string) {
    exists i | 0 <= i < |fs| :: fs[i].1 != "" && x == fs[i].0 + "=" + fs[i].1
  }

  /** A tag is written exactly for the candidates with a value: every
      written tag is "key=value" of such a candidate, and every such
      candidate's tag is written. */
  lemma {:induction false} TagsExactly(fs: seq<(string, string)>)
    ensures forall k | 0 <= k < |Tags(fs)| :: FromCandidate(fs, Tags(fs)[k])
    ensures forall i | 0 <= i < |fs| && fs[i].1 != "" :: fs[i].0 + "=" + fs[i].1 in Tags(fs)
    decreases |fs|
  {
    if |fs| > 0 {
      var rest := Tags(fs[1..]);
      TagsExactly(fs[1..]);
      forall k | 0 <= k < |Tags(fs)|
        ensures FromCandidate(fs, Tags(fs)[k])
      {
        if fs[0].1 != "" && k == 0 {
          assert Tags(fs)[0] == fs[0].0 + "=" + fs[0].1;
        } else {
          var k' := if fs[0].1 != "" then k - 1 else k;
          assert Tags(fs)[k] == rest[k'];
          assert FromCandidate(fs[1..], rest[k']);
          var i :| 0 <= i < |fs[1..]| && fs[1..][i].1 != "" && rest[k'] == fs[1..][i].0 + "=" + fs[1..][i].1;
          assert fs[i + 1] == fs[1..][i];
        }
      }
      forall i | 0 <= i < |fs| && fs[i].1 != ""
        ensures fs[i].0 + "=" + fs[i].1 in Tags(fs)
      {
        if i > 0 {
          assert fs[i] == fs[1..][i - 1];
        }
      }
    }
  }

  /** The track number is always written: `%d` never prints nothing. */
  lemma TrackTagAlways(t: Track)
    ensures "track=" + Itoa(t.number) in Tags(TagFields(t))
  {
    var fs := TagFields(t);
    TagsExactly(fs);
    assert fs[5] == ("track", Itoa(t.number));
    assert fs[5].1 != "";
    assert fs[5].0 + "=" + fs[5].1 == "track=" + Itoa(t.number);
  }
}
