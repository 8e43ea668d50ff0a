/** Which directory entries the stability check watches and the scanner
    treats as album content: `IsRelevantMusicFile` (pkg/util/util.go),
    `isAudioFile` (main.go) and the inline test of main.go's poll loop. */
module Relevance {
  import opened Runes
  import opened Paths

  /** The audio formats of `isAudioFile` and of the first case of
      `IsRelevantMusicFile`. */
  predicate AudioExt(e: string) {
    e == ".wav" || e == ".flac" || e == ".mp3" || e == ".m4a" || e == ".aac" || e == ".ogg" || e == ".ape" || e == ".wv"
  }

  /** Cue sheets, JSON metadata and cover images. */
  predicate SideExt(e: string) {
    e == ".cue" || e == ".json" || e == ".jpg" || e == ".png"
  }

  /** `isAudioFile`: the lower-cased extension names an audio format. */
  predicate IsAudioFile(path: string) {
    AudioExt(ToLower(Ext(path)))
  }

  /** `IsRelevantMusicFile`: an audio file, a cue sheet, a JSON or image
      side file, or a file named `info.txt` in any letter case. */
  predicate IsRelevantMusicFile(path: string) {
    var ext := ToLower(Ext(path));
    AudioExt(ext) || SideExt(ext) || ToLower(Base(path)) == "info.txt"
  }

  /** main.go's inline test for the entry `name` read from a directory, at
      `path = Join(dir, name)`: suffix tests on the entry's extension. */
  predicate PollRelevant(path: string, name: string) {
    var ext := ToLower(Ext(name));
    || IsAudioFile(path)
    || ToLower(name) == "info.txt"
    || HasSuffix(ext, ".cue")
    || HasSuffix(ext, ".json")
    || HasSuffix(ext, ".jpg")
    || HasSuffix(ext, ".png")
  }

  lemma LowerDot(c: char)
    ensures LowerRune(c) == '.' <==> c == '.'
  {
  }

  /** An extension has its only '.' in front, and so does its lower case. */
  lemma LowerExtDots(p: string)
    ensures var e := ToLower(Ext(p));
      forall k | 0 <= k < |e| :: (e[k] == '.' <==> k == 0)
  {
    var x := Ext(p);
    ExtShape(p);
    forall k | 0 <= k < |x| ensures LowerRune(x[k]) == '.' <==> k == 0 {
      LowerDot(x[k]);
    }
  }

  /** A suffix test on an extension is an equality test when the suffix is a
      dot followed by no other dot. */
  lemma SuffixOfExt(p: string, lit: string)
    requires |lit| > 0 && lit[0] == '.'
    ensures HasSuffix(ToLower(Ext(p)), lit) <==> ToLower(Ext(p)) == lit
  {
    var e := ToLower(Ext(p));
    LowerExtDots(p);
    if HasSuffix(e, lit) {
      assert e[|e| - |lit|] == lit[0];
    }
  }

  /** The two copies classify every entry of a clean directory alike: the
      inline test of main.go and `IsRelevantMusicFile` agree on
      `Join(dir, name)`. */
  lemma PollRelevantAgrees(dir: string, name: string)
    requires dir != "" && Clean(dir) == dir
    requires SimpleName(name)
    ensures PollRelevant(JoinPath(dir, name), name) <==> IsRelevantMusicFile(JoinPath(dir, name))
  {
    ExtOfJoin(dir, name);
    PollRelevantByName(JoinPath(dir, name), name);
  }

  lemma PollRelevantByName(path: string, name: string)
    requires Ext(path) == Ext(name) && Base(path) == name
    ensures PollRelevant(path, name) <==> IsRelevantMusicFile(path)
  {
    var e := ToLower(Ext(name));
    SuffixOfExt(name, ".cue");
    SuffixOfExt(name, ".json");
    SuffixOfExt(name, ".jpg");
    SuffixOfExt(name, ".png");
  }
}
