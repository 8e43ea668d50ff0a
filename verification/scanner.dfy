/** `ScanAlbumDirectory`, in its two versions: scanner.go (the "root"
    scanner) and pkg/scanner/scanner.go (the "package" scanner). Both read
    the album's header from Info.txt or, failing that, from the directory
    name, look for a cover, and walk the directory for cue sheets, turning
    each into a disc. The package scanner only takes cue files lying
    directly in the album directory and sorts the discs by number
    afterwards.

    The walk itself (`filepath.WalkDir`) is given as the sequence of entries
    it visits, in its order; a failure it reports is an entry of its own.
    The file system is an `Env` of oracles. */
module Scanner {
  import opened Wrappers
  import opened Runes
  import opened Utf8
  import opened Paths
  import opened AlbumModel
  import opened TextReader
  import opened CueParser
  import opened DirName
  import opened InfoText
  import opened DiscBuilder

  /** What the scanner asks of the outside world. */
  datatype Env = Env(
    /** `os.ReadFile`. */
    read: string -> Result<seq<byte>>,
    /** Whether `os.Stat` succeeds. */
    statOk: string -> bool,
    /** Whether `os.Stat` fails with "does not exist". */
    missing: string -> bool,
    /** The GBK decoder. */
    gbk: seq<byte> -> Result<seq<byte>>,
    /** The traditional-to-simplified conversion. */
    t2s: string -> string)

  /** One step of the walk: an entry with its path, or the error the walk
      passes to its callback. */
  datatype Entry = Entry(path: string, isDir: bool) | Failed(msg: string)

  datatype Variant = RootScanner | PackageScanner

  datatype Scan = Scan(album: Album, err: Option<string>)

  // ---------------------------------------------------------------------
  // Header

  /** The header before conversion: Info.txt when it can be read, the
      directory name otherwise. */
  function Header(root: string, env: Env): (a: Album)
    ensures a.path == root && a.discs == [] && a.coverArt == ""
    ensures ReadRunes(env.read(JoinPath(root, "Info.txt")), env.gbk).Ok? ==>
      a == ParseInfo(NewAlbum(root).(infoContent := ReadRunes(env.read(JoinPath(root, "Info.txt")), env.gbk).value))
    ensures ReadRunes(env.read(JoinPath(root, "Info.txt")), env.gbk).Err? ==>
      && a.infoContent == ""
      && DirInfo(a.artist, a.title, a.year) == ParseDirName(Base(root))
  {
    var a0 := NewAlbum(root);
    match ReadRunes(env.read(JoinPath(root, "Info.txt")), env.gbk)
    case Ok(content) => ParseInfo(a0.(infoContent := content))
    case Err(_) =>
      var d := ParseDirName(Base(root));
      a0.(artist := d.artist, title := d.title, year := d.year)
  }

  /** The album as it stands before the walk: header, converted artist and
      title, and the cover when folder.jpg can be stat'ed. */
  function Prepared(root: string, env: Env): (a: Album)
    ensures a.path == root && a.discs == []
    ensures a.artist == env.t2s(Header(root, env).artist) && a.title == env.t2s(Header(root, env).title)
    ensures a.year == Header(root, env).year && a.infoContent == Header(root, env).infoContent
    ensures a.coverArt != "" <==> env.statOk(JoinPath(root, "folder.jpg"))
    ensures a.coverArt != "" ==> a.coverArt == JoinPath(root, "folder.jpg")
  {
    var h := Header(root, env);
    var a := h.(artist := env.t2s(h.artist), title := env.t2s(h.title));
    var cover := JoinPath(root, "folder.jpg");
    JoinNonEmpty(root, "folder.jpg");
    if env.statOk(cover) then a.(coverArt := cover) else a
  }

  lemma JoinNonEmpty(dir: string, name: string)
    requires name != ""
    ensures JoinPath(dir, name) != ""
  {
    var p := if dir != "" then dir + "/" + name else name;
    CleanIsNormal(p);
  }

  // ---------------------------------------------------------------------
  // Walk

  /** The callback's test: a file (not a directory) whose lower-cased name
      ends in ".cue" and, for the package scanner, whose directory is the
      album's root as given. */
  predicate Picks(v: Variant, root: string, e: Entry) {
    && e.Entry?
    && !e.isDir
    && HasSuffix(ToLower(Base(e.path)), ".cue")
    && (v == PackageScanner ==> Dir(e.path) == root)
  }

  /** `processCueFile` on the file at `path`, read through `env`. */
  function Process(path: string, env: Env, a: Album, n: int): (r: Result<Disc>)
    ensures r.Ok? ==> r.value.discNumber == n && r.value.cuePath == path
  {
    ProcessCueFile(path, env.read(path), env.gbk, a, n, env.missing, env.t2s)
  }

  /** The disc one entry of the walk adds: none unless the entry is picked
      and its sheet is processed without error. */
  function Visit(v: Variant, root: string, env: Env, a: Album, n: int, e: Entry): (r: Option<Disc>)
    ensures r.Some? <==> Picks(v, root, e) && Process(e.path, env, a, n).Ok?
    ensures r.Some? ==> r.value.discNumber == n && r.value.cuePath == e.path
  {
    if Picks(v, root, e) then
      match Process(e.path, env, a, n)
      case Ok(d) => Some(d)
      case Err(_) => None
    else None
  }

  /** A walk that reports no error. */
  predicate Unbroken(es: seq<Entry>) {
    forall k | 0 <= k < |es| :: es[k].Entry?
  }

  lemma UnbrokenCons(es: seq<Entry>)
    requires |es| > 0
    ensures Unbroken(es) <==> es[0].Entry? && Unbroken(es[1..])
  {
    if es[0].Entry? && Unbroken(es[1..]) {
      forall k | 0 <= k < |es| ensures es[k].Entry? {
        if k > 0 { assert es[k] == es[1..][k - 1]; }
      }
    }
  }

  /** What the walk leaves behind: the discs in the order they were found,
      and the error that stopped it, if any. */
  datatype Walked = Walked(discs: seq<Disc>, err: Option<string>)

  /** The walk from `n` (the next disc number) on: a cue sheet that fails
      is skipped without using its number; a walk error stops the walk and
      is returned along with the discs found so far. `processCueFile` reads
      only the album's title, artist and year, which the walk does not
      change, so the album is passed unchanged. */
  function Walk(v: Variant, root: string, env: Env, a: Album, n: int, es: seq<Entry>): (w: Walked)
    ensures |w.discs| <= |es|
    decreases |es|
  {
    if |es| == 0 then Walked([], None)
    else
      match es[0]
      case Failed(msg) => Walked([], Some(msg))
      case Entry(_, _) =>
        match Visit(v, root, env, a, n, es[0])
        case Some(d) =>
          var w := Walk(v, root, env, a, n + 1, es[1..]);
          Walked([d] + w.discs, w.err)
        case None => Walk(v, root, env, a, n, es[1..])
  }

  /** The walk numbers the discs it keeps 1, 2, 3, ... in the order it
      finds them: a sheet that fails does not use up a number. */
  lemma {:induction false} WalkNumbers(v: Variant, root: string, env: Env, a: Album, n: int, es: seq<Entry>)
    ensures Numbered(Walk(v, root, env, a, n, es).discs, n)
    decreases |es|
  {
    if |es| > 0 && es[0].Entry? {
      if Visit(v, root, env, a, n, es[0]).Some? {
        var d := Visit(v, root, env, a, n, es[0]).value;
        var rest := Walk(v, root, env, a, n + 1, es[1..]).discs;
        WalkNumbers(v, root, env, a, n + 1, es[1..]);
        NumberedCons(d, rest, n);
      } else {
        WalkNumbers(v, root, env, a, n, es[1..]);
      }
    }
  }

  /** The walk reports an error exactly when one of its steps is a failure. */
  lemma {:induction false} WalkErrors(v: Variant, root: string, env: Env, a: Album, n: int, es: seq<Entry>)
    ensures Walk(v, root, env, a, n, es).err.None? <==> Unbroken(es)
    decreases |es|
  {
    if |es| > 0 {
      UnbrokenCons(es);
      if es[0].Entry? {
        WalkErrors(v, root, env, a, n, es[1..]);
        WalkErrors(v, root, env, a, n + 1, es[1..]);
      }
    }
  }

  /** Discs in ascending order of number. */
  predicate Ascending(ds: seq<Disc>) {
    forall i, j | 0 <= i < j < |ds| :: ds[i].discNumber <= ds[j].discNumber
  }

  /** `sort.Slice` by disc number, as an insertion sort; `sort.Slice` is
      not stable, but on discs with distinct numbers every sort agrees. */
  function Insert(d: Disc, ds: seq<Disc>): (r: seq<Disc>)
    requires Ascending(ds)
    ensures Ascending(r) && multiset(r) == multiset(ds) + multiset{d}
  {
    if |ds| == 0 || d.discNumber <= ds[0].discNumber then [d] + ds
    else
      var tail := Insert(d, ds[1..]);
      InsertBehind(d, ds, tail);
      [ds[0]] + tail
  }

  /** The first disc stays in front of a sorted insertion into the rest. */
  lemma InsertBehind(d: Disc, ds: seq<Disc>, tail: seq<Disc>)
    requires Ascending(ds) && |ds| > 0 && d.discNumber > ds[0].discNumber
    requires Ascending(tail) && multiset(tail) == multiset(ds[1..]) + multiset{d}
    ensures Ascending([ds[0]] + tail) && multiset([ds[0]] + tail) == multiset(ds) + multiset{d}
  {
    assert ds == [ds[0]] + ds[1..];
    forall j | 0 <= j < |tail| ensures ds[0].discNumber <= tail[j].discNumber {
      var x := tail[j];
      assert x in multiset(tail);
      if x != d {
        assert x in multiset(ds[1..]);
        var i :| 0 <= i < |ds[1..]| && ds[1..][i] == x;
        assert ds[i + 1] == x;
      }
    }
    var r := [ds[0]] + tail;
    forall i, j | 0 <= i < j < |r| ensures r[i].discNumber <= r[j].discNumber {
      assert r[j] == tail[j - 1];
      if i > 0 { assert r[i] == tail[i - 1]; }
    }
  }

  function SortDiscs(ds: seq<Disc>): (r: seq<Disc>)
    ensures Ascending(r) && multiset(r) == multiset(ds)
  {
    if |ds| == 0 then []
    else
      assert ds == [ds[0]] + ds[1..];
      Insert(ds[0], SortDiscs(ds[1..]))
  }

  /** Disc numbers counting up by one from n. */
  predicate Numbered(ds: seq<Disc>, n: int) {
    forall i | 0 <= i < |ds| :: ds[i].discNumber == n + i
  }

  lemma NumberedCons(d: Disc, rest: seq<Disc>, n: int)
    requires d.discNumber == n && Numbered(rest, n + 1)
    ensures Numbered([d] + rest, n)
  {
    forall i | 0 <= i < |[d] + rest| ensures ([d] + rest)[i].discNumber == n + i {
      if i > 0 { assert ([d] + rest)[i] == rest[i - 1]; }
    }
  }

  /** The package scanner's sort never moves a disc: the walk numbers them
      in the order it finds them. */
  lemma {:induction false} SortKeepsNumbered(ds: seq<Disc>, n: int)
    requires Numbered(ds, n)
    ensures SortDiscs(ds) == ds
    decreases |ds|
  {
    if |ds| > 0 {
      assert Numbered(ds[1..], n + 1);
      SortKeepsNumbered(ds[1..], n + 1);
      assert ds == [ds[0]] + ds[1..];
    }
  }

  /** `ScanAlbumDirectory`: the prepared album with the discs of the walk,
      in the walk's order for both scanners, and the walk's error. */
  function ScanAlbum(v: Variant, root: string, env: Env, es: seq<Entry>): (s: Scan)
    ensures s.album == Prepared(root, env).(discs := s.album.discs)
    ensures s.album.discs == Walk(v, root, env, Prepared(root, env), 1, es).discs
    ensures s.err == Walk(v, root, env, Prepared(root, env), 1, es).err
  {
    var a := Prepared(root, env);
    var w := Walk(v, root, env, a, 1, es);
    if v == PackageScanner then
      WalkNumbers(v, root, env, a, 1, es);
      SortKeepsNumbered(w.discs, 1);
      Scan(a.(discs := SortDiscs(w.discs)), w.err)
    else Scan(a.(discs := w.discs), w.err)
  }

  // ---------------------------------------------------------------------
  // Properties of the walk

  /** Each disc comes from a picked entry: a ".cue" file, directly in the
      root for the package scanner. */
  lemma {:induction false} WalkPicksOnly(v: Variant, root: string, env: Env, a: Album, n: int, es: seq<Entry>)
    ensures forall d | d in Walk(v, root, env, a, n, es).discs :: Picks(v, root, Entry(d.cuePath, false))
    decreases |es|
  {
    if |es| > 0 && es[0].Entry? {
      WalkPicksOnly(v, root, env, a, n, es[1..]);
      WalkPicksOnly(v, root, env, a, n + 1, es[1..]);
    }
  }

  /** `filepath.Dir` always returns a clean path. */
  lemma DirIsClean(p: string)
    ensures Clean(Dir(p)) == Dir(p)
  {
    CleanIdempotent(p[..LastIndexOf(p, '/') + 1]);
  }

  /** The package scanner compares `filepath.Dir(path)`, which is always
      clean, with the root exactly as given: for a root that is not clean
      ("album/" or "./album") no cue file is ever picked. */
  lemma UncleanRootPicksNothing(root: string, env: Env, a: Album, n: int, es: seq<Entry>)
    requires Clean(root) != root
    ensures Walk(PackageScanner, root, env, a, n, es).discs == []
  {
    var ds := Walk(PackageScanner, root, env, a, n, es).discs;
    WalkPicksOnly(PackageScanner, root, env, a, n, es);
    if |ds| > 0 {
      assert ds[0] in ds;
      DirIsClean(ds[0].cuePath);
    }
  }

  /** The root scanner's test also takes cue files in subdirectories; when
      every such file lies directly in the root, both scanners walk alike. */
  lemma {:induction false} VariantsAgree(root: string, env: Env, a: Album, n: int, es: seq<Entry>)
    requires forall k | 0 <= k < |es| :: Picks(RootScanner, root, es[k]) ==> Dir(es[k].path) == root
    ensures Walk(RootScanner, root, env, a, n, es) == Walk(PackageScanner, root, env, a, n, es)
    decreases |es|
  {
    if |es| > 0 {
      assert Picks(RootScanner, root, es[0]) == Picks(PackageScanner, root, es[0]);
      VariantsAgree(root, env, a, n, es[1..]);
      VariantsAgree(root, env, a, n + 1, es[1..]);
    }
  }

  /** A walk error ends the walk: what follows the first failure is never
      visited, and the failure's message is returned. */
  lemma {:induction false} WalkStopsAt(v: Variant, root: string, env: Env, a: Album, n: int, es: seq<Entry>, k: nat)
    requires k < |es| && es[k].Failed? && Unbroken(es[..k])
    ensures Walk(v, root, env, a, n, es).discs == Walk(v, root, env, a, n, es[..k]).discs
    ensures Walk(v, root, env, a, n, es).err == Some(es[k].msg)
    decreases k
  {
    if k > 0 {
      var p := es[..k];
      assert p[0] == es[0];
      assert p[1..] == es[1..][..k - 1];
      var tail := es[1..][..k - 1];
      assert Unbroken(tail) by {
        forall j | 0 <= j < |tail| ensures tail[j].Entry? {
          assert tail[j] == p[j + 1];
        }
      }
      WalkStopsAt(v, root, env, a, NextNumber(v, root, env, a, n, es[0]), es[1..], k - 1);
      WalkStep(v, root, env, a, n, es);
      WalkStep(v, root, env, a, n, p);
    }
  }

  /** The number the next kept disc gets after visiting entry e. */
  function NextNumber(v: Variant, root: string, env: Env, a: Album, n: int, e: Entry): int {
    if Visit(v, root, env, a, n, e).Some? then n + 1 else n
  }

  /** The discs an entry adds: its own, when the visit keeps one. */
  function Found(v: Variant, root: string, env: Env, a: Album, n: int, e: Entry): seq<Disc> {
    if Visit(v, root, env, a, n, e).Some? then [Visit(v, root, env, a, n, e).value] else []
  }

  /** One step of the walk over a readable entry. */
  lemma WalkStep(v: Variant, root: string, env: Env, a: Album, n: int, es: seq<Entry>)
    requires |es| > 0 && es[0].Entry?
    ensures Walk(v, root, env, a, n, es).discs
         == Found(v, root, env, a, n, es[0]) + Walk(v, root, env, a, NextNumber(v, root, env, a, n, es[0]), es[1..]).discs
    ensures Walk(v, root, env, a, n, es).err
         == Walk(v, root, env, a, NextNumber(v, root, env, a, n, es[0]), es[1..]).err
  {
  }
}
