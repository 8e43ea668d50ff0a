/** The routing of file-system events in the watcher goroutine of main.go
    (`startFileWatcher`) and of cmd/music/main.go: which directory, if
    any, an event makes the program schedule a scan of. The watcher is
    added to the download root only, so the events it delivers name the
    root or an entry directly in it. `isDir` is what `os.Stat` says of the
    event's path at the time (false when the path is gone), and the ledger
    lookup of main.go's create branch is an input. */
module Watcher {
  import opened Wrappers
  import opened Paths

  /** main.go's copy, or cmd/music's. */
  datatype Variant = RootWatcher | PackageWatcher

  /** An event: whether its operation has the `Create` bit, and its path. */
  datatype Event = Event(create: bool, name: string)

  /** The directory whose change the event stands for: the path itself
      when it is a directory, else its parent. */
  function Candidate(name: string, isDir: bool): string {
    if isDir then name else Dir(name)
  }

  /** The directory to trigger a scan of, if any. main.go first drops
      events outside the root's own entries, and schedules a newly created
      top-level directory only if the ledger does not report it processed;
      cmd/music schedules it without asking. Other events schedule their
      candidate when it lies directly in the root. */
  function Route(v: Variant, root: string, e: Event, isDir: bool, processed: bool): (r: Option<string>)
    ensures r.Some? ==> Dir(r.value) == root
    ensures v == RootWatcher && Dir(e.name) != root && e.name != root ==> r.None?
    ensures e.create && isDir && Dir(e.name) == root ==>
      r == if v == RootWatcher && processed then None else Some(e.name)
    ensures !(e.create && isDir && Dir(e.name) == root) && (Dir(e.name) == root || e.name == root || v == PackageWatcher) ==>
      (r.Some? <==> Dir(Candidate(e.name, isDir)) == root) && (r.Some? ==> r.value == Candidate(e.name, isDir))
  {
    var eventDir := Dir(e.name);
    if v == RootWatcher && eventDir != root && e.name != root then None
    else if e.create && eventDir == root && isDir then
      if v == RootWatcher && processed then None else Some(e.name)
    else
      var candidate := Candidate(e.name, isDir);
      if Dir(candidate) == root then Some(candidate) else None
  }

  /** On the events the watcher delivers, the two copies differ only on a
      newly created directory the ledger reports processed. */
  lemma RoutesAgree(root: string, e: Event, isDir: bool, processed: bool)
    requires Dir(e.name) == root || e.name == root
    requires !(e.create && isDir && Dir(e.name) == root && processed)
    ensures Route(RootWatcher, root, e, isDir, processed) == Route(PackageWatcher, root, e, isDir, processed)
  {
  }

  /** A change to a file directly in the root, or to the root itself, is
      ignored, unless the root is its own parent ("/" or "."). */
  lemma RootIgnored(v: Variant, root: string, e: Event, isDir: bool, processed: bool)
    requires Dir(root) != root
    requires (e.name == root && isDir) || (Dir(e.name) == root && !isDir)
    ensures Route(v, root, e, isDir, processed).None?
  {
  }

  /** For a root that is clean and not its own parent, an event on an entry
      of the root schedules that entry or nothing. */
  lemma EntryEvents(v: Variant, root: string, name: string, create: bool, isDir: bool, processed: bool)
    requires root != "" && Clean(root) == root && SimpleName(name) && Dir(root) != root
    ensures var r := Route(v, root, Event(create, JoinPath(root, name)), isDir, processed);
      r.Some? ==> isDir && r.value == JoinPath(root, name)
  {
    DirBaseOfJoin(root, name);
  }

  /** cmd/music, which does not filter first, also reacts to a file two
      levels down by scheduling its album directory; its parent is not the
      root, so main.go drops the event. */
  lemma DeeperFile(root: string, album: string, file: string, processed: bool, create: bool)
    requires root != "" && Clean(root) == root && SimpleName(album) && SimpleName(file)
    ensures Dir(JoinPath(JoinPath(root, album), file)) != root
    ensures Route(PackageWatcher, root, Event(create, JoinPath(JoinPath(root, album), file)), false, processed)
         == Some(JoinPath(root, album))
  {
    var a := JoinPath(root, album);
    var p := JoinPath(a, file);
    DirOfGrandchild(root, album, file);
    DirBaseOfJoin(root, album);
    JoinIsClean(root, album);
    DirBaseOfJoin(a, file);
    assert Dir(p) == a && Dir(a) == root;
  }
}
