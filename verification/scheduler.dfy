/** The debounce registry and the scan decision of main.go (`triggerScan`,
    `performScan`, `initialScan`) and of pkg/scheduler/scheduler.go
    (`TriggerScan`, `performScan`, `InitialScan`). Timers are numbered; the
    registry maps each directory with a pending scan to its timer, and the
    live timers to the directory each will scan. A timer's callback runs
    atomically as `Fire`. The ledger of processed albums is a set with a
    flag for a database that fails every call; the stability verdict, the
    scanner's result and the processor's success are inputs. */
module Scheduler {
  import opened Wrappers
  import opened Paths
  import opened AlbumModel
  import Scanner
  import Processor

  /** main.go's copy, or pkg/scheduler's. */
  datatype Variant = RootScheduler | PackageScheduler

  /** `pendingScans`, the timers that have not fired or been stopped, and
      the number the next timer gets. */
  datatype Registry = Registry(pending: map<string, nat>, live: map<nat, string>, next: nat)

  const Empty: Registry := Registry(map[], map[], 0)

  /** Every registered timer is live and scans its own directory; every
      live timer has a number already handed out. */
  predicate Valid(r: Registry) {
    && (forall d | d in r.pending :: r.pending[d] in r.live && r.live[r.pending[d]] == d)
    && (forall t | t in r.live :: t < r.next)
  }

  /** Every live timer is the one registered for its directory. */
  predicate NoOrphans(r: Registry) {
    forall t | t in r.live :: r.live[t] in r.pending && r.pending[r.live[t]] == t
  }

  /** `triggerScan`: stop the directory's registered timer, if any, and
      register a new one for it. */
  function Trigger(r: Registry, dir: string): (r': Registry)
    ensures dir in r'.pending && r'.pending[dir] in r'.live && r'.live[r'.pending[dir]] == dir
    ensures r'.pending.Keys == r.pending.Keys + {dir}
    ensures forall d | d in r.pending && d != dir :: r'.pending[d] == r.pending[d]
    ensures forall t | t in r'.live && t != r'.pending[dir] :: t in r.live
    ensures Valid(r) ==> Valid(r') && r'.pending[dir] !in r.live
    ensures Valid(r) && dir in r.pending ==> r.pending[dir] !in r'.live
    ensures Valid(r) ==> forall t | t in r.live && (dir !in r.pending || t != r.pending[dir]) :: t in r'.live && r'.live[t] == r.live[t]
    ensures Valid(r) && NoOrphans(r) ==> NoOrphans(r')
    ensures Valid(r) && NoOrphans(r) ==> forall t | t in r'.live :: r'.live[t] == dir <==> t == r'.pending[dir]
  {
    var running := if dir in r.pending then r.live - {r.pending[dir]} else r.live;
    Registry(r.pending[dir := r.next], running[r.next := dir], r.next + 1)
  }

  // ---------------------------------------------------------------------
  // The ledger

  /** The processed-albums table; `down` makes every call fail. */
  datatype Ledger = Ledger(done: set<string>, down: bool)

  /** `IsAlbumProcessed`: a failed lookup reports "not processed". */
  predicate Processed(l: Ledger, dir: string) {
    !l.down && dir in l.done
  }

  /** `AddProcessedAlbum`: `INSERT OR IGNORE`; a failed insert is only logged. */
  function Marked(l: Ledger, dir: string): (l': Ledger)
    ensures l'.down == l.down
    ensures forall d :: Processed(l', d) <==> Processed(l, d) || (d == dir && !l.down)
  {
    if l.down then l else l.(done := l.done + {dir})
  }

  // ---------------------------------------------------------------------
  // The scan decision

  /** The calls `performScan` makes, in order. */
  datatype Call = Retrigger | Lookup | ScanDir | FetchTrack(disc: nat, track: nat) | Process | Mark

  function Rank(c: Call): nat {
    match c
    case Retrigger => 0
    case Lookup => 1
    case ScanDir => 2
    case FetchTrack(_, _) => 3
    case Process => 4
    case Mark => 5
  }

  /** Calls whose kinds come in the order retrigger, lookup, scan, fetches,
      process, mark. */
  predicate InOrder(cs: seq<Call>) {
    forall i, j | 0 <= i < j < |cs| :: Rank(cs[i]) <= Rank(cs[j])
  }

  /** What `performScan` did: its calls, the ledger after them, and the
      album it handed to `ProcessAlbum`, if any. */
  datatype Decision = Decision(calls: seq<Call>, ledger: Ledger, processed: Option<Album>)

  /** One `FetchMetadataAndUpdateTrack` per track, disc by disc, the discs
      numbered from `base`. */
  function FetchCalls(ds: seq<Disc>, base: nat): (cs: seq<Call>)
    ensures |cs| == TrackCount(ds)
    ensures forall c | c in cs :: c.FetchTrack?
    ensures forall i: nat, k: nat :: FetchTrack(i, k) in cs <==> base <= i < base + |ds| && k < |ds[i - base].tracks|
    decreases |ds|
  {
    if |ds| == 0 then []
    else
      var here := seq(|ds[0].tracks|, k requires 0 <= k < |ds[0].tracks| => FetchTrack(base, k));
      var rest := FetchCalls(ds[1..], base + 1);
      assert forall i: nat, k: nat :: FetchTrack(i, k) in here <==> i == base && k < |ds[0].tracks| by {
        forall i: nat, k: nat | FetchTrack(i, k) in here ensures i == base && k < |ds[0].tracks| {
          var j :| 0 <= j < |here| && here[j] == FetchTrack(i, k);
        }
        forall i: nat, k: nat | i == base && k < |ds[0].tracks| ensures FetchTrack(i, k) in here {
          assert here[k] == FetchTrack(i, k);
        }
      }
      assert forall j | 0 <= j < |ds| - 1 :: ds[1..][j] == ds[j + 1];
      here + rest
  }

  /** `performScan` for `dir`, given the stability verdict, the ledger, the
      scanner's result and whether `ProcessAlbum` succeeds on an album.
      pkg/scheduler looks each track up online before processing. */
  function Decide(v: Variant, dir: string, stable: bool, l: Ledger, scan: Scanner.Scan,
                  fetch: Track -> (int, string), processOk: Album -> bool): (d: Decision)
    ensures InOrder(d.calls)
    ensures Retrigger in d.calls <==> !stable
    ensures Lookup in d.calls <==> stable
    ensures ScanDir in d.calls <==> stable && !Processed(l, dir)
    ensures d.processed.Some? <==> stable && !Processed(l, dir) && scan.err.None? && |scan.album.discs| > 0
    ensures d.processed.Some? ==>
      d.processed.value == if v == PackageScheduler then Processor.FetchAll(scan.album, fetch) else scan.album
    ensures Process in d.calls <==> d.processed.Some?
    ensures Mark in d.calls <==> d.processed.Some? && processOk(d.processed.value)
    ensures d.ledger == if Mark in d.calls then Marked(l, dir) else l
    ensures forall i: nat, k: nat :: FetchTrack(i, k) in d.calls <==>
      v == PackageScheduler && d.processed.Some? && i < |scan.album.discs| && k < |scan.album.discs[i].tracks|
  {
    if !stable then Decision([Retrigger], l, None)
    else if Processed(l, dir) then Decision([Lookup], l, None)
    else if scan.err.Some? || |scan.album.discs| == 0 then Decision([Lookup, ScanDir], l, None)
    else Run(v, dir, l, scan.album, fetch, processOk)
  }

  /** The part of `performScan` after a scan that found discs. */
  function Run(v: Variant, dir: string, l: Ledger, album: Album,
               fetch: Track -> (int, string), processOk: Album -> bool): (d: Decision)
    ensures InOrder(d.calls)
    ensures Retrigger !in d.calls && Lookup in d.calls && ScanDir in d.calls && Process in d.calls
    ensures d.processed == Some(if v == PackageScheduler then Processor.FetchAll(album, fetch) else album)
    ensures Mark in d.calls <==> processOk(d.processed.value)
    ensures d.ledger == if Mark in d.calls then Marked(l, dir) else l
    ensures forall i: nat, k: nat :: FetchTrack(i, k) in d.calls <==>
      v == PackageScheduler && i < |album.discs| && k < |album.discs[i].tracks|
  {
    var given := if v == PackageScheduler then Processor.FetchAll(album, fetch) else album;
    var fetches := if v == PackageScheduler then FetchCalls(album.discs, 0) else [];
    var head := [Lookup, ScanDir] + fetches + [Process];
    var calls := if processOk(given) then head + [Mark] else head;
    HeadInOrder(fetches, processOk(given));
    HeadHolds(fetches, processOk(given));
    Decision(calls, if processOk(given) then Marked(l, dir) else l, Some(given))
  }

  /** Which calls the trace of a processed album holds. */
  lemma HeadHolds(fetches: seq<Call>, mark: bool)
    requires forall c | c in fetches :: c.FetchTrack?
    ensures var head := [Lookup, ScanDir] + fetches + [Process];
      var cs := if mark then head + [Mark] else head;
      && Retrigger !in cs && Lookup in cs && ScanDir in cs && Process in cs && (Mark in cs <==> mark)
      && forall i: nat, k: nat :: FetchTrack(i, k) in cs <==> FetchTrack(i, k) in fetches
  {
    var head := [Lookup, ScanDir] + fetches + [Process];
    var cs := if mark then head + [Mark] else head;
    assert cs[0] == Lookup && cs[1] == ScanDir && cs[2 + |fetches|] == Process;
    assert Retrigger !in fetches && Mark !in fetches;
    if mark { assert cs[|cs| - 1] == Mark; }
    forall i: nat, k: nat ensures FetchTrack(i, k) in cs <==> FetchTrack(i, k) in fetches {
      if FetchTrack(i, k) in cs {
        var j :| 0 <= j < |cs| && cs[j] == FetchTrack(i, k);
        assert 2 <= j < 2 + |fetches| && cs[j] == fetches[j - 2];
      }
      if FetchTrack(i, k) in fetches {
        var j :| 0 <= j < |fetches| && fetches[j] == FetchTrack(i, k);
        assert cs[j + 2] == fetches[j];
      }
    }
  }

  lemma HeadInOrder(fetches: seq<Call>, mark: bool)
    requires forall c | c in fetches :: c.FetchTrack?
    ensures var head := [Lookup, ScanDir] + fetches + [Process];
      InOrder(if mark then head + [Mark] else head)
  {
    var head := [Lookup, ScanDir] + fetches + [Process];
    var cs := if mark then head + [Mark] else head;
    forall i | 0 <= i < |cs| ensures Rank(cs[i]) == if i == 0 then 1 else if i == 1 then 2 else if i < 2 + |fetches| then 3 else if i == 2 + |fetches| then 4 else 5 {
      if 2 <= i < 2 + |fetches| {
        assert cs[i] == fetches[i - 2];
        assert fetches[i - 2] in fetches;
      }
    }
  }

  /** Once `performScan` marks a directory, a later stable scan of it skips
      it after the lookup, whatever the directory then holds. */
  lemma MarkedThenSkipped(v: Variant, dir: string, l: Ledger, scan: Scanner.Scan, scan': Scanner.Scan,
                          fetch: Track -> (int, string), processOk: Album -> bool)
    requires !l.down
    requires Mark in Decide(v, dir, true, l, scan, fetch, processOk).calls
    ensures var l' := Decide(v, dir, true, l, scan, fetch, processOk).ledger;
      Decide(v, dir, true, l', scan', fetch, processOk).calls == [Lookup]
      && Decide(v, dir, true, l', scan', fetch, processOk).ledger == l'
  {
    var l' := Decide(v, dir, true, l, scan, fetch, processOk).ledger;
    assert Processed(l', dir);
  }

  // ---------------------------------------------------------------------
  // A timer firing

  datatype Fired = Fired(registry: Registry, decision: Decision)

  /** The callback of timer `id`: `performScan` for its directory (which
      re-triggers it when unstable), then `delete(pendingScans, dir)`. */
  function Fire(v: Variant, r: Registry, id: nat, stable: bool, l: Ledger, scan: Scanner.Scan,
                fetch: Track -> (int, string), processOk: Album -> bool): (f: Fired)
    requires id in r.live
    ensures f.decision == Decide(v, r.live[id], stable, l, scan, fetch, processOk)
    ensures f.registry.pending.Keys == r.pending.Keys - {r.live[id]}
    ensures Valid(r) ==> id !in f.registry.live
    ensures stable ==> f.registry.live == r.live - {id}
    ensures Valid(r) ==> Valid(f.registry)
    ensures Valid(r) && NoOrphans(r) && stable ==> NoOrphans(f.registry)
  {
    var dir := r.live[id];
    var d := Decide(v, dir, stable, l, scan, fetch, processOk);
    var running := r.(live := r.live - {id});
    assert Valid(r) && NoOrphans(r) ==> dir in r.pending && r.pending[dir] == id;
    var after := if !stable then Trigger(running, dir) else running;
    Fired(after.(pending := after.pending - {dir}), d)
  }

  /** A scan found unstable re-triggers its directory from inside the
      callback, and the callback then deletes the new registration: the
      re-armed timer stays live with no entry for its directory. A later
      trigger of the directory cannot stop it, so two timers then scan it. */
  lemma OrphanedRearm(v: Variant, r: Registry, id: nat, l: Ledger, scan: Scanner.Scan,
                      fetch: Track -> (int, string), processOk: Album -> bool)
    requires Valid(r) && id in r.live
    ensures var f := Fire(v, r, id, false, l, scan, fetch, processOk).registry;
      && r.next in f.live && f.live[r.next] == r.live[id] && r.live[id] !in f.pending
      && !NoOrphans(f)
    ensures var f := Fire(v, r, id, false, l, scan, fetch, processOk).registry;
      var g := Trigger(f, r.live[id]);
      && r.next in g.live && g.pending[r.live[id]] in g.live && g.pending[r.live[id]] != r.next
      && g.live[r.next] == r.live[id] && g.live[g.pending[r.live[id]]] == r.live[id]
  {
    var dir := r.live[id];
    var running := r.(live := r.live - {id});
    assert running.next == r.next;
    var after := Trigger(running, dir);
    assert after.pending[dir] == r.next;
  }

  // ---------------------------------------------------------------------
  // The initial scan

  /** An entry of the download root's listing. */
  datatype Listed = Listed(name: string, isDir: bool)

  /** The initial scan schedules `d` for the entry `e`: a subdirectory the
      ledger does not report processed. */
  predicate Schedules(root: string, l: Ledger, e: Listed, d: string) {
    e.isDir && d == JoinPath(root, e.name) && !Processed(l, d)
  }

  function ToSchedule(root: string, l: Ledger, es: seq<Listed>): (ds: seq<string>)
    ensures forall d :: d in ds <==> exists k | 0 <= k < |es| :: Schedules(root, l, es[k], d)
    decreases |es|
  {
    if |es| == 0 then []
    else
      var rest := ToSchedule(root, l, es[1..]);
      assert forall d :: (exists k | 0 <= k < |es| :: Schedules(root, l, es[k], d))
                     <==> Schedules(root, l, es[0], d) || exists k | 0 <= k < |es[1..]| :: Schedules(root, l, es[1..][k], d) by {
        forall d | exists k | 0 <= k < |es| :: Schedules(root, l, es[k], d)
          ensures Schedules(root, l, es[0], d) || exists k | 0 <= k < |es[1..]| :: Schedules(root, l, es[1..][k], d)
        {
          var k :| 0 <= k < |es| && Schedules(root, l, es[k], d);
          if k > 0 { assert es[1..][k - 1] == es[k]; }
        }
        forall d, k | 0 <= k < |es[1..]| && Schedules(root, l, es[1..][k], d)
          ensures exists k | 0 <= k < |es| :: Schedules(root, l, es[k], d)
        {
          assert es[k + 1] == es[1..][k];
        }
      }
      if es[0].isDir && !Processed(l, JoinPath(root, es[0].name)) then [JoinPath(root, es[0].name)] + rest else rest
  }

  /** `triggerScan` on each directory in turn. */
  function TriggerAll(r: Registry, ds: seq<string>): (r': Registry)
    ensures forall d :: d in r'.pending <==> d in r.pending || d in ds
    ensures Valid(r) ==> Valid(r')
    ensures Valid(r) && NoOrphans(r) ==> NoOrphans(r')
    decreases |ds|
  {
    if |ds| == 0 then r
    else
      var r' := TriggerAll(Trigger(r, ds[0]), ds[1..]);
      assert forall d :: d in ds <==> d == ds[0] || d in ds[1..];
      r'
  }

  /** `initialScan`: a scan is scheduled for exactly the subdirectories of
      the root the ledger does not report processed; an unreadable root
      schedules nothing. */
  function InitialScan(r: Registry, root: string, listing: Option<seq<Listed>>, l: Ledger): (r': Registry)
    ensures listing.None? ==> r' == r
    ensures listing.Some? ==> forall d :: d in r'.pending <==>
      d in r.pending || exists k | 0 <= k < |listing.value| :: Schedules(root, l, listing.value[k], d)
    ensures Valid(r) ==> Valid(r')
    ensures Valid(r) && NoOrphans(r) ==> NoOrphans(r')
  {
    match listing
    case None => r
    case Some(es) => TriggerAll(r, ToSchedule(root, l, es))
  }

  /** Every directory the initial scan schedules is an immediate child of
      the root. */
  lemma InitialScanChildren(root: string, l: Ledger, es: seq<Listed>, d: string)
    requires root != "" && Clean(root) == root
    requires forall k | 0 <= k < |es| :: SimpleName(es[k].name)
    requires d in InitialScan(Empty, root, Some(es), l).pending
    ensures Dir(d) == root
  {
    var k :| 0 <= k < |es| && Schedules(root, l, es[k], d);
    DirBaseOfJoin(root, es[k].name);
  }
}
