/** `waitForFilesStability` in main.go and in pkg/scheduler/scheduler.go:
    poll a directory until every relevant file in it has kept its size and
    modification time for the quiet duration, or give up after the maximum
    wait. The clock is abstract: each poll comes with the instant it was
    taken and the listing `os.ReadDir` returned, so the whole wait is a fold
    over a sequence of timed listings. Instants and durations are integers
    (nanoseconds); a modification time is compared with `Equal`, which on
    these integers is equality. */
module Stability {
  import opened Wrappers
  import opened Paths
  import opened Relevance

  /** main.go's copy, or pkg/scheduler's. */
  datatype Variant = RootWatch | PackageWatch

  /** What a poll keeps of a file: its size and modification time. */
  datatype FileInfo = FileInfo(size: int, modTime: int)

  /** The outcome of `entry.Info()`: the info, a file that vanished since
      the listing (`os.IsNotExist`), or any other error. */
  datatype Stat = Info(info: FileInfo) | Vanished | StatFailed

  /** One entry of a directory listing. */
  datatype Entry = Entry(name: string, isDir: bool, stat: Stat)

  /** One poll's view of the world: the instant `time.Now()` gave, and the
      listing, or `None` when `os.ReadDir` failed. */
  datatype Snapshot = Snapshot(now: int, listing: Option<seq<Entry>>)

  /** What the wait loop carries from one poll to the next:
      `previousFileStates` and `fileQuietTimes`. A path absent from `quiet`
      has the zero time; every instant stored there is one `time.Now()`
      returned, never the zero time. */
  datatype Memory = Memory(states: map<string, FileInfo>, quiet: map<string, int>)

  /** The memory before the first poll. */
  const Fresh: Memory := Memory(map[], map[])

  /** The variables of the entry loop: `currentFileStates`,
      `fileQuietTimes`, `allRelevantFilesQuiet`, `hasRelevantFiles`. */
  datatype Acc = Acc(cur: map<string, FileInfo>, quiet: map<string, int>, allQuiet: bool, relevant: bool)

  /** The result of one poll: the memory for the next one, and whether the
      directory was found stable (the function returns true). */
  datatype Poll = Poll(memory: Memory, stable: bool)

  /** `filepath.Join(dir, entry.Name())`. */
  function PathOf(dir: string, e: Entry): string {
    JoinPath(dir, e.name)
  }

  /** The relevance test of each copy: main.go's inline test, or
      `util.IsRelevantMusicFile`. */
  predicate Watched(v: Variant, dir: string, e: Entry) {
    if v == RootWatch then PollRelevant(PathOf(dir, e), e.name) else IsRelevantMusicFile(PathOf(dir, e))
  }

  /** An entry the poll records: a relevant non-directory whose info was read. */
  predicate Tracked(v: Variant, dir: string, e: Entry) {
    !e.isDir && e.stat.Info? && Watched(v, dir, e)
  }

  /** A non-directory whose info could not be read, for a reason other than
      its having vanished: the poll stops there. */
  predicate Failing(e: Entry) {
    !e.isDir && e.stat.StatFailed?
  }

  /** An entry the poll passes over: a directory, a vanished file, or an
      irrelevant one. */
  predicate Ignored(v: Variant, dir: string, e: Entry) {
    !Failing(e) && !Tracked(v, dir, e)
  }

  predicate NoFailure(es: seq<Entry>) {
    forall k | 0 <= k < |es| :: !Failing(es[k])
  }

  predicate Untracked(v: Variant, dir: string, es: seq<Entry>) {
    forall k | 0 <= k < |es| :: !Tracked(v, dir, es[k])
  }

  /** The file at `p`, now with info `fi`, is as the previous poll saw it
      and has been quiet for at least `q`. */
  predicate Settled(m: Memory, now: int, q: int, p: string, fi: FileInfo) {
    p in m.states && m.states[p] == fi && p in m.quiet && now - m.quiet[p] >= q
  }

  /** Every file the listing shows is settled. */
  predicate AllSettled(v: Variant, dir: string, m: Memory, now: int, q: int, es: seq<Entry>) {
    forall k | 0 <= k < |es| && Tracked(v, dir, es[k]) :: Settled(m, now, q, PathOf(dir, es[k]), es[k].stat.info)
  }

  /** The paths the listing shows files at. */
  function TrackedPaths(v: Variant, dir: string, es: seq<Entry>): set<string>
    decreases |es|
  {
    if |es| == 0 then {}
    else (if Tracked(v, dir, es[0]) then {PathOf(dir, es[0])} else {}) + TrackedPaths(v, dir, es[1..])
  }

  /** The body of the entry loop for a tracked entry: record it; a file
      that is new or changed gets the current instant as its quiet time,
      so does an unchanged one with none yet, and a file quiet for less
      than `q` keeps the poll unsettled. */
  function Step(prev: map<string, FileInfo>, now: int, q: int, acc: Acc, p: string, fi: FileInfo): (next: Acc)
    ensures next.cur == acc.cur[p := fi] && next.relevant
    ensures next.allQuiet <==> acc.allQuiet && Settled(Memory(prev, acc.quiet), now, q, p, fi)
    ensures p in prev && prev[p] == fi && p in acc.quiet ==> next.quiet == acc.quiet
    ensures !(p in prev && prev[p] == fi && p in acc.quiet) ==> next.quiet == acc.quiet[p := now]
  {
    var seen := acc.(cur := acc.cur[p := fi], relevant := true);
    if p !in prev || prev[p] != fi then seen.(quiet := acc.quiet[p := now], allQuiet := false)
    else if p !in acc.quiet then seen.(quiet := acc.quiet[p := now], allQuiet := false)
    else if now - acc.quiet[p] < q then seen.(allQuiet := false)
    else seen
  }

  /** The entry loop over the listing, in order; a failing entry ends it. */
  function Entries(v: Variant, dir: string, prev: map<string, FileInfo>, now: int, q: int,
                   acc: Acc, es: seq<Entry>): Acc
    decreases |es|
  {
    if |es| == 0 then acc
    else if Failing(es[0]) then acc.(allQuiet := false, relevant := true)
    else if Tracked(v, dir, es[0]) then
      Entries(v, dir, prev, now, q, Step(prev, now, q, acc, PathOf(dir, es[0]), es[0].stat.info), es[1..])
    else Entries(v, dir, prev, now, q, acc, es[1..])
  }

  /** `allCurrentlyQuiet`: every file recorded in this poll whose quiet
      time is set has been quiet for at least `q`. */
  predicate CurrentlyQuiet(a: Acc, now: int, q: int) {
    forall p | p in a.quiet && p in a.cur :: now - a.quiet[p] >= q
  }

  /** One poll of a listing that was read. It finds the directory stable
      exactly when no entry's info failed and every relevant file is as
      the previous poll saw it and quiet for at least `q`; a listing with
      no relevant file is stable. */
  function PollOnce(v: Variant, dir: string, m: Memory, now: int, q: int, es: seq<Entry>): (r: Poll)
    ensures r.stable <==> NoFailure(es) && AllSettled(v, dir, m, now, q, es)
  {
    var start := Acc(map[], m.quiet, true, false);
    var a := Entries(v, dir, m.states, now, q, start, es);
    EntriesRelevant(v, dir, m.states, now, q, start, es);
    EntriesQuiet(v, dir, m.states, now, q, start, es);
    EntriesCurrent(v, dir, m.states, now, q, start, es);
    Poll(Memory(a.cur, a.quiet), !a.relevant || (a.allQuiet && CurrentlyQuiet(a, now, q)))
  }

  /** `hasRelevantFiles` ends true exactly when an entry failed or a
      relevant file was listed. */
  lemma {:induction false} EntriesRelevant(v: Variant, dir: string, prev: map<string, FileInfo>, now: int, q: int,
                                           acc: Acc, es: seq<Entry>)
    ensures Entries(v, dir, prev, now, q, acc, es).relevant
        <==> acc.relevant || !NoFailure(es) || !Untracked(v, dir, es)
    decreases |es|
  {
    if |es| > 0 && !Failing(es[0]) {
      var next := if Tracked(v, dir, es[0]) then Step(prev, now, q, acc, PathOf(dir, es[0]), es[0].stat.info) else acc;
      EntriesRelevant(v, dir, prev, now, q, next, es[1..]);
      assert NoFailure(es) <==> NoFailure(es[1..]);
      assert Untracked(v, dir, es) <==> !Tracked(v, dir, es[0]) && Untracked(v, dir, es[1..]);
    }
  }

  lemma AllSettledCons(v: Variant, dir: string, m: Memory, now: int, q: int, es: seq<Entry>)
    requires |es| > 0
    ensures AllSettled(v, dir, m, now, q, es)
        <==> (Tracked(v, dir, es[0]) ==> Settled(m, now, q, PathOf(dir, es[0]), es[0].stat.info))
             && AllSettled(v, dir, m, now, q, es[1..])
  {
    if (Tracked(v, dir, es[0]) ==> Settled(m, now, q, PathOf(dir, es[0]), es[0].stat.info))
       && AllSettled(v, dir, m, now, q, es[1..]) {
      forall k | 0 <= k < |es| && Tracked(v, dir, es[k])
        ensures Settled(m, now, q, PathOf(dir, es[k]), es[k].stat.info)
      {
        if k > 0 { assert es[k] == es[1..][k - 1]; }
      }
    }
  }

  /** `allRelevantFilesQuiet` ends true exactly when it started true, no
      entry failed and every listed file was settled; then no quiet time
      was touched. */
  lemma {:induction false} EntriesQuiet(v: Variant, dir: string, prev: map<string, FileInfo>, now: int, q: int,
                                        acc: Acc, es: seq<Entry>)
    ensures Entries(v, dir, prev, now, q, acc, es).allQuiet
        <==> acc.allQuiet && NoFailure(es) && AllSettled(v, dir, Memory(prev, acc.quiet), now, q, es)
    ensures Entries(v, dir, prev, now, q, acc, es).allQuiet ==> Entries(v, dir, prev, now, q, acc, es).quiet == acc.quiet
    decreases |es|
  {
    if |es| > 0 && !Failing(es[0]) {
      var m := Memory(prev, acc.quiet);
      assert NoFailure(es) <==> NoFailure(es[1..]);
      if Tracked(v, dir, es[0]) {
        var p := PathOf(dir, es[0]);
        var fi := es[0].stat.info;
        var next := Step(prev, now, q, acc, p, fi);
        EntriesQuiet(v, dir, prev, now, q, next, es[1..]);
        AllSettledCons(v, dir, m, now, q, es);
      } else {
        EntriesQuiet(v, dir, prev, now, q, acc, es[1..]);
        AllSettledCons(v, dir, m, now, q, es);
      }
    }
  }

  /** While the poll stays quiet, every file it records has been quiet
      for at least `q`: the final `allCurrentlyQuiet` loop then finds
      nothing new. */
  lemma {:induction false} EntriesCurrent(v: Variant, dir: string, prev: map<string, FileInfo>, now: int, q: int,
                                          acc: Acc, es: seq<Entry>)
    requires forall p | p in acc.cur :: p in acc.quiet && now - acc.quiet[p] >= q
    ensures var r := Entries(v, dir, prev, now, q, acc, es);
      r.allQuiet ==> CurrentlyQuiet(r, now, q)
    decreases |es|
  {
    if |es| > 0 && !Failing(es[0]) {
      if Tracked(v, dir, es[0]) {
        var next := Step(prev, now, q, acc, PathOf(dir, es[0]), es[0].stat.info);
        if next.allQuiet {
          EntriesCurrent(v, dir, prev, now, q, next, es[1..]);
        } else {
          EntriesQuiet(v, dir, prev, now, q, next, es[1..]);
        }
      } else {
        EntriesCurrent(v, dir, prev, now, q, acc, es[1..]);
      }
    }
  }

  /** The states a poll hands on are those of the files it listed. */
  lemma {:induction false} EntriesRecord(v: Variant, dir: string, prev: map<string, FileInfo>, now: int, q: int,
                                         acc: Acc, es: seq<Entry>)
    requires NoFailure(es)
    ensures Entries(v, dir, prev, now, q, acc, es).cur.Keys == acc.cur.Keys + TrackedPaths(v, dir, es)
    decreases |es|
  {
    if |es| > 0 {
      assert !Failing(es[0]);
      assert NoFailure(es[1..]);
      if Tracked(v, dir, es[0]) {
        var next := Step(prev, now, q, acc, PathOf(dir, es[0]), es[0].stat.info);
        assert next.cur.Keys == acc.cur.Keys + {PathOf(dir, es[0])};
        EntriesRecord(v, dir, prev, now, q, next, es[1..]);
      } else {
        EntriesRecord(v, dir, prev, now, q, acc, es[1..]);
      }
    }
  }

  /** A poll that no entry failed remembers exactly the files it listed. */
  lemma PollRecords(v: Variant, dir: string, m: Memory, now: int, q: int, es: seq<Entry>)
    requires NoFailure(es)
    ensures PollOnce(v, dir, m, now, q, es).memory.states.Keys == TrackedPaths(v, dir, es)
  {
    EntriesRecord(v, dir, m.states, now, q, Acc(map[], m.quiet, true, false), es);
  }

  /** A quiet time no later entry touches survives the rest of the loop. */
  lemma {:induction false} EntriesKeep(v: Variant, dir: string, prev: map<string, FileInfo>, now: int, q: int,
                                       acc: Acc, es: seq<Entry>, p: string)
    requires p in acc.quiet
    requires forall j | 0 <= j < |es| && Tracked(v, dir, es[j]) :: PathOf(dir, es[j]) != p
    ensures p in Entries(v, dir, prev, now, q, acc, es).quiet
    ensures Entries(v, dir, prev, now, q, acc, es).quiet[p] == acc.quiet[p]
    decreases |es|
  {
    if |es| > 0 && !Failing(es[0]) {
      if Tracked(v, dir, es[0]) {
        assert PathOf(dir, es[0]) != p;
        EntriesKeep(v, dir, prev, now, q, Step(prev, now, q, acc, PathOf(dir, es[0]), es[0].stat.info), es[1..], p);
      } else {
        EntriesKeep(v, dir, prev, now, q, acc, es[1..], p);
      }
    }
  }

  lemma {:induction false} EntriesReset(v: Variant, dir: string, prev: map<string, FileInfo>, now: int, q: int,
                                        acc: Acc, es: seq<Entry>, k: nat)
    requires k < |es| && Tracked(v, dir, es[k]) && NoFailure(es[..k])
    requires PathOf(dir, es[k]) !in prev || prev[PathOf(dir, es[k])] != es[k].stat.info
    requires forall j | k < j < |es| && Tracked(v, dir, es[j]) :: PathOf(dir, es[j]) != PathOf(dir, es[k])
    ensures PathOf(dir, es[k]) in Entries(v, dir, prev, now, q, acc, es).quiet
    ensures Entries(v, dir, prev, now, q, acc, es).quiet[PathOf(dir, es[k])] == now
    decreases |es|
  {
    var p := PathOf(dir, es[k]);
    if k == 0 {
      var next := Step(prev, now, q, acc, p, es[0].stat.info);
      assert next.quiet[p] == now;
      EntriesKeep(v, dir, prev, now, q, next, es[1..], p);
    } else {
      assert es[0] == es[..k][0];
      assert !Failing(es[0]);
      assert es[1..][..k - 1] == es[..k][1..];
      var next := if Tracked(v, dir, es[0]) then Step(prev, now, q, acc, PathOf(dir, es[0]), es[0].stat.info) else acc;
      EntriesReset(v, dir, prev, now, q, next, es[1..], k - 1);
    }
  }

  /** A relevant file that is new or whose size or modification time
      changed gets the poll's instant as its quiet time, and the poll is
      not stable. */
  lemma ChangedFileResets(v: Variant, dir: string, m: Memory, now: int, q: int, es: seq<Entry>, k: nat)
    requires k < |es| && Tracked(v, dir, es[k]) && NoFailure(es[..k])
    requires PathOf(dir, es[k]) !in m.states || m.states[PathOf(dir, es[k])] != es[k].stat.info
    requires forall j | k < j < |es| && Tracked(v, dir, es[j]) :: PathOf(dir, es[j]) != PathOf(dir, es[k])
    ensures PathOf(dir, es[k]) in PollOnce(v, dir, m, now, q, es).memory.quiet
    ensures PollOnce(v, dir, m, now, q, es).memory.quiet[PathOf(dir, es[k])] == now
    ensures !PollOnce(v, dir, m, now, q, es).stable
  {
    EntriesReset(v, dir, m.states, now, q, Acc(map[], m.quiet, true, false), es, k);
    assert !Settled(m, now, q, PathOf(dir, es[k]), es[k].stat.info);
  }

  /** Directories, vanished files and irrelevant files make no difference
      to a poll, wherever they appear in the listing. */
  lemma {:induction false} IgnoredEntry(v: Variant, dir: string, prev: map<string, FileInfo>, now: int, q: int,
                                        acc: Acc, xs: seq<Entry>, e: Entry, ys: seq<Entry>)
    requires Ignored(v, dir, e)
    ensures Entries(v, dir, prev, now, q, acc, xs + [e] + ys) == Entries(v, dir, prev, now, q, acc, xs + ys)
    decreases |xs|
  {
    if |xs| == 0 {
      assert xs + [e] + ys == [e] + ys && xs + ys == ys;
      assert ([e] + ys)[0] == e && ([e] + ys)[1..] == ys;
    } else {
      assert (xs + [e] + ys)[0] == xs[0] && (xs + ys)[0] == xs[0];
      assert (xs + [e] + ys)[1..] == xs[1..] + [e] + ys;
      assert (xs + ys)[1..] == xs[1..] + ys;
      if !Failing(xs[0]) {
        var next := if Tracked(v, dir, xs[0]) then Step(prev, now, q, acc, PathOf(dir, xs[0]), xs[0].stat.info) else acc;
        IgnoredEntry(v, dir, prev, now, q, next, xs[1..], e, ys);
      }
    }
  }

  lemma IgnoredInPoll(v: Variant, dir: string, m: Memory, now: int, q: int, xs: seq<Entry>, e: Entry, ys: seq<Entry>)
    requires Ignored(v, dir, e)
    ensures PollOnce(v, dir, m, now, q, xs + [e] + ys) == PollOnce(v, dir, m, now, q, xs + ys)
  {
    IgnoredEntry(v, dir, m.states, now, q, Acc(map[], m.quiet, true, false), xs, e, ys);
  }

  /** On a clean directory whose entries are plain names the two copies'
      relevance tests agree, and so do their polls. */
  lemma {:induction false} EntriesAgree(dir: string, prev: map<string, FileInfo>, now: int, q: int,
                                        acc: Acc, es: seq<Entry>)
    requires dir != "" && Clean(dir) == dir
    requires forall k | 0 <= k < |es| :: SimpleName(es[k].name)
    ensures Entries(RootWatch, dir, prev, now, q, acc, es) == Entries(PackageWatch, dir, prev, now, q, acc, es)
    decreases |es|
  {
    if |es| > 0 {
      PollRelevantAgrees(dir, es[0].name);
      assert Tracked(RootWatch, dir, es[0]) <==> Tracked(PackageWatch, dir, es[0]);
      if !Failing(es[0]) {
        var next := if Tracked(RootWatch, dir, es[0]) then Step(prev, now, q, acc, PathOf(dir, es[0]), es[0].stat.info) else acc;
        EntriesAgree(dir, prev, now, q, next, es[1..]);
      }
    }
  }

  lemma PollsAgree(dir: string, m: Memory, now: int, q: int, es: seq<Entry>)
    requires dir != "" && Clean(dir) == dir
    requires forall k | 0 <= k < |es| :: SimpleName(es[k].name)
    ensures PollOnce(RootWatch, dir, m, now, q, es) == PollOnce(PackageWatch, dir, m, now, q, es)
  {
    EntriesAgree(dir, m.states, now, q, Acc(map[], m.quiet, true, false), es);
  }

  // ---------------------------------------------------------------------
  // The wait

  /** The wait loop from memory `m` over the polls `snaps`, started at
      `start`: true once a poll is stable, false once a poll comes at or
      after `start + maxWait`, and `None` if the polls run out first. A
      failed `ReadDir` ends main.go's wait with false; pkg/scheduler's
      sleeps and polls again, its memory untouched. */
  function Wait(v: Variant, dir: string, q: int, maxWait: int, start: int, m: Memory, snaps: seq<Snapshot>): (r: Option<bool>)
    ensures r == Some(true) ==> exists k | 0 <= k < |snaps| :: snaps[k].now - start < maxWait && snaps[k].listing.Some?
    decreases |snaps|
  {
    if |snaps| == 0 then None
    else
      var s := snaps[0];
      if s.now - start >= maxWait then Some(false)
      else match s.listing
        case None =>
          if v == RootWatch then Some(false)
          else
            var r := Wait(v, dir, q, maxWait, start, m, snaps[1..]);
            assert r == Some(true) ==> exists k | 0 <= k < |snaps| :: snaps[k].now - start < maxWait && snaps[k].listing.Some? by {
              if r == Some(true) {
                var k :| 0 <= k < |snaps[1..]| && snaps[1..][k].now - start < maxWait && snaps[1..][k].listing.Some?;
                assert snaps[k + 1] == snaps[1..][k];
              }
            }
            r
        case Some(es) =>
          var p := PollOnce(v, dir, m, s.now, q, es);
          if p.stable then Some(true)
          else
            var r := Wait(v, dir, q, maxWait, start, p.memory, snaps[1..]);
            assert r == Some(true) ==> exists k | 0 <= k < |snaps| :: snaps[k].now - start < maxWait && snaps[k].listing.Some? by {
              if r == Some(true) {
                var k :| 0 <= k < |snaps[1..]| && snaps[1..][k].now - start < maxWait && snaps[1..][k].listing.Some?;
                assert snaps[k + 1] == snaps[1..][k];
              }
            }
            r
  }

  /** The wait is decided by the first poll at or after the deadline:
      later polls are never looked at. */
  lemma {:induction false} WaitDeadline(v: Variant, dir: string, q: int, maxWait: int, start: int, m: Memory,
                                        snaps: seq<Snapshot>, k: nat)
    requires k < |snaps| && snaps[k].now - start >= maxWait
    ensures Wait(v, dir, q, maxWait, start, m, snaps).Some?
    ensures Wait(v, dir, q, maxWait, start, m, snaps) == Wait(v, dir, q, maxWait, start, m, snaps[..k + 1])
    decreases k
  {
    var s := snaps[0];
    assert snaps[..k + 1][0] == s;
    if k > 0 && s.now - start < maxWait {
      assert snaps[..k + 1][1..] == snaps[1..][..k];
      match s.listing
      case None =>
        if v == PackageWatch {
          WaitDeadline(v, dir, q, maxWait, start, m, snaps[1..], k - 1);
        }
      case Some(es) =>
        var p := PollOnce(v, dir, m, s.now, q, es);
        if !p.stable {
          WaitDeadline(v, dir, q, maxWait, start, p.memory, snaps[1..], k - 1);
        }
    }
  }

  /** A poll with no `ReadDir` result: main.go's wait ends there unless it
      had already ended, and never with true after it; pkg/scheduler's
      wait carries on as if the poll had not happened. */
  lemma {:induction false} ReadFailure(v: Variant, dir: string, q: int, maxWait: int, start: int, m: Memory,
                                       xs: seq<Snapshot>, now: int, ys: seq<Snapshot>)
    requires now - start < maxWait
    ensures v == RootWatch ==> Wait(v, dir, q, maxWait, start, m, xs + [Snapshot(now, None)] + ys).Some?
    ensures v == RootWatch && Wait(v, dir, q, maxWait, start, m, xs).None? ==>
      Wait(v, dir, q, maxWait, start, m, xs + [Snapshot(now, None)] + ys) == Some(false)
    ensures v == PackageWatch ==>
      Wait(v, dir, q, maxWait, start, m, xs + [Snapshot(now, None)] + ys) == Wait(v, dir, q, maxWait, start, m, xs + ys)
    decreases |xs|
  {
    var f := Snapshot(now, None);
    if |xs| == 0 {
      assert xs + [f] + ys == [f] + ys && xs + ys == ys;
      assert ([f] + ys)[0] == f && ([f] + ys)[1..] == ys;
    } else {
      var s := xs[0];
      assert (xs + [f] + ys)[0] == s && (xs + ys)[0] == s;
      assert (xs + [f] + ys)[1..] == xs[1..] + [f] + ys;
      assert (xs + ys)[1..] == xs[1..] + ys;
      if s.now - start < maxWait {
        match s.listing
        case None =>
          if v == PackageWatch {
            ReadFailure(v, dir, q, maxWait, start, m, xs[1..], now, ys);
          }
        case Some(es) =>
          var p := PollOnce(v, dir, m, s.now, q, es);
          if !p.stable {
            ReadFailure(v, dir, q, maxWait, start, p.memory, xs[1..], now, ys);
          }
      }
    }
  }

  /** The first poll never ends the wait when it lists a relevant file:
      the wait goes on from what that poll saw. */
  lemma FirstPollWaits(v: Variant, dir: string, q: int, maxWait: int, start: int,
                       snaps: seq<Snapshot>, k: nat)
    requires |snaps| > 0 && snaps[0].now - start < maxWait && snaps[0].listing.Some?
    requires k < |snaps[0].listing.value| && Tracked(v, dir, snaps[0].listing.value[k])
    ensures !PollOnce(v, dir, Fresh, snaps[0].now, q, snaps[0].listing.value).stable
    ensures Wait(v, dir, q, maxWait, start, Fresh, snaps)
         == Wait(v, dir, q, maxWait, start, PollOnce(v, dir, Fresh, snaps[0].now, q, snaps[0].listing.value).memory, snaps[1..])
  {
    var es := snaps[0].listing.value;
    assert !Settled(Fresh, snaps[0].now, q, PathOf(dir, es[k]), es[k].stat.info);
  }
}
