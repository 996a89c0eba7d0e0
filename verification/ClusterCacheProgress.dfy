/** What the cluster cache tracker can do: nothing ever deadlocks, a Watch call left alone succeeds, and two
    overlapping tear-downs can lose a running cache. */
module ClusterCacheProgress {
  import opened Wrappers
  import opened Runs
  import opened ClusterCache
  import opened ClusterCacheSafety
  import opened ClusterCacheRuns

  // ----- No deadlock ------------------------------------------------------------------------------

  /** Waiting for one of the two read-write locks, to write or to read. */
  predicate WantsToWrite(which: Which, at: Location) {
    match which
    case WatchesLock => at.WantWatches? || at.WantForget?
    case MappedLock => at.WantCreate? || at.WantUnmap?
  }

  predicate WantsToRead(which: Which, at: Location) {
    match which
    case WatchesLock => at.WantPeek?
    case MappedLock => at.WantLookup? || at.Polling? || at.WantGet?
  }

  /** Go's lock lets no reader in while a writer waits.  The protocol does; so what it proves of all its runs holds with
      either rule, and progress is proved under the stricter one. */
  predicate InTurn(s: Tracker, t: Id) {
    t in s.threads ==> forall which: Which, x: Id | WantsToRead(which, s.threads[t].at) && x in s.threads ::
                         !WantsToWrite(which, s.threads[x].at)
  }

  /** The thread has a step, and takes no reader's lock out of turn in it. */
  ghost predicate CanMove(s: Tracker, t: Id) {
    exists step: Step, u: Tracker :: step.t == t && Next(s, step, u) && (step.Take? ==> InTurn(s, t))
  }

  lemma MovesBy(s: Tracker, step: Step, u: Tracker)
    requires Next(s, step, u) && (step.Take? ==> InTurn(s, step.t))
    ensures CanMove(s, step.t)
  {
  }

  predicate Waits(at: Location) {
    Inside(at) != at
  }

  /** Thread x keeps t from the lock it waits for: it is inside a section of it, or it waits to write where t waits to
      read. */
  predicate Blocks(s: Tracker, x: Id, t: Id) {
    x in s.threads && t in s.threads && BlocksAt(s.threads[x], s.threads[t])
  }

  predicate BlocksAt(x: Thread, t: Thread) {
    || (t.at.WantStop? && HoldsCache(x.at) && x.cache == t.cache)
    || (exists which: Which ::
          || (WantsToWrite(which, t.at) && (Writes(which, x.at) || Reads(which, x.at)))
          || (WantsToRead(which, t.at) && (Writes(which, x.at) || WantsToWrite(which, x.at))))
  }

  lemma WatchRuns(s: Tracker, t: Id)
    requires t in s.threads
    requires var at := s.threads[t].at; Watching(at) || at.Peeking? || at.Rechecking?
    requires !Waits(s.threads[t].at)
    ensures CanMove(s, t)
  {
    hide CanMove, Put, InTurn;
    var th := s.threads[t];
    match th.at
    case Peeking =>
      MovesBy(s, Peek(t), Go(s, t, if Watch(th.cluster, th.info) in s.watches then Finished else WantWatches));
    case Rechecking =>
      MovesBy(s, Recheck(t), Go(s, t, if Watch(th.cluster, th.info) in s.watches then Finished else WantLookup));
    case Looking =>
      MovesBy(s, Lookup(t), if th.cluster in s.mapped then Put(s, t, th.(at := Calling, cache := s.mapped[th.cluster]))
                                else Go(s, t, WantCreate));
    case Creating =>
      if th.cluster in s.mapped {
        MovesBy(s, Reuse(t), Put(s, t, th.(at := Calling, cache := s.mapped[th.cluster])));
      } else {
        MovesBy(s, CreateFails(t), Go(s, t, Finished));
      }
    case Calling => MovesBy(s, Establish(t), Go(s, t, Recording));
    case Recording =>
      MovesBy(s, Record(t), Go(s, t, Finished).(watches := s.watches[Watch(th.cluster, th.info) := th.cache]));
  }

  lemma TearDownRuns(s: Tracker, t: Id)
    requires RefsOk(s) && t in s.threads && !Waits(s.threads[t].at) && !s.threads[t].at.Finished?
    requires var at := s.threads[t].at; at.Probing? || at.Getting? || HoldsCache(at) || Marked(at)
    ensures CanMove(s, t)
  {
    hide CanMove, Put, InTurn;
    var th := s.threads[t];
    var c := th.cache;
    match th.at
    case Probing =>
      MovesBy(s, Probe(t, true), if th.cluster !in s.mapped then Go(s, t, Finished)
          else Put(s, t, th.(at := Polling, failures := 0)));
    case Getting =>
      MovesBy(s, Get(t), if th.cluster in s.mapped then Put(s, t, th.(at := WantStop, cache := s.mapped[th.cluster]))
                             else Go(s, t, Finished));
    case Stopping =>
      MovesBy(s, Mark(t), if s.caches[c].stopped then SetCache(Go(s, t, WantUnmap), c, s.caches[c].(lock := None))
                              else SetCache(Go(s, t, Closing), c, s.caches[c].(stopped := true)));
    case Closing =>
      MovesBy(s, Close(t),
          SetCache(Go(s, t, WantUnmap), c, s.caches[c].(closes := s.caches[c].closes + 1, lock := None)));
    case Unmapping => MovesBy(s, Unmap(t), Go(s, t, WantForget).(mapped := s.mapped - {th.cluster}));
    case Forgetting => MovesBy(s, Forget(t), Go(s, t, Finished).(watches := WatchesExcept(s.watches, th.cluster)));
  }

  lemma TakesIfFree(s: Tracker, t: Id)
    requires t in s.threads && Waits(s.threads[t].at) && MayTake(s, s.threads[t]) && InTurn(s, t)
    ensures CanMove(s, t)
  {
    hide CanMove, Put, InTurn;
    var th := s.threads[t];
    var u := if th.at.WantStop? then SetCache(Go(s, t, Stopping), th.cache, s.caches[th.cache].(lock := Some(t)))
             else Go(s, t, Inside(th.at));
    MovesBy(s, Take(t), u);
  }

  lemma Unblocked(s: Tracker, t: Id)
    requires RefsOk(s) && t in s.threads && !s.threads[t].at.Finished?
    requires Waits(s.threads[t].at) ==> MayTake(s, s.threads[t]) && InTurn(s, t)
    ensures CanMove(s, t)
  {
    hide CanMove, MayTake, RefsOk, InTurn;
    var at := s.threads[t].at;
    if Waits(at) {
      TakesIfFree(s, t);
    } else if Watching(at) || at.Peeking? || at.Rechecking? {
      WatchRuns(s, t);
    } else {
      TearDownRuns(s, t);
    }
  }

  /** Threads each of which is blocked by the next, the last of which can move. */
  ghost predicate Chain(s: Tracker, path: seq<Id>) {
    && path != [] && CanMove(s, path[|path| - 1])
    && forall i | 0 <= i < |path| - 1 :: Blocks(s, path[i + 1], path[i])
  }

  lemma Link(s: Tracker, t: Id, path: seq<Id>)
    requires Chain(s, path) && Blocks(s, path[0], t)
    ensures Chain(s, [t] + path)
  {
    hide CanMove, Blocks;
    var p := [t] + path;
    assert p[|p| - 1] == path[|path| - 1];
    forall i | 0 <= i < |p| - 1 ensures Blocks(s, p[i + 1], p[i]) {
      if i > 0 {
        assert p[i + 1] == path[i] && p[i] == path[i - 1];
      }
    }
  }

  lemma Holder(l: RWLock, threads: map<Id, Thread>, which: Which) returns (x: Id)
    requires HeldRight(l, threads, which) && !MayWrite(l)
    ensures x in threads && (Writes(which, threads[x].at) || Reads(which, threads[x].at))
    ensures !MayRead(l) ==> Writes(which, threads[x].at)
  {
    if l.writer.Some? {
      x := l.writer.value;
    } else {
      x :| x in l.readers;
    }
  }

  function LockOf(s: Tracker, which: Which): RWLock {
    if which.WatchesLock? then s.watchesLock else s.mappedLock
  }

  /** Nobody inside a section of the map's lock, or of a cache's lock, waits for anything: only a Watch call takes a
      lock while it holds one, and always the lock of the map after that of the watches. */
  lemma InnerLocksDoNotWait(x: Location)
    requires Writes(MappedLock, x) || Reads(MappedLock, x) || HoldsCache(x)
    ensures !Waits(x) && !x.Finished?
  {
  }

  lemma OuterLockWaits(x: Location)
    requires Writes(WatchesLock, x) || Reads(WatchesLock, x)
    ensures Waits(x) ==> WantsToRead(MappedLock, x) || WantsToWrite(MappedLock, x)
    ensures !x.Finished?
  {
  }

  lemma ChainOfRunner(s: Tracker, t: Id) returns (path: seq<Id>)
    requires RefsOk(s) && t in s.threads && !s.threads[t].at.Finished? && !Waits(s.threads[t].at)
    ensures Chain(s, path) && path == [t]
  {
    Unblocked(s, t);
    path := [t];
  }

  lemma FreeForWriter(s: Tracker, which: Which, t: Id)
    requires RefsOk(s) && t in s.threads && WantsToWrite(which, s.threads[t].at) && MayWrite(LockOf(s, which))
    ensures CanMove(s, t)
  {
    Unblocked(s, t);
  }

  lemma FreeForReader(s: Tracker, which: Which, t: Id)
    requires RefsOk(s) && t in s.threads && WantsToRead(which, s.threads[t].at) && MayRead(LockOf(s, which))
    requires forall x | x in s.threads :: !WantsToWrite(which, s.threads[x].at)
    ensures CanMove(s, t)
  {
    assert forall other: Which | WantsToRead(other, s.threads[t].at) :: other == which;
    Unblocked(s, t);
  }

  ghost predicate Ready(s: Tracker) {
    RefsOk(s) && HeldRight(s.watchesLock, s.threads, WatchesLock) && HeldRight(s.mappedLock, s.threads, MappedLock)
  }

  lemma ChainOfMapWriter(s: Tracker, t: Id) returns (path: seq<Id>)
    requires Ready(s) && t in s.threads && WantsToWrite(MappedLock, s.threads[t].at)
    ensures Chain(s, path) && path[0] == t && |path| <= 2
  {
    if MayWrite(s.mappedLock) {
      FreeForWriter(s, MappedLock, t);
      path := [t];
    } else {
      var x := Holder(s.mappedLock, s.threads, MappedLock);
      InnerLocksDoNotWait(s.threads[x].at);
      path := ChainOfRunner(s, x);
      Link(s, t, path);
      path := [t] + path;
    }
  }

  lemma ChainOfMapReader(s: Tracker, t: Id) returns (path: seq<Id>)
    requires Ready(s) && t in s.threads && WantsToRead(MappedLock, s.threads[t].at)
    ensures Chain(s, path) && path[0] == t && |path| <= 3
  {
    if x :| x in s.threads && WantsToWrite(MappedLock, s.threads[x].at) {
      path := ChainOfMapWriter(s, x);
      Link(s, t, path);
      path := [t] + path;
    } else if MayRead(s.mappedLock) {
      FreeForReader(s, MappedLock, t);
      path := [t];
    } else {
      var x := Holder(s.mappedLock, s.threads, MappedLock);
      InnerLocksDoNotWait(s.threads[x].at);
      path := ChainOfRunner(s, x);
      Link(s, t, path);
      path := [t] + path;
    }
  }

  lemma ChainOfWatchesHolder(s: Tracker, t: Id) returns (path: seq<Id>)
    requires Ready(s) && t in s.threads && (Writes(WatchesLock, s.threads[t].at) || Reads(WatchesLock, s.threads[t].at))
    ensures Chain(s, path) && path[0] == t && |path| <= 3
  {
    OuterLockWaits(s.threads[t].at);
    if !Waits(s.threads[t].at) {
      path := ChainOfRunner(s, t);
    } else if WantsToRead(MappedLock, s.threads[t].at) {
      path := ChainOfMapReader(s, t);
    } else {
      path := ChainOfMapWriter(s, t);
    }
  }

  lemma ChainOfWatchesWriter(s: Tracker, t: Id) returns (path: seq<Id>)
    requires Ready(s) && t in s.threads && WantsToWrite(WatchesLock, s.threads[t].at)
    ensures Chain(s, path) && path[0] == t && |path| <= 4
  {
    if MayWrite(s.watchesLock) {
      FreeForWriter(s, WatchesLock, t);
      path := [t];
    } else {
      var x := Holder(s.watchesLock, s.threads, WatchesLock);
      path := ChainOfWatchesHolder(s, x);
      Link(s, t, path);
      path := [t] + path;
    }
  }

  lemma ChainOfWatchesReader(s: Tracker, t: Id) returns (path: seq<Id>)
    requires Ready(s) && t in s.threads && WantsToRead(WatchesLock, s.threads[t].at)
    ensures Chain(s, path) && path[0] == t && |path| <= 5
  {
    if x :| x in s.threads && WantsToWrite(WatchesLock, s.threads[x].at) {
      path := ChainOfWatchesWriter(s, x);
      Link(s, t, path);
      path := [t] + path;
    } else if MayRead(s.watchesLock) {
      FreeForReader(s, WatchesLock, t);
      path := [t];
    } else {
      var x := Holder(s.watchesLock, s.threads, WatchesLock);
      path := ChainOfWatchesHolder(s, x);
      Link(s, t, path);
      path := [t] + path;
    }
  }

  lemma ChainOfStopper(s: Tracker, t: Id) returns (path: seq<Id>)
    requires Ready(s) && CacheLocksOk(s) && t in s.threads && s.threads[t].at.WantStop?
    ensures Chain(s, path) && path[0] == t && |path| <= 2
  {
    var c := s.threads[t].cache;
    if s.caches[c].lock.None? {
      Unblocked(s, t);
      path := [t];
    } else {
      var x := s.caches[c].lock.value;
      assert s.caches[c].lock == Some(x);
      InnerLocksDoNotWait(s.threads[x].at);
      path := ChainOfRunner(s, x);
      Link(s, t, path);
      path := [t] + path;
    }
  }

  /** Every wait ends, within four more threads each of which blocks the one before, at a thread that can move.  So no
      reachable state deadlocks, even if no reader is let in while a writer waits. */
  lemma WaitsEnd(r: Run, t: Id) returns (path: seq<Id>)
    requires IsRun(r) && t in Last(r).threads && !Last(r).threads[t].at.Finished?
    ensures Chain(Last(r), path) && path[0] == t && |path| <= 5
  {
    var s := Last(r);
    InvAlways(r);
    assert Ready(s) && CacheLocksOk(s);
    hide Inv, Ready, CacheLocksOk, IsRun, Chain, RefsOk;
    var at := s.threads[t].at;
    if !Waits(at) {
      ReadyRefs(s);
      path := ChainOfRunner(s, t);
    } else if at.WantStop? {
      path := ChainOfStopper(s, t);
    } else if WantsToRead(WatchesLock, at) {
      path := ChainOfWatchesReader(s, t);
    } else if WantsToWrite(WatchesLock, at) {
      path := ChainOfWatchesWriter(s, t);
    } else if WantsToRead(MappedLock, at) {
      path := ChainOfMapReader(s, t);
    } else {
      path := ChainOfMapWriter(s, t);
    }
  }

  lemma ReadyRefs(s: Tracker)
    requires Ready(s)
    ensures RefsOk(s)
  {
  }

  // ----- One operation at a time ------------------------------------------------------------------

  predicate Free(s: Tracker) {
    s.watchesLock == RWLock(None, {}) && s.mappedLock == RWLock(None, {})
  }

  function Solely(t: Id, which: Which, at: Location): RWLock {
    RWLock(if Writes(which, at) then Some(t) else None, if Reads(which, at) then {t} else {})
  }

  /** The state in which t alone is inside sections of the two locks. */
  function Only(s: Tracker, t: Id, th: Thread): Tracker {
    s.(threads := s.threads[t := th],
       watchesLock := Solely(t, WatchesLock, th.at), mappedLock := Solely(t, MappedLock, th.at))
  }

  lemma PutOnly(s: Tracker, t: Id, a: Thread, b: Thread)
    requires Free(s)
    ensures Put(s, t, a) == Only(s, t, a)
    ensures Put(Only(s, t, a), t, b) == Only(s, t, b)
  {
    assert s.threads[t := a][t := b] == s.threads[t := b];
  }

  lemma OnlyPut(s: Tracker, t: Id, a: Thread, b: Thread, u: Tracker)
    requires Free(s) && u == Only(s, t, a)
    ensures Put(u, t, b) == Only(s, t, b)
  {
    PutOnly(s, t, a, b);
  }

  lemma Then(r: Run, step: Step, u: Tracker) returns (q: Run)
    requires IsRun(r) && Next(Last(r), step, u)
    ensures IsRun(q) && q == After(r, step, u) && Last(q) == u && Extends(q, r)
  {
    q := After(r, step, u);
  }

  /** One thread takes its lock or reads while all others rest. */
  lemma Alone(r: Run, s: Tracker, t: Id, a: Thread, step: Step, b: Thread) returns (q: Run)
    requires IsRun(r) && Free(s) && Last(r) == Only(s, t, a) && Next(Last(r), step, Put(Last(r), t, b))
    ensures IsRun(q) && Last(q) == Only(s, t, b)
  {
    hide Next;
    OnlyPut(s, t, a, b, Last(r));
    q := Then(r, step, Put(Last(r), t, b));
  }

  lemma WatchReachesLock(r: Run, t: Id, w: Watch) returns (q: Run)
    requires IsRun(r) && Free(Last(r)) && t !in Last(r).threads && w.cluster !in Last(r).mapped && w !in Last(r).watches
    ensures IsRun(q) && Last(q) == Only(Last(r), t, Thread(Rechecking, w.cluster, w.info, "", 0))
  {
    hide Put, Only;
    var s := Last(r);
    var th := Thread(WantPeek, w.cluster, w.info, "", 0);
    PutOnly(s, t, th, th);
    q := Then(r, StartWatch(t, w.cluster, w.info), Put(s, t, th));
    hide Next, IsRun;
    q := AloneWatch(q, s, t, th, Take(t), Peeking);
    q := AloneWatch(q, s, t, th.(at := Peeking), Peek(t), WantWatches);
    q := AloneWatch(q, s, t, th.(at := WantWatches), Take(t), Rechecking);
  }

  /** A Watch call for a cluster without cache, up to the creation. */
  lemma WatchReachesCreation(r: Run, t: Id, w: Watch) returns (q: Run)
    requires IsRun(r) && Free(Last(r)) && t !in Last(r).threads && w.cluster !in Last(r).mapped && w !in Last(r).watches
    ensures IsRun(q) && Last(q) == Only(Last(r), t, Thread(Creating, w.cluster, w.info, "", 0))
  {
    hide Put, Only, Next, IsRun;
    var s := Last(r);
    var th := Thread(WantPeek, w.cluster, w.info, "", 0);
    q := WatchReachesLock(r, t, w);
    q := AloneWatch(q, s, t, th.(at := Rechecking), Recheck(t), WantLookup);
    q := AloneWatch(q, s, t, th.(at := WantLookup), Take(t), Looking);
    q := AloneWatch(q, s, t, th.(at := Looking), Lookup(t), WantCreate);
    q := AloneWatch(q, s, t, th.(at := WantCreate), Take(t), Creating);
  }

  lemma AloneWatch(r: Run, s: Tracker, t: Id, a: Thread, step: Step, at: Location) returns (q: Run)
    requires IsRun(r) && Free(s) && Last(r) == Only(s, t, a)
    requires a.cluster !in s.mapped && Watch(a.cluster, a.info) !in s.watches && step.t == t
    requires (step.Take? && Waits(a.at) && !a.at.WantStop? && at == Inside(a.at))
        || (step.Peek? && a.at.Peeking? && at.WantWatches?)
          || (step.Recheck? && a.at.Rechecking? && at.WantLookup?) || (step.Lookup? && a.at.Looking? && at.WantCreate?)
    ensures IsRun(q) && Last(q) == Only(s, t, a.(at := at))
  {
    hide Put;
    q := Alone(r, s, t, a, step, a.(at := at));
  }

  lemma PutRests(s: Tracker, t: Id, h: Id, th: Thread)
    requires th.at.Polling? && h != t && s.watchesLock == RWLock(Some(t), {}) && s.mappedLock == RWLock(None, {})
    ensures Put(s, h, th) == s.(threads := s.threads[h := th])
  {
  }

  function WithCache(s: Tracker, cluster: Id, c: Id, h: Id): Tracker {
    s.(threads := s.threads[h := Thread(Polling, cluster, "", c, 0)],
       caches := s.caches[c := Cache(cluster, false, 0, None)], mapped := s.mapped[cluster := c])
  }

  lemma CreateAlone(r: Run, s: Tracker, t: Id, w: Watch, c: Id, h: Id) returns (q: Run)
    requires IsRun(r) && Free(s) && Last(r) == Only(s, t, Thread(Creating, w.cluster, w.info, "", 0))
    requires h !in s.threads && t != h && c !in s.caches && w.cluster !in s.mapped
    ensures IsRun(q) && Last(q) == Only(WithCache(s, w.cluster, c, h), t, Thread(Calling, w.cluster, w.info, c, 0))
  {
    var th := Thread(Calling, w.cluster, w.info, c, 0);
    var s' := WithCache(s, w.cluster, c, h);
    assert s.threads[t := th][h := Thread(Polling, w.cluster, "", c, 0)] == s'.threads[t := th];
    OnlyPut(s, t, Thread(Creating, w.cluster, w.info, "", 0), th, Last(r));
    PutRests(Only(s, t, th), t, h, Thread(Polling, w.cluster, "", c, 0));
    hide Put;
    q := Then(r, Create(t, c, h), Only(s', t, th));
  }

  lemma RecordAlone(r: Run, s: Tracker, t: Id, w: Watch, c: Id) returns (q: Run)
    requires IsRun(r) && Free(s) && Last(r) == Only(s, t, Thread(Calling, w.cluster, w.info, c, 0))
    ensures IsRun(q) && Last(q) == Only(s, t, Thread(Finished, w.cluster, w.info, c, 0)).(watches := s.watches[w := c])
  {
    hide Put;
    var th := Thread(Calling, w.cluster, w.info, c, 0);
    q := Alone(r, s, t, th, Establish(t), th.(at := Recording));
    OnlyPut(s, t, th.(at := Recording), th.(at := Finished), Last(q));
    q := Then(q, Record(t), Only(s, t, th.(at := Finished)).(watches := s.watches[w := c]));
  }

  /** A Watch call left alone gives a cluster without cache a running, mapped cache with a health check of its own,
      and records its watch on it. */
  lemma WatchAlone(r: Run, t: Id, w: Watch, c: Id, h: Id) returns (q: Run)
    requires IsRun(r) && Free(Last(r)) && t !in Last(r).threads && h !in Last(r).threads && t != h
        && c !in Last(r).caches
    requires w.cluster !in Last(r).mapped && w !in Last(r).watches
    ensures IsRun(q) && Free(Last(q))
    ensures var s := Last(r);
            Last(q) == AfterWatch(s, w, c, true, true).(threads :=
              s.threads[h := Thread(Polling, w.cluster, "", c, 0)][t := Thread(Finished, w.cluster, w.info, c, 0)])
  {
    var s := Last(r);
    q := WatchReachesCreation(r, t, w);
    q := CreateAlone(q, s, t, w, c, h);
    q := RecordAlone(q, WithCache(s, w.cluster, c, h), t, w, c);
  }

  function At(s: Tracker, t: Id, at: Location): map<Id, Thread>
    requires t in s.threads
  {
    s.threads[t := s.threads[t].(at := at)]
  }

  /** A thread at rest enters the section it waits for. */
  lemma TakeAlone(r: Run, t: Id) returns (q: Run)
    requires IsRun(r) && Free(Last(r)) && t in Last(r).threads
    requires var s := Last(r); var th := s.threads[t]; Waits(th.at) && MayTake(s, th) && !th.at.WantStop?
    ensures var s := Last(r); var th := s.threads[t];
            IsRun(q) && Last(q) == Only(s, t, th.(at := Inside(th.at)))
  {
    hide Put;
    var s := Last(r);
    var th := s.threads[t];
    PutOnly(s, t, th.(at := Inside(th.at)), th);
    q := Then(r, Take(t), Put(s, t, th.(at := Inside(th.at))));
  }

  /** The four critical sections of a tear-down, each left alone. */
  lemma GetAlone(r: Run, t: Id, c: Id) returns (q: Run)
    requires IsRun(r) && Free(Last(r)) && AtLocation(Last(r), t, WantGet)
    requires var s := Last(r); s.threads[t].cluster in s.mapped && s.mapped[s.threads[t].cluster] == c
    ensures IsRun(q) && Free(Last(q))
    ensures var s := Last(r); Last(q) == s.(threads := s.threads[t := s.threads[t].(at := WantStop, cache := c)])
  {
    var s := Last(r);
    var th := s.threads[t];
    q := TakeAlone(r, t);
    OnlyPut(s, t, th.(at := Getting), th.(at := WantStop, cache := c), Last(q));
    hide Put;
    q := Then(q, Get(t), Only(s, t, th.(at := WantStop, cache := c)));
  }

  lemma UnmapAlone(r: Run, t: Id) returns (q: Run)
    requires IsRun(r) && Free(Last(r)) && AtLocation(Last(r), t, WantUnmap)
    ensures IsRun(q) && Free(Last(q))
    ensures var s := Last(r); Last(q) == AfterUnmap(s, s.threads[t].cluster).(threads := At(s, t, WantForget))
  {
    var s := Last(r);
    var th := s.threads[t];
    q := TakeAlone(r, t);
    OnlyPut(s, t, th.(at := Unmapping), th.(at := WantForget), Last(q));
    hide Put;
    q := Then(q, Unmap(t), Only(s, t, th.(at := WantForget)).(mapped := s.mapped - {th.cluster}));
  }

  lemma ForgetAlone(r: Run, t: Id) returns (q: Run)
    requires IsRun(r) && Free(Last(r)) && AtLocation(Last(r), t, WantForget)
    ensures IsRun(q) && Free(Last(q))
    ensures var s := Last(r); Last(q) == AfterForget(s, s.threads[t].cluster).(threads := At(s, t, Finished))
  {
    var s := Last(r);
    var th := s.threads[t];
    q := TakeAlone(r, t);
    OnlyPut(s, t, th.(at := Forgetting), th.(at := Finished), Last(q));
    hide Put;
    q := Then(q, Forget(t), Only(s, t, th.(at := Finished)).(watches := WatchesExcept(s.watches, th.cluster)));
  }

  /** Moving between locations outside the sections of the two locks. */
  lemma GoFree(s: Tracker, t: Id, at: Location)
    requires Free(s) && t in s.threads && !Writes(WatchesLock, at) && !Reads(WatchesLock, at)
    requires !Writes(MappedLock, at) && !Reads(MappedLock, at)
    ensures Go(s, t, at) == s.(threads := At(s, t, at))
  {
    PutOnly(s, t, s.threads[t].(at := at), s.threads[t]);
  }

  lemma TakeCacheAlone(r: Run, t: Id) returns (q: Run)
    requires IsRun(r) && Free(Last(r)) && AtLocation(Last(r), t, WantStop)
    requires var s := Last(r); s.threads[t].cache in s.caches && s.caches[s.threads[t].cache].lock.None?
    ensures var s := Last(r); var c := s.threads[t].cache;
            IsRun(q) && Last(q) == s.(threads := At(s, t, Stopping),
                caches := s.caches[c := s.caches[c].(lock := Some(t))])
  {
    var s := Last(r);
    var c := s.threads[t].cache;
    GoFree(s, t, Stopping);
    hide Put;
    q := Then(r, Take(t), SetCache(Go(s, t, Stopping), c, s.caches[c].(lock := Some(t))));
  }

  lemma MarkAlone(r: Run, t: Id) returns (q: Run)
    requires IsRun(r) && Free(Last(r)) && AtLocation(Last(r), t, Stopping) && Last(r).threads[t].cache in Last(r).caches
    ensures var s := Last(r); var c := s.threads[t].cache; var was := s.caches[c];
            && IsRun(q)
            && Last(q) == s.(threads := At(s, t, WantUnmap),
                             caches := s.caches[c :=
                                 was.(stopped := true, closes := was.closes + if was.stopped then 0 else 1,
                                 lock := None)])
  {
    var s := Last(r);
    var c, was := s.threads[t].cache, s.caches[s.threads[t].cache];
    GoFree(s, t, WantUnmap);
    GoFree(s, t, Closing);
    if was.stopped {
      hide Put;
      q := Then(r, Mark(t), SetCache(Go(s, t, WantUnmap), c, was.(lock := None)));
    } else {
      var v := s.(threads := At(s, t, Closing), caches := s.caches[c := was.(stopped := true)]);
      GoFree(v, t, WantUnmap);
      hide Put;
      q := Then(r, Mark(t), SetCache(Go(s, t, Closing), c, was.(stopped := true)));
      q := CloseAlone(q, t);
    }
  }

  lemma CloseAlone(r: Run, t: Id) returns (q: Run)
    requires IsRun(r) && Free(Last(r)) && AtLocation(Last(r), t, Closing) && Last(r).threads[t].cache in Last(r).caches
    ensures var s := Last(r); var c := s.threads[t].cache; var was := s.caches[c];
            && IsRun(q)
            && Last(q) == s.(threads := At(s, t, WantUnmap),
                caches := s.caches[c := was.(closes := was.closes + 1, lock := None)])
  {
    var s := Last(r);
    var c := s.threads[t].cache;
    GoFree(s, t, WantUnmap);
    hide Put;
    q := Then(r, Close(t),
        SetCache(Go(s, t, WantUnmap), c, s.caches[c].(closes := s.caches[c].closes + 1, lock := None)));
  }

  /** Stop, left alone: the cache is stopped, and its channel closed unless it was already. */
  lemma StopAlone(r: Run, t: Id) returns (q: Run)
    requires IsRun(r) && Free(Last(r)) && AtLocation(Last(r), t, WantStop)
    requires var s := Last(r); s.threads[t].cache in s.caches && s.caches[s.threads[t].cache].lock.None?
    ensures IsRun(q) && Free(Last(q))
    ensures var s := Last(r); Last(q) == AfterStop(s, s.threads[t].cache).(threads := At(s, t, WantUnmap))
  {
    var s := Last(r);
    var c := s.threads[t].cache;
    hide IsRun, Next;
    q := TakeCacheAlone(r, t);
    q := MarkAlone(q, t);
    TakenAndMarked(s, t, c, s.caches[c]);
  }

  /** Taking and giving back the cache's lock leaves nothing but the mark, and a second change of place overwrites the
      first. */
  lemma TakenAndMarked(s: Tracker, t: Id, c: Id, was: Cache)
    requires c in s.caches && s.caches[c] == was && was.lock.None? && t in s.threads
    ensures At(s.(threads := At(s, t, Stopping)), t, WantUnmap) == At(s, t, WantUnmap)
    ensures AfterStop(s, c).caches ==
            s.caches[c := was.(lock := Some(t))][c :=
              was.(stopped := true, closes := was.closes + if was.stopped then 0 else 1, lock := None)]
  {
  }

  lemma StartAlone(r: Run, t: Id, cluster: Id) returns (q: Run)
    requires IsRun(r) && Free(Last(r)) && t !in Last(r).threads
    ensures IsRun(q) && Free(Last(q))
    ensures Last(q) == Last(r).(threads := Last(r).threads[t := Thread(WantGet, cluster, "", "", 0)])
  {
    var th := Thread(WantGet, cluster, "", "", 0);
    PutOnly(Last(r), t, th, th);
    q := Then(r, StartReconcile(t, cluster), Put(Last(r), t, th));
  }

  /** A tear-down left alone stops the cluster's cache, unmaps it, and deletes the cluster's watches. */
  lemma TearDownAlone(r: Run, t: Id, cluster: Id) returns (q: Run)
    requires IsRun(r) && Free(Last(r)) && t !in Last(r).threads
    requires var s := Last(r);
             cluster in s.mapped && s.mapped[cluster] in s.caches && s.caches[s.mapped[cluster]].lock.None?
    ensures IsRun(q) && Free(Last(q))
    ensures Last(q) == AfterTearDown(Last(r), cluster).(threads := Last(q).threads)
  {
    hide Next, IsRun;
    q := StopFirst(r, t, cluster);
    hide AfterStop;
    q := UnmapAlone(q, t);
    q := ForgetAlone(q, t);
  }

  lemma StopFirst(r: Run, t: Id, cluster: Id) returns (q: Run)
    requires IsRun(r) && Free(Last(r)) && t !in Last(r).threads
    requires var s := Last(r);
             cluster in s.mapped && s.mapped[cluster] in s.caches && s.caches[s.mapped[cluster]].lock.None?
    ensures IsRun(q) && Free(Last(q)) && AtLocation(Last(q), t, WantUnmap) && Last(q).threads[t].cluster == cluster
    ensures Last(q) == AfterStop(Last(r), Last(r).mapped[cluster]).(threads := Last(q).threads)
  {
    hide Next, IsRun;
    q := StartAlone(r, t, cluster);
    q := GetAlone(q, t, Last(r).mapped[cluster]);
    StopKeepsThreads(Last(r), Last(q), Last(r).mapped[cluster]);
    hide AfterStop;
    q := StopAlone(q, t);
  }

  lemma StopKeepsThreads(s: Tracker, u: Tracker, c: Id)
    requires u == s.(threads := u.threads)
    ensures AfterStop(u, c) == AfterStop(s, c).(threads := u.threads)
  {
  }

  lemma SeeStopAlone(r: Run, t: Id) returns (q: Run)
    requires IsRun(r) && Free(Last(r)) && AtLocation(Last(r), t, Polling)
    requires var s := Last(r); s.threads[t].cache in s.caches && s.caches[s.threads[t].cache].closes > 0
    ensures IsRun(q) && Free(Last(q)) && Last(q) == Last(r).(threads := At(Last(r), t, WantGet))
  {
    GoFree(Last(r), t, WantGet);
    hide Put;
    q := Then(r, SeeStop(t), Go(Last(r), t, WantGet));
  }

  lemma OneWatch(w: Watch) returns (r: Run)
    ensures IsRun(r) && Free(Last(r))
    ensures Last(r) == Tracker(map["c1" := Cache(w.cluster, false, 0, None)], map[w.cluster := "c1"], map[w := "c1"],
                               RWLock(None, {}), RWLock(None, {}),
                               map["w1" := Thread(Finished, w.cluster, w.info, "c1", 0),
                                   "h1" := Thread(Polling, w.cluster, "", "c1", 0)])
  {
    hide Next;
    r := WatchAlone(Start(Empty()), "w1", w, "c1", "h1");
  }

  /** Two tear-downs at once need no second failure: when a deleted cluster's reconcile closes the stop channel, the
      health check of that same cache starts a tear-down too. */
  lemma BothHaveIt(w: Watch) returns (r: Run)
    ensures IsRun(r) && Free(Last(r))
    ensures var s := Last(r);
            && s.threads == map["w1" := Thread(Finished, w.cluster, w.info, "c1", 0),
                                "h1" := Thread(WantStop, w.cluster, "", "c1", 0),
                                "x" := Thread(WantUnmap, w.cluster, "", "c1", 0)]
            && s.caches == map["c1" := Cache(w.cluster, true, 1, None)]
            && s.mapped == map[w.cluster := "c1"] && s.watches == map[w := "c1"]
  {
    hide Next, IsRun;
    r := OneWatch(w);
    r := StartAlone(r, "x", w.cluster);
    r := GetAlone(r, "x", "c1");
    r := StopAlone(r, "x");
    r := SeeStopAlone(r, "h1");
    r := GetAlone(r, "h1", "c1");
  }

  lemma FirstGone(w: Watch) returns (r: Run)
    ensures IsRun(r) && Free(Last(r))
    ensures var s := Last(r);
            && s.threads == map["w1" := Thread(Finished, w.cluster, w.info, "c1", 0),
                                "h1" := Thread(WantStop, w.cluster, "", "c1", 0),
                                "x" := Thread(Finished, w.cluster, "", "c1", 0)]
            && s.caches == map["c1" := Cache(w.cluster, true, 1, None)]
            && s.mapped == map[] && s.watches == map[]
  {
    hide Next, IsRun, WatchesExcept;
    r := BothHaveIt(w);
    r := UnmapAlone(r, "x");
    r := ForgetAlone(r, "x");
    NoneLeft(w);
  }

  lemma NoneLeft(w: Watch)
    ensures WatchesExcept(map[w := "c1"], w.cluster) == map[]
  {
  }

  lemma SecondCache(w: Watch) returns (r: Run)
    ensures IsRun(r) && Free(Last(r)) && AtLocation(Last(r), "h1", WantStop)
    ensures var s := Last(r);
            && s.threads["h1"].cluster == w.cluster && s.threads["h1"].cache == "c1"
            && (forall t | t in s.threads && s.threads[t].cache == "c2" ::
                  s.threads[t].at.Finished? || s.threads[t].at.Polling?)
            && s.caches == map["c1" := Cache(w.cluster, true, 1, None), "c2" := Cache(w.cluster, false, 0, None)]
  {
    hide Next, IsRun, Free;
    r := FirstGone(w);
    r := WatchAlone(r, "w2", w, "c2", "h2");
  }

  /** "Every running cache is in the map" is false when tear-downs of one cluster overlap.  For any watch of any
      cluster there is a run in which a second Watch call comes between the two tear-downs of the first cache: its
      new cache is unmapped by the second, and runs on for ever. */
  lemma OverlapLeaks(w: Watch) returns (r: Run)
    ensures IsRun(r) && !Serial(r) && Leaked(Last(r), "c2")
    ensures forall q, c | Extends(q, r) && IsRun(q) && c == "c2" :: Leaked(Last(q), c)
  {
    hide Next, IsRun;
    r := SecondCache(w);
    r := StopAlone(r, "h1");
    r := UnmapAlone(r, "h1");
    assert Leaked(Last(r), "c2");
    if Serial(r) {
      SerialNeverDrops(r, "c2");
      assert false;
    }
    forall q, c | Extends(q, r) && IsRun(q) && c == "c2" ensures Leaked(Last(q), c) {
      LeakIsForever(q, r, c);
    }
  }
}
