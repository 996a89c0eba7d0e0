/** What every interleaving of watches, health checks and tear-downs keeps. */
module ClusterCacheSafety {
  import opened Wrappers
  import opened Runs
  import opened ClusterCache

  // ----- Locks ------------------------------------------------------------------------------------

  ghost predicate HeldRight(l: RWLock, threads: map<Id, Thread>, which: Which) {
    && (forall t :: l.writer == Some(t) <==> t in threads && Writes(which, threads[t].at))
    && (forall t :: t in l.readers <==> t in threads && Reads(which, threads[t].at))
    && (l.writer.Some? ==> l.readers == {})
  }

  /** Each read-write lock is held by exactly the threads inside its sections: one writer, or only readers. */
  ghost predicate LocksOk(watchesLock: RWLock, mappedLock: RWLock, threads: map<Id, Thread>) {
    HeldRight(watchesLock, threads, WatchesLock) && HeldRight(mappedLock, threads, MappedLock)
  }

  /** A thread enters a section only if it is in one already or the lock is free for it. */
  predicate MayEnter(l: RWLock, threads: map<Id, Thread>, which: Which, t: Id, at: Location) {
    && (Writes(which, at) ==> MayWrite(l) || (t in threads && Writes(which, threads[t].at)))
    && (Reads(which, at) ==> MayRead(l))
  }

  lemma PutLock(l: RWLock, threads: map<Id, Thread>, which: Which, t: Id, th: Thread)
    requires HeldRight(l, threads, which) && MayEnter(l, threads, which, t, th.at)
    ensures HeldRight(Hold(l, t, Writes(which, th.at), Reads(which, th.at)), threads[t := th], which)
  {
    assert !(Writes(which, th.at) && Reads(which, th.at));
  }

  lemma PutLocks(s: Tracker, t: Id, th: Thread)
    requires LocksOk(s.watchesLock, s.mappedLock, s.threads)
    requires MayEnter(s.watchesLock, s.threads, WatchesLock, t, th.at)
        && MayEnter(s.mappedLock, s.threads, MappedLock, t, th.at)
    ensures var u := Put(s, t, th); LocksOk(u.watchesLock, u.mappedLock, u.threads)
  {
    PutLock(s.watchesLock, s.threads, WatchesLock, t, th);
    PutLock(s.mappedLock, s.threads, MappedLock, t, th);
    hide HeldRight, Hold, MayEnter;
  }

  /** What every step but a creation does to the threads: one moves, into a section only if it may enter. */
  predicate OneMoves(s: Tracker, step: Step, u: Tracker) {
    && step.t in u.threads
    && u.threads == s.threads[step.t := u.threads[step.t]]
    && u.watchesLock == Put(s, step.t, u.threads[step.t]).watchesLock
    && u.mappedLock == Put(s, step.t, u.threads[step.t]).mappedLock
    && MayEnter(s.watchesLock, s.threads, WatchesLock, step.t, u.threads[step.t].at)
    && MayEnter(s.mappedLock, s.threads, MappedLock, step.t, u.threads[step.t].at)
  }

  lemma StartMoves(s: Tracker, step: Step, u: Tracker)
    requires StartStep(s, step, u)
    ensures OneMoves(s, step, u)
  {
    hide Hold;
  }

  lemma TakeMoves(s: Tracker, t: Id, u: Tracker)
    requires TakeStep(s, t, u)
    ensures OneMoves(s, Take(t), u)
  {
    hide Hold;
  }

  lemma WatchMoves(s: Tracker, step: Step, u: Tracker)
    requires WatchStep(s, step, u) && !step.Create?
    ensures OneMoves(s, step, u)
  {
    hide Hold;
  }

  lemma HealthMoves(s: Tracker, step: Step, u: Tracker)
    requires HealthStep(s, step, u)
    ensures OneMoves(s, step, u)
  {
    hide Hold;
  }

  lemma StopMoves(s: Tracker, step: Step, u: Tracker)
    requires TearDownStep(s, step, u) && (step.Mark? || step.Close?)
    ensures OneMoves(s, step, u)
  {
    hide Hold;
  }

  lemma TearDownMoves(s: Tracker, step: Step, u: Tracker)
    requires TearDownStep(s, step, u) && !step.Mark? && !step.Close?
    ensures OneMoves(s, step, u)
  {
    hide Hold;
  }

  lemma StepMoves(s: Tracker, step: Step, u: Tracker)
    requires Next(s, step, u) && !step.Create?
    ensures OneMoves(s, step, u)
  {
    hide OneMoves, StartStep, TakeStep, WatchStep, HealthStep, TearDownStep;
    match step
    case StartWatch(_, _, _) => StartMoves(s, step, u);
    case StartReconcile(_, _) => StartMoves(s, step, u);
    case Take(t) => TakeMoves(s, t, u);
    case Probe(_, _) => HealthMoves(s, step, u);
    case SeeStop(_) => HealthMoves(s, step, u);
    case Get(_) => TearDownMoves(s, step, u);
    case Mark(_) => StopMoves(s, step, u);
    case Close(_) => StopMoves(s, step, u);
    case Unmap(_) => TearDownMoves(s, step, u);
    case Forget(_) => TearDownMoves(s, step, u);
    case _ => WatchMoves(s, step, u);
  }

  lemma LocksNext(s: Tracker, step: Step, u: Tracker)
    requires LocksOk(s.watchesLock, s.mappedLock, s.threads) && Next(s, step, u)
    ensures LocksOk(u.watchesLock, u.mappedLock, u.threads)
  {
    if step.Create? {
      hide LocksOk, Hold;
      PutLocks(s, step.t, u.threads[step.t]);
      PutLocks(Put(s, step.t, u.threads[step.t]), step.health, u.threads[step.health]);
    } else {
      hide LocksOk, Next, Hold;
      StepMoves(s, step, u);
      PutLocks(s, step.t, u.threads[step.t]);
    }
  }

  // ----- Caches -----------------------------------------------------------------------------------

  predicate HasCache(at: Location) {
    at.Calling? || at.Recording? || at.Polling? || at.Probing? || at.WantStop? || at.Stopping? || Marked(at)
  }

  /** A tear-down that has seen to it that its cache is stopped, and is not done yet. */
  predicate Marked(at: Location) {
    at.Closing? || at.WantUnmap? || at.Unmapping? || at.WantForget? || at.Forgetting?
  }

  predicate BeforeUnmap(at: Location) {
    at.Closing? || at.WantUnmap? || at.Unmapping?
  }

  predicate RefsOk(s: Tracker) {
    && (forall k | k in s.mapped :: s.mapped[k] in s.caches && s.caches[s.mapped[k]].cluster == k)
    && (forall t | t in s.threads && HasCache(s.threads[t].at) ::
          s.threads[t].cache in s.caches && s.caches[s.threads[t].cache].cluster == s.threads[t].cluster)
  }

  /** A cache's lock is held by the one thread inside Stop for that cache. */
  ghost predicate CacheLocksOk(s: Tracker) {
    forall c, t | c in s.caches :: s.caches[c].lock == Some(t) <==>
                                   t in s.threads && HoldsCache(s.threads[t].at) && s.threads[t].cache == c
  }

  /** Closed once, when stopped, except between the two. */
  predicate ClosesOk(s: Tracker) {
    forall c | c in s.caches :: s.caches[c].closes == if ClosingNow(s, c) || !s.caches[c].stopped then 0 else 1
  }

  predicate MarkedOk(s: Tracker) {
    forall t | t in s.threads && Marked(s.threads[t].at) :: s.threads[t].cache in s.caches
        && s.caches[s.threads[t].cache].stopped
  }

  ghost predicate CachesOk(s: Tracker) {
    CacheLocksOk(s) && ClosesOk(s) && MarkedOk(s)
  }

  predicate ClosingNow(s: Tracker, c: Id)
    requires c in s.caches
  {
    s.caches[c].lock.Some? && AtLocation(s, s.caches[c].lock.value, Closing)
  }

  // ----- Watches ----------------------------------------------------------------------------------

  predicate LiveCache(s: Tracker, cluster: Id, c: Id) {
    cluster in s.mapped && s.mapped[cluster] == c && c in s.caches && !s.caches[c].stopped
  }

  /** Some tear-down of the cluster has marked its cache and has not yet deleted the cluster's watches. */
  ghost predicate TearingDown(s: Tracker, cluster: Id) {
    exists t :: t in s.threads && s.threads[t].cluster == cluster && Marked(s.threads[t].at)
  }

  ghost predicate AboutToUnmap(s: Tracker, cluster: Id) {
    exists t :: t in s.threads && s.threads[t].cluster == cluster && BeforeUnmap(s.threads[t].at)
  }

  predicate Establishing(at: Location) {
    at.Calling? || at.Recording?
  }

  ghost predicate WatchesOk(s: Tracker) {
    && (forall k | k in s.mapped :: LiveCache(s, k, s.mapped[k]) || AboutToUnmap(s, k))
    && (forall w | w in s.watches :: LiveCache(s, w.cluster, s.watches[w]) || TearingDown(s, w.cluster))
    && (forall t | t in s.threads && Establishing(s.threads[t].at) ::
          LiveCache(s, s.threads[t].cluster, s.threads[t].cache) || TearingDown(s, s.threads[t].cluster))
  }

  ghost predicate Inv(s: Tracker) {
    LocksOk(s.watchesLock, s.mappedLock, s.threads) && RefsOk(s) && CachesOk(s) && WatchesOk(s)
  }

  // ----- One thread moves -------------------------------------------------------------------------

  function Before(s: Tracker, t: Id): Location {
    ThreadOf(s, t).at
  }

  /** Thread t moves, keeping its cluster.  A cache it has afterwards is the one it had or the one mapped, and a
      tear-down keeps its cache once it is marked. */
  predicate ThreadMoves(s: Tracker, t: Id, u: Tracker) {
    && t in u.threads && u.threads == s.threads[t := u.threads[t]]
    && (t in s.threads ==> u.threads[t].cluster == s.threads[t].cluster)
    && (Establishing(u.threads[t].at) && HasCache(Before(s, t)) ==> Establishing(Before(s, t)))
    && (HasCache(u.threads[t].at) ==>
          if HasCache(Before(s, t)) then u.threads[t].cache == s.threads[t].cache
          else u.threads[t].cluster in s.mapped && s.mapped[u.threads[t].cluster] == u.threads[t].cache)
  }

  /** What a step does to the caches and maps when it is not about to create, record, mark, unmap or forget. */
  predicate SameData(s: Tracker, u: Tracker) {
    u.caches == s.caches && u.mapped == s.mapped && u.watches == s.watches
  }

  /** The thread neither enters nor leaves the lock of a cache, and enters no tear-down. */
  predicate Aside(a: Location, b: Location) {
    !HoldsCache(a) && !HoldsCache(b) && (Marked(b) ==> Marked(a))
  }

  predicate SameTears(a: Location, b: Location) {
    (Marked(a) ==> Marked(b)) && (BeforeUnmap(a) ==> BeforeUnmap(b))
  }

  predicate IsPlain(s: Tracker, step: Step) {
    match step
    case Take(t) => t in s.threads && !s.threads[t].at.WantStop?
    case Create(_, _, _) => false
    case Record(_) => false
    case Mark(_) => false
    case Close(_) => false
    case Unmap(_) => false
    case Forget(_) => false
    case _ => true
  }

  predicate PlainMove(s: Tracker, t: Id, u: Tracker) {
    && SameData(s, u) && ThreadMoves(s, t, u)
    && Aside(Before(s, t), u.threads[t].at) && SameTears(Before(s, t), u.threads[t].at)
  }

  lemma PlainStart(s: Tracker, step: Step, u: Tracker)
    requires StartStep(s, step, u)
    ensures PlainMove(s, step.t, u)
  {
    hide Hold;
  }

  lemma PlainTake(s: Tracker, t: Id, u: Tracker)
    requires TakeStep(s, t, u) && IsPlain(s, Take(t))
    ensures PlainMove(s, t, u)
  {
    hide Hold;
  }

  lemma PlainWatch(s: Tracker, step: Step, u: Tracker)
    requires WatchStep(s, step, u) && IsPlain(s, step)
    ensures PlainMove(s, step.t, u)
  {
    hide Hold;
  }

  lemma PlainHealth(s: Tracker, step: Step, u: Tracker)
    requires HealthStep(s, step, u)
    ensures PlainMove(s, step.t, u)
  {
    hide Hold;
  }

  lemma PlainGet(s: Tracker, t: Id, u: Tracker)
    requires TearDownStep(s, Get(t), u)
    ensures PlainMove(s, t, u)
  {
    hide Hold;
  }

  lemma StepIsPlain(s: Tracker, step: Step, u: Tracker)
    requires Next(s, step, u) && IsPlain(s, step)
    ensures PlainMove(s, step.t, u)
  {
    hide PlainMove, StartStep, TakeStep, WatchStep, HealthStep, TearDownStep;
    match step
    case StartWatch(_, _, _) => PlainStart(s, step, u);
    case StartReconcile(_, _) => PlainStart(s, step, u);
    case Take(t) => PlainTake(s, t, u);
    case Probe(_, _) => PlainHealth(s, step, u);
    case SeeStop(_) => PlainHealth(s, step, u);
    case Get(t) => PlainGet(s, t, u);
    case _ => PlainWatch(s, step, u);
  }

  // ----- What moves keep --------------------------------------------------------------------------

  predicate SameClusters(s: Tracker, u: Tracker) {
    u.caches.Keys == s.caches.Keys && forall c | c in s.caches :: u.caches[c].cluster == s.caches[c].cluster
  }

  lemma MoveRefs(s: Tracker, t: Id, u: Tracker)
    requires RefsOk(s) && ThreadMoves(s, t, u) && SameClusters(s, u)
    requires forall k | k in u.mapped :: k in s.mapped && u.mapped[k] == s.mapped[k]
    ensures RefsOk(u)
  {
  }

  lemma MoveCaches(s: Tracker, t: Id, u: Tracker)
    requires CachesOk(s) && ThreadMoves(s, t, u) && u.caches == s.caches && Aside(Before(s, t), u.threads[t].at)
    ensures CachesOk(u)
  {
  }

  lemma MoveTears(s: Tracker, t: Id, u: Tracker, cluster: Id)
    requires ThreadMoves(s, t, u) && SameTears(Before(s, t), u.threads[t].at)
    ensures TearingDown(s, cluster) ==> TearingDown(u, cluster)
    ensures AboutToUnmap(s, cluster) ==> AboutToUnmap(u, cluster) && TearingDown(u, cluster)
  {
    if x :| x in s.threads && s.threads[x].cluster == cluster && Marked(s.threads[x].at) {
      assert Marked(u.threads[x].at) && u.threads[x].cluster == cluster;
    }
    if x :| x in s.threads && s.threads[x].cluster == cluster && BeforeUnmap(s.threads[x].at) {
      assert BeforeUnmap(u.threads[x].at) && Marked(u.threads[x].at) && u.threads[x].cluster == cluster;
    }
  }

  lemma MoveWatches(s: Tracker, t: Id, u: Tracker)
    requires WatchesOk(s) && PlainMove(s, t, u)
    ensures WatchesOk(u)
  {
    forall k { MoveTears(s, t, u, k); }
    hide TearingDown, AboutToUnmap;
  }

  // ----- Steps of a tear-down ---------------------------------------------------------------------

  /** The lock of a cache taken, its flag set, its channel closed: one cache changes, for the thread that has it. */
  predicate CacheMove(s: Tracker, t: Id, u: Tracker) {
    && t in s.threads && s.threads[t].cache in s.caches
    && u.threads == s.threads[t := s.threads[t].(at := Before(u, t))]
    && u.mapped == s.mapped && u.watches == s.watches
    && u.caches == s.caches[s.threads[t].cache :=
        Touched(s.caches[s.threads[t].cache], t, s.threads[t].at, Before(u, t))]
  }

  function Touched(c: Cache, t: Id, a: Location, b: Location): Cache {
    Cache(c.cluster, c.stopped || b.Closing?, c.closes + if a.Closing? then 1 else 0,
          if HoldsCache(b) then Some(t) else None)
  }

  predicate IsCacheMove(c: Cache, a: Location, b: Location) {
    || (a.WantStop? && b.Stopping? && c.lock.None?)
    || (a.Stopping? && b.WantUnmap? && c.stopped)
    || (a.Stopping? && b.Closing? && !c.stopped)
    || (a.Closing? && b.WantUnmap?)
  }

  lemma StepIsCacheMove(s: Tracker, step: Step, u: Tracker)
    requires CachesOk(s)
    requires ((step.Mark? || step.Close?) && TearDownStep(s, step, u))
          || (step.Take? && TakeStep(s, step.t, u) && s.threads[step.t].at.WantStop?)
    ensures CacheMove(s, step.t, u)
        && IsCacheMove(s.caches[s.threads[step.t].cache], Before(s, step.t), Before(u, step.t))
  {
    hide Hold;
  }

  lemma CacheMoveRefs(s: Tracker, t: Id, u: Tracker)
    requires RefsOk(s) && CacheMove(s, t, u) && IsCacheMove(s.caches[s.threads[t].cache], Before(s, t), Before(u, t))
    ensures RefsOk(u) && ThreadMoves(s, t, u)
  {
    MoveRefs(s, t, u);
  }

  lemma CacheMoveCaches(s: Tracker, t: Id, u: Tracker)
    requires CachesOk(s) && CacheMove(s, t, u) && IsCacheMove(s.caches[s.threads[t].cache], Before(s, t), Before(u, t))
    ensures CachesOk(u)
  {
    var c := s.threads[t].cache;
    forall x | x in u.caches && x != c ensures ClosingNow(u, x) == ClosingNow(s, x) {
    }
  }

  lemma CacheMoveWatches(s: Tracker, t: Id, u: Tracker)
    requires RefsOk(s) && WatchesOk(s) && CacheMove(s, t, u)
    requires IsCacheMove(s.caches[s.threads[t].cache], Before(s, t), Before(u, t))
    ensures WatchesOk(u)
  {
    CacheMoveRefs(s, t, u);
    forall k { MoveTears(s, t, u, k); }
    var c := s.threads[t].cache;
    if BeforeUnmap(Before(u, t)) {
      assert AboutToUnmap(u, s.threads[t].cluster) && TearingDown(u, s.threads[t].cluster);
    }
    hide TearingDown, AboutToUnmap;
    assert forall k, x | LiveCache(s, k, x) ::
        LiveCache(u, k, x) || (x == c && k == s.threads[t].cluster && BeforeUnmap(Before(u, t)));
  }

  lemma CacheStepKeeps(s: Tracker, step: Step, u: Tracker)
    requires RefsOk(s) && CachesOk(s) && WatchesOk(s)
    requires ((step.Mark? || step.Close?) && TearDownStep(s, step, u))
          || (step.Take? && TakeStep(s, step.t, u) && s.threads[step.t].at.WantStop?)
    ensures RefsOk(u) && CachesOk(u) && WatchesOk(u)
  {
    StepIsCacheMove(s, step, u);
    hide RefsOk, CachesOk, WatchesOk, CacheMove, IsCacheMove;
    CacheMoveRefs(s, step.t, u);
    CacheMoveCaches(s, step.t, u);
    CacheMoveWatches(s, step.t, u);
  }

  lemma UnmapMoves(s: Tracker, t: Id, u: Tracker)
    requires TearDownStep(s, Unmap(t), u)
    ensures ThreadMoves(s, t, u) && Aside(Before(s, t), Before(u, t)) && u.caches == s.caches && u.watches == s.watches
    ensures Before(s, t).Unmapping? && Before(u, t).WantForget? && u.mapped == s.mapped - {s.threads[t].cluster}
  {
    hide Hold;
  }

  /** Unmapping a cluster's cache leaves its watches to the tear-down that unmaps it. */
  lemma UnmapWatches(s: Tracker, t: Id, u: Tracker)
    requires WatchesOk(s) && t in s.threads && ThreadMoves(s, t, u) && u.caches == s.caches && u.watches == s.watches
    requires Before(u, t).WantForget? && u.mapped == s.mapped - {s.threads[t].cluster}
    ensures WatchesOk(u)
  {
    var cluster := s.threads[t].cluster;
    assert TearingDown(u, cluster);
    forall k | k != cluster
      ensures TearingDown(s, k) ==> TearingDown(u, k)
      ensures AboutToUnmap(s, k) ==> AboutToUnmap(u, k)
    {
      OtherTears(s, t, u, k);
    }
    hide TearingDown, AboutToUnmap;
    assert forall k, x | LiveCache(s, k, x) && k != cluster :: LiveCache(u, k, x);
    hide LiveCache;
  }

  lemma UnmapKeeps(s: Tracker, t: Id, u: Tracker)
    requires RefsOk(s) && CachesOk(s) && WatchesOk(s) && TearDownStep(s, Unmap(t), u)
    ensures RefsOk(u) && CachesOk(u) && WatchesOk(u)
  {
    hide WatchesOk, CachesOk;
    UnmapMoves(s, t, u);
    hide TearDownStep;
    MoveRefs(s, t, u);
    MoveCaches(s, t, u);
    UnmapWatches(s, t, u);
  }

  lemma OtherTears(s: Tracker, t: Id, u: Tracker, cluster: Id)
    requires ThreadMoves(s, t, u) && t in s.threads && s.threads[t].cluster != cluster
    ensures TearingDown(s, cluster) ==> TearingDown(u, cluster)
    ensures AboutToUnmap(s, cluster) ==> AboutToUnmap(u, cluster)
  {
    if x :| x in s.threads && s.threads[x].cluster == cluster && Marked(s.threads[x].at) {
      assert Marked(u.threads[x].at) && u.threads[x].cluster == cluster;
    }
    if x :| x in s.threads && s.threads[x].cluster == cluster && BeforeUnmap(s.threads[x].at) {
      assert BeforeUnmap(u.threads[x].at) && u.threads[x].cluster == cluster;
    }
  }

  lemma ForgetMoves(s: Tracker, t: Id, u: Tracker)
    requires TearDownStep(s, Forget(t), u)
    ensures ThreadMoves(s, t, u) && Aside(Before(s, t), Before(u, t)) && u.caches == s.caches && u.mapped == s.mapped
    ensures Before(s, t).Forgetting? && Before(u, t).Finished?
        && u.watches == WatchesExcept(s.watches, s.threads[t].cluster)
  {
    hide Hold;
  }

  /** The lock on the watches keeps calls in progress out while a cluster's watches are deleted. */
  lemma NoneEstablishes(s: Tracker, t: Id)
    requires LocksOk(s.watchesLock, s.mappedLock, s.threads) && AtLocation(s, t, Forgetting)
    ensures forall x | x in s.threads :: !Establishing(s.threads[x].at)
  {
    assert Writes(WatchesLock, s.threads[t].at);
    forall x | x in s.threads ensures !Establishing(s.threads[x].at) {
      assert Writes(WatchesLock, s.threads[x].at) ==> s.watchesLock.writer == Some(x);
    }
  }

  lemma ForgetKeeps(s: Tracker, t: Id, u: Tracker)
    requires Inv(s) && TearDownStep(s, Forget(t), u)
    ensures RefsOk(u) && CachesOk(u) && WatchesOk(u)
  {
    ForgetMoves(s, t, u);
    NoneEstablishes(s, t);
    hide TearDownStep, LocksOk;
    MoveRefs(s, t, u);
    MoveCaches(s, t, u);
    var cluster := s.threads[t].cluster;
    forall k | k != cluster ensures TearingDown(s, k) ==> TearingDown(u, k) { OtherTears(s, t, u, k); }
    forall k ensures AboutToUnmap(s, k) ==> AboutToUnmap(u, k) {
      if x :| x in s.threads && s.threads[x].cluster == k && BeforeUnmap(s.threads[x].at) {
        assert BeforeUnmap(u.threads[x].at) && u.threads[x].cluster == k;
      }
    }
    hide TearingDown, AboutToUnmap, CachesOk, RefsOk;
  }

  // ----- Steps of a Watch call that write ---------------------------------------------------------

  lemma RecordMoves(s: Tracker, t: Id, u: Tracker)
    requires WatchStep(s, Record(t), u)
    ensures ThreadMoves(s, t, u) && Aside(Before(s, t), Before(u, t)) && SameTears(Before(s, t), Before(u, t))
    ensures u.caches == s.caches && u.mapped == s.mapped && Before(s, t).Recording? && Before(u, t).Finished?
    ensures var th := s.threads[t]; u.watches == s.watches[Watch(th.cluster, th.info) := th.cache]
  {
    hide Hold;
  }

  lemma RecordWatches(s: Tracker, t: Id, u: Tracker)
    requires WatchesOk(s) && t in s.threads && ThreadMoves(s, t, u) && SameTears(Before(s, t), Before(u, t))
    requires u.caches == s.caches && u.mapped == s.mapped && Before(s, t).Recording? && Before(u, t).Finished?
    requires var th := s.threads[t]; u.watches == s.watches[Watch(th.cluster, th.info) := th.cache]
    ensures WatchesOk(u)
  {
    forall k { MoveTears(s, t, u, k); }
    hide TearingDown, AboutToUnmap;
    assert forall k, x :: LiveCache(s, k, x) == LiveCache(u, k, x);
  }

  lemma RecordKeeps(s: Tracker, t: Id, u: Tracker)
    requires RefsOk(s) && CachesOk(s) && WatchesOk(s) && WatchStep(s, Record(t), u)
    ensures RefsOk(u) && CachesOk(u) && WatchesOk(u)
  {
    hide WatchesOk, CachesOk;
    RecordMoves(s, t, u);
    hide WatchStep;
    MoveRefs(s, t, u);
    MoveCaches(s, t, u);
    RecordWatches(s, t, u);
  }

  /** What a creation does: the watching thread and the new health check move, the new cache is mapped. */
  predicate Creates(s: Tracker, t: Id, c: Id, h: Id, u: Tracker) {
    && AtLocation(s, t, Creating) && c !in s.caches && h !in s.threads
    && var th := s.threads[t];
       && th.cluster !in s.mapped
       && u.threads == s.threads[t := th.(at := Calling, cache := c)][h := Thread(Polling, th.cluster, "", c, 0)]
       && u.caches == s.caches[c := Cache(th.cluster, false, 0, None)]
       && u.mapped == s.mapped[th.cluster := c]
       && u.watches == s.watches
  }

  lemma CreateRefs(s: Tracker, t: Id, c: Id, h: Id, u: Tracker)
    requires RefsOk(s) && Creates(s, t, c, h, u)
    ensures RefsOk(u)
  {
  }

  lemma CreateLocks(s: Tracker, t: Id, c: Id, h: Id, u: Tracker)
    requires RefsOk(s) && CacheLocksOk(s) && Creates(s, t, c, h, u)
    ensures CacheLocksOk(u)
  {
    assert forall y | y in s.threads && HoldsCache(s.threads[y].at) :: s.threads[y].cache in s.caches;
    hide RefsOk;
  }

  lemma CreateCloses(s: Tracker, t: Id, c: Id, h: Id, u: Tracker)
    requires CacheLocksOk(s) && ClosesOk(s) && MarkedOk(s) && Creates(s, t, c, h, u)
    ensures ClosesOk(u) && MarkedOk(u)
  {
    assert forall x | x in s.caches && s.caches[x].lock.Some? :: s.caches[x].lock == Some(s.caches[x].lock.value);
    assert forall x | x in s.caches && s.caches[x].lock.Some? ::
        s.caches[x].lock.value in s.threads && s.caches[x].lock.value != t;
    hide CacheLocksOk;
    forall x | x in s.caches ensures u.caches[x] == s.caches[x] && ClosingNow(u, x) == ClosingNow(s, x) {
    }
  }

  lemma CreateCaches(s: Tracker, t: Id, c: Id, h: Id, u: Tracker)
    requires RefsOk(s) && CachesOk(s) && Creates(s, t, c, h, u)
    ensures CachesOk(u)
  {
    hide RefsOk, CacheLocksOk, ClosesOk, MarkedOk, Creates;
    CreateLocks(s, t, c, h, u);
    CreateCloses(s, t, c, h, u);
  }

  lemma CreateTears(s: Tracker, t: Id, c: Id, h: Id, u: Tracker, k: Id)
    requires Creates(s, t, c, h, u)
    ensures TearingDown(s, k) ==> TearingDown(u, k)
    ensures AboutToUnmap(s, k) ==> AboutToUnmap(u, k)
  {
    if x :| x in s.threads && s.threads[x].cluster == k && Marked(s.threads[x].at) {
      assert Marked(u.threads[x].at) && u.threads[x].cluster == k;
    }
    if x :| x in s.threads && s.threads[x].cluster == k && BeforeUnmap(s.threads[x].at) {
      assert BeforeUnmap(u.threads[x].at) && u.threads[x].cluster == k;
    }
  }

  lemma CreateWatches(s: Tracker, t: Id, c: Id, h: Id, u: Tracker)
    requires RefsOk(s) && WatchesOk(s) && Creates(s, t, c, h, u)
    ensures WatchesOk(u)
  {
    forall k { CreateTears(s, t, c, h, u, k); }
    hide TearingDown, AboutToUnmap;
    assert forall k, x | LiveCache(s, k, x) :: LiveCache(u, k, x);
    assert LiveCache(u, s.threads[t].cluster, c);
  }

  lemma CreateKeeps(s: Tracker, t: Id, c: Id, h: Id, u: Tracker)
    requires RefsOk(s) && CachesOk(s) && WatchesOk(s) && WatchStep(s, Create(t, c, h), u)
    ensures RefsOk(u) && CachesOk(u) && WatchesOk(u)
  {
    hide Hold, RefsOk, CachesOk, WatchesOk;
    assert Creates(s, t, c, h, u);
    hide WatchStep, Creates;
    CreateRefs(s, t, c, h, u);
    CreateCaches(s, t, c, h, u);
    CreateWatches(s, t, c, h, u);
  }

  lemma PlainKeeps(s: Tracker, step: Step, u: Tracker)
    requires RefsOk(s) && CachesOk(s) && WatchesOk(s) && Next(s, step, u) && IsPlain(s, step)
    ensures RefsOk(u) && CachesOk(u) && WatchesOk(u)
  {
    hide RefsOk, CachesOk, WatchesOk, Next;
    StepIsPlain(s, step, u);
    MoveRefs(s, step.t, u);
    MoveCaches(s, step.t, u);
    MoveWatches(s, step.t, u);
  }

  lemma InvNext(s: Tracker, step: Step, u: Tracker)
    requires Inv(s) && Next(s, step, u)
    ensures Inv(u)
  {
    hide RefsOk, CachesOk, WatchesOk, LocksOk;
    LocksNext(s, step, u);
    if IsPlain(s, step) {
      PlainKeeps(s, step, u);
    } else {
      hide StartStep, TakeStep, WatchStep, HealthStep, TearDownStep;
      match step
      case Take(t) => TakesCache(s, t, u); CacheStepKeeps(s, step, u);
      case Create(t, c, h) => CreateKeeps(s, t, c, h, u);
      case Record(t) => RecordKeeps(s, t, u);
      case Mark(t) => CacheStepKeeps(s, step, u);
      case Close(t) => CacheStepKeeps(s, step, u);
      case Unmap(t) => UnmapKeeps(s, t, u);
      case Forget(t) => ForgetKeeps(s, t, u);
    }
  }

  lemma TakesCache(s: Tracker, t: Id, u: Tracker)
    requires TakeStep(s, t, u) && !IsPlain(s, Take(t))
    ensures t in s.threads && s.threads[t].at.WantStop?
  {
  }

  lemma {:induction false} InvAlways(r: Run)
    requires IsRun(r)
    ensures Inv(Last(r))
  {
    if r.After? {
      hide Inv, Next;
      InvAlways(r.before);
      InvNext(Last(r.before), r.step, r.now);
    }
  }
}
