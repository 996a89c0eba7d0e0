/** The guarantees of the cluster cache tracker over whole runs. */
module ClusterCacheRuns {
  import opened Wrappers
  import opened Runs
  import opened ClusterCache
  import opened ClusterCacheSafety

  // ----- Watches ----------------------------------------------------------------------------------

  /** In every interleaving a recorded watch is on the running cache mapped for its cluster, unless a tear-down of
      that cluster is on its way to deleting the watch.  With no such tear-down, no mapped cache is stopped either. */
  lemma WatchesAreLive(r: Run)
    requires IsRun(r)
    ensures var s := Last(r);
            && (forall w | w in s.watches :: LiveCache(s, w.cluster, s.watches[w]) || TearingDown(s, w.cluster))
            && (forall k | k in s.mapped && !TearingDown(s, k) :: LiveCache(s, k, s.mapped[k]))
  {
    InvAlways(r);
    var s := Last(r);
    forall k { UnmapTearsDown(s, k); }
    hide TearingDown, AboutToUnmap;
  }

  lemma UnmapTearsDown(s: Tracker, cluster: Id)
    ensures AboutToUnmap(s, cluster) ==> TearingDown(s, cluster)
  {
    if t :| t in s.threads && s.threads[t].cluster == cluster && BeforeUnmap(s.threads[t].at) {
      assert Marked(s.threads[t].at);
    }
  }

  /** Successful calls of the watcher for a watch since the cluster's watches were last deleted. */
  function Established(r: Run, w: Watch): nat {
    if r.Start? then 0
    else
      var th := ThreadOf(Last(r.before), r.step.t);
      if r.step.Establish? && Watch(th.cluster, th.info) == w then Established(r.before, w) + 1
      else if r.step.Forget? && th.cluster == w.cluster then 0
      else Established(r.before, w)
  }

  predicate Watching(at: Location) {
    at.WantLookup? || at.Looking? || at.WantCreate? || at.Creating? || at.Calling? || at.Recording?
  }

  predicate For(th: Thread, w: Watch) {
    th.cluster == w.cluster && th.info == w.info
  }

  ghost predicate Recordable(s: Tracker, w: Watch) {
    exists t :: t in s.threads && s.threads[t].at.Recording? && For(s.threads[t], w)
  }

  /** A Watch call that got past its second look has the watch to itself. */
  predicate AloneOn(s: Tracker, w: Watch) {
    forall t | t in s.threads && Watching(s.threads[t].at) && For(s.threads[t], w) :: w !in s.watches
  }

  ghost predicate OnceOk(s: Tracker, w: Watch, n: nat) {
    && AloneOn(s, w)
    && n == if w in s.watches || Recordable(s, w) then 1 else 0
  }

  lemma OneWatches(s: Tracker, t: Id)
    requires LocksOk(s.watchesLock, s.mappedLock, s.threads)
    requires t in s.threads && Writes(WatchesLock, s.threads[t].at)
    ensures forall x | x in s.threads && Watching(s.threads[x].at) :: x == t
  {
    forall x | x in s.threads && Watching(s.threads[x].at) ensures x == t {
      assert Writes(WatchesLock, s.threads[x].at) ==> s.watchesLock.writer == Some(x);
    }
  }

  lemma EstablishOnce(s: Tracker, t: Id, u: Tracker, w: Watch, n: nat)
    requires Inv(s) && OnceOk(s, w, n) && WatchStep(s, Establish(t), u)
    ensures OnceOk(u, w, if For(s.threads[t], w) then n + 1 else n)
  {
    hide Hold, RefsOk, CachesOk, WatchesOk;
    OneWatches(s, t);
    hide LocksOk;
    if For(s.threads[t], w) {
      assert u.threads[t].at.Recording? && For(u.threads[t], w);
    }
  }

  lemma RecordOnce(s: Tracker, t: Id, u: Tracker, w: Watch, n: nat)
    requires Inv(s) && OnceOk(s, w, n) && WatchStep(s, Record(t), u)
    ensures OnceOk(u, w, n)
  {
    hide Hold, RefsOk, CachesOk, WatchesOk;
    OneWatches(s, t);
    hide LocksOk;
    if For(s.threads[t], w) {
      assert Recordable(s, w);
    }
  }

  lemma ForgetOnce(s: Tracker, t: Id, u: Tracker, w: Watch, n: nat)
    requires Inv(s) && OnceOk(s, w, n) && TearDownStep(s, Forget(t), u)
    ensures OnceOk(u, w, if s.threads[t].cluster == w.cluster then 0 else n)
  {
    hide Hold, RefsOk, CachesOk, WatchesOk;
    OneWatches(s, t);
    hide LocksOk;
  }

  /** Nothing is recorded, and the thread that moves neither begins nor ends a recording. */
  predicate Quietly(s: Tracker, t: Id, u: Tracker) {
    && u.watches == s.watches
    && t in u.threads && !u.threads[t].at.Recording? && !Before(s, t).Recording?
    && (Watching(u.threads[t].at) ==>
          || Watch(u.threads[t].cluster, u.threads[t].info) !in s.watches
          || (Watching(Before(s, t)) && u.threads[t].cluster == s.threads[t].cluster
              && u.threads[t].info == s.threads[t].info))
  }

  /** The other threads are as before, but for a new one that does not watch. */
  predicate OthersRest(s: Tracker, t: Id, u: Tracker) {
    && (forall x | x in s.threads && x != t :: x in u.threads && u.threads[x] == s.threads[x])
    && (forall x | x in u.threads && x !in s.threads && x != t :: !Watching(u.threads[x].at))
  }

  lemma OtherOnce(s: Tracker, t: Id, u: Tracker, w: Watch, n: nat)
    requires OnceOk(s, w, n) && Quietly(s, t, u) && OthersRest(s, t, u)
    ensures OnceOk(u, w, n)
  {
    if Recordable(s, w) {
      var x :| x in s.threads && s.threads[x].at.Recording? && For(s.threads[x], w);
      assert u.threads[x].at.Recording? && For(u.threads[x], w);
    }
    if Recordable(u, w) {
      var x :| x in u.threads && u.threads[x].at.Recording? && For(u.threads[x], w);
      assert s.threads[x].at.Recording? && For(s.threads[x], w);
    }
  }

  lemma StartQuietly(s: Tracker, step: Step, u: Tracker)
    requires StartStep(s, step, u)
    ensures Quietly(s, step.t, u)
  {
    hide Hold;
  }

  lemma TakeQuietly(s: Tracker, t: Id, u: Tracker)
    requires TakeStep(s, t, u)
    ensures Quietly(s, t, u)
  {
    hide Hold;
  }

  lemma WatchQuietly(s: Tracker, step: Step, u: Tracker)
    requires WatchStep(s, step, u) && !step.Establish? && !step.Record?
    ensures Quietly(s, step.t, u)
  {
    hide Hold;
  }

  lemma HealthQuietly(s: Tracker, step: Step, u: Tracker)
    requires HealthStep(s, step, u)
    ensures Quietly(s, step.t, u)
  {
    hide Hold;
  }

  lemma TearDownQuietly(s: Tracker, step: Step, u: Tracker)
    requires TearDownStep(s, step, u) && !step.Forget?
    ensures Quietly(s, step.t, u)
  {
    hide Hold;
  }

  lemma OthersAtRest(s: Tracker, step: Step, u: Tracker)
    requires Next(s, step, u)
    ensures OthersRest(s, step.t, u)
  {
    if step.Create? {
      hide Hold;
    } else {
      StepMoves(s, step, u);
      hide Next;
    }
  }

  lemma OthersQuietly(s: Tracker, step: Step, u: Tracker)
    requires Next(s, step, u) && !step.Establish? && !step.Record? && !step.Forget?
    ensures Quietly(s, step.t, u)
  {
    hide Quietly, StartStep, TakeStep, WatchStep, HealthStep, TearDownStep;
    match step
    case StartWatch(_, _, _) => StartQuietly(s, step, u);
    case StartReconcile(_, _) => StartQuietly(s, step, u);
    case Take(t) => TakeQuietly(s, t, u);
    case Probe(_, _) => HealthQuietly(s, step, u);
    case SeeStop(_) => HealthQuietly(s, step, u);
    case Get(_) => TearDownQuietly(s, step, u);
    case Mark(_) => TearDownQuietly(s, step, u);
    case Close(_) => TearDownQuietly(s, step, u);
    case Unmap(_) => TearDownQuietly(s, step, u);
    case _ => WatchQuietly(s, step, u);
  }

  lemma OnceNext(s: Tracker, step: Step, u: Tracker, w: Watch, n: nat)
    requires Inv(s) && OnceOk(s, w, n) && Next(s, step, u)
    ensures var th := ThreadOf(s, step.t);
            OnceOk(u, w, if step.Establish? && Watch(th.cluster, th.info) == w then n + 1
                         else if step.Forget? && th.cluster == w.cluster then 0 else n)
  {
    hide Inv, OnceOk, Quietly, OthersRest, StartStep, TakeStep, HealthStep;
    match step
    case Establish(t) => EstablishOnce(s, t, u, w, n);
    case Record(t) => RecordOnce(s, t, u, w, n);
    case Forget(t) => ForgetOnce(s, t, u, w, n);
    case _ =>
      hide WatchStep, TearDownStep;
      OthersQuietly(s, step, u);
      OthersAtRest(s, step, u);
      OtherOnce(s, step.t, u, w, n);
  }

  /** Between two deletions of a cluster's watches, concurrent Watch calls get the watcher to establish a given watch
      at most once; it is recorded exactly when that succeeded, but for the call about to record it. */
  lemma {:induction false} EstablishedOnce(r: Run, w: Watch)
    requires IsRun(r)
    ensures Established(r, w) <= 1
    ensures Established(r, w) == 1 <==> w in Last(r).watches || Recordable(Last(r), w)
    ensures OnceOk(Last(r), w, Established(r, w))
  {
    if r.After? {
      hide Inv, Next, OnceOk;
      EstablishedOnce(r.before, w);
      InvAlways(r.before);
      OnceNext(Last(r.before), r.step, r.now, w, Established(r.before, w));
    }
    assert OnceOk(Last(r), w, Established(r, w));
  }

  // ----- Caches -----------------------------------------------------------------------------------

  /** In every interleaving a stop channel is closed at most once, and while nobody holds the cache's lock it is
      closed exactly when the cache is marked stopped. */
  lemma StoppedOnce(r: Run, c: Id)
    requires IsRun(r) && c in Last(r).caches
    ensures var cache := Last(r).caches[c];
            && cache.closes <= 1
            && (cache.lock.None? ==> (cache.closes == 1 <==> cache.stopped))
  {
    InvAlways(r);
    hide LocksOk, RefsOk, WatchesOk;
    ClosesFollow(Last(r), c);
  }

  lemma ClosesFollow(s: Tracker, c: Id)
    requires CachesOk(s) && c in s.caches
    ensures s.caches[c].closes == if ClosingNow(s, c) || !s.caches[c].stopped then 0 else 1
  {
  }

  function Created(r: Run, cluster: Id): nat {
    if r.Start? then 0
    else Created(r.before, cluster) + if r.step.Create?
        && ThreadOf(Last(r.before), r.step.t).cluster == cluster then 1 else 0
  }

  /** Deletions of the cluster's map entry, and those of them that found an entry. */
  function Deleted(r: Run, cluster: Id): nat {
    if r.Start? then 0
    else Deleted(r.before, cluster) + if r.step.Unmap?
        && ThreadOf(Last(r.before), r.step.t).cluster == cluster then 1 else 0
  }

  function Removed(r: Run, cluster: Id): nat {
    if r.Start? then 0
    else
      Removed(r.before, cluster) +
      if r.step.Unmap? && ThreadOf(Last(r.before), r.step.t).cluster == cluster
          && cluster in Last(r.before).mapped then 1 else 0
  }

  lemma MappedNext(s: Tracker, step: Step, u: Tracker)
    requires Next(s, step, u)
    ensures var k := ThreadOf(s, step.t).cluster;
            u.mapped == match step
                        case Create(t, c, h) => s.mapped[k := c]
                        case Unmap(t) => s.mapped - {k}
                        case _ => s.mapped
    ensures step.Create? ==> ThreadOf(s, step.t).cluster !in s.mapped
  {
    hide Hold, MayTake;
  }

  /** A mapped cache is never overwritten: each cache created for a cluster is mapped or was removed, so the caches
      created number at most one more than the deletions. */
  lemma {:induction false} CreatedIsMappedOrRemoved(r: Run, cluster: Id)
    requires IsRun(r)
    ensures Created(r, cluster) == Removed(r, cluster) + if cluster in Last(r).mapped then 1 else 0
    ensures Created(r, cluster) <= Deleted(r, cluster) + 1
    ensures Removed(r, cluster) <= Deleted(r, cluster)
  {
    if r.After? {
      hide Next;
      CreatedIsMappedOrRemoved(r.before, cluster);
      MappedNext(Last(r.before), r.step, r.now);
    }
  }

  // ----- Tear-downs one at a time -----------------------------------------------------------------

  predicate BeforeMark(at: Location) {
    at.WantStop? || at.Stopping?
  }

  predicate InTearDown(at: Location) {
    BeforeMark(at) || BeforeUnmap(at)
  }

  /** No cluster has two tear-downs between the look-up of a cache and its removal. */
  predicate OneTearDown(s: Tracker) {
    forall a, b | a in s.threads && b in s.threads && InTearDown(s.threads[a].at) && InTearDown(s.threads[b].at) ::
      s.threads[a].cluster == s.threads[b].cluster ==> a == b
  }

  predicate Serial(r: Run) {
    r.After? ==> Serial(r.before) && OneTearDown(r.now)
  }

  predicate MappedOrStopped(s: Tracker, c: Id)
    requires c in s.caches
  {
    s.caches[c].stopped || (s.caches[c].cluster in s.mapped && s.mapped[s.caches[c].cluster] == c)
  }

  /** Caches are neither forgotten nor restarted, only creations add one, and only a holder stops one. */
  predicate Grows(s: Tracker, step: Step, u: Tracker) {
    && (forall c | c in s.caches :: c in u.caches && u.caches[c].cluster == s.caches[c].cluster)
    && (forall c | c in s.caches && s.caches[c].stopped :: u.caches[c].stopped)
    && (forall c | c in u.caches && c !in s.caches :: step.Create? && step.cache == c)
    && (forall c | c in s.caches && c in u.caches && u.caches[c].stopped != s.caches[c].stopped ::
          AtLocation(s, step.t, Stopping) && s.threads[step.t].cache == c)
  }

  lemma RestGrows(s: Tracker, step: Step, u: Tracker)
    requires Next(s, step, u) && IsPlain(s, step)
    ensures Grows(s, step, u)
  {
    StepIsPlain(s, step, u);
    hide Next;
  }

  lemma TakeGrows(s: Tracker, t: Id, u: Tracker)
    requires TakeStep(s, t, u) && s.threads[t].at.WantStop?
    ensures Grows(s, Take(t), u)
  {
    hide Hold;
  }

  lemma WatchGrows(s: Tracker, step: Step, u: Tracker)
    requires WatchStep(s, step, u) && (step.Create? || step.Record?)
    ensures Grows(s, step, u)
  {
    hide Hold;
  }

  lemma TearDownGrows(s: Tracker, step: Step, u: Tracker)
    requires TearDownStep(s, step, u)
    ensures Grows(s, step, u)
  {
    hide Hold;
  }

  lemma CachesGrow(s: Tracker, step: Step, u: Tracker)
    requires Next(s, step, u)
    ensures Grows(s, step, u)
  {
    hide Grows;
    if IsPlain(s, step) {
      RestGrows(s, step, u);
    } else {
      hide StartStep, TakeStep, WatchStep, HealthStep, TearDownStep;
      match step
      case Take(t) => TakesCache(s, t, u); TakeGrows(s, t, u);
      case Create(_, _, _) => WatchGrows(s, step, u);
      case Record(_) => WatchGrows(s, step, u);
      case _ => TearDownGrows(s, step, u);
    }
  }

  lemma NewIsMapped(s: Tracker, step: Step, u: Tracker, c: Id)
    requires Next(s, step, u) && c in u.caches && c !in s.caches
    ensures MappedOrStopped(u, c)
  {
    CachesGrow(s, step, u);
    hide Hold;
  }

  /** With tear-downs one at a time, the cache a tear-down got hold of stays mapped until it removes it. */
  predicate OwnMapped(s: Tracker) {
    forall t | t in s.threads && InTearDown(s.threads[t].at) ::
      s.threads[t].cluster in s.mapped && s.mapped[s.threads[t].cluster] == s.threads[t].cache
  }

  /** A thread between look-up and removal kept its cache, or just looked it up in the map. */
  predicate InOwn(s: Tracker, t: Id, u: Tracker) {
    t in u.threads && InTearDown(u.threads[t].at) ==>
      && t in s.threads && u.threads[t].cluster == s.threads[t].cluster
      && (BeforeMark(u.threads[t].at) && InTearDown(s.threads[t].at) ==> BeforeMark(s.threads[t].at))
      && if InTearDown(s.threads[t].at) then u.threads[t].cache == s.threads[t].cache
         else u.threads[t].cluster in s.mapped && s.mapped[u.threads[t].cluster] == u.threads[t].cache
  }

  lemma TearDownInOwn(s: Tracker, step: Step, u: Tracker)
    requires TearDownStep(s, step, u)
    ensures InOwn(s, step.t, u)
  {
    hide Hold;
  }

  lemma TakeInOwn(s: Tracker, t: Id, u: Tracker)
    requires TakeStep(s, t, u)
    ensures InOwn(s, t, u)
  {
    hide Hold;
  }

  lemma RestInOwn(s: Tracker, step: Step, u: Tracker)
    requires StartStep(s, step, u) || HealthStep(s, step, u) || (WatchStep(s, step, u) && !step.Create?)
    ensures InOwn(s, step.t, u)
  {
    hide Hold;
  }

  lemma MovesInOwn(s: Tracker, step: Step, u: Tracker)
    requires Next(s, step, u) && !step.Create?
    ensures InOwn(s, step.t, u)
  {
    hide InOwn, StartStep, TakeStep, WatchStep, HealthStep, TearDownStep;
    match step
    case Take(t) => TakeInOwn(s, t, u);
    case Get(_) => TearDownInOwn(s, step, u);
    case Mark(_) => TearDownInOwn(s, step, u);
    case Close(_) => TearDownInOwn(s, step, u);
    case Unmap(_) => TearDownInOwn(s, step, u);
    case Forget(_) => TearDownInOwn(s, step, u);
    case _ => RestInOwn(s, step, u);
  }

  lemma OwnNext(s: Tracker, step: Step, u: Tracker)
    requires OwnMapped(s) && OneTearDown(s) && Next(s, step, u)
    ensures OwnMapped(u)
  {
    MappedNext(s, step, u);
    if step.Create? {
      hide Hold;
    } else {
      StepMoves(s, step, u);
      MovesInOwn(s, step, u);
      if step.Unmap? {
        UnmapMoves(s, step.t, u);
      }
      hide Next;
    }
  }

  // ----- Overlapping tear-downs -------------------------------------------------------------------

  /** A running cache that the tracker no longer knows and nobody is about to stop. */
  predicate Leaked(s: Tracker, c: Id) {
    && c in s.caches && !s.caches[c].stopped
    && !(s.caches[c].cluster in s.mapped && s.mapped[s.caches[c].cluster] == c)
    && !AboutToStop(s, c)
  }

  /** Some tear-down holds the cache and has yet to mark it. */
  predicate AboutToStop(s: Tracker, c: Id) {
    exists t :: t in s.threads && s.threads[t].cache == c && BeforeMark(s.threads[t].at)
  }

  lemma LeakSurvivesCreation(s: Tracker, step: Step, u: Tracker, c: Id)
    requires Leaked(s, c) && WatchStep(s, step, u) && step.Create?
    ensures Leaked(u, c)
  {
    hide Hold;
  }

  lemma LeakSurvivesMove(s: Tracker, step: Step, u: Tracker, c: Id)
    requires RefsOk(s) && Leaked(s, c) && Next(s, step, u) && !step.Create?
    ensures Leaked(u, c)
  {
    MappedNext(s, step, u);
    CachesGrow(s, step, u);
    NoneStartsToStop(s, step, u, c);
    hide Next, Put, AboutToStop;
  }

  lemma ActorDoesNotStop(s: Tracker, t: Id, u: Tracker, c: Id)
    requires RefsOk(s) && Leaked(s, c) && t in u.threads && InOwn(s, t, u) && u.threads[t].cache == c
    ensures !BeforeMark(u.threads[t].at)
  {
  }

  lemma NoneStartsToStop(s: Tracker, step: Step, u: Tracker, c: Id)
    requires RefsOk(s) && Leaked(s, c) && Next(s, step, u) && !step.Create?
    ensures !AboutToStop(u, c)
  {
    hide Next, InOwn, RefsOk;
    StepMoves(s, step, u);
    MovesInOwn(s, step, u);
    if u.threads[step.t].cache == c {
      ActorDoesNotStop(s, step.t, u, c);
    }
    hide MayEnter, Put;
    assert forall t | t in u.threads && t != step.t :: t in s.threads && u.threads[t] == s.threads[t];
  }

  lemma LeakNext(s: Tracker, step: Step, u: Tracker, c: Id)
    requires Inv(s) && Leaked(s, c) && Next(s, step, u)
    ensures Leaked(u, c)
  {
    assert RefsOk(s);
    hide Inv, RefsOk, Leaked;
    if step.Create? {
      LeakSurvivesCreation(s, step, u, c);
    } else {
      LeakSurvivesMove(s, step, u, c);
    }
  }

  /** The step unmaps a running cache that nobody is about to stop. */
  predicate Drops(s: Tracker, step: Step, c: Id) {
    && step.Unmap? && c in s.caches && !s.caches[c].stopped && !AboutToStop(s, c)
    && var cluster := ThreadOf(s, step.t).cluster; cluster in s.mapped && s.mapped[cluster] == c
  }

  predicate HasDrop(r: Run, c: Id) {
    r.After? && (HasDrop(r.before, c) || Drops(Last(r.before), r.step, c))
  }

  lemma HolderMoves(s: Tracker, step: Step, u: Tracker)
    requires Next(s, step, u) && (AtLocation(s, step.t, WantStop) || AtLocation(s, step.t, Stopping))
    ensures var c := s.threads[step.t].cache;
            || (AtLocation(u, step.t, Stopping) && u.threads[step.t].cache == c)
            || (c in u.caches && u.caches[c].stopped)
  {
    hide Hold;
  }

  /** Whoever is about to stop a cache does so in the end. */
  lemma AboutStays(s: Tracker, step: Step, u: Tracker, c: Id)
    requires Next(s, step, u) && AboutToStop(s, c)
    ensures AboutToStop(u, c) || (c in u.caches && u.caches[c].stopped)
  {
    OthersAtRest(s, step, u);
    var t :| t in s.threads && s.threads[t].cache == c && BeforeMark(s.threads[t].at);
    if t == step.t {
      HolderMoves(s, step, u);
    }
    hide Next;
  }

  lemma UnmapDrops(s: Tracker, t: Id, u: Tracker, c: Id)
    requires RefsOk(s) && TearDownStep(s, Unmap(t), u) && c in s.caches && MappedOrStopped(s, c)
    requires !s.caches[c].stopped && !AboutToStop(s, c)
    ensures Leaked(u, c) <==> Drops(s, Unmap(t), c)
  {
    UnmapMoves(s, t, u);
    hide TearDownStep;
  }

  lemma DropNext(s: Tracker, step: Step, u: Tracker, c: Id)
    requires Inv(s) && Next(s, step, u) && !Leaked(s, c)
    ensures Leaked(u, c) <==> Drops(s, step, c)
  {
    CachesGrow(s, step, u);
    if c !in s.caches {
      if c in u.caches {
        NewIsMapped(s, step, u, c);
      }
    } else if AboutToStop(s, c) {
      AboutStays(s, step, u, c);
    } else if s.caches[c].stopped {
    } else if step.Unmap? {
      UnmapDrops(s, step.t, u, c);
    } else {
      MappedNext(s, step, u);
    }
    hide Next, Inv, AboutToStop;
  }

  /** Exactly the dropped caches are lost: in every run a cache runs outside the map, with nobody about to stop it, if
      and only if some tear-down unmapped it while it was running and nobody was about to stop it. */
  lemma {:induction false} LeakedExactly(r: Run, c: Id)
    requires IsRun(r)
    ensures Leaked(Last(r), c) <==> HasDrop(r, c)
  {
    if r.After? {
      hide Inv, Next, Leaked, Drops;
      LeakedExactly(r.before, c);
      InvAlways(r.before);
      if Leaked(Last(r.before), c) {
        LeakNext(Last(r.before), r.step, r.now, c);
      } else {
        DropNext(Last(r.before), r.step, r.now, c);
      }
    }
  }

  /** A dropped cache is never the one the tear-down stopped. */
  lemma DropsAnother(s: Tracker, step: Step, u: Tracker, c: Id)
    requires Inv(s) && Next(s, step, u) && Drops(s, step, c)
    ensures step.t in s.threads && InTearDown(s.threads[step.t].at) && s.threads[step.t].cache != c
  {
    UnmapMoves(s, step.t, u);
    hide Next, LocksOk, WatchesOk, RefsOk;
  }

  /** Serialised tear-downs remove only the cache they stopped, so none is ever dropped: every cache ever created is
      mapped or stopped. */
  lemma {:induction false} SerialNeverDrops(r: Run, c: Id)
    requires IsRun(r) && Serial(r)
    ensures OneTearDown(Last(r)) && OwnMapped(Last(r)) && !HasDrop(r, c)
    ensures c in Last(r).caches ==> MappedOrStopped(Last(r), c)
  {
    if r.After? {
      hide Next, OneTearDown, OwnMapped, Drops, Inv;
      SerialNeverDrops(r.before, c);
      OwnNext(Last(r.before), r.step, r.now);
      InvAlways(r.before);
      if Drops(Last(r.before), r.step, c) {
        DropsAnother(Last(r.before), r.step, r.now, c);
        OwnNotDropped(Last(r.before), r.step, c);
      }
    }
    InvAlways(r);
    LeakedExactly(r, c);
    if c in Last(r).caches {
      NotLeakedIsKept(Last(r), c);
    }
  }

  lemma OwnNotDropped(s: Tracker, step: Step, c: Id)
    requires OwnMapped(s) && Drops(s, step, c)
    ensures step.t in s.threads && InTearDown(s.threads[step.t].at) ==> s.threads[step.t].cache == c
  {
  }

  lemma NotLeakedIsKept(s: Tracker, c: Id)
    requires Inv(s) && OwnMapped(s) && !Leaked(s, c) && c in s.caches
    ensures MappedOrStopped(s, c)
  {
    assert RefsOk(s);
    hide Inv, LocksOk, CachesOk, WatchesOk;
    if AboutToStop(s, c) {
      var t :| t in s.threads && s.threads[t].cache == c && BeforeMark(s.threads[t].at);
      assert InTearDown(s.threads[t].at);
    }
  }

  /** A leak is for ever: whatever happens afterwards, the cache goes on running outside the map. */
  lemma {:induction false} LeakIsForever(r: Run, q: Run, c: Id)
    requires IsRun(r) && IsRun(q) && Extends(r, q) && Leaked(Last(q), c)
    ensures Leaked(Last(r), c)
    decreases r
  {
    if r != q {
      hide Inv, Next, Leaked;
      LeakIsForever(r.before, q, c);
      InvAlways(r.before);
      LeakNext(Last(r.before), r.step, r.now, c);
    }
  }
}
