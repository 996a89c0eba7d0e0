/** The cluster cache tracker as a protocol: Watch calls, health-check goroutines and reconciles as threads with
    program counters, which take and release the tracker's two read-write locks and the lock of each cache. */
module ClusterCache {
  import opened Wrappers
  import opened Runs
  import HealthPolling

  /** Threads, caches, clusters and watches are compared for equality only. */
  type Id = string

  datatype Watch = Watch(cluster: Id, info: Id)

  /** A cache with its stop flag, the number of times its stop channel was closed, and the holder of its lock. */
  datatype Cache = Cache(cluster: Id, stopped: bool, closes: nat, lock: Option<Id>)

  datatype RWLock = RWLock(writer: Option<Id>, readers: set<Id>)

  /** Want* waits for a lock; the location after it holds that lock. Watch: WantPeek .. Recording.  Health check:
      Polling, Probing.  Tear-down: WantGet .. Forgetting. */
  datatype Location =
    | WantPeek | Peeking | WantWatches | Rechecking | WantLookup | Looking | WantCreate | Creating | Calling | Recording
    | Polling | Probing
    | WantGet | Getting | WantStop | Stopping | Closing | WantUnmap | Unmapping | WantForget | Forgetting
    | Finished

  /** `cache` is the cache a Watch call or a tear-down has got hold of, or the one a health check was started for. */
  datatype Thread = Thread(at: Location, cluster: Id, info: Id, cache: Id, failures: nat)

  /** `watches` says of every recorded watch which cache it was established on. */
  datatype Tracker = Tracker(
    caches: map<Id, Cache>, mapped: map<Id, Id>, watches: map<Watch, Id>,
    watchesLock: RWLock, mappedLock: RWLock, threads: map<Id, Thread>)

  datatype Step =
    | StartWatch(t: Id, cluster: Id, info: Id) | StartReconcile(t: Id, cluster: Id)
    | Take(t: Id) | Peek(t: Id) | Recheck(t: Id) | Lookup(t: Id) | Reuse(t: Id)
    | Create(t: Id, cache: Id, health: Id) | CreateFails(t: Id)
    | Establish(t: Id) | EstablishFails(t: Id) | Record(t: Id)
    | Probe(t: Id, healthy: bool) | SeeStop(t: Id)
    | Get(t: Id) | Mark(t: Id) | Close(t: Id) | Unmap(t: Id) | Forget(t: Id)

  // ----- Locks ------------------------------------------------------------------------------------

  datatype Which = WatchesLock | MappedLock

  /** The sections that hold a read-write lock for writing: those of `watches` reach over a whole Watch call. */
  predicate Writes(which: Which, at: Location) {
    match which
    case WatchesLock =>
      at.Rechecking? || at.WantLookup? || at.Looking? || at.WantCreate? || at.Creating? || at.Calling? || at.Recording?
      || at.Forgetting?
    case MappedLock => at.Creating? || at.Unmapping?
  }

  predicate Reads(which: Which, at: Location) {
    match which
    case WatchesLock => at.Peeking?
    case MappedLock => at.Looking? || at.Probing? || at.Getting?
  }

  predicate HoldsCache(at: Location) {
    at.Stopping? || at.Closing?
  }

  predicate MayRead(l: RWLock) {
    l.writer.None?
  }

  predicate MayWrite(l: RWLock) {
    l.writer.None? && l.readers == {}
  }

  /** The lock after thread t moved to a location where it writes, reads, or neither. */
  function Hold(l: RWLock, t: Id, writing: bool, reading: bool): RWLock {
    RWLock(if writing then Some(t) else if l.writer == Some(t) then None else l.writer,
           if reading then l.readers + {t} else l.readers - {t})
  }

  /** Where a thread waiting for a lock goes once it has it. */
  function Inside(at: Location): Location {
    match at
    case WantPeek => Peeking
    case WantWatches => Rechecking
    case WantLookup => Looking
    case WantCreate => Creating
    case Polling => Probing
    case WantGet => Getting
    case WantStop => Stopping
    case WantUnmap => Unmapping
    case WantForget => Forgetting
    case _ => at
  }

  /** Whether the lock a thread waits for is free for it. */
  predicate MayTake(s: Tracker, th: Thread) {
    match th.at
    case WantPeek => MayRead(s.watchesLock)
    case WantWatches => MayWrite(s.watchesLock)
    case WantLookup => MayRead(s.mappedLock)
    case WantCreate => MayWrite(s.mappedLock)
    case Polling => MayRead(s.mappedLock)
    case WantGet => MayRead(s.mappedLock)
    case WantStop => th.cache in s.caches && s.caches[th.cache].lock.None?
    case WantUnmap => MayWrite(s.mappedLock)
    case WantForget => MayWrite(s.watchesLock)
    case _ => false
  }

  // ----- Steps ------------------------------------------------------------------------------------

  /** Thread t; one that is not there yet is like one that has finished. */
  function ThreadOf(s: Tracker, t: Id): Thread {
    if t in s.threads then s.threads[t] else Thread(Finished, "", "", "", 0)
  }

  /** Thread t, in its new state, with the locks that go with its new location. */
  function Put(s: Tracker, t: Id, th: Thread): Tracker {
    s.(threads := s.threads[t := th],
       watchesLock := Hold(s.watchesLock, t, Writes(WatchesLock, th.at), Reads(WatchesLock, th.at)),
       mappedLock := Hold(s.mappedLock, t, Writes(MappedLock, th.at), Reads(MappedLock, th.at)))
  }

  function Go(s: Tracker, t: Id, at: Location): Tracker
    requires t in s.threads
  {
    Put(s, t, s.threads[t].(at := at))
  }

  predicate AtLocation(s: Tracker, t: Id, at: Location) {
    t in s.threads && s.threads[t].at == at
  }

  function SetCache(s: Tracker, c: Id, cache: Cache): Tracker {
    s.(caches := s.caches[c := cache])
  }

  predicate StartStep(s: Tracker, step: Step, u: Tracker) {
    match step
    case StartWatch(t, k, i) => t !in s.threads && u == Put(s, t, Thread(WantPeek, k, i, "", 0))
    case StartReconcile(t, k) => t !in s.threads && u == Put(s, t, Thread(WantGet, k, "", "", 0))
    case _ => false
  }

  predicate TakeStep(s: Tracker, t: Id, u: Tracker) {
    && t in s.threads && MayTake(s, s.threads[t])
    && var th := s.threads[t];
       u == if th.at.WantStop? then SetCache(Go(s, t, Stopping), th.cache, s.caches[th.cache].(lock := Some(t)))
            else Go(s, t, Inside(th.at))
  }

  /** The steps of a Watch call. */
  predicate WatchStep(s: Tracker, step: Step, u: Tracker) {
    match step
    case Peek(t) =>
      && AtLocation(s, t, Peeking)
      && u == Go(s, t, if Watch(s.threads[t].cluster, s.threads[t].info) in s.watches then Finished else WantWatches)
    case Recheck(t) =>
      && AtLocation(s, t, Rechecking)
      && u == Go(s, t, if Watch(s.threads[t].cluster, s.threads[t].info) in s.watches then Finished else WantLookup)
    case Lookup(t) =>
      && AtLocation(s, t, Looking)
      && var th := s.threads[t];
         u == if th.cluster in s.mapped then Put(s, t, th.(at := Calling, cache := s.mapped[th.cluster]))
              else Go(s, t, WantCreate)
    case Reuse(t) =>
      && AtLocation(s, t, Creating)
      && var th := s.threads[t];
         th.cluster in s.mapped && u == Put(s, t, th.(at := Calling, cache := s.mapped[th.cluster]))
    case Create(t, c, h) =>
      && AtLocation(s, t, Creating) && c !in s.caches && h !in s.threads
      && var th := s.threads[t];
         && th.cluster !in s.mapped
         && var v := Put(Put(s, t, th.(at := Calling, cache := c)), h, Thread(Polling, th.cluster, "", c, 0));
            u == v.(caches := s.caches[c := Cache(th.cluster, false, 0, None)], mapped := s.mapped[th.cluster := c])
    case CreateFails(t) =>
      && AtLocation(s, t, Creating) && s.threads[t].cluster !in s.mapped && u == Go(s, t, Finished)
    case Establish(t) => AtLocation(s, t, Calling) && u == Go(s, t, Recording)
    case EstablishFails(t) => AtLocation(s, t, Calling) && u == Go(s, t, Finished)
    case Record(t) =>
      && AtLocation(s, t, Recording)
      && var th := s.threads[t];
         u == Go(s, t, Finished).(watches := s.watches[Watch(th.cluster, th.info) := th.cache])
    case _ => false
  }

  /** The steps of a health check: a poll ends with an error when too many checks in a row failed, and also
      when the stop channel of the cache it was started for is closed. */
  predicate HealthStep(s: Tracker, step: Step, u: Tracker) {
    match step
    case Probe(t, healthy) =>
      && AtLocation(s, t, Probing)
      && var th := s.threads[t];
         var failures := if healthy then 0 else th.failures + 1;
         u == if th.cluster !in s.mapped then Go(s, t, Finished)
              else Put(s, t, th.(at := if failures >= HealthPolling.UNHEALTHY_THRESHOLD then WantGet else Polling,
                  failures := failures))
    case SeeStop(t) =>
      && AtLocation(s, t, Polling) && s.threads[t].cache in s.caches && s.caches[s.threads[t].cache].closes > 0
      && u == Go(s, t, WantGet)
    case _ => false
  }

  /** The tear-down a health check and a reconcile of a deleted cluster share. */
  predicate TearDownStep(s: Tracker, step: Step, u: Tracker) {
    match step
    case Get(t) =>
      && AtLocation(s, t, Getting)
      && var th := s.threads[t];
         u == if th.cluster in s.mapped then Put(s, t, th.(at := WantStop, cache := s.mapped[th.cluster]))
              else Go(s, t, Finished)
    case Mark(t) =>
      && AtLocation(s, t, Stopping) && s.threads[t].cache in s.caches
      && var c := s.threads[t].cache;
         u == if s.caches[c].stopped then SetCache(Go(s, t, WantUnmap), c, s.caches[c].(lock := None))
              else SetCache(Go(s, t, Closing), c, s.caches[c].(stopped := true))
    case Close(t) =>
      && AtLocation(s, t, Closing) && s.threads[t].cache in s.caches
      && var c := s.threads[t].cache;
         u == SetCache(Go(s, t, WantUnmap), c, s.caches[c].(closes := s.caches[c].closes + 1, lock := None))
    case Unmap(t) =>
      && AtLocation(s, t, Unmapping)
      && u == Go(s, t, WantForget).(mapped := s.mapped - {s.threads[t].cluster})
    case Forget(t) =>
      && AtLocation(s, t, Forgetting)
      && u == Go(s, t, Finished).(watches := WatchesExcept(s.watches, s.threads[t].cluster))
    case _ => false
  }

  function WatchesExcept(watches: map<Watch, Id>, cluster: Id): map<Watch, Id> {
    map w | w in watches && w.cluster != cluster :: watches[w]
  }

  predicate Next(s: Tracker, step: Step, u: Tracker) {
    match step
    case StartWatch(_, _, _) => StartStep(s, step, u)
    case StartReconcile(_, _) => StartStep(s, step, u)
    case Take(t) => TakeStep(s, t, u)
    case Probe(_, _) => HealthStep(s, step, u)
    case SeeStop(_) => HealthStep(s, step, u)
    case Get(_) => TearDownStep(s, step, u)
    case Mark(_) => TearDownStep(s, step, u)
    case Close(_) => TearDownStep(s, step, u)
    case Unmap(_) => TearDownStep(s, step, u)
    case Forget(_) => TearDownStep(s, step, u)
    case _ => WatchStep(s, step, u)
  }

  // ----- The effect of each critical section, and of whole operations left alone ------------------

  function AfterCreate(s: Tracker, cluster: Id, c: Id): Tracker {
    s.(caches := s.caches[c := Cache(cluster, false, 0, None)], mapped := s.mapped[cluster := c])
  }

  function AfterRecord(s: Tracker, w: Watch, c: Id): Tracker {
    s.(watches := s.watches[w := c])
  }

  function AfterStop(s: Tracker, c: Id): Tracker {
    if c in s.caches && !s.caches[c].stopped
    then s.(caches := s.caches[c := s.caches[c].(stopped := true, closes := s.caches[c].closes + 1)])
    else s
  }

  function AfterUnmap(s: Tracker, cluster: Id): Tracker {
    s.(mapped := s.mapped - {cluster})
  }

  function AfterForget(s: Tracker, cluster: Id): Tracker {
    s.(watches := WatchesExcept(s.watches, cluster))
  }

  /** A Watch call: `built` and `established` say whether the cache could be built and the watcher accepted it. */
  function AfterWatch(s: Tracker, w: Watch, c: Id, built: bool, established: bool): Tracker {
    if w in s.watches || (w.cluster !in s.mapped && !built) then s
    else
      var v := if w.cluster in s.mapped then s else AfterCreate(s, w.cluster, c);
      if established then AfterRecord(v, w, v.mapped[w.cluster]) else v
  }

  function AfterTearDown(s: Tracker, cluster: Id): Tracker {
    if cluster in s.mapped then AfterForget(AfterUnmap(AfterStop(s, s.mapped[cluster]), cluster), cluster) else s
  }

  function Empty(): Tracker {
    Tracker(map[], map[], map[], RWLock(None, {}), RWLock(None, {}), map[])
  }

  type Run = Trace<Tracker, Step>

  predicate IsRun(r: Run) {
    if r.Start? then r.first == Empty() else IsRun(r.before) && Next(Last(r.before), r.step, r.now)
  }
}
