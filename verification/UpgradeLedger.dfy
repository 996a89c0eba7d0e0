/** The balance sheet of an upgrade: how many creations and deletions it takes, when it surges, and how it ends. */
module UpgradeLedger {
  import opened Wrappers
  import opened Runs
  import opened Finite
  import opened Machines
  import opened FailureDomains
  import opened Health
  import opened RollingUpgrade
  import opened UpgradeSafety

  predicate FixedSpec(r: Run) {
    r.After? ==> FixedSpec(r.before) && !r.step.SpecChanges?
  }

  function Creates(r: Run): nat {
    if r.Start? then 0 else Creates(r.before) + if r.step.Create? then 1 else 0
  }

  function Deletes(r: Run): nat {
    if r.Start? then 0 else Deletes(r.before) + if r.step.Delete? then 1 else 0
  }

  /** The most machines owned at any time of the run. */
  function Peak(r: Run): nat {
    if r.Start? then |r.first.machines|
    else if |r.now.machines| > Peak(r.before) then |r.now.machines| else Peak(r.before)
  }

  /** A surplus creation with a single outdated machine left. */
  predicate LateSurplus(c: Config, s: System, step: Step) {
    Surplus(c, s, step) && |LiveOutdated(s.machines, s.hash)| == 1
  }

  predicate HasSurplus(c: Config, r: Run) {
    r.After? && (HasSurplus(c, r.before) || Surplus(c, Last(r.before), r.step))
  }

  predicate HasLateSurplus(c: Config, r: Run) {
    r.After? && (HasLateSurplus(c, r.before) || LateSurplus(c, Last(r.before), r.step))
  }

  // ----- Surge ------------------------------------------------------------------------------------

  /** From k machines the control plane comes to own `replicas + 2`, if not more at the start, in exactly the runs with
      a surplus creation; in every other run it never has more than k or `replicas + 1`, whichever is more. */
  lemma {:induction false} SurgeExactlyWhen(c: Config, r: Run)
    requires c.nodeFirst && IsFreeRun(c, r) && Joined(c, First(r))
    ensures var k := |First(r).machines|;
            && Peak(r) >= k
            && if HasSurplus(c, r) then Peak(r) == Most(c, k)
               else Peak(r) <= (if k > c.replicas + 1 then k else c.replicas + 1)
  {
    if r.After? {
      hide Inv, Next;
      SurgeExactlyWhen(c, r.before);
      InvAlways(c, r.before);
      StepLevel(c, Last(r.before), r.step, r.now);
      PeakCovers(r.before);
    }
  }

  lemma {:induction false} PeakCovers(r: Run)
    ensures |Last(r).machines| <= Peak(r)
  {
  }

  lemma StepLevel(c: Config, s: System, step: Step, t: System)
    requires Inv(c, s) && Next(c, s, step, t)
    ensures step.Create? ==>
        |t.machines| <= c.replicas + 2 && (|t.machines| == c.replicas + 2 <==> Surplus(c, s, step))
    ensures !step.Create? ==> |t.machines| <= |s.machines|
  {
    hide Inv, Available, ReadStep, DispatchStep, AdoptStep, CreateStep, DeleteStep, InitialiseStep;
    if ChangesMachines(step) {
      match step
      case Create(m) => CreateLevel(c, s, m, t);
      case Delete(v) => VictimOutdated(c, s, v, t); SameKeys(s.machines, t.machines);
      case MachineGone(n) => RemovedSize(s.machines, n);
      case Initialise(m) => NeverInitialising(c, s); InitialisingFirst(c, s, m, t);
    } else {
      hide Next;
      OthersKeepMachines(c, s, step, t);
      SameKeys(s.machines, t.machines);
    }
  }

  // ----- Accounting under a fixed spec ------------------------------------------------------------

  /** The reconcile works on the current spec, and every machine being deleted is outdated. */
  predicate HashOk(s: System) {
    && (!s.phase.Idle? ==> s.local.hash == s.hash)
    && forall n | n in s.machines && s.machines[n].deleting :: !MatchesHash(s.machines[n], s.hash)
  }

  lemma SameStanding(ms: Collection, us: Collection, hash: string)
    requires us.Keys == ms.Keys && forall n | n in ms :: SameIdentity(us[n], ms[n])
    ensures Live(us) == Live(ms) && LiveOutdated(us, hash) == LiveOutdated(ms, hash)
  {
  }

  /** What each step does to the live and the live outdated machines. */
  ghost predicate Booked(s: System, step: Step, t: System) {
    var (m, o) := (|Live(s.machines)|, |LiveOutdated(s.machines, s.hash)|);
    && t.hash == s.hash && HashOk(t)
    && |Live(t.machines)| == m + (if step.Create? then 1 else 0) - (if step.Delete? then 1 else 0)
    && |LiveOutdated(t.machines, t.hash)| == o - (if step.Delete? then 1 else 0)
    && (step.Create? || step.Delete? ==> o >= 1)
  }

  lemma StillOutdated(c: Config, s: System)
    requires Inv(c, s) && HashOk(s) && PastGate(s.phase)
    ensures LiveOutdated(s.machines, s.hash) != {}
  {
    AllServe(c, s);
    var n :| n in s.local.seen && !MatchesHash(s.local.seen[n], s.local.hash);
    assert SameIdentity(s.machines[n], s.local.seen[n]);
    assert n in LiveOutdated(s.machines, s.hash);
  }

  lemma BookCreate(c: Config, s: System, m: Machine, t: System)
    requires Inv(c, s) && HashOk(s) && CreateStep(c, s, m, t)
    ensures Booked(s, Create(m), t)
  {
    StillOutdated(c, s);
    CreateStanding(s.machines, m, s.hash);
    assert t.machines == s.machines[m.name := m] && t.hash == s.hash && t.phase.Idle?;
    hide Inv, CreateStep;
  }

  lemma CreateStanding(ms: Collection, m: Machine, hash: string)
    requires m.name !in ms && MatchesHash(m, hash) && !m.deleting
    ensures |Live(ms[m.name := m])| == |Live(ms)| + 1
    ensures LiveOutdated(ms[m.name := m], hash) == LiveOutdated(ms, hash)
  {
    assert Live(ms[m.name := m]) == Live(ms) + {m.name};
  }

  lemma BookDelete(c: Config, s: System, v: string, t: System)
    requires Inv(c, s) && HashOk(s) && DeleteStep(c, s, v, t)
    ensures Booked(s, Delete(v), t)
  {
    VictimOutdated(c, s, v, t);
    AllServe(c, s);
    assert SameIdentity(s.machines[v], s.local.seen[v]);
    assert v in LiveOutdated(s.machines, s.hash) && v in Live(s.machines);
    assert Live(t.machines) == Live(s.machines) - {v};
    assert LiveOutdated(t.machines, s.hash) == LiveOutdated(s.machines, s.hash) - {v};
  }

  lemma BookOther(c: Config, s: System, step: Step, t: System)
    requires HashOk(s) && Next(c, s, step, t) && !ChangesMachines(step) && !step.SpecChanges?
    ensures Booked(s, step, t)
  {
    OthersKeepMachines(c, s, step, t);
    SameStanding(s.machines, t.machines, s.hash);
  }

  lemma BookGone(s: System, n: string, t: System)
    requires HashOk(s) && n in s.machines && s.machines[n].deleting && t == s.(machines := s.machines - {n})
    ensures Booked(s, MachineGone(n), t)
  {
    assert Live(t.machines) == Live(s.machines);
    assert LiveOutdated(t.machines, s.hash) == LiveOutdated(s.machines, s.hash);
  }

  lemma Book(c: Config, s: System, step: Step, t: System)
    requires Inv(c, s) && HashOk(s) && Next(c, s, step, t) && !step.SpecChanges?
    ensures Booked(s, step, t)
    ensures !step.Initialise?
  {
    hide Inv, Booked, HashOk;
    match step
    case Create(m) => BookCreate(c, s, m, t);
    case Delete(v) => BookDelete(c, s, v, t);
    case MachineGone(n) => BookGone(s, n, t);
    case Initialise(m) => NeverInitialising(c, s);
    case _ => BookOther(c, s, step, t);
  }

  /** Where the counts can be, from k machines with r outdated ones: after a late surplus, and without one. */
  predicate Ledger(c: Config, k: int, r: int, s: System, late: bool) {
    var m, o := |Live(s.machines)|, |LiveOutdated(s.machines, s.hash)|;
    && o <= r
    && if late then r > 0 && o <= 1 && k - r <= c.replicas && m - o == c.replicas + 1
       else (k - r <= m - o <= c.replicas || m - o == k - r)
            && (o == 0 ==> if r > 0 then m >= c.replicas else m == k)
  }

  /** The machine counts before a step. */
  predicate Levels(c: Config, s: System, step: Step) {
    && (step.Create? ==> |Live(s.machines)| <= c.replicas + 1)
    && (step.Create? ==> (Surplus(c, s, step) <==> |Live(s.machines)| == c.replicas + 1))
    && (step.Delete? ==> |Live(s.machines)| >= c.replicas + 1)
  }

  lemma AllLive(c: Config, s: System)
    requires Inv(c, s) && PastGate(s.phase)
    ensures |Live(s.machines)| == |s.machines| == |s.local.seen|
  {
    AllServe(c, s);
    assert Live(s.machines) == s.machines.Keys;
    assert |s.machines.Keys| == |s.machines|;
  }

  lemma DeleteLevel(c: Config, s: System)
    requires Inv(c, s) && s.phase.Cleared?
    ensures |s.machines| > c.replicas
  {
    AllServe(c, s);
  }

  lemma StepLevels(c: Config, s: System, step: Step, t: System)
    requires Inv(c, s) && Next(c, s, step, t)
    ensures Levels(c, s, step)
  {
    hide Inv, Live;
    if step.Create? {
      AllLive(c, s);
      CreateLevel(c, s, step.m, t);
    } else if step.Delete? {
      AllLive(c, s);
      DeleteLevel(c, s);
    }
  }

  lemma LedgerNext(c: Config, k: int, r: int, s: System, step: Step, t: System, late: bool)
    requires Booked(s, step, t) && Ledger(c, k, r, s, late) && Levels(c, s, step)
    ensures Ledger(c, k, r, t, late || LateSurplus(c, s, step))
  {
  }

  lemma JoinedLive(c: Config, s: System)
    requires Joined(c, s)
    ensures |Live(s.machines)| == |s.machines| && HashOk(s)
    ensures |LiveOutdated(s.machines, s.hash)| <= |s.machines|
  {
    assert Live(s.machines) == s.machines.Keys;
    SubsetSize(LiveOutdated(s.machines, s.hash), s.machines.Keys);
    assert |s.machines.Keys| == |s.machines|;
  }

  lemma {:induction false} LedgerAlways(c: Config, r: Run)
    requires c.nodeFirst && IsFreeRun(c, r) && Joined(c, First(r)) && FixedSpec(r)
    ensures Inv(c, Last(r)) && HashOk(Last(r))
    ensures var k, o := |First(r).machines|, |LiveOutdated(First(r).machines, First(r).hash)|;
            && Ledger(c, k, o, Last(r), HasLateSurplus(c, r))
            && Creates(r) - Deletes(r) == |Live(Last(r).machines)| - k
            && Deletes(r) == o - |LiveOutdated(Last(r).machines, Last(r).hash)|
  {
    if r.Start? {
      JoinedInv(c, r.first);
      JoinedLive(c, r.first);
    } else {
      hide Inv, Next, Ledger, HashOk, Levels, Live, LiveOutdated;
      LedgerAlways(c, r.before);
      InvNext(c, Last(r.before), r.step, r.now);
      Book(c, Last(r.before), r.step, r.now);
      StepLevels(c, Last(r.before), r.step, r.now);
      LedgerNext(c, |First(r).machines|, |LiveOutdated(First(r).machines, First(r).hash)|,
                 Last(r.before), r.step, r.now, HasLateSurplus(c, r.before));
    }
  }

  /** What is left to do: two for each live outdated machine, less the live machines there are. */
  function Measure(s: System): int {
    2 * |LiveOutdated(s.machines, s.hash)| - |Live(s.machines)|
  }

  /** The most creations and deletions an upgrade from s takes: a deletion for each outdated machine, and the creations
      that make matching machines `replicas` and one more. */
  function Bound(c: Config, s: System): nat {
    var k, o := |s.machines|, |LiveOutdated(s.machines, s.hash)|;
    o + if k <= c.replicas + o then c.replicas + 1 + o - k else 0
  }

  /** Each creation and each deletion takes exactly one off the measure, and there are at most so many of them: under a
      fixed spec no run of the upgrade goes on changing machines for ever. */
  lemma EffectiveStepsExact(c: Config, r: Run)
    requires c.nodeFirst && IsFreeRun(c, r) && Joined(c, First(r)) && FixedSpec(r)
    ensures Creates(r) + Deletes(r) == Measure(First(r)) - Measure(Last(r))
    ensures Creates(r) + Deletes(r) <= Bound(c, First(r))
  {
    LedgerAlways(c, r);
    JoinedLive(c, First(r));
  }

  /** The size an upgrade without a late surplus ends with. */
  function EndSize(c: Config, s: System): int {
    var k, o := |s.machines|, |LiveOutdated(s.machines, s.hash)|;
    if o == 0 || k - o > c.replicas then k - o else c.replicas
  }

  /** How an upgrade ends, from k joined machines of which r are outdated.  Once every owned machine matches the spec,
      it took exactly r deletions.  With something outdated there are then `replicas` machines, fewer at the start made
      up for, or the k - r that matched all along if those were more; and one machine too many exactly if a surplus
      creation happened while one outdated machine was left.  With nothing outdated there are still k. */
  lemma UpgradeEnds(c: Config, r: Run)
    requires c.nodeFirst && IsFreeRun(c, r) && Joined(c, First(r)) && FixedSpec(r)
    requires Complete(Last(r))
    ensures var k, outdated := |First(r).machines|, |LiveOutdated(First(r).machines, First(r).hash)|;
            var late := if HasLateSurplus(c, r) then 1 else 0;
            var end := EndSize(c, First(r));
            && |Last(r).machines| == end + late
            && Deletes(r) == outdated
            && Creates(r) == end + late + outdated - k
  {
    LedgerAlways(c, r);
    CompleteLive(Last(r));
    hide Inv, HashOk, Complete, Live, LiveOutdated, IsFreeRun, FixedSpec, Joined, Creates, Deletes, HasLateSurplus;
  }

  // ----- No surplus among the first machines ------------------------------------------------------

  predicate LiveJoined(ms: Collection) {
    forall n | n in ms && !ms[n].deleting :: ms[n].nodeRef.Some?
  }

  /** While nothing has been created every live machine has a node, and was counted if it was listed. */
  predicate Untouched(s: System) {
    LiveJoined(s.machines)
    && (PastCount(s.phase) && !HasDeletingMachine(s.local.seen) ==> s.local.nodes >= |s.local.seen|)
  }

  lemma LiveJoinedNext(c: Config, s: System, step: Step, t: System)
    requires Next(c, s, step, t) && LiveJoined(s.machines) && !step.Create? && !step.Initialise?
    ensures LiveJoined(t.machines)
  {
    if !ChangesMachines(step) {
      OthersKeepMachines(c, s, step, t);
      OthersStayAvailable(c, s, step, t);
      hide Next;
      forall n | n in t.machines && !t.machines[n].deleting ensures t.machines[n].nodeRef.Some? {
        assert !s.machines[n].deleting && n in Available(s.machines);
      }
    }
  }

  lemma UntouchedCount(c: Config, s: System)
    requires Inv(c, s) && s.phase.Listed? && Untouched(s) && !HasDeletingMachine(s.local.seen)
    ensures |s.nodeOf.Values| == |s.local.seen|
  {
    SameSize(s.local.seen, s.machines);
    forall n | n in s.machines ensures n in Available(s.machines) {
      assert SameIdentity(s.machines[n], s.local.seen[n]);
    }
    assert Available(s.machines) == s.machines.Keys;
    NodeCount(s.machines, s.nodeOf);
  }

  lemma UntouchedNext(c: Config, s: System, step: Step, t: System)
    requires Inv(c, s) && Next(c, s, step, t) && Untouched(s) && !step.Create?
    ensures Untouched(t)
  {
    NeverInitialising(c, s);
    hide Inv, LiveJoined, HasDeletingMachine, EnvironmentStep;
    LiveJoinedNext(c, s, step, t);
    if step.Status? {
      if !HasDeletingMachine(s.local.seen) {
        UntouchedCount(c, s);
      }
    } else if PastCount(t.phase) {
      CountKept(c, s, step, t);
      hide Next;
    }
  }

  lemma {:induction false} UntouchedAlways(c: Config, r: Run)
    requires c.nodeFirst && IsFreeRun(c, r) && Joined(c, First(r)) && Creates(r) == 0
    ensures Untouched(Last(r))
  {
    if r.After? {
      hide Inv, Next, Untouched;
      UntouchedAlways(c, r.before);
      InvAlways(c, r.before);
      UntouchedNext(c, Last(r.before), r.step, r.now);
    }
  }

  lemma UntouchedNoSurplus(c: Config, s: System, step: Step, t: System)
    requires Inv(c, s) && Untouched(s) && Next(c, s, step, t) && step.Create?
    ensures !Surplus(c, s, step)
  {
    CreateLevel(c, s, step.m, t);
  }

  lemma LateLevel(c: Config, s: System, step: Step)
    requires Levels(c, s, step) && LateSurplus(c, s, step)
    ensures Surplus(c, s, step) && |Live(s.machines)| - |LiveOutdated(s.machines, s.hash)| == c.replicas
  {
  }

  /** A late surplus takes a creation before it, so the machines that matched at the start were fewer than `replicas`.
      */
  lemma {:induction false} LateNeedsRoom(c: Config, r: Run)
    requires c.nodeFirst && IsFreeRun(c, r) && Joined(c, First(r)) && FixedSpec(r) && HasLateSurplus(c, r)
    ensures |First(r).machines| - |LiveOutdated(First(r).machines, First(r).hash)| < c.replicas
  {
    hide Inv, Next, Joined, Ledger, HashOk, Live, LiveOutdated, Levels, LateSurplus, Untouched;
    if HasLateSurplus(c, r.before) {
      LateNeedsRoom(c, r.before);
    } else {
      LedgerAlways(c, r.before);
      StepLevels(c, Last(r.before), r.step, r.now);
      LateLevel(c, Last(r.before), r.step);
      if Creates(r.before) == 0 {
        UntouchedAlways(c, r.before);
        UntouchedNoSurplus(c, Last(r.before), r.step, r.now);
      }
    }
  }

  lemma CompleteLive(s: System)
    requires Complete(s) && HashOk(s)
    ensures |Live(s.machines)| == |s.machines| && LiveOutdated(s.machines, s.hash) == {}
  {
    assert Live(s.machines) == s.machines.Keys;
    assert |s.machines.Keys| == |s.machines|;
  }

  /** Once complete, nothing is created or marked any more: the outcome, a machine too many included, stays. */
  lemma CompleteIsFinal(c: Config, s: System, step: Step, t: System)
    requires c.nodeFirst && Inv(c, s) && HashOk(s) && Complete(s) && Next(c, s, step, t) && !step.SpecChanges?
    ensures !step.Create? && !step.Delete? && !step.Initialise?
    ensures Complete(t) && t.machines.Keys == s.machines.Keys
  {
    Book(c, s, step, t);
    assert LiveOutdated(s.machines, s.hash) == {};
    if !ChangesMachines(step) {
      OthersKeepMachines(c, s, step, t);
    }
  }

  // ----- Inevitable completion --------------------------------------------------------------------

  /** Reconciles that found nothing to do. */
  function Rests(r: Run): nat {
    if r.Start? then 0 else Rests(r.before) + if r.step.Dispatch? && r.now.phase.Idle? then 1 else 0
  }

  /** Reconciles that listed the machines and ended without an error: by creating or deleting one, or by finding nothing
      to do. */
  function Finished(r: Run): nat {
    Creates(r) + Deletes(r) + Rests(r)
  }

  lemma RestsWhenComplete(c: Config, s: System, t: System)
    requires Inv(c, s) && HashOk(s) && DispatchStep(c, s, t) && t.phase.Idle?
    ensures Complete(s) && t.machines == s.machines && t.hash == s.hash
  {
    forall n | n in s.machines ensures MatchesHash(s.machines[n], s.hash) {
      assert n in s.local.seen && SameIdentity(s.machines[n], s.local.seen[n]);
    }
  }

  lemma {:induction false} RestedIsComplete(c: Config, r: Run)
    requires c.nodeFirst && IsFreeRun(c, r) && Joined(c, First(r)) && FixedSpec(r)
    ensures Rests(r) > 0 ==> Complete(Last(r))
  {
    if r.After? {
      hide Inv, Ledger, HashOk, Complete, DispatchStep;
      RestedIsComplete(c, r.before);
      LedgerAlways(c, r.before);
      if r.step.Dispatch? && r.now.phase.Idle? {
        RestsWhenComplete(c, Last(r.before), r.now);
        SameComplete(Last(r.before), r.now);
      } else if Rests(r.before) > 0 {
        CompleteIsFinal(c, Last(r.before), r.step, r.now);
      }
    }
  }

  lemma SameComplete(s: System, t: System)
    requires t.machines == s.machines && t.hash == s.hash && Complete(s)
    ensures Complete(t)
  {
  }

  /** Completion is inevitable: every run under a fixed spec in which more reconciles have got past the list of machines
      and ended without an error than an upgrade has creations and deletions at most is complete, whatever failed or
      happened in between. */
  lemma CompleteAfterEnough(c: Config, r: Run)
    requires c.nodeFirst && IsFreeRun(c, r) && Joined(c, First(r)) && FixedSpec(r)
    requires Finished(r) > Bound(c, First(r))
    ensures Complete(Last(r))
  {
    hide Complete, IsFreeRun, FixedSpec, Creates, Deletes, Rests, Bound;
    RestedIsComplete(c, r);
    EffectiveStepsExact(c, r);
  }

  // ----- Atomic reconciles ------------------------------------------------------------------------

  /** The environment acts only between reconciles. */
  predicate AtomicReconciles(r: Run) {
    r.After? ==> AtomicReconciles(r.before) && (IsEnvironment(r.step) ==> Last(r.before).phase.Idle?)
  }

  predicate Undisturbed(s: System) {
    && (s.phase.Owning? || s.phase.Listed? || PastCount(s.phase) ==> s.local.seen == s.machines)
    && (PastCount(s.phase) ==> s.local.nodes == |s.nodeOf.Values|)
  }

  lemma UndisturbedRead(c: Config, s: System, step: Step, t: System)
    requires Undisturbed(s) && ReadStep(c, s, step, t)
    ensures Undisturbed(t)
  {
    assert t.machines == s.machines && t.nodeOf == s.nodeOf;
  }

  lemma UndisturbedNext(c: Config, s: System, step: Step, t: System)
    requires Undisturbed(s) && Next(c, s, step, t) && (IsEnvironment(step) ==> s.phase.Idle?)
    ensures Undisturbed(t)
  {
    match step
    case Adopt(n) => assert t.local.seen == t.machines;
    case Dispatch => assert t.machines == s.machines && t.nodeOf == s.nodeOf;
    case Create(m) =>
    case Delete(v) =>
    case Initialise(m) =>
    case NodeJoins(n, x) =>
    case RefSet(n) =>
    case NodeLeaves(n) =>
    case MachineGone(n) =>
    case SpecChanges(h) =>
    case _ => hide Undisturbed; UndisturbedRead(c, s, step, t);
  }

  lemma UndisturbedCreate(c: Config, s: System, step: Step, t: System)
    requires Inv(c, s) && Undisturbed(s) && Next(c, s, step, t) && step.Create?
    ensures !Surplus(c, s, step)
  {
    AllServe(c, s);
    NodeCount(s.machines, s.nodeOf);
  }

  /** Undisturbed reconciles count the node of every machine they create beside. */
  lemma {:induction false} AtomicNeverSurplus(c: Config, r: Run)
    requires c.nodeFirst && IsFreeRun(c, r) && Joined(c, First(r)) && AtomicReconciles(r)
    ensures Undisturbed(Last(r)) && !HasSurplus(c, r)
  {
    if r.After? {
      hide Inv, Next, Undisturbed;
      AtomicNeverSurplus(c, r.before);
      UndisturbedNext(c, Last(r.before), r.step, r.now);
      if Surplus(c, Last(r.before), r.step) {
        InvAlways(c, r.before);
        UndisturbedCreate(c, Last(r.before), r.step, r.now);
      }
    }
  }

  /** With atomic reconciles the surge is one, and under a fixed spec a complete upgrade of some of k machines is at
      `replicas`, or at the machines that matched all along if those were more. */
  lemma AtomicUpgrade(c: Config, r: Run)
    requires c.nodeFirst && IsFreeRun(c, r) && Joined(c, First(r)) && AtomicReconciles(r)
    ensures Peak(r) <= (if |First(r).machines| > c.replicas then |First(r).machines| else c.replicas + 1)
    ensures FixedSpec(r) && Complete(Last(r)) ==>
              var k, outdated := |First(r).machines|, |LiveOutdated(First(r).machines, First(r).hash)|;
              var end := EndSize(c, First(r));
              |Last(r).machines| == end && Deletes(r) == outdated && Creates(r) == end + outdated - k
  {
    AtomicNeverSurplus(c, r);
    SurgeExactlyWhen(c, r);
    hide Peak;
    if FixedSpec(r) && Complete(Last(r)) {
      UpgradeEnds(c, r);
      LateIsSurplus(c, r);
    }
  }

  lemma {:induction false} LateIsSurplus(c: Config, r: Run)
    ensures HasLateSurplus(c, r) ==> HasSurplus(c, r)
  {
    if r.After? {
      LateIsSurplus(c, r.before);
    }
  }
}
