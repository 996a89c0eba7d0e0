/** What every interleaving of the rolling upgrade keeps. */
module UpgradeSafety {
  import opened Wrappers
  import opened Runs
  import opened Finite
  import opened Machines
  import opened FailureDomains
  import opened Health
  import opened RollingUpgrade

  /** The same machine but for what joins and adoptions change. */
  predicate SameIdentity(a: Machine, b: Machine) {
    && a.name == b.name && a.hash == b.hash && a.failureDomain == b.failureDomain
    && a.created == b.created && a.deleting == b.deleting
  }

  /** The list a reconcile works from is still right about everything but joins: no machine was added or marked
      since, and only machines that were already being deleted can have gone. */
  predicate Tracks(seen: Collection, ms: Collection) {
    && ms.Keys <= seen.Keys
    && (forall n | n in ms :: SameIdentity(ms[n], seen[n]))
    && forall n | n in seen && !seen[n].deleting :: n in ms
  }

  predicate NodesOk(ms: Collection, nodeOf: map<string, string>) {
    && nodeOf.Keys <= ms.Keys && DistinctNodes(nodeOf)
    && forall n | n in ms && !ms[n].deleting && ms[n].nodeRef.Some? :: n in nodeOf && ms[n].nodeRef == Some(nodeOf[n])
  }

  /** Some machine serves, if any is wanted, and at most one does not: it is either being deleted or has no node yet. */
  predicate CountsOk(c: Config, ms: Collection) {
    && (|Available(ms)| >= 1 || c.replicas == 0)
    && |ms.Keys - Available(ms)| <= 1
  }

  /** From k machines, at least this many serve at any time. */
  function Least(c: Config, k: nat): nat {
    if k < c.replicas then k else c.replicas
  }

  /** And at most this many are owned. */
  function Most(c: Config, k: nat): nat {
    if k > c.replicas + 2 then k else c.replicas + 2
  }

  predicate Sizes(c: Config, k: nat, ms: Collection) {
    |Available(ms)| >= Least(c, k) && |ms| <= Most(c, k)
  }

  predicate AllJoined(ms: Collection) {
    forall n | n in ms :: ms[n].nodeRef.Some?
  }

  predicate PastGate(p: Phase) {
    p.Healthy? || p.NodesReread? || p.Cleared?
  }

  predicate PastCount(p: Phase) {
    p.Counted? || p.NodesRead? || PastGate(p)
  }

  /** After ClusterStatus: if nothing listed was being deleted, at most one listed machine had no node yet. */
  predicate LocalOk(c: Config, p: Phase, l: Local) {
    && !p.Initialising?
    && (PastCount(p) && !HasDeletingMachine(l.seen) ==> |l.seen| - 1 <= l.nodes <= |l.seen|)
    && (p.Listed? || PastCount(p) ==> AnyOutdated(l.seen, l.hash))
    && (PastGate(p) ==> !HasDeletingMachine(l.seen))
    && (p.NodesReread? || p.Cleared? ==> l.nodes > c.replicas)
  }

  predicate SeenOk(p: Phase, l: Local, ms: Collection) {
    && (p.Owning? || p.Listed? || PastCount(p) ==> Tracks(l.seen, ms))
    && (PastGate(p) ==> AllJoined(ms))
  }

  predicate Inv(c: Config, s: System) {
    && Keyed(s.machines)
    && NodesOk(s.machines, s.nodeOf)
    && CountsOk(c, s.machines)
    && LocalOk(c, s.phase, s.local)
    && SeenOk(s.phase, s.local, s.machines)
  }

  lemma NodeCount(ms: Collection, nodeOf: map<string, string>)
    requires NodesOk(ms, nodeOf)
    ensures |Available(ms)| <= |nodeOf.Values| <= |ms|
    ensures Available(ms) == ms.Keys ==> |nodeOf.Values| == |ms|
  {
    ImageSize(nodeOf.Keys, nodeOf.Values, nodeOf);
    SubsetSize(Available(ms), nodeOf.Keys);
    SubsetSize(nodeOf.Keys, ms.Keys);
    assert |ms.Keys| == |ms|;
  }

  lemma Split(ms: Collection)
    ensures |ms| == |Available(ms)| + |ms.Keys - Available(ms)|
  {
    assert ms.Keys == Available(ms) + (ms.Keys - Available(ms));
    assert |ms.Keys| == |ms|;
  }

  lemma SameSize(seen: Collection, ms: Collection)
    requires Tracks(seen, ms)
    ensures |ms| <= |seen|
    ensures !HasDeletingMachine(seen) ==> seen.Keys == ms.Keys && |seen| == |ms|
  {
    SubsetSize(ms.Keys, seen.Keys);
    assert |seen.Keys| == |seen| && |ms.Keys| == |ms|;
    if !HasDeletingMachine(seen) {
      forall n | n in seen ensures n in ms { assert !seen[n].deleting; }
    }
  }

  lemma JoinedInv(c: Config, s: System)
    requires Joined(c, s)
    ensures Inv(c, s) && Sizes(c, |s.machines|, s.machines)
  {
    assert Available(s.machines) == s.machines.Keys;
    Split(s.machines);
  }

  /** Past the gate every owned machine serves, and the list and the node count are as good as current. */
  lemma AllServe(c: Config, s: System)
    requires Inv(c, s) && PastGate(s.phase)
    ensures Available(s.machines) == s.machines.Keys == s.local.seen.Keys
    ensures |s.local.seen| == |s.machines| && |s.machines| - 1 <= s.local.nodes <= |s.machines|
    ensures |Available(s.machines)| == |s.machines|
    ensures Tracks(s.local.seen, s.machines)
  {
    SameSize(s.local.seen, s.machines);
    forall n | n in s.machines ensures n in Available(s.machines) {
      assert !s.local.seen[n].deleting;
    }
    assert Available(s.machines) == s.machines.Keys;
    assert |s.machines.Keys| == |s.machines|;
  }

  lemma StatusReads(c: Config, s: System)
    requires Inv(c, s) && s.phase.Listed?
    ensures !HasDeletingMachine(s.local.seen) ==> |s.local.seen| - 1 <= |s.nodeOf.Values| <= |s.local.seen|
  {
    NodeCount(s.machines, s.nodeOf);
    Split(s.machines);
    SameSize(s.local.seen, s.machines);
  }

  /** The machines and nodes unchanged, only what the reconcile knows is in question. */
  lemma Moves(c: Config, s: System, t: System)
    requires Inv(c, s) && t.machines == s.machines && t.nodeOf == s.nodeOf
    requires LocalOk(c, t.phase, t.local) && SeenOk(t.phase, t.local, s.machines)
    ensures Inv(c, t)
  {
  }

  lemma InvBegin(c: Config, s: System, step: Step, t: System)
    requires Inv(c, s) && ReadStep(c, s, step, t) && (step.Begin? || step.List? || step.GiveUp?)
    ensures Inv(c, t)
  {
    Moves(c, s, t);
  }

  lemma InvStatus(c: Config, s: System, t: System)
    requires Inv(c, s) && ReadStep(c, s, Status, t)
    ensures Inv(c, t)
  {
    StatusReads(c, s);
    Moves(c, s, t);
  }

  lemma InvCheck(c: Config, s: System, step: Step, t: System)
    requires Inv(c, s) && ReadStep(c, s, step, t) && (step.CheckNodes? || step.Recheck? || step.Rematch?)
    ensures Inv(c, t)
  {
    assert t.local.seen == s.local.seen && t.local.hash == s.local.hash && t.local.nodes == s.local.nodes;
    Moves(c, s, t);
  }

  lemma InvMatch(c: Config, s: System, t: System)
    requires Inv(c, s) && ReadStep(c, s, MatchMachines, t)
    ensures Inv(c, t)
  {
    assert AllJoined(s.machines);
    assert t.local == s.local;
    Moves(c, s, t);
  }

  lemma ListedSize(c: Config, s: System)
    requires Inv(c, s) && s.phase.Owning?
    ensures |s.local.seen| >= 1 || c.replicas == 0
  {
    Split(s.machines);
    SameSize(s.local.seen, s.machines);
  }

  lemma InvDispatch(c: Config, s: System, t: System)
    requires Inv(c, s) && DispatchStep(c, s, t)
    ensures Inv(c, t)
  {
    ListedSize(c, s);
    assert t.local.seen == s.local.seen && t.local.hash == s.local.hash;
    Moves(c, s, t);
  }

  lemma AdoptTracks(c: Config, seen: Collection, ms: Collection, n: string)
    requires Tracks(seen, ms)
    ensures Tracks(Adopted(c, seen, n), Adopted(c, ms, n))
    ensures !HasDeletingMachine(seen) ==> !HasDeletingMachine(Adopted(c, seen, n))
  {
  }

  /** Changing one machine's node reference or owner. */
  lemma EditKeeps(c: Config, ms: Collection, n: string, m: Machine)
    requires n in ms && SameIdentity(m, ms[n]) && (ms[n].nodeRef.Some? ==> m.nodeRef.Some?)
    requires Keyed(ms) && CountsOk(c, ms)
    ensures Keyed(ms[n := m]) && CountsOk(c, ms[n := m])
    ensures AllJoined(ms) ==> AllJoined(ms[n := m])
  {
    var us := ms[n := m];
    assert us.Keys == ms.Keys;
    assert Available(ms) <= Available(us);
    SubsetSize(Available(ms), Available(us));
    SubsetSize(us.Keys - Available(us), ms.Keys - Available(ms));
    assert |us.Keys| == |us| && |ms.Keys| == |ms|;
  }

  lemma EditNodes(ms: Collection, nodeOf: map<string, string>, n: string, m: Machine)
    requires NodesOk(ms, nodeOf) && n in ms && m.deleting == ms[n].deleting
    requires m.nodeRef == ms[n].nodeRef || (n in nodeOf && m.nodeRef == Some(nodeOf[n]))
    ensures NodesOk(ms[n := m], nodeOf)
  {
  }

  lemma AdoptKeeps(c: Config, s: System, n: string)
    requires Inv(c, s)
    ensures var us := Adopted(c, s.machines, n); Keyed(us) && CountsOk(c, us) && NodesOk(us, s.nodeOf)
  {
    if n in s.machines {
      var m := s.machines[n].(controller := Some(Owner(c)));
      EditKeeps(c, s.machines, n, m);
      EditNodes(s.machines, s.nodeOf, n, m);
    }
  }

  lemma InvAdopt(c: Config, s: System, n: string, t: System)
    requires Inv(c, s) && AdoptStep(c, s, n, t)
    ensures Inv(c, t)
  {
    AdoptKeeps(c, s, n);
    AdoptTracks(c, s.local.seen, s.machines, n);
    Together(c, t);
  }

  lemma Together(c: Config, t: System)
    requires Keyed(t.machines) && NodesOk(t.machines, t.nodeOf) && CountsOk(c, t.machines)
    requires t.phase.Idle? || (t.phase.Owning? && Tracks(t.local.seen, t.machines))
    ensures Inv(c, t)
  {
    hide NodesOk, CountsOk, Keyed, Tracks;
  }

  lemma CreateKeeps(c: Config, ms: Collection, nodeOf: map<string, string>, m: Machine)
    requires m.name !in ms && m.nodeRef.None?
    requires Available(ms) == ms.Keys && CountsOk(c, ms)
    requires Keyed(ms) && NodesOk(ms, nodeOf)
    ensures var us := ms[m.name := m];
            Keyed(us) && NodesOk(us, nodeOf) && CountsOk(c, us)
  {
    var us := ms[m.name := m];
    assert us.Keys == ms.Keys + {m.name};
    assert Available(us) == Available(ms);
    assert us.Keys - Available(us) == {m.name};
  }

  lemma InvCreate(c: Config, s: System, m: Machine, t: System)
    requires Inv(c, s) && CreateStep(c, s, m, t)
    ensures Inv(c, t)
  {
    AllServe(c, s);
    CreateKeeps(c, s.machines, s.nodeOf, m);
    assert t.nodeOf == s.nodeOf && t.machines == s.machines[m.name := m];
    Together(c, t);
  }

  /** A creation with more than `replicas` machines listed: the node of one of them was not counted. */
  predicate Surplus(c: Config, s: System, step: Step) {
    step.Create? && |s.local.seen| > c.replicas
  }

  /** A creation takes the control plane to at most `replicas + 2`, and there exactly when it is a surplus one: the node
      count it was decided on was `replicas`, one below the number of machines listed, because a machine had no node at
      ClusterStatus but joined before the health check. */
  lemma CreateLevel(c: Config, s: System, m: Machine, t: System)
    requires Inv(c, s) && CreateStep(c, s, m, t)
    ensures |t.machines| == |s.machines| + 1 <= c.replicas + 2
    ensures |t.machines| == c.replicas + 2 <==> Surplus(c, s, Create(m))
    ensures Surplus(c, s, Create(m)) <==> s.local.nodes == c.replicas < |s.local.seen|
  {
    AllServe(c, s);
    assert s.local.nodes <= c.replicas;
    hide Inv, Available;
    AddedSize(s.machines, m.name, m);
  }

  lemma DeleteKeeps(c: Config, ms: Collection, nodeOf: map<string, string>, v: string)
    requires v in ms && Available(ms) == ms.Keys && |ms| > c.replicas
    requires NodesOk(ms, nodeOf)
    ensures CountsOk(c, MarkDeleting(ms, v)) && NodesOk(MarkDeleting(ms, v), nodeOf)
  {
    var us := MarkDeleting(ms, v);
    assert us.Keys == ms.Keys;
    assert Available(us) == Available(ms) - {v};
    assert us.Keys - Available(us) == {v};
    assert |us.Keys| == |us| && |ms.Keys| == |ms|;
  }

  lemma VictimOutdated(c: Config, s: System, v: string, t: System)
    requires Inv(c, s) && DeleteStep(c, s, v, t)
    ensures v in s.machines && SameIdentity(s.machines[v], s.local.seen[v]) && !MatchesHash(s.machines[v], s.local.hash)
    ensures t.machines == s.machines[v := s.machines[v].(deleting := true)]
  {
    AllServe(c, s);
  }

  lemma InvDelete(c: Config, s: System, v: string, t: System)
    requires Inv(c, s) && DeleteStep(c, s, v, t)
    ensures Inv(c, t)
  {
    AllServe(c, s);
    DeleteKeeps(c, s.machines, s.nodeOf, v);
    assert t.nodeOf == s.nodeOf && t.machines == MarkDeleting(s.machines, v) && Keyed(t.machines);
    Together(c, t);
  }

  lemma GoneKeeps(c: Config, ms: Collection, n: string)
    requires n in ms && ms[n].deleting && CountsOk(c, ms)
    ensures CountsOk(c, ms - {n})
  {
    var us := ms - {n};
    assert us.Keys == ms.Keys - {n};
    assert Available(us) == Available(ms);
    SubsetSize(us.Keys - Available(us), ms.Keys - Available(ms));
    assert |us.Keys| == |us| && |ms.Keys| == |ms|;
  }

  lemma InvNodes(c: Config, s: System, step: Step, t: System)
    requires Inv(c, s) && EnvironmentStep(c, s, step, t) && (step.NodeJoins? || step.NodeLeaves? || step.SpecChanges?)
    ensures Inv(c, t)
  {
    assert t.machines == s.machines;
    assert NodesOk(s.machines, t.nodeOf);
  }

  lemma EditTracks(seen: Collection, ms: Collection, n: string, m: Machine)
    requires Tracks(seen, ms) && n in ms && SameIdentity(m, ms[n])
    ensures Tracks(seen, ms[n := m])
  {
  }

  lemma RefSetIs(c: Config, s: System, n: string, t: System)
    requires EnvironmentStep(c, s, RefSet(n), t)
    ensures n in s.machines && n in s.nodeOf && s.machines[n].nodeRef.None?
    ensures t == s.(machines := s.machines[n := s.machines[n].(nodeRef := Some(s.nodeOf[n]))])
  {
  }

  lemma InvRefSet(c: Config, s: System, n: string, t: System)
    requires Inv(c, s) && EnvironmentStep(c, s, RefSet(n), t)
    ensures Inv(c, t)
  {
    RefSetIs(c, s, n, t);
    hide EnvironmentStep, NodesOk, CountsOk, Keyed, Tracks, AllJoined, LocalOk;
    EditKeeps(c, s.machines, n, t.machines[n]);
    EditNodes(s.machines, s.nodeOf, n, t.machines[n]);
    if Tracks(s.local.seen, s.machines) {
      EditTracks(s.local.seen, s.machines, n, t.machines[n]);
    }
  }

  lemma InvGone(c: Config, s: System, n: string, t: System)
    requires c.nodeFirst && Inv(c, s) && EnvironmentStep(c, s, MachineGone(n), t)
    ensures Inv(c, t)
  {
    assert t.nodeOf == s.nodeOf && t.machines == s.machines - {n};
    GoneKeeps(c, s.machines, n);
  }

  lemma NeverInitialising(c: Config, s: System)
    requires Inv(c, s)
    ensures !s.phase.Initialising?
  {
  }

  lemma InvNext(c: Config, s: System, step: Step, t: System)
    requires c.nodeFirst && Inv(c, s) && Next(c, s, step, t)
    ensures Inv(c, t)
  {
    hide Inv;
    if IsEnvironment(step) {
      match step
      case RefSet(n) => InvRefSet(c, s, n, t);
      case MachineGone(n) => InvGone(c, s, n, t);
      case _ => InvNodes(c, s, step, t);
    } else {
      match step
      case Create(m) => InvCreate(c, s, m, t);
      case Delete(v) => InvDelete(c, s, v, t);
      case Adopt(n) => InvAdopt(c, s, n, t);
      case Dispatch => InvDispatch(c, s, t);
      case Initialise(m) => NeverInitialising(c, s);
      case Status => InvStatus(c, s, t);
      case MatchMachines => InvMatch(c, s, t);
      case CheckNodes => InvCheck(c, s, step, t);
      case Recheck => InvCheck(c, s, step, t);
      case Rematch => InvCheck(c, s, step, t);
      case _ => InvBegin(c, s, step, t);
    }
  }

  lemma {:induction false} InvAlways(c: Config, r: Run)
    requires c.nodeFirst && IsFreeRun(c, r) && Joined(c, First(r))
    ensures Inv(c, Last(r))
  {
    if r.Start? {
      JoinedInv(c, r.first);
    } else {
      hide Inv, Next;
      InvAlways(c, r.before);
      InvNext(c, Last(r.before), r.step, r.now);
    }
  }

  predicate ChangesMachines(step: Step) {
    step.Create? || step.Delete? || step.Initialise? || step.MachineGone?
  }

  lemma OthersKeepIdentity(c: Config, s: System, step: Step, t: System)
    requires Next(c, s, step, t) && !ChangesMachines(step)
    ensures t.machines.Keys == s.machines.Keys
    ensures forall n | n in s.machines :: SameIdentity(t.machines[n], s.machines[n])
  {
    hide ReadStep, DispatchStep;
    if !step.Adopt? && !step.RefSet? {
      OthersKeepAll(c, s, step, t);
    }
  }

  lemma OthersKeepAll(c: Config, s: System, step: Step, t: System)
    requires Next(c, s, step, t) && !ChangesMachines(step) && !step.Adopt? && !step.RefSet?
    ensures t.machines == s.machines
  {
    hide Matched, HasDeletingMachine, AnyOutdated;
  }

  lemma OthersKeepSpec(c: Config, s: System, step: Step, t: System)
    requires Next(c, s, step, t) && !ChangesMachines(step)
    ensures !step.SpecChanges? ==>
        t.hash == s.hash && (t.phase.Idle? || (t.local.hash == if step.Begin? then s.hash else s.local.hash))
    ensures !step.Begin? && s.phase.Idle? ==> t.phase.Idle?
  {
    hide Matched, HasDeletingMachine, AnyOutdated, Adopted;
  }

  lemma OthersKeepMachines(c: Config, s: System, step: Step, t: System)
    requires Next(c, s, step, t) && !ChangesMachines(step)
    ensures t.machines.Keys == s.machines.Keys
    ensures forall n | n in s.machines :: SameIdentity(t.machines[n], s.machines[n])
    ensures !step.SpecChanges? ==>
        t.hash == s.hash && (t.phase.Idle? || (t.local.hash == if step.Begin? then s.hash else s.local.hash))
    ensures !step.Begin? && s.phase.Idle? ==> t.phase.Idle?
  {
    hide Next;
    OthersKeepIdentity(c, s, step, t);
    OthersKeepSpec(c, s, step, t);
  }

  lemma OthersStayAvailable(c: Config, s: System, step: Step, t: System)
    requires Next(c, s, step, t) && !ChangesMachines(step)
    ensures Available(s.machines) <= Available(t.machines)
  {
    hide ReadStep, DispatchStep;
    if !step.Adopt? && !step.RefSet? {
      OthersKeepAll(c, s, step, t);
    }
  }

  lemma SizesCreate(c: Config, k: nat, s: System, m: Machine, t: System)
    requires Inv(c, s) && CreateStep(c, s, m, t) && Sizes(c, k, s.machines)
    ensures Sizes(c, k, t.machines)
  {
    CreateLevel(c, s, m, t);
    hide Inv, Available, Sizes;
    SizesAdd(c, k, s.machines, m);
  }

  lemma SizesAdd(c: Config, k: nat, ms: Collection, m: Machine)
    requires m.name !in ms && m.nodeRef.None? && |ms[m.name := m]| <= c.replicas + 2 && Sizes(c, k, ms)
    ensures Sizes(c, k, ms[m.name := m])
  {
    assert Available(ms[m.name := m]) == Available(ms);
  }

  lemma SizesDelete(c: Config, k: nat, s: System, v: string, t: System)
    requires Inv(c, s) && DeleteStep(c, s, v, t) && Sizes(c, k, s.machines)
    ensures Sizes(c, k, t.machines)
  {
    AllServe(c, s);
    assert Available(t.machines) == Available(s.machines) - {v};
    SameKeys(s.machines, t.machines);
  }

  lemma SizesGone(c: Config, k: nat, ms: Collection, n: string)
    requires n in ms && ms[n].deleting && Sizes(c, k, ms)
    ensures Sizes(c, k, ms - {n})
  {
    assert Available(ms - {n}) == Available(ms);
    RemovedSize(ms, n);
  }

  lemma SizesOther(c: Config, k: nat, s: System, step: Step, t: System)
    requires Next(c, s, step, t) && !ChangesMachines(step) && Sizes(c, k, s.machines)
    ensures Sizes(c, k, t.machines)
  {
    hide Next, Available;
    OthersKeepMachines(c, s, step, t);
    OthersStayAvailable(c, s, step, t);
    SubsetSize(Available(s.machines), Available(t.machines));
    SameKeys(s.machines, t.machines);
  }

  lemma SizesNext(c: Config, k: nat, s: System, step: Step, t: System)
    requires Inv(c, s) && Next(c, s, step, t) && Sizes(c, k, s.machines)
    ensures Sizes(c, k, t.machines)
  {
    hide Inv, Sizes, ReadStep, DispatchStep, AdoptStep, CreateStep, DeleteStep, InitialiseStep;
    if ChangesMachines(step) {
      match step
      case Create(m) => SizesCreate(c, k, s, m, t);
      case Delete(v) => SizesDelete(c, k, s, v, t);
      case MachineGone(n) => SizesGone(c, k, s.machines, n);
      case Initialise(m) => NeverInitialising(c, s); InitialisingFirst(c, s, m, t);
    } else {
      hide Next;
      SizesOther(c, k, s, step, t);
    }
  }

  lemma InitialisingFirst(c: Config, s: System, m: Machine, t: System)
    requires InitialiseStep(c, s, m, t)
    ensures s.phase.Initialising?
  {
  }

  /** The node count is no less than the machines that serve at any time. */
  predicate Counted(c: Config, k: nat, s: System) {
    PastCount(s.phase) ==> s.local.nodes >= Least(c, k)
  }

  lemma CountKept(c: Config, s: System, step: Step, t: System)
    requires Next(c, s, step, t) && !step.Status? && PastCount(t.phase)
    ensures PastCount(s.phase) && t.local.seen == s.local.seen && t.local.nodes == s.local.nodes
  {
    hide Matched, HasDeletingMachine, AnyOutdated;
  }

  lemma CountedNext(c: Config, k: nat, s: System, step: Step, t: System)
    requires Inv(c, s) && Next(c, s, step, t) && Sizes(c, k, s.machines) && Counted(c, k, s)
    ensures Counted(c, k, t)
  {
    hide Available;
    if step.Status? {
      assert NodesOk(s.machines, s.nodeOf);
      hide Inv, NodesOk;
      NodeCount(s.machines, s.nodeOf);
    } else if PastCount(t.phase) {
      CountKept(c, s, step, t);
      hide Next, Inv, Sizes;
    }
  }

  lemma {:induction false} SizesAlways(c: Config, r: Run)
    requires c.nodeFirst && IsFreeRun(c, r) && Joined(c, First(r))
    ensures Sizes(c, |First(r).machines|, Last(r).machines) && Counted(c, |First(r).machines|, Last(r))
  {
    if r.Start? {
      JoinedInv(c, r.first);
    } else {
      hide Inv, Next, Sizes, Counted;
      SizesAlways(c, r.before);
      InvAlways(c, r.before);
      CountedNext(c, |First(r).machines|, Last(r.before), r.step, r.now);
      SizesNext(c, |First(r).machines|, Last(r.before), r.step, r.now);
    }
  }

  function Deleting(ms: Collection): set<string> {
    set n | n in ms && ms[n].deleting
  }

  /** Main safety theorem: every run from k joined machines, with joins, departures and spec edits between any two reads
      and whatever victims are chosen, leaves at least k or `replicas` machines serving, whichever is less, at most k or
      `replicas + 2` owned, whichever is more, and at most one being deleted. */
  lemma AvailabilityAndSurge(c: Config, r: Run)
    requires c.nodeFirst && IsFreeRun(c, r) && Joined(c, First(r))
    ensures var k := |First(r).machines|;
            && |Available(Last(r).machines)| >= (if k < c.replicas then k else c.replicas)
            && |Last(r).machines| >= (if k < c.replicas then k else c.replicas)
            && |Last(r).machines| <= (if k > c.replicas + 2 then k else c.replicas + 2)
    ensures |Deleting(Last(r).machines)| <= 1
  {
    InvAlways(c, r);
    SizesAlways(c, r);
    var ms := Last(r).machines;
    Split(ms);
    SubsetSize(Deleting(ms), ms.Keys - Available(ms));
  }

  /** From `replicas` machines or more, a creation is a surplus one exactly if the node count it was decided on is below
      the number of machines listed. */
  lemma SurplusIsShortCount(c: Config, r: Run)
    requires c.nodeFirst && IsFreeRun(c, r) && Joined(c, First(r)) && |First(r).machines| >= c.replicas
    requires r.After? && r.step.Create?
    ensures var s := Last(r.before); Surplus(c, s, r.step) <==> s.local.nodes < |s.local.seen|
  {
    hide Inv, Sizes, Joined, Available;
    InvAlways(c, r.before);
    SizesAlways(c, r.before);
    CreateLevel(c, Last(r.before), r.step.m, r.now);
  }

  lemma CreateKeepsSpread(c: Config, s: System, m: Machine, t: System, b: int)
    requires Inv(c, s) && CreateStep(c, s, m, t)
        && IsFewest(FilterControlPlane(c.domains), s.local.seen, m.failureDomain)
    requires b >= 1 && SpreadAtMost(FilterControlPlane(c.domains), s.machines, b)
    ensures SpreadAtMost(FilterControlPlane(c.domains), t.machines, b)
  {
    AllServe(c, s);
    hide Inv;
    SameCounts(s.local.seen, s.machines);
    FewestKeepsSpread(FilterControlPlane(c.domains), s.machines, m, b);
  }

  lemma ActionIsGated(c: Config, s: System, step: Step, t: System)
    requires Inv(c, s) && Next(c, s, step, t) && (step.Create? || step.Delete? || step.Initialise?)
    ensures !step.Initialise?
    ensures Available(s.machines) == s.machines.Keys
    ensures step.Delete? ==> step.victim in s.machines && !MatchesHash(s.machines[step.victim], s.local.hash)
  {
    hide Inv;
    NeverInitialising(c, s);
    assert step.Create? || step.Delete?;
    AllServe(c, s);
    if step.Delete? {
      VictimOutdated(c, s, step.victim, t);
    }
  }

  /** In every run, a machine is created or marked only when each owned machine has joined and none is being
      deleted, and the victim is outdated under the spec the reconcile read. */
  lemma EveryActionIsGated(c: Config, r: Run)
    requires c.nodeFirst && IsFreeRun(c, r) && r.After? && Joined(c, First(r))
    requires r.step.Create? || r.step.Delete? || r.step.Initialise?
    ensures var s := Last(r.before);
            && !r.step.Initialise?
            && Available(s.machines) == s.machines.Keys
            && (r.step.Delete? ==> r.step.victim in s.machines && !MatchesHash(s.machines[r.step.victim], s.local.hash))
  {
    hide Inv, Next;
    InvAlways(c, r.before);
    ActionIsGated(c, Last(r.before), r.step, r.now);
  }

  /** In every run of the controller as it chooses, whatever joins while it decides, a creation widens no spread
      over the failure domains beyond one. */
  lemma EveryCreationKeepsSpread(c: Config, r: Run, b: int)
    requires c.nodeFirst && IsRun(c, r) && r.After? && Joined(c, First(r)) && r.step.Create?
    requires b >= 1 && SpreadAtMost(FilterControlPlane(c.domains), Last(r.before).machines, b)
    ensures SpreadAtMost(FilterControlPlane(c.domains), r.now.machines, b)
  {
    hide Inv;
    RunIsFree(c, r.before);
    InvAlways(c, r.before);
    CreateKeepsSpread(c, Last(r.before), r.step.m, r.now, b);
  }

  lemma SameCounts(a: Collection, b: Collection)
    requires a.Keys == b.Keys && Tracks(a, b)
    ensures forall d :: Count(a, d) == Count(b, d)
  {
    forall d ensures Count(a, d) == Count(b, d) {
      assert Residents(a, d) == Residents(b, d);
    }
  }
}
