/** No run of the upgrade gets stuck: while its API calls succeed, the controller can always bring it to an end. */
module UpgradeLiveness {
  import opened Wrappers
  import opened Runs
  import opened Finite
  import opened Machines
  import opened FailureDomains
  import opened Health
  import opened RollingUpgrade
  import opened UpgradeSafety
  import opened UpgradeLedger

  /** Once a run has reached a state in which every machine matches the spec, it stays there: no later step creates or
      deletes a machine, be there `replicas` of them or one too many. */
  lemma {:induction false} CompleteForGood(c: Config, r: Run, q: Run)
    requires c.nodeFirst && IsFreeRun(c, r) && Joined(c, First(r)) && FixedSpec(r)
    requires Extends(r, q) && Complete(Last(q))
    ensures Complete(Last(r)) && Last(r).machines.Keys == Last(q).machines.Keys
    ensures Creates(r) == Creates(q) && Deletes(r) == Deletes(q)
    decreases r
  {
    if r != q {
      hide Inv, Next, Ledger, HashOk, Complete;
      CompleteForGood(c, r.before, q);
      LedgerAlways(c, r.before);
      CompleteIsFinal(c, Last(r.before), r.step, r.now);
    }
  }

  /** Every owned machine is controlled by this control plane; otherwise EnsureOwnership fails every reconcile. */
  predicate Controlled(c: Config, ms: Collection) {
    forall n | n in ms :: ms[n].controller == Some(Owner(c))
  }

  /** A run that can be carried on: the hypotheses of the progress lemmas, and the invariants that follow. */
  ghost predicate Good(c: Config, q: Run, r: Run) {
    && IsRun(c, q) && Extends(q, r) && FixedSpec(q) && First(q) == First(r) && Last(q).hash == Last(r).hash
    && Inv(c, Last(q)) && HashOk(Last(q)) && Controlled(c, Last(q).machines)
  }

  lemma ControlledNext(c: Config, s: System, step: Step, t: System)
    requires Controlled(c, s.machines) && Next(c, s, step, t)
    ensures Controlled(c, t.machines)
  {
    if !step.Adopt? && !step.RefSet? && !ChangesMachines(step) {
      assert t.machines == s.machines;
    }
  }

  lemma {:induction false} ControlledAlways(c: Config, r: Run)
    requires IsFreeRun(c, r) && Controlled(c, First(r).machines)
    ensures Controlled(c, Last(r).machines)
  {
    if r.After? {
      hide Next;
      ControlledAlways(c, r.before);
      ControlledNext(c, Last(r.before), r.step, r.now);
    }
  }

  /** One more step. */
  lemma Carry(c: Config, q: Run, r: Run, step: Step, t: System) returns (p: Run)
    requires c.nodeFirst && Good(c, q, r)
    requires Next(c, Last(q), step, t) && WellChosen(c, Last(q), step, t) && !step.SpecChanges?
    ensures p == After(q, step, t) && Good(c, p, r)
    ensures Booked(Last(q), step, t)
  {
    p := After(q, step, t);
    Book(c, Last(q), step, t);
    hide Inv, Next, WellChosen;
    InvNext(c, Last(q), step, t);
    ControlledNext(c, Last(q), step, t);
  }

  /** The live machines and the outdated ones among them, as the ledger counts them. */
  function Counts(s: System): (int, int) {
    (|Live(s.machines)|, |LiveOutdated(s.machines, s.hash)|)
  }

  /** A step that only reads. */
  lemma Look(c: Config, q: Run, r: Run, step: Step, t: System) returns (p: Run)
    requires c.nodeFirst && Good(c, q, r) && ReadStep(c, Last(q), step, t)
    ensures p == After(q, step, t) && Good(c, p, r) && Counts(t) == Counts(Last(q))
  {
    hide Good;
    p := Carry(c, q, r, step, t);
  }

  lemma Await(c: Config, q: Run, r: Run, step: Step, t: System) returns (p: Run)
    requires c.nodeFirst && Good(c, q, r) && IsEnvironment(step) && !step.SpecChanges?
        && EnvironmentStep(c, Last(q), step, t)
    ensures p == After(q, step, t) && Good(c, p, r) && Counts(t) == Counts(Last(q))
  {
    hide Good, EnvironmentStep;
    p := Carry(c, q, r, step, t);
  }

  lemma Upgrade(c: Config, q: Run, r: Run, t: System) returns (p: Run)
    requires c.nodeFirst && Good(c, q, r) && DispatchStep(c, Last(q), t) && t.phase.Listed?
    ensures p == After(q, Dispatch, t) && Good(c, p, r) && Counts(t) == Counts(Last(q))
  {
    hide Good, DispatchStep;
    p := Carry(c, q, r, Dispatch, t);
  }

  lemma ScaleUp(c: Config, q: Run, r: Run, m: Machine, t: System) returns (p: Run)
    requires c.nodeFirst && Good(c, q, r) && CreateStep(c, Last(q), m, t)
    requires IsFewest(FilterControlPlane(c.domains), Last(q).local.seen, m.failureDomain)
    ensures p == After(q, Create(m), t) && Good(c, p, r)
    ensures Counts(t) == (Counts(Last(q)).0 + 1, Counts(Last(q)).1)
  {
    hide Good, CreateStep, IsFewest;
    p := Carry(c, q, r, Create(m), t);
  }

  lemma ScaleDown(c: Config, q: Run, r: Run, v: string, t: System) returns (p: Run)
    requires c.nodeFirst && Good(c, q, r) && DeleteStep(c, Last(q), v, t)
    requires var l := Last(q).local; IsVictim(FilterControlPlane(c.domains), l.seen, Candidates(l.seen, l.hash), v)
    ensures p == After(q, Delete(v), t) && Good(c, p, r)
    ensures Counts(t) == (Counts(Last(q)).0 - 1, Counts(Last(q)).1 - 1)
  {
    hide Good, DeleteStep, IsVictim;
    p := Carry(c, q, r, Delete(v), t);
  }

  /** All machines serve, and no reconcile is running. */
  predicate Quiet(s: System) {
    s.phase.Idle? && Available(s.machines) == s.machines.Keys
  }

  lemma OneDisturbed(c: Config, s: System, n: string)
    requires Inv(c, s) && n in s.machines && n !in Available(s.machines)
    ensures forall k | k in s.machines && k != n :: k in Available(s.machines)
  {
    var rest := s.machines.Keys - Available(s.machines);
    SubsetSize({n}, rest);
    forall k | k in s.machines && k != n ensures k in Available(s.machines) {
      assert k !in rest;
    }
  }

  lemma GoodInv(c: Config, q: Run, r: Run)
    requires Good(c, q, r)
    ensures Inv(c, Last(q))
  {
  }

  /** The environment can finish a departure. */
  lemma Depart(c: Config, q: Run, r: Run, n: string) returns (p: Run)
    requires c.nodeFirst && Good(c, q, r) && Last(q).phase.Idle?
    requires n in Last(q).machines && Last(q).machines[n].deleting
    ensures Good(c, p, r) && Quiet(Last(p)) && Counts(Last(p)) == Counts(Last(q))
  {
    hide Good, Counts, Inv;
    p := q;
    var s := Last(q);
    GoodInv(c, q, r);
    OneDisturbed(c, s, n);
    if n in s.nodeOf {
      p := Await(c, p, r, NodeLeaves(n), s.(nodeOf := s.nodeOf - {n}));
    }
    var t := Last(p).(machines := s.machines - {n});
    assert Available(t.machines) == t.machines.Keys;
    p := Await(c, p, r, MachineGone(n), t);
  }

  lemma GetNode(c: Config, q: Run, r: Run, n: string) returns (p: Run)
    requires c.nodeFirst && Good(c, q, r)
    requires n in Last(q).machines && !Last(q).machines[n].deleting && Last(q).machines[n].nodeRef.None?
    ensures Good(c, p, r) && Counts(Last(p)) == Counts(Last(q))
    ensures Last(p) == Last(q).(nodeOf := Last(p).nodeOf) && n in Last(p).nodeOf
  {
    hide Good, Counts;
    p := q;
    var s := Last(q);
    if n !in s.nodeOf {
      var x := FreshName(s.nodeOf.Values);
      p := Await(c, p, r, NodeJoins(n, x), s.(nodeOf := s.nodeOf[n := x]));
    }
  }

  lemma LastJoins(ms: Collection, n: string, m: Machine)
    requires n in ms && !m.deleting && m.nodeRef.Some?
    requires forall k | k in ms && k != n :: k in Available(ms)
    ensures Available(ms[n := m]) == ms[n := m].Keys
  {
  }

  lemma SetRef(c: Config, q: Run, r: Run, n: string) returns (p: Run)
    requires c.nodeFirst && Good(c, q, r) && n in Last(q).nodeOf
    requires n in Last(q).machines && !Last(q).machines[n].deleting && Last(q).machines[n].nodeRef.None?
    requires forall k | k in Last(q).machines && k != n :: k in Available(Last(q).machines)
    ensures Good(c, p, r) && Counts(Last(p)) == Counts(Last(q))
    ensures Last(p) == Last(q).(machines := Last(p).machines) && Available(Last(p).machines) == Last(p).machines.Keys
    ensures Last(p).machines.Keys == Last(q).machines.Keys
  {
    hide Good, Counts, Inv;
    var s := Last(q);
    var m := s.machines[n].(nodeRef := Some(s.nodeOf[n]));
    LastJoins(s.machines, n, m);
    p := Await(c, q, r, RefSet(n), s.(machines := s.machines[n := m]));
  }

  /** The environment can finish a join, whatever the reconcile is doing. */
  lemma Join(c: Config, q: Run, r: Run, n: string) returns (p: Run)
    requires c.nodeFirst && Good(c, q, r)
    requires n in Last(q).machines && !Last(q).machines[n].deleting && Last(q).machines[n].nodeRef.None?
    ensures Good(c, p, r) && Counts(Last(p)) == Counts(Last(q))
    ensures Available(Last(p).machines) == Last(p).machines.Keys == Last(q).machines.Keys
    ensures Last(p).phase == Last(q).phase && Last(p).local == Last(q).local && Last(p).hash == Last(q).hash
  {
    hide Good, Counts, Inv;
    p := GetNode(c, q, r, n);
    GoodInv(c, p, r);
    OneDisturbed(c, Last(p), n);
    p := SetRef(c, p, r, n);
  }

  lemma Settle(c: Config, q: Run, r: Run) returns (p: Run)
    requires c.nodeFirst && Good(c, q, r) && Last(q).phase.Idle?
    ensures Good(c, p, r) && Quiet(Last(p)) && Counts(Last(p)) == Counts(Last(q))
  {
    var s := Last(q);
    if n :| n in s.machines && n !in Available(s.machines) {
      if s.machines[n].deleting {
        p := Depart(c, q, r, n);
      } else {
        p := Join(c, q, r, n);
      }
    } else {
      p := q;
      assert Available(s.machines) == s.machines.Keys;
    }
  }

  lemma QuietMatches(c: Config, s: System)
    requires Inv(c, s) && Available(s.machines) == s.machines.Keys
    ensures Matched(s.nodeOf.Values, s.machines) && |s.nodeOf.Values| == |s.machines|
    ensures !HasDeletingMachine(s.machines)
  {
    NodeCount(s.machines, s.nodeOf);
    forall n | n in s.machines ensures s.machines[n].nodeRef.Some? && s.machines[n].nodeRef.value in s.nodeOf.Values {
      assert n in Available(s.machines);
    }
    forall n | n in s.machines ensures !s.machines[n].deleting {
      assert n in Available(s.machines);
    }
  }

  ghost predicate AtGate(c: Config, p: Run, q: Run, r: Run) {
    var s, l := Last(q), Last(p).local;
    && Good(c, p, r) && Counts(Last(p)) == Counts(s)
    && Last(p) == Read(s, Healthy, l)
    && l.hash == s.hash && l.seen == s.machines && l.nodes == |s.machines|
  }

  /** A reconcile that meets no failure lists the machines and dispatches to the upgrade. */
  lemma ReachListed(c: Config, q: Run, r: Run) returns (p: Run)
    requires c.nodeFirst && Good(c, q, r) && Last(q).phase.Idle? && AnyOutdated(Last(q).machines, Last(q).hash)
    ensures var s := Last(q); Last(p) == Read(s, Listed, s.local.(hash := s.hash, seen := s.machines))
    ensures Good(c, p, r) && Counts(Last(p)) == Counts(Last(q))
  {
    var s := Last(q);
    assert Controlled(c, s.machines);
    hide Good, Counts, AnyOutdated;
    var l := s.local.(hash := s.hash);
    p := Look(c, q, r, Begin, Read(s, Started, l));
    l := l.(seen := s.machines);
    p := Look(c, p, r, List, Read(s, Owning, l));
    p := Upgrade(c, p, r, Read(s, Listed, l));
  }

  lemma CountStatus(c: Config, q: Run, r: Run) returns (p: Run)
    requires c.nodeFirst && Good(c, q, r) && Last(q).phase.Listed?
    ensures var s := Last(q); Last(p) == Read(s, Counted, s.local.(nodes := |s.nodeOf.Values|))
    ensures Good(c, p, r) && Counts(Last(p)) == Counts(Last(q))
  {
    hide Good, Counts;
    var s := Last(q);
    p := Look(c, q, r, Status, Read(s, Counted, s.local.(nodes := |s.nodeOf.Values|)));
  }

  lemma CheckAll(c: Config, q: Run, r: Run) returns (p: Run)
    requires c.nodeFirst && Good(c, q, r) && Last(q).phase.Counted?
    requires Matched(Last(q).nodeOf.Values, Last(q).machines) && !HasDeletingMachine(Last(q).local.seen)
    ensures var s := Last(q); Last(p) == Read(s, Healthy, s.local.(checked := s.nodeOf.Values))
    ensures Good(c, p, r) && Counts(Last(p)) == Counts(Last(q))
  {
    hide Good, Counts, Matched, HasDeletingMachine;
    var s := Last(q);
    var l := s.local.(checked := s.nodeOf.Values);
    p := Look(c, q, r, CheckNodes, Read(s, NodesRead, l));
    p := Look(c, p, r, MatchMachines, Read(s, Healthy, l));
  }

  /** It then passes the health gate. */
  lemma ReachGate(c: Config, q: Run, r: Run) returns (p: Run)
    requires c.nodeFirst && Good(c, q, r) && Quiet(Last(q)) && AnyOutdated(Last(q).machines, Last(q).hash)
    ensures AtGate(c, p, q, r)
  {
    var s := Last(q);
    GoodInv(c, q, r);
    QuietMatches(c, s);
    hide Good, Counts, Inv, Matched, HasDeletingMachine, AnyOutdated, Quiet;
    p := ReachListed(c, q, r);
    p := CountStatus(c, p, r);
    p := CheckAll(c, p, r);
  }

  /** A creation if the control plane is at `replicas` or below, a deletion otherwise. */
  predicate Advanced(c: Config, s: System, t: System) {
    var (m, o) := Counts(s);
    Counts(t) == if m <= c.replicas then (m + 1, o) else (m - 1, o - 1)
  }

  lemma AdvanceUp(c: Config, q: Run, r: Run) returns (p: Run)
    requires c.nodeFirst && Good(c, q, r) && Last(q).phase.Healthy? && Last(q).local.nodes <= c.replicas
    ensures p.After? && p.before == q && p.step.Create? && Good(c, p, r)
    ensures var m := p.step.m;
            && m.name !in Last(q).machines && m.nodeRef.None? && !m.deleting
            && Last(p) == Last(q).(machines := Last(q).machines[m.name := m], phase := Idle)
    ensures Counts(Last(p)) == (Counts(Last(q)).0 + 1, Counts(Last(q)).1)
  {
    hide Good, Counts;
    var s := Last(q);
    var name := FreshName(s.machines.Keys);
    var fd := FewestExists(FilterControlPlane(c.domains), s.local.seen);
    var m := Machine(name, Some(c.name), Some(s.local.hash), fd, 0, None, false, Some(Owner(c)));
    p := ScaleUp(c, q, r, m, s.(machines := s.machines[name := m], phase := Idle));
  }

  lemma AdvanceDown(c: Config, q: Run, r: Run) returns (p: Run)
    requires c.nodeFirst && Good(c, q, r) && Last(q).phase.Healthy? && Last(q).local.nodes > c.replicas
    requires Matched(Last(q).nodeOf.Values, Last(q).machines) && AnyOutdated(Last(q).local.seen, Last(q).local.hash)
    ensures Good(c, p, r) && p.After? && p.step.Delete? && p.step.victim in Last(q).local.seen && Last(p).phase.Idle?
    ensures Last(p) == Last(q).(machines := MarkDeleting(Last(q).machines, p.step.victim), phase := Idle,
        local := Last(p).local)
    ensures Counts(Last(p)) == (Counts(Last(q)).0 - 1, Counts(Last(q)).1 - 1)
  {
    hide Good, Counts, Matched;
    var s := Last(q);
    var l := s.local.(checked := s.nodeOf.Values);
    p := Look(c, q, r, Recheck, Read(s, NodesReread, l));
    p := Look(c, p, r, Rematch, Read(s, Cleared, l));
    OutdatedExists(l.seen, l.hash);
    var v := VictimExists(FilterControlPlane(c.domains), l.seen, Candidates(l.seen, l.hash));
    hide IsVictim;
    p := ScaleDown(c, p, r, v, Last(p).(machines := MarkDeleting(s.machines, v), phase := Idle));
  }

  lemma QuietCounts(s: System)
    requires Quiet(s)
    ensures Counts(s).0 == |s.machines|
    ensures AnyOutdated(s.machines, s.hash) <==> Counts(s).1 > 0
    ensures AnyOutdated(s.machines, s.hash) <==> !Complete(s)
  {
    forall n | n in s.machines ensures n in Live(s.machines) {
      assert n in Available(s.machines);
    }
    assert Live(s.machines) == s.machines.Keys;
    assert |s.machines.Keys| == |s.machines|;
    if n :| n in s.machines && !MatchesHash(s.machines[n], s.hash) {
      assert n in LiveOutdated(s.machines, s.hash);
    } else {
      assert LiveOutdated(s.machines, s.hash) == {};
    }
  }

  lemma GateFacts(c: Config, p: Run, q: Run, r: Run)
    requires AtGate(c, p, q, r) && Good(c, q, r) && Quiet(Last(q)) && AnyOutdated(Last(q).machines, Last(q).hash)
    ensures Good(c, p, r) && Counts(Last(p)) == Counts(Last(q)) && Last(p).phase.Healthy?
    ensures Last(p).local.nodes == Counts(Last(q)).0 && Matched(Last(p).nodeOf.Values, Last(p).machines)
    ensures AnyOutdated(Last(p).local.seen, Last(p).local.hash)
  {
    GoodInv(c, q, r);
    QuietMatches(c, Last(q));
    QuietCounts(Last(q));
    hide Good, Counts, Inv, Matched, HasDeletingMachine, AnyOutdated, Quiet;
  }

  /** From rest with something outdated, a reconcile without failures creates or deletes one machine. */
  lemma Advance(c: Config, q: Run, r: Run) returns (p: Run)
    requires c.nodeFirst && Good(c, q, r) && Quiet(Last(q)) && AnyOutdated(Last(q).machines, Last(q).hash)
    ensures Good(c, p, r) && Last(p).phase.Idle? && Advanced(c, Last(q), Last(p))
  {
    hide Good, Counts, Inv, Matched, HasDeletingMachine, AnyOutdated, Quiet, AtGate, MarkDeleting;
    p := ReachGate(c, q, r);
    GateFacts(c, p, q, r);
    if Last(p).local.nodes <= c.replicas {
      p := AdvanceUp(c, p, r);
    } else {
      p := AdvanceDown(c, p, r);
    }
  }

  /** The creations and deletions of undisturbed reconciles still to come, at most. */
  function ToDo(c: Config, s: System): nat {
    2 * Counts(s).1 + if Counts(s).0 < c.replicas + 2 then c.replicas + 2 - Counts(s).0 else 0
  }

  lemma FewerToDo(c: Config, s: System, t: System)
    requires Advanced(c, s, t) && Counts(s).1 > 0
    ensures ToDo(c, t) < ToDo(c, s)
    ensures Counts(t).0 - Counts(t).1 <= c.replicas || Counts(t).0 - Counts(t).1 == Counts(s).0 - Counts(s).1
    ensures Counts(s).0 - Counts(s).1 < c.replicas && Counts(s) != (c.replicas, 1) ==>
        Counts(t).1 >= 1 && Counts(t).0 - Counts(t).1 < c.replicas
  {
    hide Counts;
  }

  lemma SameToDo(c: Config, s: System, t: System)
    ensures Counts(s) == Counts(t) ==> ToDo(c, s) == ToDo(c, t)
  {
    hide Counts;
  }

  /** From every reachable state of an upgrade with a fixed spec, some continuation completes it.  It brings the
      machines to `replicas` at most, unless more matched all along. */
  lemma {:induction false} CanFinishFrom(c: Config, q: Run, r: Run) returns (p: Run)
    requires c.nodeFirst && Good(c, q, r) && Last(q).phase.Idle?
    ensures Good(c, p, r) && Complete(Last(p))
    ensures var (m, o) := Counts(Last(q)); o > 0 ==> Counts(Last(p)).0 <= c.replicas || Counts(Last(p)).0 == m - o
    ensures Counts(Last(q)).1 == 0 ==> Counts(Last(p)) == Counts(Last(q))
    decreases ToDo(c, Last(q))
  {
    p := Settle(c, q, r);
    QuietCounts(Last(p));
    SameToDo(c, Last(p), Last(q));
    hide Good, Quiet, Complete, AnyOutdated, Counts, ToDo, Advanced;
    if !Complete(Last(p)) {
      ghost var s := Last(p);
      p := Advance(c, p, r);
      FewerToDo(c, s, Last(p));
      p := CanFinishFrom(c, p, r);
    }
  }

  lemma ReachableIsGood(c: Config, r: Run)
    requires c.nodeFirst && IsRun(c, r) && Joined(c, First(r)) && Controlled(c, First(r).machines) && FixedSpec(r)
    ensures Good(c, r, r)
  {
    RunIsFree(c, r);
    LedgerAlways(c, r);
    ControlledAlways(c, r);
  }

  /** The upgrade can always be finished: every run has a continuation in which all machines match the spec. */
  lemma CanFinish(c: Config, r: Run) returns (p: Run)
    requires c.nodeFirst && IsRun(c, r) && Joined(c, First(r)) && Controlled(c, First(r).machines) && FixedSpec(r)
    ensures IsRun(c, p) && Extends(p, r) && FixedSpec(p) && Complete(Last(p))
  {
    ReachableIsGood(c, r);
    p := Look(c, r, r, GiveUp, Read(Last(r), Idle, Last(r).local));
    p := CanFinishFrom(c, p, r);
  }

  // ----- The surplus is real ----------------------------------------------------------------------

  /** Coming to `replicas` machines, one of them outdated, one machine up or down at a time. */
  lemma {:induction false} ToLastOutdated(c: Config, q: Run, r: Run) returns (p: Run)
    requires c.nodeFirst && Good(c, q, r) && Quiet(Last(q))
    requires Counts(Last(q)).1 >= 1 && Counts(Last(q)).0 - Counts(Last(q)).1 < c.replicas
    ensures Good(c, p, r) && Quiet(Last(p)) && Counts(Last(p)) == (c.replicas, 1)
    decreases ToDo(c, Last(q))
  {
    p := q;
    if Counts(Last(q)) != (c.replicas, 1) {
      QuietCounts(Last(p));
      hide Good, Quiet, Counts, ToDo, Advanced, AnyOutdated;
      ghost var s := Last(p);
      p := Advance(c, p, r);
      ghost var t := Last(p);
      FewerToDo(c, s, t);
      p := Settle(c, p, r);
      SameToDo(c, Last(p), t);
      p := ToLastOutdated(c, p, r);
    }
  }

  /** The state with a fresh machine that has no node yet. */
  predicate Waiting(c: Config, s: System, n: string) {
    && s.phase.Idle? && n in s.machines && !s.machines[n].deleting && s.machines[n].nodeRef.None?
    && |s.machines| == c.replicas + 1 && |s.nodeOf.Values| == c.replicas
    && !HasDeletingMachine(s.machines) && AnyOutdated(s.machines, s.hash)
  }

  lemma NewIsWaiting(c: Config, s: System, m: Machine, t: System)
    requires Inv(c, s) && Available(s.machines) == s.machines.Keys && AnyOutdated(s.machines, s.hash)
    requires m.name !in s.machines && m.nodeRef.None? && !m.deleting && |s.machines| == c.replicas
    requires t == s.(machines := s.machines[m.name := m], phase := Idle)
    ensures Waiting(c, t, m.name)
  {
    QuietMatches(c, s);
    AddedSize(s.machines, m.name, m);
    hide Inv, Matched, Available;
    var k :| k in s.machines && !MatchesHash(s.machines[k], s.hash);
    assert k in t.machines && t.machines[k] == s.machines[k];
  }

  lemma ToWaiting(c: Config, q: Run, r: Run) returns (p: Run, n: string)
    requires c.nodeFirst && Good(c, q, r) && Quiet(Last(q)) && Counts(Last(q)) == (c.replicas, 1)
    ensures Good(c, p, r) && Waiting(c, Last(p), n) && Counts(Last(p)).1 == 1
  {
    QuietCounts(Last(q));
    assert Available(Last(q).machines) == Last(q).machines.Keys;
    hide Good, Counts, Inv, Matched, Quiet, Available, Waiting, AnyOutdated;
    p := ReachGate(c, q, r);
    GoodInv(c, p, r);
    var s := Last(p);
    p := AdvanceUp(c, p, r);
    n := p.step.m.name;
    NewIsWaiting(c, s, p.step.m, Last(p));
  }

  lemma ListClean(c: Config, q: Run, r: Run, n: string) returns (p: Run)
    requires c.nodeFirst && Good(c, q, r) && Waiting(c, Last(q), n)
    ensures var s := Last(q);
            Last(p) == Read(s, Counted, s.local.(hash := s.hash, seen := s.machines, nodes := c.replicas))
    ensures Good(c, p, r) && Counts(Last(p)) == Counts(Last(q))
  {
    hide Good, Counts, AnyOutdated, HasDeletingMachine;
    p := ReachListed(c, q, r);
    p := CountStatus(c, p, r);
  }

  /** The waiting machine joins between ClusterStatus and the health check, which then lets a creation through
      that was decided without it. */
  lemma SurplusCreate(c: Config, q: Run, r: Run, n: string) returns (p: Run)
    requires c.nodeFirst && Good(c, q, r) && Waiting(c, Last(q), n) && Counts(Last(q)).1 == 1
    ensures Good(c, p, r) && Last(p).phase.Idle? && HasLateSurplus(c, p)
  {
    assert !HasDeletingMachine(Last(q).machines);
    p := ListClean(c, q, r, n);
    ghost var seen := Last(p).local.seen;
    assert seen == Last(q).machines && |seen| == c.replicas + 1;
    hide Good, Inv, Available, AnyOutdated, HasDeletingMachine, Counts;
    p := Join(c, p, r, n);
    GoodInv(c, p, r);
    QuietMatches(c, Last(p));
    p := CheckAll(c, p, r);
    assert Last(p).local.nodes == c.replicas;
    p := AdvanceUp(c, p, r);
    assert Counts(Last(p.before)).1 == 1;
    IsLate(c, p);
  }

  lemma IsLate(c: Config, p: Run)
    requires p.After? && p.step.Create? && |Last(p.before).local.seen| > c.replicas
    requires Counts(Last(p.before)).1 == 1
    ensures HasLateSurplus(c, p)
  {
  }

  lemma {:induction false} LateStays(c: Config, p: Run, q: Run)
    requires Extends(p, q) && HasLateSurplus(c, q)
    ensures HasLateSurplus(c, p)
    decreases p
  {
    if p != q {
      LateStays(c, p.before, q);
    }
  }

  lemma JoinedQuiet(c: Config, s: System)
    requires Joined(c, s)
    ensures Quiet(s) && Counts(s) == (|s.machines|, |LiveOutdated(s.machines, s.hash)|)
  {
    assert Available(s.machines) == s.machines.Keys;
    QuietCounts(s);
  }

  /** The extra machine is no artefact of the bound: with something to upgrade, and fewer than `replicas` machines of
      the spec yet, there is a run, without failures or spec edits, in which the upgrade completes and leaves one
      machine too many. */
  lemma CanOvershoot(c: Config, s: System) returns (p: Run)
    requires c.nodeFirst && Joined(c, s) && Controlled(c, s.machines) && AnyOutdated(s.machines, s.hash)
    requires |s.machines| - |LiveOutdated(s.machines, s.hash)| < c.replicas
    ensures IsRun(c, p) && First(p) == s && FixedSpec(p)
    ensures Complete(Last(p)) && |Last(p).machines| == c.replicas + 1
  {
    var r := Start(s);
    JoinedQuiet(c, s);
    QuietCounts(s);
    ReachableIsGood(c, r);
    hide Quiet, Counts, AnyOutdated, Inv, Waiting, Complete;
    p := ToLastOutdated(c, r, r);
    var n;
    p, n := ToWaiting(c, p, r);
    var q := SurplusCreate(c, p, r, n);
    GoodFromHere(c, q, r);
    p := CanFinishFrom(c, q, q);
    LateStays(c, p, q);
    RunIsFree(c, p);
    UpgradeEnds(c, p);
  }

  ghost predicate MayEndWith(c: Config, s: System, n: int) {
    exists r :: IsRun(c, r) && First(r) == s && FixedSpec(r) && Complete(Last(r)) && |Last(r).machines| == n
  }

  lemma FinishesAtEndSize(c: Config, s: System)
    requires c.nodeFirst && Joined(c, s) && Controlled(c, s.machines)
    ensures MayEndWith(c, s, EndSize(c, s))
  {
    var r := Start(s);
    JoinedQuiet(c, s);
    ReachableIsGood(c, r);
    var p := CanFinishFrom(c, r, r);
    CompleteLive(Last(p));
    hide Good, Inv, Complete, Joined, Controlled, Live, LiveOutdated, Quiet;
    RunIsFree(c, p);
    UpgradeEnds(c, p);
  }

  /** The sizes with which the upgrade of a joined control plane can end, exactly: `replicas`, or the machines that
      match at the start if nothing else is there or they are more; and one more exactly if something is outdated and
      fewer than `replicas` match at the start. */
  lemma EndsExactly(c: Config, s: System, n: int)
    requires c.nodeFirst && Joined(c, s) && Controlled(c, s.machines)
    ensures var k, o := |s.machines|, |LiveOutdated(s.machines, s.hash)|;
            MayEndWith(c, s, n) <==>
              n == EndSize(c, s) || (n == c.replicas + 1 && o > 0 && k - o < c.replicas)
  {
    hide Joined, Controlled, LiveOutdated, IsRun, IsFreeRun, FixedSpec, Complete;
    var k, o := |s.machines|, |LiveOutdated(s.machines, s.hash)|;
    FinishesAtEndSize(c, s);
    if o > 0 && k - o < c.replicas {
      SomeOutdated(s);
      var p := CanOvershoot(c, s);
      assert MayEndWith(c, s, c.replicas + 1);
    }
    if MayEndWith(c, s, n) {
      var r :| IsRun(c, r) && First(r) == s && FixedSpec(r) && Complete(Last(r)) && |Last(r).machines| == n;
      RunIsFree(c, r);
      UpgradeEnds(c, r);
      if HasLateSurplus(c, r) {
        LateNeedsRoom(c, r);
        LateIsOutdated(c, r);
      }
    }
  }

  lemma SomeOutdated(s: System)
    requires |LiveOutdated(s.machines, s.hash)| >= 1
    ensures AnyOutdated(s.machines, s.hash)
  {
    var n :| n in LiveOutdated(s.machines, s.hash);
  }

  lemma LateIsOutdated(c: Config, r: Run)
    requires c.nodeFirst && IsFreeRun(c, r) && Joined(c, First(r)) && FixedSpec(r) && HasLateSurplus(c, r)
    ensures |LiveOutdated(First(r).machines, First(r).hash)| > 0
  {
    LedgerAlways(c, r);
  }

  lemma GoodFromHere(c: Config, q: Run, r: Run)
    requires Good(c, q, r)
    ensures Good(c, q, q)
  {
    hide Inv, HashOk, Controlled;
  }
}
