/** Where the guarantees of the upgrade end: an initialisation that failed part of the way is completed by an upgrade
    only, and without the assumption that nodes leave before their machines the availability bound is lost. */
module UpgradeLimits {
  import opened Wrappers
  import opened Runs
  import opened Finite
  import opened Machines
  import opened FailureDomains
  import opened Health
  import opened RollingUpgrade
  import opened UpgradeSafety
  import opened UpgradeLedger
  import opened UpgradeLiveness

  lemma Then(c: Config, r: Run, step: Step, t: System) returns (p: Run)
    requires IsRun(c, r) && Next(c, Last(r), step, t) && WellChosen(c, Last(r), step, t)
    ensures p == After(r, step, t) && IsRun(c, p) && First(p) == First(r) && Last(p) == t
    ensures FixedSpec(r) && !step.SpecChanges? ==> FixedSpec(p)
  {
    p := After(r, step, t);
  }

  // ----- A partial initialisation -----------------------------------------------------------------

  /** A reconcile that has seen nothing but machines of the spec. */
  predicate SeesNothing(s: System, names: set<string>, hash: string) {
    && (s.phase.Idle? || ((s.phase.Started? || s.phase.Owning?) && s.local.hash == hash))
    && (s.phase.Owning? ==> s.local.seen.Keys == names && forall n | n in names :: MatchesHash(s.local.seen[n], hash))
  }

  /** Some machines, all matching the spec, none being deleted. */
  predicate Stuck(s: System, names: set<string>, hash: string) {
    s.machines.Keys == names && s.hash == hash && Complete(s) && !HasDeletingMachine(s.machines)
        && SeesNothing(s, names, hash)
  }

  lemma StuckPhase(c: Config, s: System, step: Step, t: System, names: set<string>, hash: string)
    requires names != {} && Stuck(s, names, hash) && ControllerStep(c, s, step, t)
    ensures SeesNothing(t, names, hash) && !ChangesMachines(step)
  {
    hide HasDeletingMachine;
    if step.Dispatch? {
      DispatchesNothing(c, s, t);
      hide DispatchStep;
    }
  }

  lemma DispatchesNothing(c: Config, s: System, t: System)
    requires DispatchStep(c, s, t) && s.local.seen != map[]
    requires forall n | n in s.local.seen :: MatchesHash(s.local.seen[n], s.local.hash)
    ensures t.phase.Idle?
  {
    var n :| n in s.local.seen;
    assert n in s.local.seen.Keys;
    assert |s.local.seen| == |s.local.seen.Keys|;
  }

  lemma StuckMachines(c: Config, s: System, step: Step, t: System, names: set<string>, hash: string)
    requires Stuck(s, names, hash) && Next(c, s, step, t) && !ChangesMachines(step) && !step.SpecChanges?
    ensures t.machines.Keys == names && t.hash == hash && Complete(t) && !HasDeletingMachine(t.machines)
  {
    OthersKeepMachines(c, s, step, t);
    hide Next, SeesNothing;
  }

  lemma StuckNext(c: Config, s: System, step: Step, t: System, names: set<string>, hash: string)
    requires names != {} && Stuck(s, names, hash) && Next(c, s, step, t) && !step.SpecChanges?
    ensures Stuck(t, names, hash) && !step.Create? && !step.Delete? && !step.Initialise?
  {
    if IsEnvironment(step) {
      assert t.phase == s.phase && t.local == s.local;
      assert !step.MachineGone?;
    } else {
      hide ControllerStep;
      StuckPhase(c, s, step, t, names, hash);
    }
    hide Next, SeesNothing, Complete, HasDeletingMachine;
    StuckMachines(c, s, step, t, names, hash);
  }

  /** "The control plane reaches `replicas` machines" is false of this code once an initialisation failed after its
      first machine: with any number of owned machines but none, all matching the spec, no run under that spec ever
      creates or deletes one. */
  lemma {:induction false} NeverToppedUp(c: Config, r: Run)
    requires IsFreeRun(c, r) && FixedSpec(r)
    requires var s := First(r); s.phase.Idle? && s.machines != map[] && Complete(s) && !HasDeletingMachine(s.machines)
    ensures Stuck(Last(r), First(r).machines.Keys, First(r).hash)
    ensures Creates(r) == 0 && Deletes(r) == 0 && |Last(r).machines| == |First(r).machines|
  {
    if r.After? {
      hide Stuck, Next;
      NeverToppedUp(c, r.before);
      assert First(r).machines.Keys != {};
      StuckNext(c, Last(r.before), r.step, r.now, First(r).machines.Keys, First(r).hash);
    }
    assert Stuck(Last(r), First(r).machines.Keys, First(r).hash);
    SameKeys(Last(r).machines, First(r).machines);
  }

  lemma DealtExists(domains: set<string>, ms: Collection, n: nat) returns (slots: seq<Option<string>>)
    ensures IsDealt(domains, ms, slots, n)
  {
    if domains == {} {
      slots := seq(n, _ => None);
    } else {
      var order := RankingExists(domains, ms);
      NoRepeats(order, domains);
      slots := seq(n, i requires 0 <= i < n => Some(order[i % |order|]));
      assert RoundRobin(slots, order);
    }
  }

  /** Machines of the spec only, none being deleted. */
  predicate Fresh(s: System) {
    Complete(s) && !HasDeletingMachine(s.machines)
  }

  lemma {:induction false} InitialiseSome(c: Config, r: Run, k: nat) returns (p: Run)
    requires IsRun(c, r) && FixedSpec(r) && Last(r).phase.Initialising? && Fresh(Last(r))
        && Last(r).local.hash == Last(r).hash
    requires k <= |Last(r).local.slots|
    ensures IsRun(c, p) && First(p) == First(r) && FixedSpec(p) && Fresh(Last(p))
    ensures |Last(p).machines| == |Last(r).machines| + k
    decreases k
  {
    p := r;
    if k > 0 {
      p := InitialiseOne(c, r);
      p := InitialiseSome(c, p, k - 1);
    }
  }

  lemma InitialiseOne(c: Config, r: Run) returns (p: Run)
    requires IsRun(c, r) && FixedSpec(r) && Last(r).phase.Initialising? && Fresh(Last(r))
        && Last(r).local.hash == Last(r).hash
    requires Last(r).local.slots != []
    ensures IsRun(c, p) && First(p) == First(r) && FixedSpec(p) && Last(p).phase.Initialising? && Fresh(Last(p))
    ensures |Last(p).machines| == |Last(r).machines| + 1 && Last(p).local.slots == Last(r).local.slots[1..]
    ensures Last(p).local.hash == Last(p).hash
  {
    hide IsRun;
    var s := Last(r);
    var name := FreshName(s.machines.Keys);
    var m := Machine(name, Some(c.name), Some(s.local.hash), s.local.slots[0], 0, None, false, Some(Owner(c)));
    var ms := s.machines[name := m];
    AddedSize(s.machines, name, m);
    p := Then(c, r, Initialise(m), s.(machines := ms, local := s.local.(slots := s.local.slots[1..])));
  }

  lemma StartInitialising(c: Config, s: System) returns (r: Run)
    requires s.phase.Idle? && s.machines == map[] && c.replicas > 0
    ensures IsRun(c, r) && First(r) == s && FixedSpec(r)
    ensures Last(r).phase.Initialising? && Last(r).machines == s.machines && Last(r).local.hash == Last(r).hash
    ensures |Last(r).local.slots| == c.replicas
  {
    r := Start(s);
    var l := s.local.(hash := s.hash);
    r := Then(c, r, Begin, Read(s, Started, l));
    l := l.(seen := s.machines);
    hide IsRun;
    r := Then(c, r, List, Read(s, Owning, l));
    var slots := DealtExists(FilterControlPlane(c.domains), s.machines, c.replicas);
    hide IsDealt;
    r := Then(c, r, Dispatch, Read(s, Initialising, l.(slots := slots)));
  }

  /** An initialisation that fails after k machines: from no machines each number up to `replicas` is left by some run.
      */
  lemma InitialisationMayLeave(c: Config, s: System, k: nat) returns (r: Run)
    requires s.phase.Idle? && s.machines == map[] && k <= c.replicas && c.replicas > 0
    ensures IsRun(c, r) && First(r) == s && FixedSpec(r)
    ensures Last(r).phase.Idle? && |Last(r).machines| == k && Fresh(Last(r))
  {
    r := StartInitialising(c, s);
    hide IsRun;
    r := InitialiseSome(c, r, k);
    r := Then(c, r, GiveUp, Read(Last(r), Idle, Last(r).local));
  }

  ghost predicate Reaches(c: Config, s: System, n: nat) {
    exists r :: IsRun(c, r) && First(r) == s && FixedSpec(r) && |Last(r).machines| == n
  }

  /** When `replicas` is reached: from rest with only machines of the spec and none being deleted, some run under that
      spec has `replicas` machines exactly if there are none at the start, or `replicas`. */
  lemma ReplicasReachedExactly(c: Config, s: System)
    requires s.phase.Idle? && Fresh(s)
    ensures Reaches(c, s, c.replicas) <==> s.machines == map[] || |s.machines| == c.replicas
  {
    if |s.machines| == c.replicas {
      var r := Start(s);
      assert IsRun(c, r) && First(r) == s && FixedSpec(r) && |Last(r).machines| == c.replicas;
    } else if s.machines == map[] {
      var r := InitialisationMayLeave(c, s, c.replicas);
    } else {
      forall r | IsRun(c, r) && First(r) == s && FixedSpec(r) ensures |Last(r).machines| != c.replicas {
        RunIsFree(c, r);
        NeverToppedUp(c, r);
      }
    }
  }

  /** One machine up or down at a time brings the control plane to `replicas`, if enough machines are outdated. */
  lemma {:induction false} ToReplicas(c: Config, q: Run, r: Run) returns (p: Run)
    requires c.nodeFirst && Good(c, q, r) && Quiet(Last(q))
    requires var (m, o) := Counts(Last(q)); m == c.replicas || (o >= 1 && m - o <= c.replicas)
    ensures Good(c, p, r) && |Last(p).machines| == c.replicas
    decreases ToDo(c, Last(q))
  {
    p := q;
    QuietCounts(Last(q));
    if Counts(Last(q)).0 != c.replicas {
      hide Good, Quiet, Counts, ToDo, Advanced, AnyOutdated;
      p := Advance(c, p, r);
      var t := Last(p);
      FewerToDo(c, Last(q), t);
      Nearer(c, Last(q), t);
      p := Settle(c, p, r);
      SameToDo(c, Last(p), t);
      p := ToReplicas(c, p, r);
    }
  }

  lemma Nearer(c: Config, s: System, t: System)
    requires Advanced(c, s, t) && Counts(s).1 >= 1
    requires Counts(s).0 != c.replicas && Counts(s).0 - Counts(s).1 <= c.replicas
    ensures Counts(t).0 == c.replicas || (Counts(t).1 >= 1 && Counts(t).0 - Counts(t).1 <= c.replicas)
  {
    hide Counts;
  }

  /** With machines to upgrade the outcome is another: from k joined machines with o of them outdated, some run under
      the spec has `replicas` machines exactly if k is `replicas`, or something is outdated and no more than `replicas`
      match. So the upgrade makes up for a partial initialisation. */
  lemma UpgradeReachesReplicasExactly(c: Config, s: System)
    requires c.nodeFirst && Joined(c, s) && Controlled(c, s.machines)
    ensures var k, o := |s.machines|, |LiveOutdated(s.machines, s.hash)|;
            Reaches(c, s, c.replicas) <==> k == c.replicas || (o > 0 && k - o <= c.replicas)
  {
    var k, o := |s.machines|, |LiveOutdated(s.machines, s.hash)|;
    if k == c.replicas || (o > 0 && k - o <= c.replicas) {
      var r := Start(s);
      JoinedQuiet(c, s);
      ReachableIsGood(c, r);
      var p := ToReplicas(c, r, r);
    } else {
      hide IsRun, IsFreeRun, LiveOutdated, Joined;
      forall r | IsRun(c, r) && First(r) == s && FixedSpec(r) ensures |Last(r).machines| != c.replicas {
        RunIsFree(c, r);
        NeverReaches(c, r);
      }
    }
  }

  lemma NeverReaches(c: Config, r: Run)
    requires c.nodeFirst && IsFreeRun(c, r) && Joined(c, First(r)) && FixedSpec(r)
    requires var k, o := |First(r).machines|, |LiveOutdated(First(r).machines, First(r).hash)|;
             k != c.replicas && (o == 0 || k - o > c.replicas)
    ensures |Last(r).machines| != c.replicas
  {
    var s, t := First(r), Last(r);
    if |LiveOutdated(s.machines, s.hash)| == 0 {
      JoinedComplete(c, s);
      if s.machines != map[] {
        NeverToppedUp(c, r);
      }
    } else {
      LedgerAlways(c, r);
      SubsetSize(Live(t.machines), t.machines.Keys);
      assert |t.machines.Keys| == |t.machines|;
    }
  }

  lemma JoinedComplete(c: Config, s: System)
    requires Joined(c, s) && |LiveOutdated(s.machines, s.hash)| == 0
    ensures Complete(s) && !HasDeletingMachine(s.machines)
  {
    forall n | n in s.machines ensures MatchesHash(s.machines[n], s.hash) {
      assert n !in LiveOutdated(s.machines, s.hash);
    }
  }

  // ----- Machines that go before their nodes ------------------------------------------------------

  lemma {:induction false} RunOfWeaker(d: Config, c: Config, r: Run)
    requires IsRun(d, r) && c == d.(nodeFirst := false)
    ensures IsRun(c, r)
  {
    if r.After? {
      hide Next, WellChosen;
      RunOfWeaker(d, c, r.before);
      NextOfWeaker(d, c, Last(r.before), r.step, r.now);
    }
  }

  lemma NextOfWeaker(d: Config, c: Config, s: System, step: Step, t: System)
    requires Next(d, s, step, t) && WellChosen(d, s, step, t) && c == d.(nodeFirst := false)
    ensures Next(c, s, step, t) && WellChosen(c, s, step, t)
  {
    assert Owner(c) == Owner(d);
  }

  /** A deletion just decided: v is being deleted with its node still there, all other machines serve. */
  predicate Departing(c: Config, s: System, v: string) {
    && s.phase.Idle? && Keyed(s.machines) && v in s.machines && s.machines[v].deleting
    && s.nodeOf.Keys == s.machines.Keys && DistinctNodes(s.nodeOf) && |s.machines| == c.replicas + 1
    && (forall n | n in s.machines && n != v :: !s.machines[n].deleting && s.machines[n].nodeRef == Some(s.nodeOf[n]))
    && Controlled(c, s.machines)
    && exists n :: n in s.machines && n != v && !MatchesHash(s.machines[n], s.hash)
  }

  lemma MarkedIsDeparting(c: Config, s: System, v: string, t: System)
    requires Inv(c, s) && Quiet(s) && v in s.machines && |s.machines| == c.replicas + 1
    requires t.machines == MarkDeleting(s.machines, v) && t.nodeOf == s.nodeOf && t.phase.Idle?
    requires Controlled(c, t.machines) && LiveOutdated(t.machines, t.hash) != {}
    ensures Departing(c, t, v)
  {
    hide LocalOk, SeenOk, CountsOk;
    assert t.machines.Keys == s.machines.Keys;
    SameKeys(t.machines, s.machines);
    forall n | n in s.machines ensures n in s.nodeOf && s.machines[n].nodeRef == Some(s.nodeOf[n])
        && !s.machines[n].deleting {
      assert n in Available(s.machines);
    }
    assert s.nodeOf.Keys == s.machines.Keys;
    var n :| n in LiveOutdated(t.machines, t.hash);
    assert n != v;
  }

  lemma GoodParts(c: Config, q: Run, r: Run)
    requires Good(c, q, r)
    ensures IsRun(c, q) && First(q) == First(r) && FixedSpec(q) && Inv(c, Last(q)) && Controlled(c, Last(q).machines)
  {
  }

  lemma ToDeparting(c: Config, s: System) returns (r: Run, v: string)
    requires c.nodeFirst && Settled(c, s) && Controlled(c, s.machines) && |LiveOutdated(s.machines, s.hash)| >= 2
    ensures IsRun(c, r) && First(r) == s && FixedSpec(r) && Departing(c, Last(r), v)
  {
    var start := Start(s);
    SomeOutdated(s);
    JoinedQuiet(c, s);
    QuietCounts(s);
    ReachableIsGood(c, start);
    var p, q := start, start;
    hide Quiet, AnyOutdated, Settled, Inv, Departing, Good, Controlled, IsRun;
    p := Advance(c, p, start);
    p := Settle(c, p, start);
    QuietCounts(Last(p));
    p, q := MarkNext(c, p, start);
    r, v := p, p.step.victim;
    GoodParts(c, q, start);
    GoodParts(c, p, start);
    MarkedIsDeparting(c, Last(q), v, Last(p));
  }

  /** With one machine more than `replicas`, an undisturbed reconcile marks one. */
  lemma MarkNext(c: Config, q: Run, r: Run) returns (p: Run, before: Run)
    requires c.nodeFirst && Good(c, q, r) && Quiet(Last(q)) && AnyOutdated(Last(q).machines, Last(q).hash)
        && |Last(q).machines| == c.replicas + 1
    ensures Good(c, before, r) && Quiet(Last(before)) && |Last(before).machines| == c.replicas + 1
    ensures Good(c, p, r) && p.After? && p.step.Delete? && p.step.victim in Last(before).machines && Last(p).phase.Idle?
    ensures Last(p).machines == MarkDeleting(Last(before).machines, p.step.victim)
        && Last(p).nodeOf == Last(before).nodeOf
    ensures |LiveOutdated(Last(p).machines, Last(p).hash)| == |LiveOutdated(Last(q).machines, Last(q).hash)| - 1
  {
    before := q;
    GoodInv(c, q, r);
    QuietMatches(c, Last(q));
    hide Good, Quiet, AnyOutdated, Inv, Matched, Available;
    p := ReachGate(c, q, r);
    p := AdvanceDown(c, p, r);
    assert Counts(Last(p)).1 == Counts(Last(q)).1 - 1;
  }

  /** The machine of a departing node has gone first: one node more than machines, all of which serve. */
  predicate Haunted(c: Config, ms: Collection, nodeOf: map<string, string>, hash: string, v: string) {
    && Keyed(ms) && v !in ms && |ms| == c.replicas
    && nodeOf.Keys == ms.Keys + {v} && DistinctNodes(nodeOf)
    && (forall n | n in ms :: !ms[n].deleting && ms[n].nodeRef == Some(nodeOf[n]))
    && Controlled(c, ms) && AnyOutdated(ms, hash)
  }

  lemma OthersServe(c: Config, s: System, v: string)
    requires Departing(c, s, v)
    ensures var ms := s.machines - {v};
            && (forall n | n in ms :: !ms[n].deleting && ms[n].nodeRef == Some(s.nodeOf[n]))
            && Keyed(ms) && Controlled(c, ms) && AnyOutdated(ms, s.hash)
  {
    var ms := s.machines - {v};
    assert forall n | n in ms :: n in s.machines && n != v && ms[n] == s.machines[n];
    var n :| n in s.machines && n != v && !MatchesHash(s.machines[n], s.hash);
    assert n in ms;
  }

  lemma GoneIsHaunted(c: Config, s: System, v: string)
    requires Departing(c, s, v)
    ensures Haunted(c, s.machines - {v}, s.nodeOf, s.hash, v)
  {
    RemovedSize(s.machines, v);
    OthersServe(c, s, v);
    assert s.nodeOf.Keys == (s.machines - {v}).Keys + {v};
    hide Controlled, AnyOutdated, Keyed, DistinctNodes;
  }

  lemma GoneFirst(c: Config, s: System, v: string)
    requires !c.nodeFirst && v in s.machines && s.machines[v].deleting
    ensures EnvironmentStep(c, s, MachineGone(v), s.(machines := s.machines - {v}))
  {
  }

  lemma GhostLeaves(c: Config, s: System, v: string)
    requires v !in s.machines && v in s.nodeOf
    ensures EnvironmentStep(c, s, NodeLeaves(v), s.(nodeOf := s.nodeOf - {v}))
  {
  }

  lemma MachineFirst(c: Config, r: Run, v: string) returns (p: Run)
    requires !c.nodeFirst && IsRun(c, r) && Departing(c, Last(r), v)
    ensures FixedSpec(r) ==> FixedSpec(p)
    ensures IsRun(c, p) && First(p) == First(r) && Last(p).phase.Idle?
        && Haunted(c, Last(p).machines, Last(p).nodeOf, Last(p).hash, v)
  {
    var s := Last(r);
    assert v in s.machines && s.machines[v].deleting && s.phase.Idle?;
    GoneFirst(c, s, v);
    hide IsRun, Departing, Haunted, EnvironmentStep;
    GoneIsHaunted(c, s, v);
    p := Then(c, r, MachineGone(v), s.(machines := s.machines - {v}));
  }

  lemma GhostCounts(c: Config, s: System, v: string)
    requires Haunted(c, s.machines, s.nodeOf, s.hash, v)
    ensures |s.nodeOf.Values| == c.replicas + 1
    ensures Matched((s.nodeOf - {v}).Values, s.machines) && !HasDeletingMachine(s.machines)
  {
    ImageSize(s.nodeOf.Keys, s.nodeOf.Values, s.nodeOf);
    assert |s.nodeOf.Keys| == |s.machines.Keys| + 1;
    assert |s.machines.Keys| == |s.machines|;
    var rest := s.nodeOf - {v};
    assert rest.Keys == s.machines.Keys;
    ImageSize(rest.Keys, rest.Values, rest);
    forall n | n in s.machines ensures s.machines[n].nodeRef.Some? && s.machines[n].nodeRef.value in rest.Values {
      assert n in rest && rest[n] == s.nodeOf[n];
    }
  }

  lemma ListGhost(c: Config, r: Run) returns (p: Run)
    requires IsRun(c, r) && Last(r).phase.Idle? && Controlled(c, Last(r).machines)
        && AnyOutdated(Last(r).machines, Last(r).hash)
    ensures FixedSpec(r) ==> FixedSpec(p)
    ensures IsRun(c, p) && First(p) == First(r)
    ensures var s := Last(r); Last(p) == Read(s, Listed, s.local.(hash := s.hash, seen := s.machines))
  {
    var s := Last(r);
    hide IsRun, AnyOutdated;
    var l := s.local.(hash := s.hash);
    p := Then(c, r, Begin, Read(s, Started, l));
    l := l.(seen := s.machines);
    p := Then(c, p, List, Read(s, Owning, l));
    p := Then(c, p, Dispatch, Read(s, Listed, l));
  }

  lemma CountAll(c: Config, r: Run)
    requires IsRun(c, r) && Last(r).phase.Listed?
    ensures var s := Last(r); IsRun(c, After(r, Status, Read(s, Counted, s.local.(nodes := |s.nodeOf.Values|))))
  {
  }

  lemma HauntedFacts(c: Config, s: System, v: string)
    requires Haunted(c, s.machines, s.nodeOf, s.hash, v)
    ensures Controlled(c, s.machines) && AnyOutdated(s.machines, s.hash) && v !in s.machines && v in s.nodeOf
  {
  }

  lemma CountGhost(c: Config, r: Run, v: string) returns (p: Run)
    requires IsRun(c, r) && Last(r).phase.Idle? && Haunted(c, Last(r).machines, Last(r).nodeOf, Last(r).hash, v)
    ensures FixedSpec(r) ==> FixedSpec(p)
    ensures IsRun(c, p) && First(p) == First(r)
    ensures var s :=
        Last(r); Last(p) == Read(s, Counted, s.local.(hash := s.hash, seen := s.machines, nodes := c.replicas + 1))
    ensures Haunted(c, Last(p).machines, Last(p).nodeOf, Last(p).hash, v)
  {
    hide IsRun, AnyOutdated, Matched, Haunted, Controlled, HasDeletingMachine;
    GhostCounts(c, Last(r), v);
    HauntedFacts(c, Last(r), v);
    p := ListGhost(c, r);
    CountAll(c, p);
    p := After(p, Status, Read(Last(p), Counted, Last(p).local.(nodes := c.replicas + 1)));
  }

  lemma CheckAgain(c: Config, r: Run) returns (p: Run)
    requires IsRun(c, r) && Last(r).phase.Healthy? && Last(r).local.nodes > c.replicas
    requires Matched(Last(r).nodeOf.Values, Last(r).machines)
    ensures FixedSpec(r) ==> FixedSpec(p)
    ensures IsRun(c, p) && First(p) == First(r)
    ensures Last(p) == Read(Last(r), Cleared, Last(r).local.(checked := Last(r).nodeOf.Values))
  {
    hide IsRun, Matched;
    var s := Last(r);
    var l := s.local.(checked := s.nodeOf.Values);
    p := Then(c, r, Recheck, Read(s, NodesReread, l));
    p := Then(c, p, Rematch, Read(s, Cleared, l));
  }

  lemma CheckFirst(c: Config, r: Run) returns (p: Run)
    requires IsRun(c, r) && Last(r).phase.Counted?
    requires Matched(Last(r).nodeOf.Values, Last(r).machines) && !HasDeletingMachine(Last(r).local.seen)
    ensures FixedSpec(r) ==> FixedSpec(p)
    ensures IsRun(c, p) && First(p) == First(r)
    ensures Last(p) == Read(Last(r), Healthy, Last(r).local.(checked := Last(r).nodeOf.Values))
  {
    hide IsRun, Matched, HasDeletingMachine;
    var s := Last(r);
    var l := s.local.(checked := s.nodeOf.Values);
    p := Then(c, r, CheckNodes, Read(s, NodesRead, l));
    p := Then(c, p, MatchMachines, Read(s, Healthy, l));
  }

  /** The node leaves after it was counted, and the health check finds nothing wrong. */
  lemma PassGhost(c: Config, r: Run, v: string) returns (p: Run)
    requires IsRun(c, r) && Last(r).phase.Counted? && Haunted(c, Last(r).machines, Last(r).nodeOf, Last(r).hash, v)
    requires Last(r).local.seen == Last(r).machines && Last(r).local.hash == Last(r).hash
        && Last(r).local.nodes == c.replicas + 1
    ensures FixedSpec(r) ==> FixedSpec(p)
    ensures IsRun(c, p) && First(p) == First(r) && Last(p).phase.Cleared?
    ensures Last(p).machines == Last(r).machines && Last(p).local.seen == Last(r).machines
        && Last(p).local.hash == Last(r).hash
  {
    var s := Last(r);
    hide IsRun, Haunted, Matched, HasDeletingMachine, Controlled, AnyOutdated, EnvironmentStep;
    GhostCounts(c, s, v);
    HauntedFacts(c, s, v);
    GhostLeaves(c, s, v);
    p := Then(c, r, NodeLeaves(v), s.(nodeOf := s.nodeOf - {v}));
    p := CheckFirst(c, p);
    p := CheckAgain(c, p);
  }

  lemma AllServeBut(c: Config, s: System, v: string)
    requires Haunted(c, s.machines, s.nodeOf, s.hash, v)
    ensures Available(s.machines) == s.machines.Keys && |s.machines.Keys| == c.replicas
        && AnyOutdated(s.machines, s.hash)
  {
    assert |s.machines.Keys| == |s.machines|;
  }

  lemma DeleteServing(c: Config, r: Run) returns (p: Run)
    requires IsRun(c, r) && Last(r).phase.Cleared? && Last(r).local.seen == Last(r).machines
    requires AnyOutdated(Last(r).machines, Last(r).local.hash)
    ensures FixedSpec(r) ==> FixedSpec(p)
    ensures IsRun(c, p) && First(p) == First(r) && p.After? && p.step.Delete? && p.step.victim in Last(r).machines
    ensures Last(p).machines == MarkDeleting(Last(r).machines, p.step.victim)
  {
    hide IsRun;
    var s := Last(r);
    OutdatedExists(s.local.seen, s.local.hash);
    var v := VictimExists(FilterControlPlane(c.domains), s.local.seen, Candidates(s.local.seen, s.local.hash));
    hide IsVictim;
    p := Then(c, r, Delete(v), s.(machines := MarkDeleting(s.machines, v), phase := Idle));
  }

  lemma OneLess(ms: Collection, v: string)
    requires v in ms && Available(ms) == ms.Keys
    ensures |Available(MarkDeleting(ms, v))| == |ms.Keys| - 1
  {
    assert Available(MarkDeleting(ms, v)) == ms.Keys - {v};
  }

  /** That nodes leave before their machines is needed: without it, every settled control plane with two machines to
      replace has a run, without failures, in which fewer than `replicas` machines serve. */
  lemma NodesMustLeaveFirst(c: Config, s: System) returns (r: Run)
    requires !c.nodeFirst && Settled(c, s) && Controlled(c, s.machines) && |LiveOutdated(s.machines, s.hash)| >= 2
    ensures IsRun(c, r) && First(r) == s && FixedSpec(r) && |Available(Last(r).machines)| == c.replicas - 1
  {
    var d := c.(nodeFirst := true);
    assert Owner(c) == Owner(d);
    var v;
    r, v := ToDeparting(d, s);
    RunOfWeaker(d, c, r);
    assert Departing(c, Last(r), v);
    hide IsRun, Departing, Settled, Haunted, AnyOutdated, Available, LiveOutdated, Controlled;
    r := MachineFirst(c, r, v);
    var ms := Last(r).machines;
    AllServeBut(c, Last(r), v);
    r := CountGhost(c, r, v);
    r := PassGhost(c, r, v);
    r := DeleteServing(c, r);
    OneLess(ms, r.step.victim);
  }

  // ----- With at most one machine to replace ------------------------------------------------------

  /** Nothing deleted yet: the run is one in which nodes leave first. */
  predicate Early(d: Config, r: Run) {
    IsFreeRun(d, r) && Deletes(r) == 0 && !HasDeletingMachine(Last(r).machines)
  }

  /** What the running reconcile has seen, after the only outdated machine was marked. */
  predicate SeesOver(s: System) {
    && !s.phase.Initialising? && !PastGate(s.phase)
    && (!s.phase.Idle? ==> s.local.hash == s.hash)
    && (s.phase.Owning? ==> Live(s.machines) <= s.local.seen.Keys)
    && (s.phase.Listed? || PastCount(s.phase) ==> AnyOutdated(s.local.seen, s.hash))
    && (s.phase.Owning? || s.phase.Listed? || PastCount(s.phase) ==>
          forall n | n in s.local.seen && !MatchesHash(s.local.seen[n], s.hash) :: s.local.seen[n].deleting)
  }

  /** Every outdated machine is being deleted, and enough machines serve. */
  predicate Over(c: Config, s: System) {
    LiveOutdated(s.machines, s.hash) == {} && |Available(s.machines)| >= c.replicas && SeesOver(s)
  }

  lemma EarlyNext(c: Config, d: Config, s: System, step: Step, t: System)
    requires d == c.(nodeFirst := true) && Next(c, s, step, t)
    requires !HasDeletingMachine(s.machines) && !step.Delete?
    ensures Next(d, s, step, t) && !HasDeletingMachine(t.machines)
  {
    assert Owner(c) == Owner(d);
    if !ChangesMachines(step) {
      OthersKeepMachines(c, s, step, t);
      hide Next;
    }
  }

  lemma MarkedIsOver(d: Config, s: System, v: string, t: System)
    requires Inv(d, s) && Inv(d, t) && DeleteStep(d, s, v, t)
    requires HashOk(s) && |LiveOutdated(s.machines, s.hash)| <= 1
    ensures Over(d, t)
  {
    BookDelete(d, s, v, t);
    DeleteServes(d, s, v, t);
    assert t.phase.Idle?;
    hide DeleteStep, Inv;
  }

  lemma DeleteServes(c: Config, s: System, v: string, t: System)
    requires Inv(c, s) && DeleteStep(c, s, v, t)
    ensures |Available(t.machines)| >= c.replicas
  {
    AllServe(c, s);
    hide Inv;
    assert Available(t.machines) == Available(s.machines) - {v};
  }

  lemma OverMachines(c: Config, s: System, step: Step, t: System)
    requires LiveOutdated(s.machines, s.hash) == {} && Next(c, s, step, t) && !step.SpecChanges?
    requires !step.Create? && !step.Delete? && !step.Initialise?
    ensures LiveOutdated(t.machines, t.hash) == {} && |Available(t.machines)| >= |Available(s.machines)|
    ensures Live(t.machines) == Live(s.machines) && t.hash == s.hash
  {
    assert Available(s.machines) <= Available(t.machines);
    SubsetSize(Available(s.machines), Available(t.machines));
    if !step.MachineGone? {
      OthersKeepMachines(c, s, step, t);
      hide Next;
      SameStanding(s.machines, t.machines, s.hash);
    }
  }

  lemma MarkedBlocks(seen: Collection, hash: string)
    ensures AnyOutdated(seen, hash) && (forall n | n in seen && !MatchesHash(seen[n], hash) :: seen[n].deleting) ==>
              HasDeletingMachine(seen)
  {
  }

  lemma OverSees(c: Config, s: System, step: Step, t: System)
    requires Over(c, s) && ControllerStep(c, s, step, t)
    ensures SeesOver(t) && !step.Create? && !step.Delete? && !step.Initialise?
  {
    MarkedBlocks(s.local.seen, s.hash);
    if step.List? {
      forall n | n in s.machines && !MatchesHash(s.machines[n], s.hash) ensures s.machines[n].deleting {
        assert n !in LiveOutdated(s.machines, s.hash);
      }
    } else if step.Dispatch? {
      SubsetSize(Available(s.machines), s.local.seen.Keys);
      assert |s.local.seen.Keys| == |s.local.seen|;
    }
  }

  lemma OverNext(c: Config, s: System, step: Step, t: System)
    requires Over(c, s) && Next(c, s, step, t) && !step.SpecChanges?
    ensures Over(c, t)
  {
    if IsEnvironment(step) {
      hide LiveOutdated, AnyOutdated;
      OverMachines(c, s, step, t);
      assert t.phase == s.phase && t.local == s.local;
    } else {
      hide ControllerStep, LiveOutdated, SeesOver;
      OverSees(c, s, step, t);
      OverMachines(c, s, step, t);
    }
  }

  lemma {:induction false} EarlyOrOver(c: Config, d: Config, r: Run)
    requires d == c.(nodeFirst := true) && IsFreeRun(c, r) && FixedSpec(r) && Settled(c, First(r))
    requires |LiveOutdated(First(r).machines, First(r).hash)| <= 1
    ensures Early(d, r) || Over(c, Last(r))
  {
    if r.After? {
      hide Inv, Next, Over, HashOk, Ledger, LiveOutdated, Available, HasDeletingMachine;
      EarlyOrOver(c, d, r.before);
      var s := Last(r.before);
      SettledForBoth(c, d, First(r));
      if Over(c, s) {
        OverNext(c, s, r.step, r.now);
      } else if r.step.Delete? {
        LedgerAlways(d, r.before);
        DeleteForBoth(c, d, s, r.step, r.now);
        InvNext(d, s, r.step, r.now);
        MarkedIsOver(d, s, r.step.victim, r.now);
        OverForBoth(c, d, r.now);
      } else {
        EarlyNext(c, d, s, r.step, r.now);
      }
    }
  }

  lemma SettledForBoth(c: Config, d: Config, s: System)
    requires d == c.(nodeFirst := true)
    ensures Settled(c, s) <==> Settled(d, s)
  {
  }

  lemma OverForBoth(c: Config, d: Config, s: System)
    requires d == c.(nodeFirst := true)
    ensures Over(c, s) <==> Over(d, s)
  {
  }

  lemma DeleteForBoth(c: Config, d: Config, s: System, step: Step, t: System)
    requires d == c.(nodeFirst := true) && Next(c, s, step, t) && step.Delete?
    ensures Next(d, s, step, t) && DeleteStep(d, s, step.victim, t)
  {
  }

  ghost predicate Falls(c: Config, s: System) {
    exists r :: IsRun(c, r) && First(r) == s && FixedSpec(r) && |Available(Last(r).machines)| < c.replicas
  }

  /** What the assumption buys: without it, under a fixed spec, fewer than `replicas` machines can come to serve exactly
      if there are at least two machines to replace. */
  lemma AvailabilityLostExactly(c: Config, s: System)
    requires !c.nodeFirst && Settled(c, s) && Controlled(c, s.machines)
    ensures Falls(c, s) <==> |LiveOutdated(s.machines, s.hash)| >= 2
  {
    hide IsRun, IsFreeRun, LiveOutdated, Available, Settled, Controlled, Over;
    if |LiveOutdated(s.machines, s.hash)| >= 2 {
      var r := NodesMustLeaveFirst(c, s);
    } else {
      forall r | IsRun(c, r) && First(r) == s && FixedSpec(r) ensures |Available(Last(r).machines)| >= c.replicas {
        RunIsFree(c, r);
        EnoughServe(c, r);
      }
    }
  }

  lemma EnoughServe(c: Config, r: Run)
    requires IsFreeRun(c, r) && FixedSpec(r) && Settled(c, First(r))
        && |LiveOutdated(First(r).machines, First(r).hash)| <= 1
    ensures |Available(Last(r).machines)| >= c.replicas
  {
    hide IsFreeRun, Joined;
    var d := c.(nodeFirst := true);
    EarlyOrOver(c, d, r);
    SettledForBoth(c, d, First(r));
    if Early(d, r) {
      AvailabilityAndSurge(d, r);
    }
  }
}
