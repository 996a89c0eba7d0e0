/** The control-plane reconciler in the form of the code, with other actors free to act before each of its API calls
    and any call free to fail.  Whatever they do, what it does is a run of the upgrade protocol. */
module ControlPlaneController {
  import opened Wrappers
  import opened Runs
  import opened Machines
  import opened FailureDomains
  import opened Health
  import opened RollingUpgrade
  import opened UpgradeSafety
  import opened UpgradeLedger
  import opened UpgradeLiveness

  datatype Outcome = Nothing | Requeue | RequeueAfter | Error

  /** What comes before the machines: whether the infrastructure template, the certificates and the kubeconfig can be
      reconciled, and whether the cluster has its endpoint. */
  datatype Prerequisites = Prerequisites(template: bool, certificates: bool, endpoint: bool, kubeconfig: bool)

  /** What the outside decides: the prerequisites, the actions of others before each API call, which calls fail, the
      names and creation times given to new machines, and the components of the nodes. */
  datatype World = World(before: Prerequisites, gaps: nat -> seq<Step>, faults: nat -> bool,
                         names: nat -> string, times: nat -> int, nodes: map<string, Node>)

  /** No other actor comes between. */
  ghost predicate Alone(w: World) {
    forall k: nat :: w.gaps(k) == []
  }

  /** Nor does any call fail. */
  ghost predicate Calm(w: World) {
    Alone(w) && w.before == Prerequisites(true, true, true, true) && forall k: nat :: !w.faults(k)
  }

  /** Exactly one machine of the spec added, in a domain with fewest of the listed machines. */
  ghost predicate Added(c: Config, owned: Collection, spec: string, before: Collection, after: Collection) {
    exists m: Machine :: IsNewMachine(c, m, spec) && IsFewest(FilterControlPlane(c.domains), owned, m.failureDomain)
                         && m.name !in before && after == before[m.name := m]
  }

  /** Exactly one machine marked for deletion, the victim among the outdated ones listed. */
  ghost predicate Removed(c: Config, owned: Collection, spec: string, before: Collection, after: Collection) {
    exists v :: IsVictim(FilterControlPlane(c.domains), owned, Outdated(owned, spec), v)
        && after == MarkDeleting(before, v)
  }

  /** No two calls generate the same name. */
  ghost predicate DistinctNames(w: World) {
    forall j: nat, k: nat | j < k :: w.names(j) != w.names(k)
  }

  /** The names generated are new to these machines. */
  ghost predicate NewNames(w: World, ms: Collection) {
    forall k: nat :: w.names(k) !in ms
  }

  ghost predicate NodesPass(w: World, nodes: set<string>) {
    forall x | x in nodes :: x in w.nodes && PassesCheck(w.nodes[x])
  }

  /** The same point of the same reconcile, later. */
  ghost predicate Later(q: Run, r: Run) {
    Unscaled(q, r) && Last(q).phase == Last(r).phase && Last(q).local == Last(r).local
  }

  /** Later in the same reconcile, which has not created or deleted a machine since. */
  ghost predicate Unscaled(q: Run, r: Run) {
    Extends(q, r) && Creates(q) == Creates(r) && Deletes(q) == Deletes(r)
  }

  lemma UnscaledTransitive(p: Run, q: Run, r: Run)
    requires Unscaled(p, q) && Unscaled(q, r)
    ensures Unscaled(p, r)
  {
    ExtendsTransitive(p, q, r);
  }

  lemma LaterTransitive(p: Run, q: Run, r: Run)
    requires Later(p, q) && Later(q, r)
    ensures Later(p, r)
  {
    ExtendsTransitive(p, q, r);
  }

  /** The machines were named by earlier calls. */
  ghost predicate NamedBy(w: World, calls: nat, made: seq<Machine>) {
    forall m | m in made :: exists k: nat :: k < calls && m.name == w.names(k)
  }

  lemma NothingCreated(ms: Collection)
    ensures FreshNames(ms, []) && InsertAll(ms, []) == ms
  {
  }

  lemma OneMoreCreated(ms: Collection, made: seq<Machine>, m: Machine)
    ensures FreshNames(ms, made) && m.name !in InsertAll(ms, made) ==>
              FreshNames(ms, made + [m]) && InsertAll(ms, made + [m]) == InsertAll(ms, made)[m.name := m]
    ensures FailureDomainsOf(made + [m]) == FailureDomainsOf(made) + [m.failureDomain]
  {
    assert (made + [m])[..|made + [m]| - 1] == made;
    InsertedNames(ms, made);
  }

  lemma NotYetNamed(w: World, calls: nat, ms: Collection, made: seq<Machine>)
    requires NamedBy(w, calls, made)
    ensures NewNames(w, ms) && DistinctNames(w) ==> w.names(calls) !in InsertAll(ms, made)
  {
    InsertedNames(ms, made);
    if NewNames(w, ms) && DistinctNames(w) {
      forall m | m in made ensures m.name != w.names(calls) {
        var k: nat :| k < calls && m.name == w.names(k);
      }
    }
  }

  /** No machine is controlled by anybody else. */
  predicate Adoptable(c: Config, ms: Collection) {
    forall n | n in ms :: ms[n].controller.None? || ms[n].controller == Some(Owner(c))
  }

  function AdoptAll(c: Config, ms: Collection): Collection {
    map n | n in ms :: ms[n].(controller := Some(Owner(c)))
  }

  /** Those named that nobody controls are among these machines. */
  predicate FreeAmong(listed: Collection, names: set<string>, ms: Collection) {
    forall n | n in listed && n in names && listed[n].controller.None? :: n in ms
  }

  lemma AdoptedAlike(c: Config, ms: Collection, nodes: set<string>, hash: string)
    ensures var us := AdoptAll(c, ms);
            && us.Keys == ms.Keys && (Keyed(ms) ==> Keyed(us)) && (us == map[] <==> ms == map[])
            && (Matched(nodes, us) <==> Matched(nodes, ms)) && (HasDeletingMachine(us) <==> HasDeletingMachine(ms))
            && (AnyOutdated(us, hash) <==> AnyOutdated(ms, hash))
  {
    var us := AdoptAll(c, ms);
    assert us.Keys == ms.Keys && |us.Keys| == |us| && |ms.Keys| == |ms|;
    assert forall n | n in ms ::
        us[n].nodeRef == ms[n].nodeRef && us[n].deleting == ms[n].deleting && us[n].hash == ms[n].hash;
    if ms != map[] {
      var n :| n in ms;
      assert n in us;
    }
  }

  lemma {:induction false} FinishedGrows(q: Run, r: Run)
    requires Extends(q, r)
    ensures Creates(q) >= Creates(r) && Deletes(q) >= Deletes(r) && Rests(q) >= Rests(r)
    decreases q
  {
    if q != r {
      FinishedGrows(q.before, r);
    }
  }

  lemma NoneDeleting(ms: Collection)
    ensures HasDeletingMachine(ms) <==> Where(ms, (m: Machine) => m.deleting) != map[]
  {
    if n :| n in ms && ms[n].deleting {
      assert n in Where(ms, (m: Machine) => m.deleting);
    }
  }

  class Reconciler {
    const c: Config
    var machines: Collection
    var nodeOf: map<string, string>
    var hash: string
    var calls: nat
    ghost var run: Run

    ghost predicate Valid()
      reads this
    {
      && IsRun(c, run) && Keyed(machines)
      && Last(run).machines == machines && Last(run).nodeOf == nodeOf && Last(run).hash == hash
    }

    ghost function Now(): System
      reads this
    {
      Last(run)
    }

    /** The API servers' objects. */
    ghost function Store(): (Collection, map<string, string>, string)
      reads this
    {
      (machines, nodeOf, hash)
    }

    constructor (c: Config, machines: Collection, nodeOf: map<string, string>, hash: string)
      requires Keyed(machines)
      ensures Valid() && this.c == c && Now().phase.Idle? && run.Start?
      ensures this.machines == machines && this.nodeOf == nodeOf && this.hash == hash
    {
      this.c, this.machines, this.nodeOf, this.hash, calls := c, machines, nodeOf, hash, 0;
      run := Start(System(machines, nodeOf, hash, Idle, Local("", map[], 0, {}, [])));
    }

    /** One action of another actor, if it is possible. */
    method Interfere(step: Step)
      requires Valid()
      modifies this`machines, this`nodeOf, this`hash, this`run
      ensures Valid() && Later(run, old(run))
    {
      hide IsRun;
      match step {
        case NodeJoins(n, x) =>
          if n in machines && n !in nodeOf && !machines[n].deleting && machines[n].nodeRef.None?
              && x !in nodeOf.Values {
            nodeOf := nodeOf[n := x];
            Record(step);
          }
        case RefSet(n) =>
          if n in machines && n in nodeOf && machines[n].nodeRef.None? {
            machines := machines[n := machines[n].(nodeRef := Some(nodeOf[n]))];
            Record(step);
          }
        case NodeLeaves(n) =>
          if n in nodeOf && (n in machines ==> machines[n].deleting) {
            nodeOf := nodeOf - {n};
            Record(step);
          }
        case MachineGone(n) =>
          if n in machines && machines[n].deleting && (c.nodeFirst ==> n !in nodeOf) {
            machines := machines - {n};
            Record(step);
          }
        case SpecChanges(h) =>
          hash := h;
          Record(step);
        case _ =>
      }
    }

    ghost method Record(step: Step)
      requires IsRun(c, run) && Keyed(machines) && IsEnvironment(step)
      requires EnvironmentStep(c, Last(run), step, Last(run).(machines := machines, nodeOf := nodeOf, hash := hash))
      modifies this`run
      ensures Valid() && Later(run, old(run))
    {
      run := After(run, step, Last(run).(machines := machines, nodeOf := nodeOf, hash := hash));
    }

    /** Before each API call others may act, and the call may fail. */
    method Call(w: World) returns (ok: bool)
      requires Valid()
      modifies this
      ensures Valid() && Later(run, old(run)) && ok == !w.faults(old(calls)) && calls == old(calls) + 1
      ensures w.gaps(old(calls)) == [] ==>
          machines == old(machines) && nodeOf == old(nodeOf) && hash == old(hash) && run == old(run)
    {
      var script := w.gaps(calls);
      for i := 0 to |script|
        invariant Valid() && Later(run, old(run)) && calls == old(calls)
        invariant i == 0 ==> machines == old(machines) && nodeOf == old(nodeOf) && hash == old(hash) && run == old(run)
      {
        ghost var before := run;
        Interfere(script[i]);
        LaterTransitive(run, before, old(run));
      }
      ok := !w.faults(calls);
      calls := calls + 1;
    }

    /** The controller's own step. */
    ghost method Take(step: Step, phase: Phase, local: Local)
      requires IsRun(c, run) && Keyed(machines)
      requires Next(c, Last(run), step, System(machines, nodeOf, hash, phase, local))
      requires WellChosen(c, Last(run), step, System(machines, nodeOf, hash, phase, local))
      modifies this`run
      ensures Valid() && run == After(old(run), step, System(machines, nodeOf, hash, phase, local))
      ensures Extends(run, old(run)) && (!step.Create? && !step.Delete? ==> Unscaled(run, old(run)))
    {
      hide Next, WellChosen;
      run := After(run, step, System(machines, nodeOf, hash, phase, local));
    }

    ghost method Look(step: Step, phase: Phase, local: Local)
      requires Valid() && ReadStep(c, Now(), step, Read(Now(), phase, local))
      modifies this`run
      ensures Valid() && Now() == Read(old(Now()), phase, local)
      ensures run == After(old(run), step, Now())
    {
      Take(step, phase, local);
    }

    /** A reconcile in progress: what it listed, and the spec it read, are the protocol's. */
    ghost predicate At(phase: Phase, owned: Collection, spec: string)
      reads this
    {
      Valid() && Now().phase == phase && Now().local.seen == owned && Now().local.hash == spec && Keyed(owned)
    }

    /** What a part of a reconcile that may scale by one leaves behind. */
    ghost predicate Ended(before: Run)
      reads this
    {
      && Valid() && Now().phase.Idle? && Extends(run, before)
      && Creates(run) + Deletes(run) <= Creates(before) + Deletes(before) + 1
    }

    ghost method GiveUp()
      requires Valid()
      modifies this`run
      ensures Valid() && Now().phase.Idle? && Unscaled(run, old(run))
    {
      Look(RollingUpgrade.GiveUp, Idle, Now().local);
    }

    /** Takes every listed machine without controller; fails on one of another controller, or if a call fails, as the
        update of a machine that is gone does. */
    method EnsureOwnership(w: World, listed: Collection, spec: string) returns (owned: Collection, ok: bool)
      requires At(Owning, listed, spec)
      modifies this
      ensures Valid() && Now().phase.Owning? && Unscaled(run, old(run))
      ensures ok ==> At(Owning, owned, spec) && Adoptable(c, listed) && owned == AdoptAll(c, listed)
      ensures Calm(w) ==> (ok <==> Adoptable(c, listed) && FreeAmong(listed, listed.Keys, old(machines)))
      ensures Calm(w) ==> nodeOf == old(nodeOf) && hash == old(hash)
      ensures Calm(w) && ok && listed == old(machines) ==> machines == owned
    {
      hide IsRun, Passed, FreeAmong;
      owned := listed;
      ok := true;
      var rest := listed.Keys;
      NonePassed(listed, machines);
      while rest != {}
        invariant rest <= listed.Keys == owned.Keys && Passed(listed, owned, rest)
        invariant Valid() && Now().phase.Owning? && Unscaled(run, old(run)) && Now().local.hash == spec && Keyed(owned)
        invariant Now().local.seen.Keys == owned.Keys && (forall n | n in rest :: Now().local.seen[n] == owned[n])
        invariant ok ==> Now().local.seen == owned
        invariant Calm(w) ==> nodeOf == old(nodeOf) && hash == old(hash) && machines.Keys == old(machines).Keys
        invariant Calm(w) ==> (ok <==> FreeAmong(listed, listed.Keys - rest, old(machines)))
        invariant Calm(w) && listed == old(machines) ==> machines == owned
        decreases rest
      {
        var n :| n in rest;
        if owned[n].controller.Some? && owned[n].controller != Some(Owner(c)) {
          ForeignFound(listed, owned, rest, n);
        }
        Pass(listed, owned, rest, n);
        FreeNext(listed, rest, old(machines), n);
        rest := rest - {n};
        if owned[n].controller.Some? {
          if owned[n].controller != Some(Owner(c)) {
            return owned, false;
          }
        } else {
          ghost var before := run;
          var done := Adopt(w, n, owned);
          UnscaledTransitive(run, before, old(run));
          owned := owned[n := owned[n].(controller := Some(Owner(c)))];
          if !done {
            ok := false;
          }
        }
      }
      AllPassed(listed, owned);
      assert listed.Keys - rest == listed.Keys;
    }

    /** The machines outside `rest` are this control plane's, those in it as they were listed. */
    predicate Passed(listed: Collection, owned: Collection, rest: set<string>) {
      && owned.Keys == listed.Keys
      && (forall n | n in listed && n in rest :: owned[n] == listed[n])
      && (forall n | n in listed && n !in rest ::
            (listed[n].controller.None? || listed[n].controller == Some(Owner(c)))
            && owned[n] == listed[n].(controller := Some(Owner(c))))
    }

    lemma NonePassed(listed: Collection, ms: Collection)
      ensures Passed(listed, listed, listed.Keys) && FreeAmong(listed, listed.Keys - listed.Keys, ms)
    {
    }

    lemma Pass(listed: Collection, owned: Collection, rest: set<string>, n: string)
      requires Passed(listed, owned, rest) && n in rest && n in listed
      ensures n in owned && owned[n] == listed[n]
      ensures owned[n].controller.None? ==>
          Passed(listed, owned[n := owned[n].(controller := Some(Owner(c)))], rest - {n})
      ensures owned[n].controller == Some(Owner(c)) ==> Passed(listed, owned, rest - {n})
    {
    }

    lemma FreeNext(listed: Collection, rest: set<string>, ms: Collection, n: string)
      requires n in rest && n in listed
      ensures FreeAmong(listed, listed.Keys - (rest - {n}), ms) <==>
                FreeAmong(listed, listed.Keys - rest, ms) && (listed[n].controller.None? ==> n in ms)
    {
    }

    lemma ForeignFound(listed: Collection, owned: Collection, rest: set<string>, n: string)
      requires Passed(listed, owned, rest) && n in rest && n in listed
      requires n in owned && owned[n].controller.Some? && owned[n].controller != Some(Owner(c))
      ensures !Adoptable(c, listed)
    {
    }

    lemma AllPassed(listed: Collection, owned: Collection)
      requires Passed(listed, owned, {})
      ensures Adoptable(c, listed) && owned == AdoptAll(c, listed)
    {
    }

    method Adopt(w: World, n: string, ghost owned: Collection) returns (done: bool)
      requires Valid() && Now().phase.Owning? && n in Now().local.seen && n in owned && Now().local.seen[n] == owned[n]
      requires owned[n].controller.None?
      modifies this
      ensures Valid() && Now().phase.Owning? && Unscaled(run, old(run)) && Now().local.hash == old(Now().local.hash)
      ensures Now().local.seen == if done then Adopted(c, old(Now().local.seen), n) else old(Now().local.seen)
      ensures Calm(w) ==> done == (n in old(machines)) && nodeOf == old(nodeOf) && hash == old(hash)
      ensures Calm(w) ==> machines == Adopted(c, old(machines), n)
    {
      done := Call(w);
      done := done && n in machines;
      if done {
        ghost var s := Now();
        machines := machines[n := machines[n].(controller := Some(Owner(c)))];
        Take(Step.Adopt(n), Owning, s.local.(seen := Adopted(c, s.local.seen, n)));
      }
    }

    /** The first half of the health check: the components of every node. */
    method CheckComponents(w: World, ghost again: bool) returns (checks: map<string, Option<Problem>>, failed: bool)
      requires Valid() && if again then Now().phase.Healthy? && Now().local.nodes > c.replicas else Now().phase.Counted?
      modifies this
      ensures Valid() && Unscaled(run, old(run))
      ensures !failed ==>
          Now().phase == (if again then NodesReread else NodesRead) && checks.Keys == Now().local.checked
      ensures !failed ==> Now().local == old(Now().local).(checked := Now().local.checked)
      ensures !failed ==> (NodesPass(w, checks.Keys) <==> forall x | x in checks :: checks[x].None?)
      ensures Calm(w) ==> !failed && Store() == old(Store()) && checks.Keys == nodeOf.Values
    {
      ghost var before := run;
      var listable := Call(w);
      var listed := if listable then Some(Components(w, nodeOf.Values)) else None;
      checks, failed := ControlPlaneIsHealthy(listed);
      if failed {
        return;
      }
      hide IsRun, PassesCheck;
      if again {
        Look(Recheck, NodesReread, Now().local.(checked := nodeOf.Values));
      } else {
        Look(CheckNodes, NodesRead, Now().local.(checked := nodeOf.Values));
      }
    }

    static function Components(w: World, nodes: set<string>): (r: map<string, Node>)
      ensures r.Keys == nodes
      ensures NodesPass(w, nodes) <==> forall x | x in r :: PassesCheck(r[x])
    {
      map x | x in nodes :: if x in w.nodes then w.nodes[x] else Node([], None, None)
    }

    /** The health check of the control plane: the nodes with their components, then the machines. */
    method TargetClusterControlPlaneIsHealthy(w: World, ghost again: bool) returns (healthy: bool)
      requires Valid() && if again then Now().phase.Healthy? && Now().local.nodes > c.replicas else Now().phase.Counted?
      modifies this
      ensures Valid() && Unscaled(run, old(run))
      ensures healthy ==>
          Now().phase == (if again then NodesReread else NodesRead) && Matched(Now().local.checked, machines)
      ensures healthy ==> Now().local == old(Now().local).(checked := Now().local.checked)
      ensures Calm(w) ==> Store() == old(Store())
      ensures Calm(w) ==> (healthy <==> NodesPass(w, nodeOf.Values) && Matched(nodeOf.Values, machines))
    {
      var checks, failed := CheckComponents(w, again);
      if failed {
        return false;
      }
      hide IsRun, NodesPass, Matched;
      ghost var middle := run;
      var listable := Call(w);
      UnscaledTransitive(run, middle, old(run));
      var err := HealthCheck(checks, failed, if listable then Some(machines) else None);
      healthy := err.None?;
    }

    /** The health gate: every node passes, nodes and machines match, and no listed machine is being deleted. */
    ghost predicate MayScale(w: World, owned: Collection)
      reads this
    {
      NodesPass(w, nodeOf.Values) && Matched(nodeOf.Values, machines) && !HasDeletingMachine(owned)
    }

    /** Like the other parts of a reconcile that may fail, it ends the protocol's reconcile when it does. */
    method ReconcileHealth(w: World, owned: Collection, spec: string) returns (healthy: bool)
      requires At(Counted, owned, spec)
      modifies this
      ensures Valid() && Unscaled(run, old(run))
      ensures if healthy then At(Healthy, owned, spec)
          && Now().local.nodes == old(Now().local.nodes) else Now().phase.Idle?
      ensures Calm(w) ==> Store() == old(Store()) && (healthy <==> MayScale(w, owned))
    {
      healthy := TargetClusterControlPlaneIsHealthy(w, false);
      if healthy {
        var deleting := Filter(owned, (m: Machine) => m.deleting);
        healthy := |deleting| == 0;
      }
      if healthy {
        NoneDeleting(owned);
        Look(MatchMachines, Healthy, Now().local);
      } else {
        ghost var middle := run;
        GiveUp();
        UnscaledTransitive(run, middle, old(run));
      }
    }

    /** The machine of a scale-up; a name the API server already has makes the creation fail. */
    method GenerateMachine(w: World, fd: Option<string>, spec: string) returns (ok: bool)
      requires Valid() && Now().phase.Healthy? && Now().local.hash == spec && Now().local.nodes <= c.replicas
      requires IsFewest(FilterControlPlane(c.domains), Now().local.seen, fd)
      modifies this
      ensures Valid() && Now().phase.Idle? && Extends(run, old(run)) && Deletes(run) == Deletes(old(run))
      ensures Creates(run) == Creates(old(run)) + if ok then 1 else 0
      ensures Alone(w) ==> nodeOf == old(nodeOf) && hash == old(hash)
      ensures Alone(w) ==>
          if ok then Added(c, old(Now().local.seen), spec, old(machines), machines) else machines == old(machines)
      ensures Calm(w) && NewNames(w, old(machines)) ==> ok
    {
      hide IsFewest;
      var name, created := w.names(calls), w.times(calls);
      ok := Call(w);
      if !ok || name in machines {
        ghost var middle := run;
        GiveUp();
        UnscaledTransitive(run, middle, old(run));
        return false;
      }
      ghost var middle := run;
      StoreNew(Machine(name, Some(c.name), Some(spec), fd, created, None, false, Some(Owner(c))));
      ExtendsTransitive(run, middle, old(run));
    }

    method StoreNew(m: Machine)
      requires Valid() && Now().phase.Healthy? && Now().local.nodes <= c.replicas
      requires m.name !in machines && IsNewMachine(c, m, Now().local.hash)
      requires IsFewest(FilterControlPlane(c.domains), Now().local.seen, m.failureDomain)
      modifies this`machines, this`run
      ensures Valid() && Now().phase.Idle? && Extends(run, old(run))
      ensures Creates(run) == Creates(old(run)) + 1 && Deletes(run) == Deletes(old(run))
      ensures machines == old(machines)[m.name := m]
    {
      hide IsFewest;
      machines := machines[m.name := m];
      Take(Create(m), Idle, Now().local);
    }

    method ScaleUpControlPlane(w: World, owned: Collection, spec: string) returns (outcome: Outcome)
      requires At(Counted, owned, spec) && Now().local.nodes <= c.replicas
      modifies this
      ensures Ended(old(run)) && (outcome.Requeue? <==> Creates(run) == Creates(old(run)) + 1)
          && Deletes(run) == Deletes(old(run))
      ensures Calm(w) ==> nodeOf == old(nodeOf) && hash == old(hash)
      ensures Calm(w) ==>
          if outcome.Requeue? then Added(c, owned, spec, old(machines), machines) else machines == old(machines)
      ensures Calm(w) && NewNames(w, old(machines)) ==> (outcome.Requeue? <==> old(MayScale(w, owned)))
      ensures (Calm(w) && !old(MayScale(w, owned)) ==> outcome.RequeueAfter?) && !outcome.Nothing?
    {
      var healthy := ReconcileHealth(w, owned, spec);
      if !healthy {
        return RequeueAfter;
      }
      ghost var middle := run;
      var fd := PickFewest(FilterControlPlane(c.domains), owned);
      hide IsFewest;
      var ok := GenerateMachine(w, fd, spec);
      ExtendsTransitive(run, middle, old(run));
      outcome := if ok then Requeue else Error;
    }

    method DeleteMachine(w: World, victim: string) returns (ok: bool)
      requires Valid() && Now().phase.Cleared? && victim in Now().local.seen
      requires var l := Now().local;
               && AnyOutdated(l.seen, l.hash)
               && IsVictim(FilterControlPlane(c.domains), l.seen, Candidates(l.seen, l.hash), victim)
      modifies this
      ensures Valid() && Now().phase.Idle? && Extends(run, old(run)) && Creates(run) == Creates(old(run))
      ensures Deletes(run) == Deletes(old(run)) + if ok then 1 else 0
      ensures Calm(w) ==>
          ok && machines == MarkDeleting(old(machines), victim) && nodeOf == old(nodeOf) && hash == old(hash)
    {
      VictimIsCandidate(Now().local.seen, Now().local.hash, victim);
      hide IsVictim, Candidates, AnyOutdated;
      ok := Call(w);
      if !ok {
        ghost var middle := run;
        GiveUp();
        UnscaledTransitive(run, middle, old(run));
        return;
      }
      ghost var middle := run;
      MarkDeleted(victim);
      ExtendsTransitive(run, middle, old(run));
    }

    /** Deleting a machine sets its deletion timestamp; one that is gone is not an error. */
    method MarkDeleted(victim: string)
      requires Valid() && Now().phase.Cleared? && victim in Now().local.seen
      requires AnyOutdated(Now().local.seen, Now().local.hash) ==>
          !MatchesHash(Now().local.seen[victim], Now().local.hash)
      requires var l := Now().local; IsVictim(FilterControlPlane(c.domains), l.seen, Candidates(l.seen, l.hash), victim)
      modifies this`machines, this`run
      ensures Valid() && Now().phase.Idle? && Extends(run, old(run))
      ensures Creates(run) == Creates(old(run)) && Deletes(run) == Deletes(old(run)) + 1
      ensures machines == MarkDeleting(old(machines), victim)
    {
      hide IsVictim, AnyOutdated;
      machines := MarkDeleting(machines, victim);
      Take(Delete(victim), Idle, Now().local);
    }

    lemma VictimIsCandidate(seen: Collection, hash: string, victim: string)
      requires IsVictim(FilterControlPlane(c.domains), seen, Candidates(seen, hash), victim)
      ensures victim in seen && (AnyOutdated(seen, hash) ==> !MatchesHash(seen[victim], hash))
    {
      OutdatedExists(seen, hash);
    }

    lemma VictimRemoved(owned: Collection, spec: string, before: Collection, v: string)
      requires AnyOutdated(owned, spec) && IsVictim(FilterControlPlane(c.domains), owned, Candidates(owned, spec), v)
      ensures Removed(c, owned, spec, before, MarkDeleting(before, v))
    {
      OutdatedExists(owned, spec);
    }

    method ScaleDownControlPlane(w: World, owned: Collection, spec: string) returns (outcome: Outcome)
      requires At(Counted, owned, spec) && Now().local.nodes > c.replicas && AnyOutdated(owned, spec)
      modifies this
      ensures Ended(old(run)) && (outcome.Requeue? <==> Deletes(run) == Deletes(old(run)) + 1)
          && Creates(run) == Creates(old(run))
      ensures !outcome.Nothing?
      ensures Calm(w) ==> (outcome.Requeue? <==> old(MayScale(w, owned))) && (outcome.Requeue? || outcome.RequeueAfter?)
      ensures Calm(w) ==> nodeOf == old(nodeOf) && hash == old(hash)
      ensures Calm(w) ==>
          if outcome.Requeue? then Removed(c, owned, spec, old(machines), machines) else machines == old(machines)
    {
      var healthy := ReconcileHealth(w, owned, spec);
      if !healthy {
        return RequeueAfter;
      }
      var victim := SelectMachineForScaleDown(owned, spec);
      VictimIsCandidate(owned, spec, victim.value.name);
      VictimRemoved(owned, spec, machines, victim.value.name);
      hide IsVictim, AnyOutdated, Removed, IsRun;
      ghost var middle := run;
      healthy := TargetClusterControlPlaneIsHealthy(w, true);
      UnscaledTransitive(run, middle, old(run));
      middle := run;
      if !healthy {
        GiveUp();
        UnscaledTransitive(run, middle, old(run));
        return RequeueAfter;
      }
      Look(Rematch, Cleared, Now().local);
      middle := run;
      var ok := DeleteMachine(w, victim.value.name);
      ExtendsTransitive(run, middle, old(run));
      outcome := if ok then Requeue else Error;
    }

    method SelectMachineForScaleDown(owned: Collection, spec: string) returns (victim: Option<Machine>)
      requires Keyed(owned)
      ensures victim.None? <==> owned == map[]
      ensures victim.Some? ==>
          IsVictim(FilterControlPlane(c.domains), owned, Candidates(owned, spec), victim.value.name)
      ensures victim.Some? ==> victim.value.name in Candidates(owned, spec) && victim.value == owned[victim.value.name]
    {
      var ms := owned;
      var outdated := Filter(owned, (m: Machine) => !MatchesHash(m, spec));
      if |outdated| > 0 {
        ms := outdated;
      }
      assert outdated == Outdated(owned, spec);
      victim := MachineInFailureDomainWithMostMachines(c.domains, owned, ms);
    }

    /** What one reconcile of an upgrade does when nothing comes in between: while the gate is closed nothing; otherwise
        one machine more if the nodes number at most `replicas`, and one marked for deletion if more. */
    ghost predicate Scaled(w: World, owned: Collection, spec: string, mayScale: bool, nodes: nat, before: Collection,
        outcome: Outcome)
      reads this
    {
      && (!mayScale ==> outcome.RequeueAfter?)
      && (mayScale && (nodes > c.replicas || NewNames(w, before)) ==> outcome.Requeue?)
      && if !outcome.Requeue? then machines == before
         else if nodes <= c.replicas then Added(c, owned, spec, before, machines)
         else Removed(c, owned, spec, before, machines)
    }

    method UpgradeControlPlane(w: World, owned: Collection, spec: string) returns (outcome: Outcome)
      requires At(Listed, owned, spec) && AnyOutdated(owned, spec)
      modifies this
      ensures Ended(old(run))
      ensures (outcome.Requeue? <==> Creates(run) + Deletes(run) == Creates(old(run)) + Deletes(old(run)) + 1)
          && !outcome.Nothing?
      ensures Calm(w) ==> nodeOf == old(nodeOf) && hash == old(hash)
      ensures Calm(w) ==> Scaled(w, owned, spec, old(MayScale(w, owned)), |nodeOf.Values|, old(machines), outcome)
    {
      var ok := Call(w);
      ghost var middle := run;
      if !ok {
        GiveUp();
        UnscaledTransitive(run, middle, old(run));
        return Error;
      }
      var nodes := |nodeOf.Values|;
      Look(Status, Counted, Now().local.(nodes := nodes));
      middle := run;
      if nodes <= c.replicas {
        outcome := ScaleUpControlPlane(w, owned, spec);
      } else {
        outcome := ScaleDownControlPlane(w, owned, spec);
      }
      ExtendsTransitive(run, middle, old(run));
    }

    /** The initial machines, one for each slot.  The first that cannot be created ends it,
        and leaves those before it. */
    method InitialiseControlPlane(w: World, fds: array<Option<string>>, spec: string)
        returns (outcome: Outcome, ghost made: seq<Machine>)
      requires Valid() && Now().phase.Initialising? && Now().local.hash == spec && Now().local.slots == fds[..]
          && fds.Length == c.replicas
      modifies this
      ensures Valid() && Now().phase.Idle? && Unscaled(run, old(run))
      ensures |made| <= c.replicas && (outcome.Requeue? <==> |made| == c.replicas)
          && (outcome.Requeue? || outcome.Error?)
      ensures FailureDomainsOf(made) == fds[..|made|] && forall m | m in made :: IsNewMachine(c, m, spec)
      ensures Alone(w) ==> nodeOf == old(nodeOf) && hash == old(hash)
      ensures Alone(w) ==> FreshNames(old(machines), made) && machines == InsertAll(old(machines), made)
      ensures Calm(w) && NewNames(w, old(machines)) && DistinctNames(w) ==> outcome.Requeue?
    {
      hide IsRun, FreshNames, InsertAll;
      made := [];
      NothingCreated(machines);
      for i := 0 to c.replicas
        invariant Valid() && Now().phase.Initialising? && Now().local.hash == spec && Now().local.slots == fds[i..]
        invariant Unscaled(run, old(run))
        invariant |made| == i && FailureDomainsOf(made) == fds[..i] && forall m | m in made :: IsNewMachine(c, m, spec)
        invariant Alone(w) ==> nodeOf == old(nodeOf) && hash == old(hash)
        invariant Alone(w) ==> FreshNames(old(machines), made) && machines == InsertAll(old(machines), made)
        invariant NamedBy(w, calls, made)
      {
        ghost var middle := run;
        NotYetNamed(w, calls, old(machines), made);
        var ok, m := InitialMachine(w, fds[i], spec);
        UnscaledTransitive(run, middle, old(run));
        if !ok {
          return Error, made;
        }
        OneMoreCreated(old(machines), made, m);
        made := made + [m];
        assert fds[..i + 1] == fds[..i] + [fds[i]];
      }
      ghost var middle := run;
      GiveUp();
      UnscaledTransitive(run, middle, old(run));
      outcome := Requeue;
      assert fds[..c.replicas] == fds[..];
    }

    method InitialMachine(w: World, fd: Option<string>, spec: string) returns (ok: bool, m: Machine)
      requires Valid() && Now().phase.Initialising? && Now().local.hash == spec && Now().local.slots != []
          && Now().local.slots[0] == fd
      modifies this
      ensures Valid() && Unscaled(run, old(run)) && calls == old(calls) + 1
      ensures if ok then Now().phase.Initialising? && Now().local.hash == spec
          && Now().local.slots == old(Now().local.slots)[1..]
              else Now().phase.Idle?
      ensures m.failureDomain == fd && m.name == w.names(old(calls)) && IsNewMachine(c, m, spec)
      ensures Alone(w) ==> nodeOf == old(nodeOf) && hash == old(hash)
      ensures Alone(w) ==>
          if ok then m.name !in old(machines) && machines == old(machines)[m.name := m] else machines == old(machines)
      ensures Calm(w) && m.name !in old(machines) ==> ok
    {
      var name, created := w.names(calls), w.times(calls);
      m := Machine(name, Some(c.name), Some(spec), fd, created, None, false, Some(Owner(c)));
      ok := Call(w);
      ghost var middle := run;
      if !ok || name in machines {
        GiveUp();
        ok := false;
      } else {
        StoreInitial(m);
      }
      UnscaledTransitive(run, middle, old(run));
    }

    method StoreInitial(m: Machine)
      requires Valid() && Now().phase.Initialising? && Now().local.slots != []
      requires m.name !in machines && IsNewMachine(c, m, Now().local.hash) && m.failureDomain == Now().local.slots[0]
      modifies this`machines, this`run
      ensures Valid() && Now().phase.Initialising? && Unscaled(run, old(run))
      ensures Now().local == old(Now().local).(slots := old(Now().local.slots)[1..])
      ensures machines == old(machines)[m.name := m]
    {
      machines := machines[m.name := m];
      var l := Now().local;
      Take(Step.Initialise(m), Initialising, l.(slots := l.slots[1..]));
    }

    /** An initialisation left alone: as many machines as it could create, spread evenly,
        all `replicas` if none failed. */
    ghost predicate Initialised(w: World, spec: string, outcome: Outcome)
      reads this
    {
      && |machines| <= c.replicas && (outcome.Requeue? <==> |machines| == c.replicas)
          && (outcome.Requeue? || outcome.Error?)
      && (forall n | n in machines :: IsNewMachine(c, machines[n], spec))
      && SpreadAtMost(FilterControlPlane(c.domains), machines, 1)
      && (Calm(w) && NewNames(w, map[]) && DistinctNames(w) ==> outcome.Requeue?)
    }

    /** What one reconcile does when nothing comes in between, given what it finds. */
    ghost predicate Reconciled(w: World, owned: Collection, spec: string, mayScale: bool, nodes: nat, outcome: Outcome)
      reads this
    {
      if AnyOutdated(owned, spec) then Scaled(w, owned, spec, mayScale, nodes, owned, outcome)
      else if owned != map[] || c.replicas == 0 then outcome.Nothing? && machines == owned
      else Initialised(w, spec, outcome)
    }

    /** One reconcile.  Whatever others do before each call and whichever calls fail, it is a run of the protocol that
        creates or deletes at most one machine beyond the initial ones; so it keeps what the protocol keeps from the
        joined machines of the start on. */
    method ReconcileControlPlane(w: World) returns (outcome: Outcome)
      requires Valid() && Now().phase.Idle?
      modifies this
      ensures Ended(old(run))
      ensures c.nodeFirst && Joined(c, First(run)) ==>
                && |Available(machines)| >= Least(c, |First(run).machines|) && |Deleting(machines)| <= 1
                && Least(c, |First(run).machines|) <= |machines| <= Most(c, |First(run).machines|)
      ensures Alone(w) && w.before != Prerequisites(true, true, true, true) ==>
          machines == old(machines) && !outcome.Requeue?
      ensures Calm(w) && !Adoptable(c, old(machines)) ==> outcome.Error?
      ensures Calm(w) && Adoptable(c, old(machines)) ==>
                && nodeOf == old(nodeOf) && hash == old(hash)
                && Reconciled(w, AdoptAll(c, old(machines)), hash, old(MayScale(w, machines)), |nodeOf.Values|, outcome)
      ensures Calm(w) && old(machines) != map[] && (outcome.Requeue? || outcome.Nothing?) ==>
          Finished(run) > Finished(old(run))
    {
      outcome := Reconcile(w);
      hide Reconciled, MayScale;
      RunIsFree(c, run);
      if c.nodeFirst && Joined(c, First(run)) {
        AvailabilityAndSurge(c, run);
      }
    }

    /** The steps before the machines are listed; without an endpoint the reconcile ends there, without an error. */
    method Prepare(w: World) returns (early: Option<Outcome>)
      requires Valid() && Now().phase.Started?
      modifies this
      ensures Valid() && Later(run, old(run))
      ensures early.Some? ==> early.value.Error? || (early.value.Nothing? && !w.before.endpoint)
      ensures early.None? ==> w.before == Prerequisites(true, true, true, true)
      ensures Alone(w) ==> Store() == old(Store())
      ensures (forall k: nat :: !w.faults(k)) ==>
                early == if !w.before.template || !w.before.certificates then Some(Error)
                         else if !w.before.endpoint then Some(Nothing)
                         else if !w.before.kubeconfig then Some(Error) else None
    {
      var ok := Call(w);
      if !ok || !w.before.template {
        return Some(Error);
      }
      ghost var before := run;
      ok := Call(w);
      LaterTransitive(run, before, old(run));
      if !ok || !w.before.certificates {
        return Some(Error);
      }
      if !w.before.endpoint {
        return Some(Nothing);
      }
      before := run;
      ok := Call(w);
      LaterTransitive(run, before, old(run));
      early := if ok && w.before.kubeconfig then None else Some(Error);
    }

    method Reconcile(w: World) returns (outcome: Outcome)
      requires Valid() && Now().phase.Idle?
      modifies this
      ensures Ended(old(run))
      ensures Alone(w) && w.before != Prerequisites(true, true, true, true) ==>
          machines == old(machines) && !outcome.Requeue?
      ensures Calm(w) && !Adoptable(c, old(machines)) ==> outcome.Error?
      ensures Calm(w) && Adoptable(c, old(machines)) ==>
                && nodeOf == old(nodeOf) && hash == old(hash)
                && Reconciled(w, AdoptAll(c, old(machines)), hash, old(MayScale(w, machines)), |nodeOf.Values|, outcome)
      ensures Calm(w) && old(machines) != map[] && (outcome.Requeue? || outcome.Nothing?) ==>
          Finished(run) > Finished(old(run))
    {
      hide IsRun, Reconciled, Joined;
      var spec := hash;
      Look(Begin, Started, Now().local.(hash := spec));
      ghost var middle := run;
      var early := Prepare(w);
      UnscaledTransitive(run, middle, old(run));
      middle := run;
      if early.Some? {
        GiveUp();
        UnscaledTransitive(run, middle, old(run));
        return early.value;
      }
      var ok := Call(w);
      UnscaledTransitive(run, middle, old(run));
      middle := run;
      if !ok {
        GiveUp();
        UnscaledTransitive(run, middle, old(run));
        return Error;
      }
      var owned := machines;
      Look(List, Owning, Now().local.(seen := owned));
      middle := run;
      owned, ok := EnsureOwnership(w, owned, spec);
      UnscaledTransitive(run, middle, old(run));
      middle := run;
      if !ok {
        GiveUp();
        UnscaledTransitive(run, middle, old(run));
        return Error;
      }
      AdoptedAlike(c, old(machines), nodeOf.Values, spec);
      FinishedGrows(run, old(run));
      outcome := Dispatch(w, owned, spec);
      ExtendsTransitive(run, middle, old(run));
    }

    method Dispatch(w: World, owned: Collection, spec: string) returns (outcome: Outcome)
      requires At(Owning, owned, spec) && Controlled(c, owned)
      modifies this
      ensures Ended(old(run))
      ensures owned != map[] && (outcome.Requeue? || outcome.Nothing?) ==> Finished(run) > Finished(old(run))
      ensures Calm(w) && owned == old(machines) ==>
                && nodeOf == old(nodeOf) && hash == old(hash)
                && Reconciled(w, owned, spec, old(MayScale(w, owned)), |nodeOf.Values|, outcome)
    {
      var outdated := Filter(owned, (m: Machine) => !MatchesHash(m, spec));
      assert outdated == Outdated(owned, spec);
      OutdatedExists(owned, spec);
      ghost var l := Now().local;
      hide IsRun;
      if |outdated| > 0 {
        hide MayScale;
        Take(Step.Dispatch, Listed, l);
        ghost var middle := run;
        outcome := UpgradeControlPlane(w, owned, spec);
        ExtendsTransitive(run, middle, old(run));
        FinishedGrows(run, old(run));
        return;
      }
      if |owned| == c.replicas {
        Take(Step.Dispatch, Idle, l);
        return Nothing;
      }
      if |owned| == 0 {
        outcome := DispatchInitial(w, owned, spec);
        return;
      }
      Take(Step.Dispatch, Idle, l);
      outcome := Nothing;
    }

    method DispatchInitial(w: World, owned: Collection, spec: string) returns (outcome: Outcome)
      requires At(Owning, owned, spec) && owned == map[] && c.replicas != 0
      modifies this
      ensures Ended(old(run))
      ensures Calm(w) && owned == old(machines) ==>
          nodeOf == old(nodeOf) && hash == old(hash) && Initialised(w, spec, outcome)
    {
      hide IsRun, SpreadAtMost, InsertAll, FreshNames, RoundRobin, IsRanking;
      var fds;
      ghost var order;
      fds, order := PickNFewest(FilterControlPlane(c.domains), owned, c.replicas);
      assert IsDealt(FilterControlPlane(c.domains), owned, fds[..], c.replicas);
      Take(Step.Dispatch, Initialising, Now().local.(slots := fds[..]));
      ghost var middle, made := run, [];
      outcome, made := InitialiseControlPlane(w, fds, spec);
      ExtendsTransitive(run, middle, old(run));
      InitialMachines(made, fds[..], order, spec);
    }

    lemma InitialMachines(made: seq<Machine>, fds: seq<Option<string>>, order: seq<string>, spec: string)
      requires var domains := FilterControlPlane(c.domains); domains != {} ==>
          IsRanking(order, domains, map[]) && RoundRobin(fds, order)
      requires |made| <= |fds| && FailureDomainsOf(made) == fds[..|made|] && forall m | m in made ::
          IsNewMachine(c, m, spec)
      ensures FreshNames(map[], made) ==>
                && |InsertAll(map[], made)| == |made|
                && SpreadAtMost(FilterControlPlane(c.domains), InsertAll(map[], made), 1)
                && forall n | n in InsertAll(map[], made) :: IsNewMachine(c, InsertAll(map[], made)[n], spec)
    {
      if FreshNames(map[], made) {
        InsertAllMakes(made, c, spec);
        if FilterControlPlane(c.domains) != {} {
          InitialSpread(FilterControlPlane(c.domains), made, order);
        }
      }
    }
  }

  lemma {:induction false} InsertAllMakes(made: seq<Machine>, c: Config, spec: string)
    requires FreshNames(map[], made) && forall m | m in made :: IsNewMachine(c, m, spec)
    ensures |InsertAll(map[], made)| == |made|
    ensures forall n | n in InsertAll(map[], made) :: IsNewMachine(c, InsertAll(map[], made)[n], spec)
    decreases |made|
  {
    if made != [] {
      var init, last := made[..|made| - 1], made[|made| - 1];
      InsertAllMakes(init, c, spec);
      InsertedNames(map[], init);
      assert InsertAll(map[], made).Keys == InsertAll(map[], init).Keys + {last.name};
      assert |InsertAll(map[], made)| == |InsertAll(map[], made).Keys|;
      assert |InsertAll(map[], init)| == |InsertAll(map[], init).Keys|;
    }
  }
}
