/** The rolling upgrade of a control plane as a protocol: one reconcile at a time, each read and write of an API
    server a step of its own, with the environment free to act between any two of them. */
module RollingUpgrade {
  import opened Wrappers
  import opened Runs
  import opened Machines
  import opened FailureDomains
  import opened Health

  /** What a run does not change.  With `nodeFirst`, a deleted Machine object goes only after its node has gone. */
  datatype Config = Config(replicas: nat, name: string, domains: Domains, nodeFirst: bool)

  /** How far the running reconcile is. */
  datatype Phase = Idle | Started | Owning | Initialising | Listed | Counted | NodesRead | Healthy | NodesReread |
      Cleared

  /** What the running reconcile has read: the spec hash, the machines it listed, the node count of ClusterStatus,
      the node names of the health check in progress, and the domains of the initial machines still to create. */
  datatype Local = Local(hash: string, seen: Collection, nodes: nat, checked: set<string>, slots: seq<Option<string>>)

  /** The owned machines, the control-plane node running on each machine that has one, and the spec hash. */
  datatype System = System(machines: Collection, nodeOf: map<string, string>, hash: string, phase: Phase, local: Local)

  datatype Step =
    | Begin | List | Dispatch | Status | CheckNodes | MatchMachines | Recheck | Rematch | GiveUp
    | Adopt(machine: string) | Create(m: Machine) | Initialise(m: Machine) | Delete(victim: string)
    | NodeJoins(machine: string, node: string) | RefSet(machine: string)
    | NodeLeaves(machine: string) | MachineGone(machine: string) | SpecChanges(hash: string)

  predicate IsEnvironment(step: Step) {
    step.NodeJoins? || step.RefSet? || step.NodeLeaves? || step.MachineGone? || step.SpecChanges?
  }

  // ----- Steps ------------------------------------------------------------------------------------

  function Owner(c: Config): OwnerRef {
    OwnerRef("CritControlPlane", c.name)
  }

  function Adopted(c: Config, ms: Collection, n: string): Collection {
    if n in ms then ms[n := ms[n].(controller := Some(Owner(c)))] else ms
  }

  predicate IsNewMachine(c: Config, m: Machine, hash: string) {
    && m.controlPlane == Some(c.name) && m.hash == Some(hash)
    && m.nodeRef == None && !m.deleting
    && m.controller == Some(Owner(c))
  }

  /** The domains of `n` initial machines: dealt in turn over the ranking, or nil when there is no domain. */
  ghost predicate IsDealt(domains: set<string>, ms: Collection, slots: seq<Option<string>>, n: nat) {
    && |slots| == n
    && if domains == {} then forall i | 0 <= i < n :: slots[i] == None
       else exists order :: IsRanking(order, domains, ms) && RoundRobin(slots, order)
  }

  function Candidates(seen: Collection, hash: string): Collection {
    if Outdated(seen, hash) != map[] then Outdated(seen, hash) else seen
  }

  function Read(s: System, phase: Phase, local: Local): System {
    s.(phase := phase, local := local)
  }

  predicate AnyOutdated(ms: Collection, hash: string) {
    exists n | n in ms :: !MatchesHash(ms[n], hash)
  }

  lemma OutdatedExists(ms: Collection, hash: string)
    ensures AnyOutdated(ms, hash) <==> Outdated(ms, hash) != map[]
  {
    if n :| n in ms && !MatchesHash(ms[n], hash) {
      assert n in Outdated(ms, hash);
    }
  }

  /** The dispatch of reconcileControlPlane: upgrade, initialise, or nothing to do. */
  predicate DispatchStep(c: Config, s: System, t: System) {
    var seen := s.local.seen;
    && s.phase.Owning? && (forall n | n in seen :: seen[n].controller == Some(Owner(c)))
    && t == Read(s, t.phase, s.local.(slots := t.local.slots))
    && t.phase == if AnyOutdated(seen, s.local.hash) then Listed
                  else if |seen| == c.replicas || |seen| != 0 then Idle
                  else Initialising
  }

  predicate CreateStep(c: Config, s: System, m: Machine, t: System) {
    && s.phase.Healthy? && s.local.nodes <= c.replicas
    && m.name !in s.machines && IsNewMachine(c, m, s.local.hash)
    && t == s.(machines := s.machines[m.name := m], phase := Idle)
  }

  predicate DeleteStep(c: Config, s: System, v: string, t: System) {
    && s.phase.Cleared?
    && v in s.local.seen
    && (AnyOutdated(s.local.seen, s.local.hash) ==> !MatchesHash(s.local.seen[v], s.local.hash))
    && t == s.(machines := MarkDeleting(s.machines, v), phase := Idle)
  }

  predicate InitialiseStep(c: Config, s: System, m: Machine, t: System) {
    && s.phase.Initialising? && s.local.slots != []
    && m.name !in s.machines && IsNewMachine(c, m, s.local.hash) && m.failureDomain == s.local.slots[0]
    && t == s.(machines := s.machines[m.name := m], local := s.local.(slots := s.local.slots[1..]))
  }

  predicate AdoptStep(c: Config, s: System, n: string, t: System) {
    && s.phase.Owning? && n in s.machines && n in s.local.seen && s.local.seen[n].controller.None?
    && t == s.(machines := Adopted(c, s.machines, n), local := s.local.(seen := Adopted(c, s.local.seen, n)))
  }

  /** The steps that only read. */
  predicate ReadStep(c: Config, s: System, step: Step, t: System) {
    match step
    case Begin => s.phase.Idle? && t == Read(s, Started, s.local.(hash := s.hash))
    case List => s.phase.Started? && t == Read(s, Owning, s.local.(seen := s.machines))
    case Status => s.phase.Listed? && t == Read(s, Counted, s.local.(nodes := |s.nodeOf.Values|))
    case CheckNodes => s.phase.Counted? && t == Read(s, NodesRead, s.local.(checked := s.nodeOf.Values))
    case MatchMachines =>
      && s.phase.NodesRead? && Matched(s.local.checked, s.machines) && !HasDeletingMachine(s.local.seen)
      && t == Read(s, Healthy, s.local)
    case Recheck =>
      && s.phase.Healthy? && s.local.nodes > c.replicas
      && t == Read(s, NodesReread, s.local.(checked := s.nodeOf.Values))
    case Rematch =>
      && s.phase.NodesReread? && Matched(s.local.checked, s.machines) && t == Read(s, Cleared, s.local)
    case GiveUp => t == Read(s, Idle, s.local)
    case _ => false
  }

  predicate ControllerStep(c: Config, s: System, step: Step, t: System) {
    match step
    case Dispatch => DispatchStep(c, s, t)
    case Adopt(n) => AdoptStep(c, s, n, t)
    case Create(m) => CreateStep(c, s, m, t)
    case Delete(v) => DeleteStep(c, s, v, t)
    case Initialise(m) => InitialiseStep(c, s, m, t)
    case _ => ReadStep(c, s, step, t)
  }

  predicate EnvironmentStep(c: Config, s: System, step: Step, t: System)
  {
    match step
    case NodeJoins(n, x) =>
      && n in s.machines && n !in s.nodeOf && !s.machines[n].deleting && s.machines[n].nodeRef.None?
      && x !in s.nodeOf.Values
      && t == s.(nodeOf := s.nodeOf[n := x])
    case RefSet(n) =>
      && n in s.machines && n in s.nodeOf && s.machines[n].nodeRef.None?
      && t == s.(machines := s.machines[n := s.machines[n].(nodeRef := Some(s.nodeOf[n]))])
    case NodeLeaves(n) =>
      && n in s.nodeOf && (n in s.machines ==> s.machines[n].deleting)
      && t == s.(nodeOf := s.nodeOf - {n})
    case MachineGone(n) =>
      && n in s.machines && s.machines[n].deleting && (c.nodeFirst ==> n !in s.nodeOf)
      && t == s.(machines := s.machines - {n})
    case SpecChanges(h) =>
      t == s.(hash := h)
    case _ => false
  }

  predicate Next(c: Config, s: System, step: Step, t: System) {
    if IsEnvironment(step) then EnvironmentStep(c, s, step, t) else ControllerStep(c, s, step, t)
  }

  /** Where machines go and which one is removed. */
  ghost predicate WellChosen(c: Config, s: System, step: Step, t: System) {
    var domains := FilterControlPlane(c.domains);
    match step
    case Create(m) => IsFewest(domains, s.local.seen, m.failureDomain)
    case Delete(v) => IsVictim(domains, s.local.seen, Candidates(s.local.seen, s.local.hash), v)
    case Dispatch => t.phase.Initialising? ==> IsDealt(domains, s.local.seen, t.local.slots, c.replicas)
    case _ => true
  }

  type Run = Trace<System, Step>

  /** A run, whatever domains and victims are chosen in it. */
  predicate IsFreeRun(c: Config, r: Run) {
    r.After? ==> IsFreeRun(c, r.before) && Next(c, Last(r.before), r.step, r.now)
  }

  /** A run of the controller as it chooses. */
  ghost predicate IsRun(c: Config, r: Run) {
    r.After? ==>
      && IsRun(c, r.before)
      && Next(c, Last(r.before), r.step, r.now) && WellChosen(c, Last(r.before), r.step, r.now)
  }

  lemma {:induction false} RunIsFree(c: Config, r: Run)
    requires IsRun(c, r)
    ensures IsFreeRun(c, r)
  {
    if r.After? {
      RunIsFree(c, r.before);
    }
  }

  predicate DistinctNodes(nodeOf: map<string, string>) {
    forall a, b | a in nodeOf && b in nodeOf && a != b :: nodeOf[a] != nodeOf[b]
  }

  /** A control plane at rest: machines, at least one if any is wanted, each with its own node, none being deleted. */
  predicate Joined(c: Config, s: System) {
    && s.phase.Idle? && Keyed(s.machines) && (s.machines != map[] || c.replicas == 0)
    && s.nodeOf.Keys == s.machines.Keys && DistinctNodes(s.nodeOf)
    && forall n | n in s.machines :: !s.machines[n].deleting && s.machines[n].nodeRef == Some(s.nodeOf[n])
  }

  /** All `replicas` of them. */
  predicate Settled(c: Config, s: System) {
    Joined(c, s) && |s.machines| == c.replicas
  }

  // ----- Abstract view ----------------------------------------------------------------------------

  /** Machines that serve: joined, and not being deleted. */
  function Available(ms: Collection): set<string> {
    set n | n in ms && !ms[n].deleting && ms[n].nodeRef.Some?
  }

  function Live(ms: Collection): set<string> {
    set n | n in ms && !ms[n].deleting
  }

  function LiveOutdated(ms: Collection, hash: string): set<string> {
    set n | n in ms && !ms[n].deleting && !MatchesHash(ms[n], hash)
  }

  predicate Complete(s: System) {
    forall n | n in s.machines :: MatchesHash(s.machines[n], s.hash)
  }
}
