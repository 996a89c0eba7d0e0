/** The two branches of a reconcile, with and without deletion timestamp, in the form of the code.  The timestamp is
    looked at once, on the copy fetched at the start; the user may set it at any time. */
module DeletionController {
  import opened Wrappers
  import opened Runs
  import opened Finite
  import opened Machines
  import opened Deletion

  /** What comes before both branches: whether the object can be fetched, its cluster is known, one of them is paused,
      the infrastructure is ready, and the patch helper can be made. */
  datatype Checks = Checks(fetched: bool, known: bool, paused: bool, infraReady: bool, helper: bool)

  /** What the outside decides: the checks, what others do before each API call, which calls fail, the names of new
      machines, whether the normal branch ends before it has added the finalizer, and whether it scales up. */
  datatype World = World(checks: Checks, gaps: nat -> seq<Action>, faults: nat -> bool, names: nat -> string,
                         early: bool, scalesUp: bool)

  predicate Passes(k: Checks) {
    k.fetched && k.known && !k.paused && k.infraReady && k.helper
  }

  /** Nobody else acts. */
  ghost predicate Alone(w: World) {
    forall k: nat :: w.gaps(k) == []
  }

  /** Nor does any call fail. */
  ghost predicate Calm(w: World) {
    Alone(w) && forall k: nat :: !w.faults(k)
  }

  /** The calls from i up to j that fail. */
  function Faults(w: World, i: nat, j: nat): nat
    requires i <= j
    decreases j - i
  {
    if i == j then 0 else Faults(w, i, j - 1) + if w.faults(j - 1) then 1 else 0
  }

  datatype Outcome = Nothing | Requeue | RequeueAfter | Error

  ghost function ToDelete(owned: Collection): set<string> {
    set n | n in owned && !owned[n].deleting
  }

  /** The machines marked for deletion, but for those in `failed`. */
  function MarkedExcept(ms: Collection, failed: set<string>): Collection {
    map n | n in ms :: if n in failed then ms[n] else ms[n].(deleting := true)
  }

  function Unmarked(owned: Collection): (names: set<string>)
    ensures names == ToDelete(owned)
  {
    set n | n in owned && !owned[n].deleting
  }

  /** The deletions tried by the calls from i up to j, with those in `rest` still to try. */
  ghost predicate Tried(w: World, owned: Collection, rest: set<string>, failed: set<string>, i: nat, j: nat) {
    && rest <= ToDelete(owned) && failed <= ToDelete(owned) - rest
    && i <= j && j == i + |ToDelete(owned)| - |rest| && |failed| == Faults(w, i, j)
  }

  lemma AllUnmarked(w: World, owned: Collection, i: nat)
    ensures Tried(w, owned, ToDelete(owned), {}, i, i) && MarkedExcept(owned, {} + ToDelete(owned)) == owned
  {
  }

  lemma TriedAll(w: World, owned: Collection, failed: set<string>, i: nat, j: nat)
    requires Tried(w, owned, {}, failed, i, j)
    ensures failed <= ToDelete(owned) && i <= j && j == i + |ToDelete(owned)| && |failed| == Faults(w, i, j)
    ensures failed + {} == failed
  {
  }

  lemma TryCounts(w: World, owned: Collection, rest: set<string>, failed: set<string>, i: nat, j: nat, n: string)
    requires Tried(w, owned, rest, failed, i, j) && n in rest
    ensures Tried(w, owned, rest - {n}, if w.faults(j) then failed + {n} else failed, i, j + 1)
  {
    assert n !in failed;
    hide ToDelete;
  }

  lemma TriedUnmarked(w: World, owned: Collection, seen: Collection, name: string,
                      rest: set<string>, failed: set<string>, i: nat, j: nat, n: string)
    requires Tried(w, owned, rest, failed, i, j) && n in rest && owned == Owned(seen, name)
    ensures n in Owned(seen, name) && n in seen && !seen[n].deleting && n !in failed && rest <= ToDelete(owned)
  {
  }

  lemma TryMarks(owned: Collection, rest: set<string>, failed: set<string>, n: string)
    requires n in rest && n !in failed && rest <= ToDelete(owned)
    ensures MarkDeleting(MarkedExcept(owned, failed + rest), n) == MarkedExcept(owned, failed + (rest - {n}))
    ensures MarkedExcept(owned, failed + rest) == MarkedExcept(owned, (failed + {n}) + (rest - {n}))
  {
    assert failed + rest == (failed + {n}) + (rest - {n});
  }

  class Reconciler {
    const c: ControlPlane
    var machines: Collection
    var timestamp: bool
    var finalizer: bool
    var gone: bool
    var calls: nat
    ghost var history: History

    ghost predicate Valid()
      reads this
    {
      && IsHistory(c, history) && Keyed(machines) && Last(history).machines == machines
      && Last(history).timestamp == timestamp && Last(history).finalizer == finalizer && Last(history).gone == gone
    }

    /** Where the running reconcile is, and what it holds. */
    ghost function Local(): (Stage, nat, Collection, bool)
      reads this
    {
      (Last(history).stage, Last(history).slots, Last(history).seen, Last(history).keep)
    }

    constructor (c: ControlPlane, machines: Collection)
      requires Keyed(machines)
      ensures Valid() && this.c == c && this.machines == machines && Local().0.Idle?
      ensures !timestamp && !finalizer && !gone
    {
      this.c, this.machines, timestamp, finalizer, gone, calls := c, machines, false, false, false, 0;
      history := Start(State(machines, false, false, false, Idle, 0, map[], false));
    }

    ghost function With(stage: Stage, slots: nat, seen: Collection, keep: bool): State
      reads this
    {
      State(machines, timestamp, finalizer, gone, stage, slots, seen, keep)
    }

    ghost method Take(a: Action, stage: Stage, slots: nat, seen: Collection, keep: bool)
      requires IsHistory(c, history) && Keyed(machines)
      requires Acts(c, Last(history), a, With(stage, slots, seen, keep))
      modifies this`history
      ensures Valid() && Local() == (stage, slots, seen, keep) && Extends(history, old(history))
    {
      history := After(history, a, With(stage, slots, seen, keep));
    }

    ghost method MoveTo(a: Action, stage: Stage, keep: bool)
      requires Valid() && Acts(c, Last(history), a, With(stage, Local().1, Local().2, keep))
      modifies this`history
      ensures Valid() && Local() == (stage, old(Local()).1, old(Local()).2, keep) && Extends(history, old(history))
    {
      Take(a, stage, Local().1, Local().2, keep);
    }

    method Call(w: World) returns (ok: bool)
      requires Valid()
      modifies this`machines, this`timestamp, this`gone, this`history, this`calls
      ensures Valid() && Local() == old(Local()) && Extends(history, old(history))
      ensures ok == !w.faults(old(calls)) && calls == old(calls) + 1
      ensures old(timestamp) ==> timestamp && gone == old(gone)
      ensures w.gaps(old(calls)) == [] ==> machines == old(machines) && timestamp == old(timestamp) && gone == old(gone)
    {
      var script := w.gaps(calls);
      for i := 0 to |script|
        invariant Valid() && Local() == old(Local()) && Extends(history, old(history)) && calls == old(calls)
        invariant old(timestamp) ==> timestamp && gone == old(gone)
        invariant i == 0 ==> machines == old(machines) && timestamp == old(timestamp) && gone == old(gone)
      {
        ghost var before := history;
        Interfere(script[i]);
        ExtendsTransitive(history, before, old(history));
      }
      ok := !w.faults(calls);
      calls := calls + 1;
    }

    method Interfere(a: Action)
      requires Valid()
      modifies this`machines, this`timestamp, this`gone, this`history
      ensures Valid() && Local() == old(Local()) && Extends(history, old(history))
      ensures old(timestamp) ==> timestamp && gone == old(gone)
    {
      ghost var l := Local();
      match a {
        case UserDeletes =>
          if !timestamp && !gone {
            timestamp := true;
            gone := !finalizer;
            Take(a, l.0, l.1, l.2, l.3);
          }
        case Gone(n) =>
          if n in machines && machines[n].deleting {
            machines := machines - {n};
            Take(a, l.0, l.1, l.2, l.3);
          }
        case Marked(n) =>
          machines := MarkDeleting(machines, n);
          Take(a, l.0, l.1, l.2, l.3);
        case Added(m) =>
          if m.name !in machines && !OwnedBy(m, c.name) {
            machines := machines[m.name := m];
            Take(a, l.0, l.1, l.2, l.3);
          }
        case _ =>
      }
    }

    // ----- Without timestamp ----------------------------------------------------------------------

    /** The creations, each of its own, until one fails.  A timestamp set meanwhile stops none of them. */
    method CreateMachines(w: World, n: nat) returns (ok: bool, made: nat)
      requires Valid() && Local().0.Creating? && Local().1 == n && Local().3
      modifies this`machines, this`timestamp, this`gone, this`history, this`calls
      ensures Valid() && Local().0.Creating? && Local().3 && Extends(history, old(history))
      ensures made <= n && (ok <==> made == n) && Local().1 == n - made
      ensures Alone(w) ==>
          OwnedNames(old(machines), c.name) <= OwnedNames(machines, c.name) && |machines| == |old(machines)| + made
      ensures Alone(w) ==> timestamp == old(timestamp) && gone == old(gone)
    {
      made := 0;
      while made < n
        invariant Valid() && Local().0.Creating? && Local().3 && Extends(history, old(history))
        invariant made <= n && Local().1 == n - made
        invariant Alone(w) ==> OwnedNames(old(machines), c.name) <= OwnedNames(machines, c.name)
        invariant Alone(w) ==> |machines| == |old(machines)| + made && timestamp == old(timestamp) && gone == old(gone)
      {
        ghost var before := history;
        ok := CreateMachine(w);
        ExtendsTransitive(history, before, old(history));
        if !ok {
          return;
        }
        made := made + 1;
      }
      ok := true;
    }

    method CreateMachine(w: World) returns (ok: bool)
      requires Valid() && Local().0.Creating? && Local().1 > 0
      modifies this`machines, this`timestamp, this`gone, this`history, this`calls
      ensures Valid() && Local().0.Creating? && Local().3 == old(Local()).3 && Extends(history, old(history))
      ensures Local().1 == old(Local()).1 - if ok then 1 else 0
      ensures Alone(w) ==> OwnedNames(old(machines), c.name) <= OwnedNames(machines, c.name)
      ensures Alone(w) ==> |machines| == |old(machines)| + if ok then 1 else 0
      ensures Alone(w) ==> timestamp == old(timestamp) && gone == old(gone)
    {
      var name := w.names(calls);
      ok := Call(w);
      if !ok || name in machines {
        return false;
      }
      ghost var before := history;
      StoreMachine(Machine(name, Some(c.name), None, None, 0, None, false, None));
      ExtendsTransitive(history, before, old(history));
    }

    method StoreMachine(m: Machine)
      requires Valid() && Local().0.Creating? && Local().1 > 0 && m.name !in machines && OwnedBy(m, c.name)
      modifies this`machines, this`history
      ensures Valid() && Local() == (Creating, old(Local()).1 - 1, old(Local()).2, old(Local()).3)
      ensures Extends(history, old(history)) && machines == old(machines)[m.name := m]
      ensures OwnedNames(old(machines), c.name) <= OwnedNames(machines, c.name) && |machines| == |old(machines)| + 1
    {
      ghost var l := Local();
      AddedSize(machines, m.name, m);
      assert OwnedNames(machines, c.name) <= OwnedNames(machines[m.name := m], c.name);
      hide IsHistory, OwnedNames;
      machines := machines[m.name := m];
      Take(Create(m), Creating, l.1 - 1, l.2, l.3);
    }

    method ReconcileNormal(w: World) returns (outcome: Outcome, keep: bool)
      requires Valid() && Local().0.Normal? && Local().3
      modifies this`machines, this`timestamp, this`gone, this`history, this`calls
      ensures Valid() && Local().0.Ending? && Local().3 == keep && Extends(history, old(history))
      ensures keep == if w.early then finalizer else true
      ensures Calm(w) ==> timestamp == old(timestamp) && gone == old(gone)
    {
      hide IsHistory;
      if w.early {
        keep := finalizer;
        MoveTo(Skip, Ending, finalizer);
        return Error, keep;
      }
      keep := true;
      outcome := CreateIfNeeded(w);
    }

    method CreateIfNeeded(w: World) returns (outcome: Outcome)
      requires Valid() && Local().0.Normal? && Local().3
      modifies this`machines, this`timestamp, this`gone, this`history, this`calls
      ensures Valid() && Local().0.Ending? && Local().3 && Extends(history, old(history))
      ensures Calm(w) ==> timestamp == old(timestamp) && gone == old(gone)
    {
      hide IsHistory;
      var ok := Call(w);
      ghost var before := history;
      if !ok {
        MoveTo(Stop, Ending, true);
        ExtendsTransitive(history, before, old(history));
        return Error;
      }
      var n := Plans(w);
      hide OwnedNames;
      Take(Plan(n), Creating, n, Local().2, true);
      ExtendsTransitive(history, before, old(history));
      before := history;
      ok := CreateThenStop(w, n);
      ExtendsTransitive(history, before, old(history));
      outcome := if ok then Requeue else Error;
    }

    /** All of `replicas` if there is no machine, at most one otherwise. */
    method Plans(w: World) returns (n: nat)
      requires Keyed(machines)
      ensures n == if OwnedNames(machines, c.name) == {} then c.replicas else if w.scalesUp then 1 else 0
    {
      var owned := Filter(machines, (m: Machine) => OwnedBy(m, c.name));
      assert owned == Owned(machines, c.name);
      OwnedIsNames(machines, c.name);
      n := if |owned| == 0 then c.replicas else if w.scalesUp then 1 else 0;
    }

    method CreateThenStop(w: World, n: nat) returns (ok: bool)
      requires Valid() && Local().0.Creating? && Local().1 == n && Local().3
      modifies this`machines, this`timestamp, this`gone, this`history, this`calls
      ensures Valid() && Local().0.Ending? && Local().3 && Extends(history, old(history))
      ensures Calm(w) ==> timestamp == old(timestamp) && gone == old(gone)
    {
      hide IsHistory, OwnedNames;
      var made;
      ok, made := CreateMachines(w, n);
      ghost var before := history;
      MoveTo(Stop, Ending, true);
      ExtendsTransitive(history, before, old(history));
    }

    // ----- With timestamp -------------------------------------------------------------------------

    /** The deletions: each machine not yet being deleted is tried, and a failure stops none of the others. */
    method DeleteMachines(w: World, owned: Collection) returns (ok: bool, ghost failed: set<string>)
      requires Valid() && Local().0.Deleting? && owned == Owned(Local().2, c.name) && timestamp
      modifies this`machines, this`timestamp, this`gone, this`history, this`calls
      ensures Valid() && Local() == old(Local()) && timestamp && gone == old(gone) && Extends(history, old(history))
      ensures failed <= ToDelete(owned) && (ok <==> failed == {})
      ensures calls == old(calls) + |ToDelete(owned)| && |failed| == Faults(w, old(calls), calls)
      ensures Alone(w) && old(machines) == owned ==> machines == MarkedExcept(owned, failed)
    {
      hide IsHistory, Owned, MarkedExcept, Tried, Faults, ToDelete;
      var rest := Unmarked(owned);
      ok, failed := true, {};
      AllUnmarked(w, owned, calls);
      while rest != {}
        invariant Tried(w, owned, rest, failed, old(calls), calls)
        invariant Valid() && Local() == old(Local()) && timestamp && gone == old(gone) && (ok <==> failed == {})
        invariant Extends(history, old(history))
        invariant Alone(w) && old(machines) == owned ==> machines == MarkedExcept(owned, failed + rest)
        decreases rest
      {
        var n :| n in rest;
        ghost var before := history;
        var done := DeleteNext(w, owned, n, rest, failed, old(calls));
        ExtendsTransitive(history, before, old(history));
        rest := rest - {n};
        if !done {
          ok := false;
          failed := failed + {n};
        }
      }
      TriedAll(w, owned, failed, old(calls), calls);
    }

    method DeleteNext(w: World, ghost owned: Collection, n: string,
                      ghost rest: set<string>, ghost failed: set<string>, ghost first: nat)
      returns (done: bool)
      requires Valid() && Local().0.Deleting? && timestamp && owned == Owned(Local().2, c.name)
      requires n in rest && Tried(w, owned, rest, failed, first, calls)
      modifies this`machines, this`timestamp, this`gone, this`history, this`calls
      ensures Valid() && Local() == old(Local()) && timestamp && gone == old(gone) && Extends(history, old(history))
      ensures Tried(w, owned, rest - {n}, if done then failed else failed + {n}, first, calls)
      ensures Alone(w) && old(machines) == MarkedExcept(owned, failed + rest) ==>
                machines == MarkedExcept(owned, (if done then failed else failed + {n}) + (rest - {n}))
    {
      hide IsHistory, Tried, Faults, MarkedExcept, Owned, ToDelete;
      TryCounts(w, owned, rest, failed, first, calls, n);
      TriedUnmarked(w, owned, Local().2, c.name, rest, failed, first, calls, n);
      TryMarks(owned, rest, failed, n);
      done := DeleteMachine(w, n);
    }

    method DeleteMachine(w: World, n: string) returns (done: bool)
      requires Valid() && Local().0.Deleting? && n in Owned(Local().2, c.name) && !Local().2[n].deleting && timestamp
      modifies this`machines, this`timestamp, this`gone, this`history, this`calls
      ensures Valid() && Local() == old(Local()) && timestamp && gone == old(gone) && Extends(history, old(history))
      ensures done == !w.faults(old(calls)) && calls == old(calls) + 1
      ensures Alone(w) ==> machines == if done then MarkDeleting(old(machines), n) else old(machines)
    {
      done := Call(w);
      if done {
        ghost var l, before := Local(), history;
        machines := MarkDeleting(machines, n);
        Take(Delete(n), l.0, l.1, l.2, l.3);
        ExtendsTransitive(history, before, old(history));
      }
    }

    /** What a reconcile left alone does about the machines it finds, and to its copy of the finalizer. */
    ghost predicate Decided(all: Collection, outcome: Outcome, keep: bool)
      reads this
    {
      if Owned(all, c.name) == map[] then !keep && outcome.Nothing? && machines == all
      else
        && keep == finalizer && outcome.RequeueAfter?
        && machines == if OnlyOwned(all, c.name) then MarkedExcept(all, {}) else all
    }

    /** reconcileDelete: on an error or a wait the reconcile still ends with a patch. */
    method ReconcileDelete(w: World) returns (outcome: Outcome, keep: bool)
      requires Valid() && Local().0.Idle? && timestamp && !gone
      modifies this`machines, this`timestamp, this`gone, this`history, this`calls
      ensures Valid() && Local().0.Ending? && Local().3 == keep && timestamp && !gone && Extends(history, old(history))
      ensures Calm(w) ==> Decided(old(machines), outcome, keep)
    {
      hide IsHistory;
      keep := finalizer;
      var ok := Call(w);
      ghost var before := history;
      if !ok {
        MoveTo(ListFails, Ending, keep);
        ExtendsTransitive(history, before, old(history));
        return Error, keep;
      }
      var all := machines;
      Take(List, Listed, Local().1, all, keep);
      ExtendsTransitive(history, before, old(history));
      before := history;
      outcome, keep := Decide(w, all);
      ExtendsTransitive(history, before, old(history));
    }

    method Decide(w: World, all: Collection) returns (outcome: Outcome, keep: bool)
      requires Valid() && Keyed(all) && Local() == (Listed, Local().1, all, finalizer) && timestamp && !gone
      modifies this`machines, this`timestamp, this`gone, this`history, this`calls
      ensures Valid() && Local().0.Ending? && Local().3 == keep && timestamp && !gone && Extends(history, old(history))
      ensures Calm(w) && old(machines) == all ==> Decided(all, outcome, keep)
    {
      keep := finalizer;
      var owned := Filter(all, (m: Machine) => OwnedBy(m, c.name));
      assert owned == Owned(all, c.name);
      if |owned| == 0 {
        keep := false;
        MoveTo(Release, Ending, false);
        return Nothing, keep;
      }
      if |all| != |owned| {
        MoveTo(Wait, Ending, keep);
        return RequeueAfter, keep;
      }
      outcome := DeleteAll(w, all);
    }

    method DeleteAll(w: World, all: Collection) returns (outcome: Outcome)
      requires Valid() && Local() == (Listed, Local().1, all, finalizer) && timestamp && !gone
      requires Owned(all, c.name) != map[] && OnlyOwned(all, c.name)
      modifies this`machines, this`timestamp, this`gone, this`history, this`calls
      ensures Valid() && Local().0.Ending? && Local().3 == finalizer && timestamp && !gone
          && Extends(history, old(history))
      ensures Calm(w) && old(machines) == all ==> outcome.RequeueAfter? && machines == MarkedExcept(all, {})
    {
      AllIsOwned(all, c.name);
      hide IsHistory, Owned, OnlyOwned, Faults, MarkedExcept, ToDelete;
      MoveTo(Proceed, Deleting, finalizer);
      ghost var failed: set<string>;
      ghost var start, before := calls, history;
      var ok;
      ok, failed := DeleteMachines(w, all);
      NoFaults(w, start, calls);
      ExtendsTransitive(history, before, old(history));
      before := history;
      MoveTo(Finish, Ending, finalizer);
      ExtendsTransitive(history, before, old(history));
      outcome := if ok then RequeueAfter else Error;
    }

    lemma NoFaults(w: World, i: nat, j: nat)
      requires i <= j
      ensures Calm(w) ==> Faults(w, i, j) == 0
      decreases j - i
    {
      if i < j {
        NoFaults(w, i, j - 1);
      }
    }

    /** The checks before both branches, in the code's order; a reconcile they end patches nothing. */
    method CheckCluster(w: World) returns (early: Option<Outcome>)
      requires Valid() && w.checks.fetched
      modifies this`machines, this`timestamp, this`gone, this`history, this`calls
      ensures Valid() && Local() == old(Local()) && Extends(history, old(history))
      ensures old(timestamp) ==> timestamp && gone == old(gone)
      ensures early.None? ==> Passes(w.checks)
      ensures Alone(w) ==> machines == old(machines) && timestamp == old(timestamp) && gone == old(gone)
      ensures !w.faults(old(calls)) ==>
                early == if !w.checks.known || w.checks.paused || !w.checks.infraReady then Some(Nothing)
                         else if !w.checks.helper then Some(Requeue) else None
    {
      var ok := Call(w);
      if !ok {
        return Some(Error);
      }
      if !w.checks.known || w.checks.paused || !w.checks.infraReady {
        return Some(Nothing);
      }
      early := if w.checks.helper then None else Some(Requeue);
    }

    /** One reconcile.  Whatever others do, the deletion of the object included, and whichever calls fail: an object
        deleted with its finalizer persisted is gone afterwards only if none of its machines is left.  A reconcile with
        a timestamp creates none; left alone, and if nothing holds it up before, it removes the finalizer and with it
        the object exactly if there is no machine, and marks the machines exactly if the cluster has no others. */
    method Reconcile(w: World) returns (outcome: Outcome)
      requires Valid() && Local().0.Idle?
      modifies this
      ensures Valid() && Local().0.Idle? && Extends(history, old(history))
      ensures old(timestamp) ==> OwnedNames(machines, c.name) <= OwnedNames(old(machines), c.name)
      ensures gone && !DeletedEarly(history) ==> forall n | n in machines :: !OwnedBy(machines[n], c.name)
      ensures Calm(w) && Passes(w.checks) && old(timestamp) && !old(gone) ==>
                && (gone <==> Owned(old(machines), c.name) == map[])
                && machines == if Owned(old(machines), c.name) != map[] && OnlyOwned(old(machines), c.name)
                               then MarkedExcept(old(machines), {}) else old(machines)
      ensures old(gone) ==> machines == old(machines) && history == old(history)
      ensures Calm(w) && Passes(w.checks) && !old(timestamp) && !old(gone) ==>
                finalizer == (if w.early then old(finalizer) else true)
      ensures !Passes(w.checks) ==> finalizer == old(finalizer)
      ensures !Passes(w.checks) && Alone(w) ==>
                machines == old(machines) && timestamp == old(timestamp) && gone == old(gone)
    {
      InvAlways(c, history);
      if gone || !w.checks.fetched {
        GoneIsEmpty(history);
        return if gone then Nothing else Requeue;
      }
      hide IsHistory, OwnedNames, Owned, OnlyOwned, MarkedExcept;
      if timestamp {
        outcome := ReconcileDeleted(w);
        NoneWithoutRoom(c, history, old(history));
      } else {
        outcome := ReconcileLive(w);
      }
      GoneIsEmpty(history);
    }

    method ReconcileDeleted(w: World) returns (outcome: Outcome)
      requires Valid() && Local().0.Idle? && timestamp && !gone && w.checks.fetched
      modifies this
      ensures Valid() && Local().0.Idle? && Extends(history, old(history))
      ensures Calm(w) && Passes(w.checks) ==>
                && (gone <==> Owned(old(machines), c.name) == map[])
                && machines == if Owned(old(machines), c.name) != map[] && OnlyOwned(old(machines), c.name)
                               then MarkedExcept(old(machines), {}) else old(machines)
      ensures !Passes(w.checks) ==> finalizer == old(finalizer)
      ensures !Passes(w.checks) && Alone(w) ==>
                machines == old(machines) && timestamp == old(timestamp) && gone == old(gone)
    {
      hide IsHistory, OwnedNames, Owned, OnlyOwned, MarkedExcept;
      PersistedWhileDeleted(history);
      var early := CheckCluster(w);
      if early.Some? {
        return early.value;
      }
      ghost var before := history;
      var keep;
      outcome, keep := ReconcileDelete(w);
      ExtendsTransitive(history, before, old(history));
      before := history;
      var ok := PatchObject(w, keep);
      ExtendsTransitive(history, before, old(history));
      if !ok {
        outcome := Error;
      }
    }

    /** The branch was chosen by the copy fetched at the start: the timestamp may be set from then on. */
    method ReconcileLive(w: World) returns (outcome: Outcome)
      requires Valid() && Local().0.Idle? && !timestamp && !gone && w.checks.fetched
      modifies this
      ensures Valid() && Local().0.Idle? && Extends(history, old(history))
      ensures Calm(w) && Passes(w.checks) ==> finalizer == (if w.early then old(finalizer) else true)
      ensures !Passes(w.checks) ==> finalizer == old(finalizer)
      ensures !Passes(w.checks) && Alone(w) ==>
                machines == old(machines) && timestamp == old(timestamp) && gone == old(gone)
    {
      hide IsHistory, OwnedNames;
      MoveTo(Begin, Normal, true);
      ghost var before := history;
      var early := CheckCluster(w);
      ExtendsTransitive(history, before, old(history));
      before := history;
      if early.Some? {
        MoveTo(Fail, Idle, true);
        ExtendsTransitive(history, before, old(history));
        return early.value;
      }
      var keep;
      outcome, keep := ReconcileNormal(w);
      ExtendsTransitive(history, before, old(history));
      before := history;
      var ok := PatchObject(w, keep);
      ExtendsTransitive(history, before, old(history));
      if !ok {
        outcome := Error;
      }
    }

    lemma PersistedWhileDeleted(h: History)
      requires IsHistory(c, h)
      ensures Last(h).timestamp && !Last(h).gone ==> Last(h).finalizer
    {
      InvAlways(c, h);
    }

    /** The deferred patch; patching an object that is gone fails. */
    method PatchObject(w: World, keep: bool) returns (ok: bool)
      requires Valid() && Local().0.Ending? && Local().3 == keep
      modifies this
      ensures Valid() && Local().0.Idle? && Extends(history, old(history))
      ensures finalizer == if ok then keep else old(finalizer)
      ensures Calm(w) ==>
          machines == old(machines) && ok == !old(gone) && gone == (old(gone) || (old(timestamp) && !keep))
    {
      ok := Call(w);
      ok := ok && !gone;
      ghost var l, before := Local(), history;
      if ok {
        finalizer := keep;
        gone := timestamp && !keep;
      }
      Take(Patch(ok), Idle, l.1, l.2, l.3);
      ExtendsTransitive(history, before, old(history));
    }

    lemma GoneIsEmpty(h: History)
      requires IsHistory(c, h)
      ensures Last(h).gone && !DeletedEarly(h) ==>
          forall n | n in Last(h).machines :: !OwnedBy(Last(h).machines[n], c.name)
    {
      InvAlways(c, h);
      if Last(h).gone && !DeletedEarly(h) {
        FinalizerGoesLast(c, h);
      }
    }
  }
}
