/** Machines and the name-keyed collections the control plane works on. */
module Machines {
  import opened Wrappers
  import opened Sorting

  datatype OwnerRef = OwnerRef(kind: string, name: string)

  /** The parts of a Machine object the controllers read.  `controlPlane` and `hash` are the values of
      the control-plane and configuration-hash labels; `controller` is the controlling owner. */
  datatype Machine = Machine(
    name: string,
    controlPlane: Option<string>,
    hash: Option<string>,
    failureDomain: Option<string>,
    created: int,
    nodeRef: Option<string>,
    deleting: bool,
    controller: Option<OwnerRef>)

  /** Machines by name. */
  type Collection = map<string, Machine>

  predicate Keyed(ms: Collection) {
    forall n | n in ms :: ms[n].name == n
  }

  predicate OwnedBy(m: Machine, controlPlane: string) {
    m.controlPlane == Some(controlPlane)
  }

  predicate MatchesHash(m: Machine, hash: string) {
    m.hash == Some(hash)
  }

  /** `domains` may hold None, which selects the machines without a failure domain. */
  predicate InFailureDomains(m: Machine, domains: set<Option<string>>) {
    m.failureDomain in domains
  }

  function Where(ms: Collection, keep: Machine -> bool): Collection {
    map n | n in ms && keep(ms[n]) :: ms[n]
  }

  function Outdated(ms: Collection, hash: string): Collection {
    Where(ms, m => !MatchesHash(m, hash))
  }

  predicate HasDeletingMachine(ms: Collection) {
    exists n | n in ms :: ms[n].deleting
  }

  /** Deleting a Machine object only marks it; the object goes when its finalizers have run. */
  function MarkDeleting(ms: Collection, n: string): Collection {
    if n in ms then ms[n := ms[n].(deleting := true)] else ms
  }

  /** The collection with the machines of a list put in one after the other, under their names. */
  function InsertAll(ms: Collection, xs: seq<Machine>): Collection {
    if xs == [] then ms else InsertAll(ms, xs[..|xs| - 1])[xs[|xs| - 1].name := xs[|xs| - 1]]
  }

  /** No later machine of the list has this one's name. */
  ghost predicate IsLast(xs: seq<Machine>, i: nat)
    requires i < |xs|
  {
    forall j | i < j < |xs| :: xs[j].name != xs[i].name
  }

  lemma {:induction false} InsertedNames(ms: Collection, xs: seq<Machine>)
    ensures InsertAll(ms, xs).Keys == ms.Keys + set x | x in xs :: x.name
    ensures Keyed(ms) ==> Keyed(InsertAll(ms, xs))
    decreases |xs|
  {
    if xs != [] {
      var init, last := xs[..|xs| - 1], xs[|xs| - 1];
      InsertedNames(ms, init);
      assert xs == init + [last];
    }
  }

  /** The last machine of a name wins. */
  lemma {:induction false} InsertedLast(ms: Collection, xs: seq<Machine>, i: nat)
    requires i < |xs| && IsLast(xs, i)
    ensures xs[i].name in InsertAll(ms, xs) && InsertAll(ms, xs)[xs[i].name] == xs[i]
    decreases |xs|
  {
    if i < |xs| - 1 {
      var init := xs[..|xs| - 1];
      assert IsLast(init, i);
      InsertedLast(ms, init, i);
    }
  }

  /** A machine whose name is not in the list stays. */
  lemma {:induction false} NotInserted(ms: Collection, xs: seq<Machine>, n: string)
    requires n in ms && forall m | m in xs :: m.name != n
    ensures n in InsertAll(ms, xs) && InsertAll(ms, xs)[n] == ms[n]
    decreases |xs|
  {
    if xs != [] {
      NotInserted(ms, xs[..|xs| - 1], n);
    }
  }

  method Insert(ms: Collection, xs: seq<Machine>) returns (r: Collection)
    requires Keyed(ms)
    ensures Keyed(r)
    ensures r.Keys == ms.Keys + set m | m in xs :: m.name
    ensures forall i | 0 <= i < |xs| && IsLast(xs, i) :: xs[i].name in r && r[xs[i].name] == xs[i]
    ensures forall n | n in ms && (forall m | m in xs :: m.name != n) :: n in r && r[n] == ms[n]
  {
    r := ms;
    for i := 0 to |xs|
      invariant r == InsertAll(ms, xs[..i])
    {
      assert xs[..i + 1][..i] == xs[..i];
      r := r[xs[i].name := xs[i]];
    }
    assert xs[..|xs|] == xs;
    InsertedNames(ms, xs);
    forall j | 0 <= j < |xs| && IsLast(xs, j) ensures xs[j].name in r && r[xs[j].name] == xs[j] {
      InsertedLast(ms, xs, j);
    }
    forall n | n in ms && (forall m | m in xs :: m.name != n) ensures n in r && r[n] == ms[n] {
      NotInserted(ms, xs, n);
    }
  }

  /** Filter rebuilds the collection from an unordered list of its machines, keyed again by name. */
  method Filter(ms: Collection, keep: Machine -> bool) returns (r: Collection)
    requires Keyed(ms)
    ensures r == Where(ms, keep)
  {
    r := map[];
    var rest := ms.Keys;
    while rest != {}
      invariant rest <= ms.Keys
      invariant r == map n | n in ms && n !in rest && keep(ms[n]) :: ms[n]
      decreases rest
    {
      var n :| n in rest;
      if keep(ms[n]) {
        r := r[ms[n].name := ms[n]];
      }
      rest := rest - {n};
    }
  }

  /** The oldest machine is the first of a list sorted by creation time; which one is first among equals is open. */
  method Oldest(ms: Collection) returns (r: Option<Machine>)
    requires Keyed(ms)
    ensures r.None? <==> ms == map[]
    ensures r.Some? ==> r.value.name in ms && r.value == ms[r.value.name]
    ensures r.Some? ==> forall n | n in ms :: r.value.created <= ms[n].created
  {
    if |ms| == 0 {
      return None;
    }
    var list: seq<Machine> := [];
    var rest := ms.Keys;
    while rest != {}
      invariant rest <= ms.Keys
      invariant forall m | m in list :: m.name in ms && m == ms[m.name]
      invariant forall n | n in ms && n !in rest :: ms[n] in list
      decreases rest
    {
      var n :| n in rest;
      list := list + [ms[n]];
      rest := rest - {n};
    }
    var sorted := SortBy(list, (m: Machine) => m.created);
    assert forall m :: m in sorted <==> m in multiset(sorted);
    assert forall m :: m in list <==> m in multiset(list);
    var n :| n in ms;
    assert ms[n] in sorted;
    r := Some(sorted[0]);
    assert sorted[0] in sorted;
    forall k | k in ms ensures sorted[0].created <= ms[k].created {
      assert ms[k] in sorted;
    }
  }
}
