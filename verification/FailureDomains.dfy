/** Placement over failure domains: counting, ranking, round-robin, and the choice of a machine to remove. */
module FailureDomains {
  import opened Wrappers
  import opened Sorting
  import opened Finite
  import opened Machines

  /** Failure domains of the cluster status: identifier to whether it may hold control-plane machines. */
  type Domains = map<string, bool>

  datatype Aggregation = Aggregation(id: string, count: nat)

  function FilterControlPlane(ds: Domains): set<string> {
    set d | d in ds && ds[d]
  }

  /** The names of the machines in domain `d`. */
  function Residents(ms: Collection, d: string): set<string> {
    set n | n in ms && ms[n].failureDomain == Some(d)
  }

  function Count(ms: Collection, d: string): nat {
    |Residents(ms, d)|
  }

  ghost function Census(domains: set<string>, ms: Collection): set<Aggregation> {
    set d | d in domains :: Aggregation(d, Count(ms, d))
  }

  // ----- Specifications of the choices ------------------------------------------------------------

  /** `fd` is a domain with fewest machines, or nil when there is no domain. */
  ghost predicate IsFewest(domains: set<string>, ms: Collection, fd: Option<string>) {
    if domains == {} then fd == None
    else fd.Some? && fd.value in domains && forall d | d in domains :: Count(ms, fd.value) <= Count(ms, d)
  }

  /** `order` lists every domain once, fewest machines first. */
  ghost predicate IsRanking(order: seq<string>, domains: set<string>, ms: Collection) {
    && multiset(order) == multiset(domains)
    && forall i, j | 0 <= i < j < |order| :: Count(ms, order[i]) <= Count(ms, order[j])
  }

  /** The machines in none of the given domains, those without any domain included. */
  ghost function Stray(domains: set<string>, ms: Collection): Collection {
    Where(ms, (m: Machine) => m.failureDomain.None? || m.failureDomain.value !in domains)
  }

  ghost predicate IsOldest(v: string, ms: Collection) {
    v in ms && forall n | n in ms :: ms[v].created <= ms[n].created
  }

  /** The victim is an oldest stray candidate if any candidate is stray; otherwise an oldest candidate of a
      domain whose total machine count is greatest among the domains holding a candidate. */
  ghost predicate IsVictim(domains: set<string>, all: Collection, candidates: Collection, v: string) {
    && v in candidates
    && if Stray(domains, candidates) != map[] then IsOldest(v, Stray(domains, candidates))
       else
         && candidates[v].failureDomain.Some?
         && candidates[v].failureDomain.value in domains
         && IsOldest(v, Where(candidates, (m: Machine) => m.failureDomain == candidates[v].failureDomain))
         && forall n | n in candidates && candidates[n].failureDomain.Some? ::
              Count(all, candidates[n].failureDomain.value) <= Count(all, candidates[v].failureDomain.value)
  }

  /** The domain scale-down removes from: that of an oldest stray candidate if there is one, otherwise the
      fullest domain holding a candidate. */
  ghost predicate IsMostCrowded(domains: set<string>, all: Collection, candidates: Collection, fd: Option<string>) {
    if Stray(domains, candidates) != map[] then
      exists n :: IsOldest(n, Stray(domains, candidates)) && fd == candidates[n].failureDomain
    else if candidates == map[] then
      fd == None
    else
      && fd.Some? && fd.value in domains
      && (exists n | n in candidates :: candidates[n].failureDomain == fd)
      && forall n | n in candidates && candidates[n].failureDomain.Some? ::
           Count(all, candidates[n].failureDomain.value) <= Count(all, fd.value)
  }

  // ----- The counting pass ------------------------------------------------------------------------

  lemma CensusFacts(aggs: seq<Aggregation>, domains: set<string>, ms: Collection)
    requires multiset(aggs) == multiset(Census(domains, ms))
    ensures |aggs| == |domains|
    ensures forall i | 0 <= i < |aggs| :: aggs[i].id in domains && aggs[i].count == Count(ms, aggs[i].id)
    ensures forall d | d in domains :: Aggregation(d, Count(ms, d)) in aggs
    ensures forall i, j | 0 <= i < j < |aggs| :: aggs[i].id != aggs[j].id
  {
    NoRepeats(aggs, Census(domains, ms));
    var f := map d | d in domains :: Aggregation(d, Count(ms, d));
    assert f.Values == Census(domains, ms) by {
      assert forall d | d in domains :: d in f && f[d] in f.Values;
    }
    ImageSize(domains, Census(domains, ms), f);
    forall i | 0 <= i < |aggs| ensures aggs[i].id in domains && aggs[i].count == Count(ms, aggs[i].id) {
      assert aggs[i] in aggs;
    }
  }

  ghost function Counted(ms: Collection, rest: set<string>, d: string): set<string> {
    set n | n in ms && n !in rest && ms[n].failureDomain == Some(d)
  }

  lemma CountedStep(ms: Collection, rest: set<string>, n: string, d: string)
    requires n in ms && n in rest
    ensures |Counted(ms, rest - {n}, d)| == |Counted(ms, rest, d)| + if ms[n].failureDomain == Some(d) then 1 else 0
  {
    assert Counted(ms, rest - {n}, d) == Counted(ms, rest, d) + if ms[n].failureDomain == Some(d) then {n} else {};
  }

  lemma CensusStep(domains: set<string>, ms: Collection, d: string)
    requires d !in domains
    ensures multiset(Census(domains + {d}, ms)) == multiset(Census(domains, ms)) + multiset{Aggregation(d,
        Count(ms, d))}
  {
    assert Census(domains + {d}, ms) == Census(domains, ms) + {Aggregation(d, Count(ms, d))};
    assert Aggregation(d, Count(ms, d)) !in Census(domains, ms);
  }

  /** Each known domain exactly once, with its exact machine count, in no particular order. */
  method Pick(domains: set<string>, ms: Collection) returns (aggs: seq<Aggregation>)
    ensures multiset(aggs) == multiset(Census(domains, ms))
  {
    if |domains| == 0 {
      return [];
    }
    var counters := CountMachines(domains, ms);
    aggs := [];
    var rest := counters.Keys;
    ghost var done: set<string> := {};
    while rest != {}
      invariant rest !! done && rest + done == domains
      invariant multiset(aggs) == multiset(Census(done, ms))
      decreases rest
    {
      var d :| d in rest;
      CensusStep(done, ms, d);
      aggs := aggs + [Aggregation(d, counters[d])];
      rest := rest - {d};
      done := done + {d};
    }
    assert done == domains;
  }

  method CountMachines(domains: set<string>, ms: Collection) returns (counters: map<string, nat>)
    ensures counters.Keys == domains
    ensures forall d | d in domains :: counters[d] == Count(ms, d)
  {
    counters := map[];
    var rest := domains;
    while rest != {}
      invariant rest <= domains
      invariant counters.Keys == domains - rest
      invariant forall d | d in counters :: counters[d] == 0
      decreases rest
    {
      var d :| d in rest;
      counters := counters[d := 0];
      rest := rest - {d};
    }
    rest := ms.Keys;
    assert forall d | d in domains :: Counted(ms, rest, d) == {};
    while rest != {}
      invariant rest <= ms.Keys
      invariant counters.Keys == domains
      invariant forall d | d in domains :: counters[d] == |Counted(ms, rest, d)|
      decreases rest
    {
      var n :| n in rest;
      forall d | d in domains { CountedStep(ms, rest, n, d); }
      rest := rest - {n};
      if ms[n].failureDomain.None? {
        continue;
      }
      var id := ms[n].failureDomain.value;
      if id !in domains {
        continue;
      }
      counters := counters[id := counters[id] + 1];
    }
    assert forall d | d in domains :: Counted(ms, rest, d) == Residents(ms, d);
  }

  function Sum(aggs: seq<Aggregation>): nat {
    if aggs == [] then 0 else aggs[0].count + Sum(aggs[1..])
  }

  function Placed(domains: set<string>, ms: Collection): set<string> {
    set n | n in ms && ms[n].failureDomain.Some? && ms[n].failureDomain.value in domains
  }

  /** The counts of any enumeration of the domains add up to the machines in a known domain: a machine with no
      domain, or one the cluster does not list, changes nothing. */
  lemma {:induction false} CountsAddUp(aggs: seq<Aggregation>, domains: set<string>, ms: Collection)
    requires |aggs| == |domains|
    requires forall i | 0 <= i < |aggs| :: aggs[i].id in domains && aggs[i].count == Count(ms, aggs[i].id)
    requires forall i, j | 0 <= i < j < |aggs| :: aggs[i].id != aggs[j].id
    ensures Sum(aggs) == |Placed(domains, ms)|
    decreases |aggs|
  {
    if aggs == [] {
      assert Placed(domains, ms) == {};
    } else {
      var d, others := aggs[0].id, domains - {aggs[0].id};
      CountsAddUp(aggs[1..], others, ms);
      assert Placed(domains, ms) == Placed(others, ms) + Residents(ms, d);
      assert Placed(others, ms) !! Residents(ms, d);
    }
  }

  // ----- Fewest -----------------------------------------------------------------------------------

  method PickFewest(domains: set<string>, ms: Collection) returns (fd: Option<string>)
    ensures IsFewest(domains, ms, fd)
  {
    var aggs := Pick(domains, ms);
    CensusFacts(aggs, domains, ms);
    if |aggs| == 0 {
      return None;
    }
    var sorted := SortBy(aggs, (a: Aggregation) => a.count);
    CensusFacts(sorted, domains, ms);
    fd := Some(sorted[0].id);
    forall d | d in domains ensures Count(ms, sorted[0].id) <= Count(ms, d) {
      var i :| 0 <= i < |sorted| && sorted[i] == Aggregation(d, Count(ms, d));
    }
  }

  method PickNFewest(domains: set<string>, ms: Collection, n: nat)
      returns (fds: array<Option<string>>, ghost order: seq<string>)
    ensures fresh(fds) && fds.Length == n
    ensures domains == {} ==> forall i | 0 <= i < n :: fds[i] == None
    ensures domains != {} ==> IsRanking(order, domains, ms) && RoundRobin(fds[..], order)
  {
    fds := new Option<string>[n](i => None);
    order := [];
    var aggs := Pick(domains, ms);
    CensusFacts(aggs, domains, ms);
    if |aggs| == 0 {
      return;
    }
    var sorted := SortBy(aggs, (a: Aggregation) => a.count);
    order := Ids(sorted, domains, ms);
    for i := 0 to n
      invariant forall j | 0 <= j < i :: fds[j] == Some(order[j % |order|])
    {
      fds[i] := Some(sorted[i % |sorted|].id);
    }
  }

  lemma Ids(aggs: seq<Aggregation>, domains: set<string>, ms: Collection) returns (ids: seq<string>)
    requires multiset(aggs) == multiset(Census(domains, ms))
    requires SortedBy(aggs, (a: Aggregation) => a.count)
    ensures |ids| == |aggs| && forall i | 0 <= i < |ids| :: ids[i] == aggs[i].id
    ensures IsRanking(ids, domains, ms)
  {
    CensusFacts(aggs, domains, ms);
    ids := seq(|aggs|, i requires 0 <= i < |aggs| => aggs[i].id);
    forall d | d in domains ensures d in ids {
      var i :| 0 <= i < |aggs| && aggs[i] == Aggregation(d, Count(ms, d));
      assert ids[i] == d;
    }
    DistinctIsSet(ids, domains);
  }

  lemma {:induction false} DistinctIsSet(ids: seq<string>, s: set<string>)
    requires forall i, j | 0 <= i < j < |ids| :: ids[i] != ids[j]
    requires forall x :: x in ids <==> x in s
    ensures multiset(ids) == multiset(s)
    decreases |ids|
  {
    if ids == [] {
      assert s == {};
    } else {
      assert ids == [ids[0]] + ids[1..];
      assert forall x | x in ids[1..] :: x != ids[0];
      DistinctIsSet(ids[1..], s - {ids[0]});
      assert multiset(s) == multiset(s - {ids[0]}) + multiset{ids[0]};
    }
  }

  // ----- Round-robin shares -----------------------------------------------------------------------

  ghost predicate RoundRobin(fds: seq<Option<string>>, order: seq<string>) {
    |order| > 0 && forall i | 0 <= i < |fds| :: fds[i] == Some(order[i % |order|])
  }

  /** How many of the slots name domain `d`. */
  function Slots(fds: seq<Option<string>>, d: string): nat {
    if fds == [] then 0 else Slots(fds[..|fds| - 1], d) + if fds[|fds| - 1] == Some(d) then 1 else 0
  }

  lemma DivStep(n: nat, k: nat)
    requires k > 0
    ensures n % k + 1 < k ==> (n + 1) / k == n / k && (n + 1) % k == n % k + 1
    ensures n % k + 1 == k ==> (n + 1) / k == n / k + 1 && (n + 1) % k == 0
  {
    var q, r := n / k, n % k;
    assert n == q * k + r;
    if r + 1 < k {
      DivUnique(n + 1, k, q, r + 1);
    } else {
      assert n + 1 == (q + 1) * k;
      DivUnique(n + 1, k, q + 1, 0);
    }
  }

  lemma {:induction false} DivUnique(n: int, k: nat, q: int, r: int)
    requires k > 0 && n == q * k + r && 0 <= r < k
    ensures n / k == q && n % k == r
  {
    var e := n / k - q;
    assert n == (n / k) * k + n % k;
    assert e * k == r - n % k;
    MulSpread(e, k);
  }

  lemma MulSpread(e: int, k: nat)
    ensures e >= 1 ==> e * k >= k
    ensures e <= -1 ==> e * k <= 0 - k
  {
  }

  /** The number of slots of rank p among n slots dealt to k domains in turn. */
  function Share(n: nat, p: nat, k: nat): nat
    requires p < k
  {
    if n >= p then (n - p + k - 1) / k else 0
  }

  /** The closed form of a share: one round each, plus one for the ranks of the last, partial round. */
  lemma ShareRounds(n: nat, p: nat, k: nat)
    requires p < k
    ensures Share(n, p, k) == n / k + if p < n % k then 1 else 0
  {
    var q, r := n / k, n % k;
    assert n == q * k + r;
    if p < r {
      DivUnique(n - p + k - 1, k, q + 1, r - p - 1);
    } else if n >= p {
      DivUnique(n - p + k - 1, k, q, r - p + k - 1);
    } else {
      DivUnique(n, k, 0, n);
    }
  }

  /** Rank p of k receives exactly (n - p + k - 1) / k of the n slots. */
  lemma {:induction false} SharesExact(fds: seq<Option<string>>, order: seq<string>, p: nat)
    requires RoundRobin(fds, order) && p < |order|
    requires forall i, j | 0 <= i < j < |order| :: order[i] != order[j]
    ensures Slots(fds, order[p]) == Share(|fds|, p, |order|)
    decreases |fds|
  {
    var n, k := |fds|, |order|;
    ShareRounds(n, p, k);
    if n == 0 {
      DivUnique(0, k, 0, 0);
    } else {
      SharesExact(fds[..n - 1], order, p);
      ShareRounds(n - 1, p, k);
      DivStep(n - 1, k);
      var last := (n - 1) % k;
      assert 0 <= last < k;
      assert fds[n - 1] == Some(order[last]);
      assert (order[last] == order[p]) == (last == p);
    }
  }

  /** Shares differ by at most one, and a domain with fewer machines never gets fewer slots. */
  lemma SharesFair(fds: seq<Option<string>>, order: seq<string>, domains: set<string>, ms: Collection, d: string,
      e: string)
    requires IsRanking(order, domains, ms) && RoundRobin(fds, order)
    requires d in domains && e in domains
    ensures Slots(fds, d) <= Slots(fds, e) + 1
    ensures Count(ms, d) < Count(ms, e) ==> Slots(fds, d) >= Slots(fds, e)
  {
    NoRepeats(order, domains);
    var p :| 0 <= p < |order| && order[p] == d;
    var q :| 0 <= q < |order| && order[q] == e;
    SharesExact(fds, order, p);
    SharesExact(fds, order, q);
    ShareRounds(|fds|, p, |order|);
    ShareRounds(|fds|, q, |order|);
  }

  function FailureDomainsOf(xs: seq<Machine>): seq<Option<string>> {
    seq(|xs|, i requires 0 <= i < |xs| => xs[i].failureDomain)
  }

  ghost predicate FreshNames(ms: Collection, xs: seq<Machine>) {
    && (forall i | 0 <= i < |xs| :: xs[i].name !in ms)
    && forall i, j | 0 <= i < j < |xs| :: xs[i].name != xs[j].name
  }

  lemma {:induction false} InsertedCounts(ms: Collection, xs: seq<Machine>, d: string)
    requires FreshNames(ms, xs)
    ensures Count(InsertAll(ms, xs), d) == Count(ms, d) + Slots(FailureDomainsOf(xs), d)
    decreases |xs|
  {
    if xs != [] {
      var init, last := xs[..|xs| - 1], xs[|xs| - 1];
      InsertedCounts(ms, init, d);
      InsertedNames(ms, init);
      assert last.name !in InsertAll(ms, init);
      assert FailureDomainsOf(xs)[..|xs| - 1] == FailureDomainsOf(init);
      CountAfterCreate(InsertAll(ms, init), last, d);
    }
  }

  /** Machines created from nothing, one per round-robin slot, leave any two domains within one of each other. */
  lemma InitialSpread(domains: set<string>, xs: seq<Machine>, order: seq<string>)
    requires FreshNames(map[], xs)
    requires IsRanking(order, domains, map[]) && RoundRobin(FailureDomainsOf(xs), order)
    ensures SpreadAtMost(domains, InsertAll(map[], xs), 1)
  {
    var ms := InsertAll(map[], xs);
    forall d, e | d in domains && e in domains ensures Count(ms, d) <= Count(ms, e) + 1 {
      InsertedCounts(map[], xs, d);
      InsertedCounts(map[], xs, e);
      assert Residents(map[], d) == {} && Residents(map[], e) == {};
      SharesFair(FailureDomainsOf(xs), order, domains, map[], d, e);
    }
  }

  // ----- Spread -----------------------------------------------------------------------------------

  /** No two known domains differ by more than `b` machines. */
  ghost predicate SpreadAtMost(domains: set<string>, ms: Collection, b: int) {
    forall d, e | d in domains && e in domains :: Count(ms, d) <= Count(ms, e) + b
  }

  lemma CountAfterCreate(ms: Collection, m: Machine, d: string)
    requires m.name !in ms
    ensures Count(ms[m.name := m], d) == Count(ms, d) + if m.failureDomain == Some(d) then 1 else 0
  {
    assert Residents(ms[m.name := m], d) == Residents(ms, d) + if m.failureDomain == Some(d) then {m.name} else {};
  }

  /** A machine created in a fewest domain widens no spread beyond one: every bound b >= 1 survives. */
  lemma FewestKeepsSpread(domains: set<string>, ms: Collection, m: Machine, b: int)
    requires m.name !in ms && IsFewest(domains, ms, m.failureDomain)
    requires b >= 1 && SpreadAtMost(domains, ms, b)
    ensures SpreadAtMost(domains, ms[m.name := m], b)
  {
    forall d, e | d in domains && e in domains
      ensures Count(ms[m.name := m], d) <= Count(ms[m.name := m], e) + b
    {
      CountAfterCreate(ms, m, d);
      CountAfterCreate(ms, m, e);
    }
  }

  // ----- Most -------------------------------------------------------------------------------------

  method OrderDescending(domains: set<string>, ms: Collection) returns (aggs: seq<Aggregation>)
    ensures multiset(aggs) == multiset(Census(domains, ms))
    ensures forall i, j | 0 <= i < j < |aggs| :: aggs[i].count >= aggs[j].count
  {
    aggs := Pick(domains, ms);
    if |aggs| == 0 {
      return;
    }
    aggs := SortBy(aggs, (a: Aggregation) => 0 - (a.count as int));
  }

  /** A domain holding a candidate, with the greatest total count among such domains; nil when no candidate
      is in a known domain. */
  method PickMost(domains: set<string>, all: Collection, candidates: Collection) returns (fd: Option<string>)
    ensures fd.None? <==> forall n | n in candidates :: n in Stray(domains, candidates)
    ensures fd.Some? ==> fd.value in domains && exists n | n in candidates :: candidates[n].failureDomain == fd
    ensures fd.Some? ==> forall n | n in candidates && n !in Stray(domains, candidates) ::
                           Count(all, candidates[n].failureDomain.value) <= Count(all, fd.value)
  {
    var aggs := OrderDescending(domains, all);
    CensusFacts(aggs, domains, all);
    for i := 0 to |aggs|
      invariant forall j, n | 0 <= j < i && n in candidates :: candidates[n].failureDomain != Some(aggs[j].id)
    {
      var rest := candidates.Keys;
      while rest != {}
        invariant rest <= candidates.Keys
        invariant forall n | n in candidates && n !in rest :: candidates[n].failureDomain != Some(aggs[i].id)
        decreases rest
      {
        var n :| n in rest;
        rest := rest - {n};
        if candidates[n].failureDomain.None? {
          continue;
        }
        if candidates[n].failureDomain.value == aggs[i].id {
          assert n in candidates && n !in Stray(domains, candidates);
          forall k | k in candidates && k !in Stray(domains, candidates)
            ensures Count(all, candidates[k].failureDomain.value) <= Count(all, aggs[i].id)
          {
            var d := candidates[k].failureDomain.value;
            var j :| 0 <= j < |aggs| && aggs[j] == Aggregation(d, Count(all, d));
            assert candidates[k].failureDomain == Some(aggs[j].id);
          }
          return Some(aggs[i].id);
        }
      }
    }
    forall n | n in candidates ensures n in Stray(domains, candidates) {
      if candidates[n].failureDomain.Some? {
        var d := candidates[n].failureDomain.value;
        assert forall j | 0 <= j < |aggs| :: aggs[j].id != d;
        assert Aggregation(d, Count(all, d)) !in aggs;
      }
    }
    fd := None;
  }

  // ----- Choosing a victim ------------------------------------------------------------------------

  method FailureDomainWithMostMachines(domains: Domains, all: Collection, candidates: Collection)
      returns (fd: Option<string>)
    requires Keyed(candidates)
    ensures IsMostCrowded(FilterControlPlane(domains), all, candidates, fd)
  {
    var known := FilterControlPlane(domains);
    var ids := set d | d in known :: Some(d);
    var outside := Filter(candidates, m => !InFailureDomains(m, ids));
    assert outside == Stray(known, candidates) by {
      forall n | n in candidates
        ensures InFailureDomains(candidates[n], ids)
            <==> candidates[n].failureDomain.Some? && candidates[n].failureDomain.value in known
      {
      }
    }
    if |outside| > 0 {
      var oldest := Oldest(outside);
      assert IsOldest(oldest.value.name, Stray(known, candidates));
      return oldest.value.failureDomain;
    }
    fd := PickMost(known, all, candidates);
    assert Stray(known, candidates) == map[];
    if n :| n in candidates {
      assert n !in Stray(known, candidates);
      assert candidates[n].failureDomain.Some?;
    }
  }

  /** The machine to delete: an error (None) exactly when there is no candidate. */
  method MachineInFailureDomainWithMostMachines(domains: Domains, all: Collection, candidates: Collection)
    returns (victim: Option<Machine>)
    requires Keyed(candidates)
    ensures victim.None? <==> candidates == map[]
    ensures victim.Some? ==> IsVictim(FilterControlPlane(domains), all, candidates, victim.value.name)
    ensures victim.Some? ==> victim.value == candidates[victim.value.name]
  {
    var known := FilterControlPlane(domains);
    ghost var stray := Stray(known, candidates);
    var fd := FailureDomainWithMostMachines(domains, all, candidates);
    var inDomain := Filter(candidates, m => InFailureDomains(m, {fd}));
    assert inDomain == Where(candidates, (m: Machine) => m.failureDomain == fd);
    victim := Oldest(inDomain);
    if stray != map[] {
      ghost var n :| IsOldest(n, stray) && fd == stray[n].failureDomain;
      assert n in inDomain;
      ghost var v := victim.value.name;
      assert v in stray;
      assert candidates[v].created <= candidates[n].created;
    } else if n :| n in candidates && candidates[n].failureDomain == fd {
      assert n in inDomain;
    }
  }

  /** A victim exists for every non-empty candidate set. */
  lemma VictimExists(domains: set<string>, all: Collection, candidates: Collection) returns (v: string)
    requires candidates != map[]
    ensures IsVictim(domains, all, candidates, v)
  {
    var stray := Stray(domains, candidates);
    var age := (n: string) => if n in candidates then candidates[n].created else 0;
    if stray != map[] {
      v := LeastExists(stray.Keys, age);
    } else {
      assert forall n | n in candidates :: n !in stray;
      var room := (n: string) => if n in candidates && candidates[n].failureDomain.Some?
                                 then 0 - (Count(all, candidates[n].failureDomain.value) as int) else 0;
      assert candidates.Keys != {};
      var w := LeastExists(candidates.Keys, room);
      var peers := Where(candidates, (m: Machine) => m.failureDomain == candidates[w].failureDomain);
      assert w in peers;
      v := LeastExists(peers.Keys, age);
      forall n | n in candidates && candidates[n].failureDomain.Some?
        ensures Count(all, candidates[n].failureDomain.value) <= Count(all, candidates[v].failureDomain.value)
      {
        assert room(w) <= room(n);
      }
    }
  }

  // ----- Spread after a removal -------------------------------------------------------------------

  lemma CountAfterRemoval(ms: Collection, v: string, d: string)
    requires v in ms
    ensures Count(ms - {v}, d) == Count(ms, d) - if ms[v].failureDomain == Some(d) then 1 else 0
  {
    assert Residents(ms, d) == Residents(ms - {v}, d) + if ms[v].failureDomain == Some(d) then {v} else {};
  }

  /** No other domain has b machines more than d already. */
  ghost predicate HasRoom(domains: set<string>, ms: Collection, d: string, b: int) {
    forall e | e in domains && e != d :: Count(ms, e) < Count(ms, d) + b
  }

  /** "Removing a machine keeps the balance" is false of scale-down.  Removing one from a known domain d keeps a bound b
      exactly if no other domain has b machines more than d; removing one from no known domain keeps every bound. */
  lemma RemovalKeepsSpreadExactly(domains: set<string>, ms: Collection, v: string, b: int)
    requires v in ms && b >= 0 && SpreadAtMost(domains, ms, b)
    ensures SpreadAtMost(domains, ms - {v}, b) <==>
              (ms[v].failureDomain.Some? && ms[v].failureDomain.value in domains ==>
                 HasRoom(domains, ms, ms[v].failureDomain.value, b))
  {
    forall e | e in domains { CountAfterRemoval(ms, v, e); }
    if ms[v].failureDomain.Some? && ms[v].failureDomain.value in domains {
      var d := ms[v].failureDomain.value;
      if SpreadAtMost(domains, ms - {v}, b) {
        forall e | e in domains && e != d ensures Count(ms, e) < Count(ms, d) + b {
          assert Count(ms - {v}, e) <= Count(ms - {v}, d) + b;
        }
      }
    }
  }

  /** For the victim a bound of at least one can break only against a domain without candidates: a stray victim breaks
      none, and no domain with a candidate is fuller than the victim's. */
  lemma VictimKeepsSpreadExactly(domains: set<string>, all: Collection, candidates: Collection, v: string, b: int)
    requires IsVictim(domains, all, candidates, v) && b >= 1 && SpreadAtMost(domains, all, b)
    requires forall n | n in candidates :: n in all && all[n].failureDomain == candidates[n].failureDomain
    ensures SpreadAtMost(domains, all - {v}, b) <==>
              (Stray(domains, candidates) == map[] ==>
                 forall e | e in domains && !Holds(candidates, e) ::
                   Count(all, e) < Count(all, candidates[v].failureDomain.value) + b)
  {
    RemovalKeepsSpreadExactly(domains, all, v, b);
    if Stray(domains, candidates) != map[] {
      assert v in Stray(domains, candidates);
    } else {
      var d := candidates[v].failureDomain.value;
      forall e | e in domains && Holds(candidates, e) ensures Count(all, e) < Count(all, d) + b {
        var n :| n in candidates && candidates[n].failureDomain == Some(e);
      }
    }
  }

  /** The domain holds a candidate. */
  predicate Holds(candidates: Collection, d: string) {
    exists n | n in candidates :: candidates[n].failureDomain == Some(d)
  }

  /** A single outdated machine in a known domain is the victim whatever the other domains hold, so the bound then
      breaks exactly if its domain is b machines thinner than another. */
  lemma OnlyCandidateKeepsSpreadExactly(domains: set<string>, all: Collection, v: string, b: int)
    requires v in all && b >= 1 && SpreadAtMost(domains, all, b)
    requires all[v].failureDomain.Some? && all[v].failureDomain.value in domains
    ensures forall x :: IsVictim(domains, all, map[v := all[v]], x) <==> x == v
    ensures SpreadAtMost(domains, all - {v}, b) <==> HasRoom(domains, all, all[v].failureDomain.value, b)
  {
    RemovalKeepsSpreadExactly(domains, all, v, b);
    assert v in map[v := all[v]];
    var x := VictimExists(domains, all, map[v := all[v]]);
    assert x == v;
  }

  /** Such a state: two machines that match in one domain, the outdated one alone in the other. */
  lemma VictimBreaksBalance(m: Machine)
    ensures var all :=
        map["x" := m.(name := "x", failureDomain := Some("a")), "y" := m.(name := "y", failureDomain := Some("a")),
                           "z" := m.(name := "z", failureDomain := Some("b"))];
            && SpreadAtMost({"a", "b"}, all, 1)
            && (forall v | IsVictim({"a", "b"}, all, map["z" := all["z"]], v) ::
                !SpreadAtMost({"a", "b"}, all - {v}, 1))
  {
    var all := map["x" := m.(name := "x", failureDomain := Some("a")),
        "y" := m.(name := "y", failureDomain := Some("a")),
                   "z" := m.(name := "z", failureDomain := Some("b"))];
    assert "x" != "y" && "x" != "z" && "y" != "z" && "a" != "b";
    assert Residents(all, "a") == {"x", "y"} && Residents(all, "b") == {"z"};
    assert Count(all, "a") == 2 && Count(all, "b") == 1;
    OnlyCandidateKeepsSpreadExactly({"a", "b"}, all, "z", 1);
    assert !HasRoom({"a", "b"}, all, "b", 1) by {
      assert "a" in {"a", "b"};
    }
  }

  lemma {:induction false} RankingExists(domains: set<string>, ms: Collection) returns (order: seq<string>)
    ensures IsRanking(order, domains, ms)
    decreases |domains|
  {
    if domains == {} {
      order := [];
    } else {
      var d := LeastExists(domains, d => Count(ms, d));
      var rest := RankingExists(domains - {d}, ms);
      order := [d] + rest;
      assert multiset(domains) == multiset(domains - {d}) + multiset{d};
      forall j | 1 <= j < |order| ensures Count(ms, order[0]) <= Count(ms, order[j]) {
        assert order[j] in multiset(rest);
      }
    }
  }

  lemma FewestExists(domains: set<string>, ms: Collection) returns (fd: Option<string>)
    ensures IsFewest(domains, ms, fd)
  {
    fd := None;
    if domains != {} {
      var d := LeastExists(domains, d => Count(ms, d));
      fd := Some(d);
    }
  }
}
