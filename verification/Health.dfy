/** The health gate: what is read from the workload cluster, and the match of nodes with machines. */
module Health {
  import opened Wrappers
  import opened Finite
  import opened Machines

  // ----- Control-plane components of one node (workload cluster) ----------------------------------

  datatype Condition = Condition(isPodReady: bool, isTrue: bool)
  datatype Taint = Taint(unreachable: bool, noExecute: bool)

  /** A static pod is the result of fetching it: None when the fetch failed. */
  datatype Node = Node(taints: seq<Taint>, apiServer: Option<seq<Condition>>, controllerManager: Option<seq<Condition>>)

  datatype Problem = NoExecuteTaint | NotFetched | NotReady | NoReadyCondition

  ghost predicate PodReady(conditions: seq<Condition>) {
    && (exists c | c in conditions :: c.isPodReady)
    && forall c | c in conditions && c.isPodReady :: c.isTrue
  }

  method CheckStaticPodReadyCondition(conditions: seq<Condition>) returns (err: Option<Problem>)
    ensures err.None? <==> PodReady(conditions)
    ensures err == Some(NoReadyCondition) <==> forall c | c in conditions :: !c.isPodReady
    ensures err.Some? ==> err.value in {NotReady, NoReadyCondition}
  {
    var found := false;
    for i := 0 to |conditions|
      invariant found <==> exists c | c in conditions[..i] :: c.isPodReady
      invariant forall c | c in conditions[..i] && c.isPodReady :: c.isTrue
    {
      assert conditions[..i + 1] == conditions[..i] + [conditions[i]];
      if conditions[i].isPodReady {
        found := true;
      }
      if conditions[i].isPodReady && !conditions[i].isTrue {
        return Some(NotReady);
      }
    }
    assert conditions[..|conditions|] == conditions;
    err := if found then None else Some(NoReadyCondition);
  }

  method CheckNodeNoExecuteCondition(node: Node) returns (err: Option<Problem>)
    ensures err == if exists t | t in node.taints :: t.unreachable && t.noExecute then Some(NoExecuteTaint) else None
  {
    for i := 0 to |node.taints|
      invariant forall t | t in node.taints[..i] :: !(t.unreachable && t.noExecute)
    {
      assert node.taints[..i + 1] == node.taints[..i] + [node.taints[i]];
      if node.taints[i].unreachable && node.taints[i].noExecute {
        return Some(NoExecuteTaint);
      }
    }
    assert node.taints[..|node.taints|] == node.taints;
    err := None;
  }

  /** What an entry without error tells: the controller manager is ready, but the API server need only have
      been fetched, because its result is overwritten. */
  ghost predicate PassesCheck(node: Node) {
    && (forall t | t in node.taints :: !(t.unreachable && t.noExecute))
    && node.apiServer.Some?
    && node.controllerManager.Some? && PodReady(node.controllerManager.value)
  }

  /** Every listed node has an entry; the check fails as a whole only when the nodes cannot be listed. */
  method ControlPlaneIsHealthy(nodes: Option<map<string, Node>>)
      returns (response: map<string, Option<Problem>>, failed: bool)
    ensures failed <==> nodes.None?
    ensures nodes.None? ==> response == map[]
    ensures nodes.Some? ==> response.Keys == nodes.value.Keys
    ensures nodes.Some? ==> forall n | n in response :: response[n].None? <==> PassesCheck(nodes.value[n])
  {
    response, failed := map[], nodes.None?;
    if failed {
      return;
    }
    var rest := nodes.value.Keys;
    while rest != {}
      invariant rest <= nodes.value.Keys
      invariant response.Keys == nodes.value.Keys - rest
      invariant forall n | n in response :: response[n].None? <==> PassesCheck(nodes.value[n])
      decreases rest
    {
      var name :| name in rest;
      rest := rest - {name};
      var node := nodes.value[name];
      response := response[name := None];
      var err := CheckNodeNoExecuteCondition(node);
      if err.Some? {
        response := response[name := err];
        continue;
      }
      if node.apiServer.None? {
        response := response[name := Some(NotFetched)];
        continue;
      }
      err := CheckStaticPodReadyCondition(node.apiServer.value);
      response := response[name := err];
      if node.controllerManager.None? {
        response := response[name := Some(NotFetched)];
        continue;
      }
      err := CheckStaticPodReadyCondition(node.controllerManager.value);
      response := response[name := err];
    }
  }

  ghost predicate Sound(node: Node) {
    && (forall t | t in node.taints :: !(t.unreachable && t.noExecute))
    && node.apiServer.Some? && PodReady(node.apiServer.value)
    && node.controllerManager.Some? && PodReady(node.controllerManager.value)
  }

  /** "An entry without error means both static pods are ready" is false of the code: the node shown passes with
      its API server not ready.  That lost result is the whole gap. */
  lemma ApiServerResultIsLost(node: Node)
    ensures Sound(node) <==> PassesCheck(node) && PodReady(node.apiServer.value)
    ensures var down := Node([], Some([Condition(true, false)]), Some([Condition(true, true)]));
            PassesCheck(down) && !Sound(down)
  {
    var down := Node([], Some([Condition(true, false)]), Some([Condition(true, true)]));
    assert Condition(true, false) in down.apiServer.value;
    assert Condition(true, true) in down.controllerManager.value;
  }

  // ----- Nodes against machines -------------------------------------------------------------------

  /** The test the code makes: every machine's node was checked, and there are as many nodes as machines. */
  predicate Matched(nodes: set<string>, ms: Collection) {
    && (forall n | n in ms :: ms[n].nodeRef.Some? && ms[n].nodeRef.value in nodes)
    && |nodes| == |ms|
  }

  ghost predicate DistinctNodeRefs(ms: Collection) {
    forall a, b | a in ms && b in ms && a != b && ms[a].nodeRef.Some? :: ms[a].nodeRef != ms[b].nodeRef
  }

  /** nodeRef is a bijection from the machines onto the nodes. */
  ghost predicate OneToOne(nodes: set<string>, ms: Collection) {
    && (forall n | n in ms :: ms[n].nodeRef.Some? && ms[n].nodeRef.value in nodes)
    && DistinctNodeRefs(ms)
    && forall x | x in nodes :: exists n | n in ms :: ms[n].nodeRef == Some(x)
  }

  datatype CheckError = ListNodes | NodeProblem | ListMachines | NoNodeRef | NotChecked | CountMismatch

  method HealthCheck(checks: map<string, Option<Problem>>, checkFailed: bool, listed: Option<Collection>)
    returns (err: Option<CheckError>)
    ensures err.None? <==> !checkFailed && (forall n | n in checks :: checks[n].None?)
                           && listed.Some? && Matched(checks.Keys, listed.value)
  {
    var failures := if checkFailed then 1 else 0;
    var rest := checks.Keys;
    while rest != {}
      invariant rest <= checks.Keys
      invariant failures >= 0
      invariant failures == 0 <==> !checkFailed && forall n | n in checks && n !in rest :: checks[n].None?
      decreases rest
    {
      var n :| n in rest;
      if checks[n].Some? {
        failures := failures + 1;
      }
      rest := rest - {n};
    }
    if failures != 0 {
      return Some(if checkFailed then ListNodes else NodeProblem);
    }
    if listed.None? {
      return Some(ListMachines);
    }
    var ms := listed.value;
    rest := ms.Keys;
    while rest != {}
      invariant rest <= ms.Keys
      invariant forall n | n in ms && n !in rest :: ms[n].nodeRef.Some? && ms[n].nodeRef.value in checks
      decreases rest
    {
      var n :| n in rest;
      if ms[n].nodeRef.None? {
        return Some(NoNodeRef);
      }
      if ms[n].nodeRef.value !in checks {
        return Some(NotChecked);
      }
      rest := rest - {n};
    }
    if |checks.Keys| != |ms| {
      return Some(CountMismatch);
    }
    err := None;
  }

  /** The pigeonhole behind the gate: passing the test is a one-to-one match of nodes and machines exactly
      when no two machines share a node, which is the one thing the code does not look at. */
  lemma MatchedIsOneToOne(nodes: set<string>, ms: Collection)
    ensures OneToOne(nodes, ms) <==> Matched(nodes, ms) && DistinctNodeRefs(ms)
  {
    if (forall n | n in ms :: ms[n].nodeRef.Some? && ms[n].nodeRef.value in nodes) && DistinctNodeRefs(ms) {
      var f := map n | n in ms :: ms[n].nodeRef.value;
      ImageSize(f.Keys, f.Values, f);
      SubsetSize(f.Values, nodes);
      assert f.Keys == ms.Keys;
      if f.Values == nodes {
        forall x | x in nodes ensures exists n | n in ms :: ms[n].nodeRef == Some(x) {
          var n :| n in f && f[n] == x;
        }
      } else {
        var x :| x in nodes && x !in f.Values;
        forall n | n in ms ensures ms[n].nodeRef != Some(x) { assert f[n] in f.Values; }
      }
    }
  }

  /** Two machines sharing a node let a node without machine pass the test. */
  lemma SharedNodePasses(m: Machine)
    ensures var a := m.(name := "a", nodeRef := Some("n1")); var b := m.(name := "b", nodeRef := Some("n1"));
            var ms := map["a" := a, "b" := b];
            Matched({"n1", "n2"}, ms) && !OneToOne({"n1", "n2"}, ms)
  {
    var ms: Collection :=
        map["a" := m.(name := "a", nodeRef := Some("n1")), "b" := m.(name := "b", nodeRef := Some("n1"))];
    assert "n1" != "n2" && "a" != "b";
    assert |ms| == 2 && |{"n1", "n2"}| == 2;
    assert ms["a"].nodeRef == ms["b"].nodeRef;
    assert !DistinctNodeRefs(ms);
  }
}
