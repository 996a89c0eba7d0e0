/** Creating a control-plane machine: three objects, the first two removed again when a later one cannot be had. */
module Creation {
  import opened Wrappers
  import opened Finite

  /** What a Machine refers to: its infrastructure and its bootstrap config. */
  datatype Refs = Refs(infra: string, config: string)

  /** The name tried by each creation, and which calls fail. */
  datatype World = World(names: nat -> string, faults: nat -> bool)

  datatype State = State(infra: set<string>, configs: set<string>, machines: map<string, Refs>)

  predicate RefsLive(s: State) {
    forall m | m in s.machines :: s.machines[m].infra in s.infra && s.machines[m].config in s.configs
  }

  predicate RefsDistinct(s: State) {
    forall m, n | m in s.machines && n in s.machines && m != n ::
      s.machines[m].infra != s.machines[n].infra && s.machines[m].config != s.machines[n].config
  }

  /** One machine more, with an infrastructure clone and a config of its own, all three new. */
  predicate Added(s: State, t: State, m: string) {
    && m in t.machines && m !in s.machines && t.machines == s.machines[m := t.machines[m]]
    && t.machines[m].infra !in s.infra && t.infra == s.infra + {t.machines[m].infra}
    && t.machines[m].config !in s.configs && t.configs == s.configs + {t.machines[m].config}
  }

  /** No object has the name yet. */
  predicate IsNew(name: string, s: State) {
    name !in s.infra && name !in s.configs && name !in s.machines
  }

  ghost predicate OneAdded(s: State, t: State) {
    exists m :: Added(s, t, m)
  }

  /** No machine more, and at most one clone and one config left behind. */
  predicate LeftOver(s: State, t: State) {
    && t.machines == s.machines && s.infra <= t.infra && s.configs <= t.configs
    && |t.infra - s.infra| <= 1 && |t.configs - s.configs| <= 1
  }

  lemma AddedKeeps(s: State, t: State, m: string)
    requires Added(s, t, m) && RefsLive(s)
    ensures RefsLive(t) && (RefsDistinct(s) ==> RefsDistinct(t))
    ensures OneAdded(s, t)
  {
  }

  lemma LeavesLittle(s: State, t: State, infra: string, config: Option<string>)
    requires RefsLive(s) && RefsDistinct(s) && t.machines == s.machines && infra !in s.infra
    requires t.infra == s.infra + {infra} || t.infra == s.infra + {infra} - {infra}
    requires config.None? ==> t.configs == s.configs
    requires config.Some? ==>
               config.value !in s.configs && s.configs <= t.configs && t.configs - s.configs <= {config.value}
    ensures LeftOver(s, t) && RefsLive(t) && RefsDistinct(t)
  {
    AtMostOne(t.infra - s.infra, infra);
    if config.Some? {
      AtMostOne(t.configs - s.configs, config.value);
    } else {
      assert t.configs - s.configs == {};
    }
  }

  class Store {
    var infra: set<string>
    var configs: set<string>
    var machines: map<string, Refs>
    var calls: nat

    function Now(): State
      reads this
    {
      State(infra, configs, machines)
    }

    ghost predicate Valid()
      reads this
    {
      RefsLive(Now()) && RefsDistinct(Now())
    }

    constructor ()
      ensures Valid() && Now() == State({}, {}, map[])
    {
      infra, configs, machines, calls := {}, {}, map[], 0;
    }

    /** Clones the infrastructure template; a name in use makes it fail, as it does for the other two. */
    method CloneTemplate(w: World) returns (ref: Option<string>)
      modifies this`infra, this`calls
      ensures calls == old(calls) + 1
      ensures ref.Some? <==> !w.faults(old(calls)) && w.names(old(calls)) !in old(infra)
      ensures if ref.Some? then ref.value !in old(infra) && infra == old(infra) + {ref.value} else infra == old(infra)
    {
      var name, fails := w.names(calls), w.faults(calls);
      calls := calls + 1;
      if fails || name in infra {
        return None;
      }
      infra := infra + {name};
      ref := Some(name);
    }

    method GenerateCritConfig(w: World) returns (ref: Option<string>)
      modifies this`configs, this`calls
      ensures calls == old(calls) + 1
      ensures ref.Some? <==> !w.faults(old(calls)) && w.names(old(calls)) !in old(configs)
      ensures if ref.Some? then ref.value !in old(configs)
          && configs == old(configs) + {ref.value} else configs == old(configs)
    {
      var name, fails := w.names(calls), w.faults(calls);
      calls := calls + 1;
      if fails || name in configs {
        return None;
      }
      configs := configs + {name};
      ref := Some(name);
    }

    method GenerateMachine(w: World, refs: Refs) returns (name: Option<string>)
      modifies this`machines, this`calls
      ensures calls == old(calls) + 1
      ensures name.Some? <==> !w.faults(old(calls)) && w.names(old(calls)) !in old(machines)
      ensures if name.Some? then name.value !in old(machines)
          && machines == old(machines)[name.value := refs] else machines == old(machines)
    {
      var n, fails := w.names(calls), w.faults(calls);
      calls := calls + 1;
      if fails || n in machines {
        return None;
      }
      machines := machines[n := refs];
      name := Some(n);
    }

    /** Both deletions are tried, whatever becomes of the first; a nil reference is passed over. */
    method CleanupFromGeneration(w: World, infraRef: Option<string>, configRef: Option<string>) returns (ok: bool)
      modifies this`infra, this`configs, this`calls
      ensures infra == old(infra) || (infraRef.Some? && infra == old(infra) - {infraRef.value})
      ensures configs == old(configs) || (configRef.Some? && configs == old(configs) - {configRef.value})
      ensures ok ==> infraRef.Some? ==> infra == old(infra) - {infraRef.value}
      ensures ok ==> configRef.Some? ==> configs == old(configs) - {configRef.value}
      ensures (forall k: nat | k >= old(calls) :: !w.faults(k)) ==> ok
      ensures calls >= old(calls)
    {
      var errs := 0;
      if infraRef.Some? {
        if w.faults(calls) {
          errs := errs + 1;
        } else {
          infra := infra - {infraRef.value};
        }
        calls := calls + 1;
      }
      if configRef.Some? {
        if w.faults(calls) {
          errs := errs + 1;
        } else {
          configs := configs - {configRef.value};
        }
        calls := calls + 1;
      }
      ok := errs == 0;
    }

    /** All or nothing.  A machine is there exactly when the call succeeds, with two objects of its own; otherwise the
        store is as before once the clean-up went through, and even when it did not, every machine's objects are
        there and no machine shares one. */
    method CloneConfigsAndGenerateMachine(w: World) returns (ok: bool, clean: bool)
      requires Valid()
      modifies this
      ensures Valid() && calls >= old(calls)
      ensures ok ==> OneAdded(old(Now()), Now())
      ensures !ok ==> LeftOver(old(Now()), Now())
      ensures !ok && clean ==> Now() == old(Now())
      ensures (forall k: nat | k >= old(calls) :: !w.faults(k) && IsNew(w.names(k), old(Now()))) ==> ok
    {
      ghost var before := Now();
      var infraRef := CloneTemplate(w);
      if infraRef.None? {
        return false, true;
      }
      var configRef := GenerateCritConfig(w);
      if configRef.Some? {
        var m := GenerateMachine(w, Refs(infraRef.value, configRef.value));
        if m.Some? {
          AddedKeeps(before, Now(), m.value);
          hide Added;
          return true, true;
        }
      }
      clean := CleanupFromGeneration(w, infraRef, configRef);
      LeavesLittle(before, Now(), infraRef.value, configRef);
      ok := false;
    }

    /** The initial machines.  One that fails at iteration i leaves exactly i of them, with i clones and i configs if
        the clean-up went through. */
    method Initialise(w: World, replicas: nat) returns (ok: bool, made: nat, clean: bool)
      requires Valid() && Now() == State({}, {}, map[])
      modifies this
      ensures Valid() && made <= replicas && (ok <==> made == replicas) && |machines| == made
      ensures clean ==> |infra| == made && |configs| == made
      ensures |infra| <= made + 1 && |configs| <= made + 1
    {
      made, clean := 0, true;
      while made < replicas
        invariant Valid() && made <= replicas && |machines| == made && |infra| == made && |configs| == made
      {
        ghost var before := Now();
        var cleaned;
        ok, cleaned := CloneConfigsAndGenerateMachine(w);
        if !ok {
          clean := cleaned;
          Leftovers(before, Now());
          return;
        }
        ghost var m :| Added(before, Now(), m);
        OneOfEach(before, Now(), m);
        made := made + 1;
      }
      ok := true;
    }
  }

  lemma AtMostOne(s: set<string>, x: string)
    requires s <= {x}
    ensures |s| <= 1
  {
    if s != {} {
      assert s == {x};
    }
  }

  lemma OneOfEach(s: State, t: State, m: string)
    requires Added(s, t, m)
    ensures |t.machines| == |s.machines| + 1 && |t.infra| == |s.infra| + 1 && |t.configs| == |s.configs| + 1
  {
    AddedSize(s.machines, m, t.machines[m]);
  }

  lemma Leftovers(s: State, t: State)
    requires LeftOver(s, t)
    ensures |t.infra| <= |s.infra| + 1 && |t.configs| <= |s.configs| + 1
  {
    assert t.infra == s.infra + (t.infra - s.infra);
    assert t.configs == s.configs + (t.configs - s.configs);
  }

  /** The machines created in a row have as many different clones and configs. */
  lemma {:induction false} AsManyRefs(s: State)
    requires RefsLive(s) && RefsDistinct(s)
    ensures |s.machines| <= |s.infra| && |s.machines| <= |s.configs|
    decreases |s.machines|
  {
    if m :| m in s.machines {
      var t := State(s.infra - {s.machines[m].infra}, s.configs - {s.machines[m].config}, s.machines - {m});
      RemovedSize(s.machines, m);
      AsManyRefs(t);
    } else {
      assert s.machines == map[];
    }
  }
}
