/** The worker side of the CritConfig reconciler in the form of the code: fields of its own copy of the config are set
    step by step, and patched at the end unless an error occurred.  What it does is a run of the bootstrap protocol. */
module BootstrapController {
  import opened Wrappers
  import opened Runs
  import opened Bootstrap

  /** What the outside decides: whether everything before the patch helper is in place, whether the control plane is
      initialised and its CA certificate there, what others do before each API call, which calls fail, and the tokens
      generated. */
  datatype World = World(found: bool, initialised: bool, certificates: bool, gaps: nat -> seq<Step>,
      faults: nat -> bool, tokens: nat -> string)

  ghost predicate Calm(w: World) {
    w.found && w.initialised && w.certificates && forall k: nat :: w.gaps(k) == [] && !w.faults(k) && w.tokens(k) != ""
  }

  /** How a part of the reconcile ends: it goes on, it returns without error, or it returns an error. */
  datatype Outcome = Continue | Return | Error

  /** The config with a token: the one it has, or a new one. */
  predicate WithToken(local: Config, c: Config) {
    if local.ready || local.token != "" then c == local else c == local.(token := c.token) && c.token != ""
  }

  class Reconciler {
    var config: Config
    var secret: Option<string>
    var owner: Option<string>
    var infraReady: bool
    var refreshed: Option<string>
    var calls: nat
    ghost var run: Run

    ghost predicate Valid()
      reads this
    {
      && IsRun(run) && Now().config == config && Now().secret == secret && Now().owner == owner
      && Now().infraReady == infraReady && Now().refreshed == refreshed
    }

    ghost function Now(): System
      reads this
    {
      Last(run)
    }

    constructor (token: string)
      ensures Valid() && Now().stage.Idle? && config == Config(token, false, None) && secret.None? && owner.None?
    {
      config, secret, owner, infraReady, refreshed, calls := Config(token, false, None), None, None, false, None, 0;
      run := Start(System(Config(token, false, None), None, None, false, None, Idle, Config(token, false, None), None,
          false));
    }

    /** The system with this reconcile at `stage`, having read what it has. */
    ghost function State(stage: Stage, local: Config): System
      reads this
    {
      System(config, secret, owner, infraReady, refreshed, stage, local, Now().seen, Now().seenInfra)
    }

    ghost method Take(step: Step, stage: Stage, local: Config)
      requires IsRun(run) && Next(Last(run), step, State(stage, local))
      modifies this`run
      ensures Valid() && Now() == old(State(stage, local)) && Extends(run, old(run))
    {
      run := After(run, step, State(stage, local));
    }

    ghost method GiveUp()
      requires Valid()
      modifies this`run
      ensures Valid() && Now().stage.Idle? && Extends(run, old(run))
    {
      Take(Fail, Idle, Now().local);
    }

    /** Later, with the reconcile where it was. */
    ghost predicate Same(before: Run)
      reads this
    {
      && Extends(run, before) && Now().stage == Last(before).stage && Now().local == Last(before).local
      && Now().seen == Last(before).seen && Now().seenInfra == Last(before).seenInfra
    }

    method Interfere(step: Step)
      requires Valid()
      modifies this`config, this`owner, this`infraReady, this`run
      ensures Valid() && Same(old(run))
    {
      match step {
        case OwnerPicks =>
          if config.ready && owner.None? {
            owner := config.dataSecretName;
            Take(step, Now().stage, Now().local);
          }
        case InfraReady =>
          infraReady := true;
          Take(step, Now().stage, Now().local);
        case _ =>
      }
    }

    method Call(w: World) returns (ok: bool)
      requires Valid()
      modifies this`config, this`owner, this`infraReady, this`run, this`calls
      ensures Valid() && Same(old(run))
      ensures ok == !w.faults(old(calls))
      ensures w.gaps(old(calls)) == [] ==>
          config == old(config) && owner == old(owner) && infraReady == old(infraReady) && run == old(run)
    {
      var script := w.gaps(calls);
      for i := 0 to |script|
        invariant Valid() && Same(old(run)) && calls == old(calls)
        invariant i == 0 ==>
            config == old(config) && owner == old(owner) && infraReady == old(infraReady) && run == old(run)
      {
        ghost var before := run;
        Interfere(script[i]);
        ExtendsTransitive(run, before, old(run));
      }
      ok := !w.faults(calls);
      calls := calls + 1;
    }

    method ReconcileWorkerBootstrapToken(w: World, local: Config, infra: bool)
        returns (outcome: Outcome, config': Config)
      requires Valid() && MayStart(Now()) && Now().local == local && Now().seenInfra == infra
      modifies this`config, this`owner, this`infraReady, this`run, this`calls, this`refreshed
      ensures Valid() && Extends(run, old(run))
      ensures match outcome
              case Continue => Now().stage.Tokened? && Now().local == config'
              case Return => Now().stage.Patching? && Now().local == config' == local
              case Error => Now().stage.Idle?
      ensures Calm(w) ==> config == old(config) && owner == old(owner)
      ensures Calm(w) ==> if local.ready && local.token != "" && !infra
                          then outcome.Return? && refreshed == Some(local.token)
                          else outcome.Continue? && refreshed == old(refreshed) && WithToken(local, config')
    {
      config' := local;
      if local.ready {
        if local.token != "" && !infra {
          var ok := Call(w);
          ghost var middle := run;
          if !ok {
            GiveUp();
            ExtendsTransitive(run, middle, old(run));
            return Error, config';
          }
          refreshed := Some(local.token);
          Take(Refresh(true), Patching, local);
          ExtendsTransitive(run, middle, old(run));
          return Return, config';
        }
        Take(KeepToken, Tokened, local);
        return Continue, config';
      }
      if local.token == "" {
        var token := w.tokens(calls);
        var ok := Call(w);
        ghost var middle := run;
        if !ok || token == "" {
          GiveUp();
          ExtendsTransitive(run, middle, old(run));
          return Error, config';
        }
        config' := config'.(token := token);
        Take(NewToken(token), Tokened, config');
        ExtendsTransitive(run, middle, old(run));
      } else {
        Take(KeepToken, Tokened, config');
      }
      outcome := Continue;
    }

    method StoreBootstrapData(w: World, local: Config) returns (ok: bool, config': Config)
      requires Valid() && Now().stage.Tokened? && Now().local == local
      modifies this`config, this`owner, this`infraReady, this`run, this`calls, this`secret
      ensures Valid() && Extends(run, old(run))
      ensures if ok then Now().stage.Patching? && Now().local == config' else Now().stage.Idle?
      ensures old(secret).Some? ==> secret == old(secret) && config' == local
      ensures !ok ==> secret == old(secret) && config' == local
      ensures old(secret).None? && ok ==>
          secret == Some(local.token) && config' == local.(ready := true, dataSecretName := Some(NAME))
      ensures Calm(w) ==> ok && config == old(config) && owner == old(owner)
    {
      config' := local;
      ok := Call(w);
      ghost var middle := run;
      if !ok {
        GiveUp();
        ExtendsTransitive(run, middle, old(run));
        return;
      }
      if secret.None? {
        secret := Some(local.token);
        config' := local.(dataSecretName := Some(NAME), ready := true);
      }
      Take(Store(true), Patching, config');
      ExtendsTransitive(run, middle, old(run));
    }

    method ReconcileWorker(w: World, local: Config, infra: bool) returns (ok: bool, config': Config)
      requires Valid() && MayStart(Now()) && Now().local == local && Now().seenInfra == infra
      modifies this
      ensures Valid() && Extends(run, old(run))
      ensures if ok then Now().stage.Patching? && Now().local == config' else Now().stage.Idle?
      ensures Calm(w) ==> ok && config == old(config) && owner == old(owner)
      ensures Calm(w) ==> Reconciled(local, infra, old(secret), old(refreshed), config')
    {
      config' := local;
      if !w.initialised {
        Take(EarlyReturn, Patching, local);
        return true, config';
      }
      var outcome;
      outcome, config' := ReconcileWorkerBootstrapToken(w, local, infra);
      if !outcome.Continue? {
        return outcome.Return?, config';
      }
      ghost var middle := run;
      ok := Call(w);
      ExtendsTransitive(run, middle, old(run));
      middle := run;
      if !ok || !w.certificates {
        GiveUp();
        ExtendsTransitive(run, middle, old(run));
        return false, config';
      }
      ok, config' := StoreBootstrapData(w, config');
      ExtendsTransitive(run, middle, old(run));
    }

    /** What a reconcile left alone makes of the config: a ready one keeps everything, with its token refreshed until
        the infrastructure has taken it; one that is not ready gets its secret and becomes ready, unless the secret was
        there already. */
    ghost predicate Reconciled(local: Config, infra: bool, secret': Option<string>, refreshed': Option<string>,
        after: Config)
      reads this
    {
      if local.ready && local.token != "" && !infra then
        after == local && secret == secret' && refreshed == Some(local.token)
      else if secret'.Some? then WithToken(local, after) && secret == secret' && refreshed == refreshed'
      else
        && refreshed == refreshed' && secret == Some(after.token) && after.ready && after.dataSecretName == Some(NAME)
        && WithToken(local, after.(ready := local.ready, dataSecretName := local.dataSecretName))
    }

    /** One reconcile.  Whatever others do before each call and whichever calls fail, a ready config afterwards names a
        secret with the token of its spec, and the secret and Ready stay once they are there. */
    method Reconcile(w: World) returns (ok: bool)
      requires Valid() && Now().stage.Idle?
      modifies this
      ensures Valid() && Now().stage.Idle? && Extends(run, old(run))
      ensures config.ready ==> config.token != "" && secret == Some(config.token)
      ensures old(secret).Some? ==> secret == old(secret)
      ensures Calm(w) ==>
                ok && if NeedsRestore(old(config), owner) then
                        secret == old(secret) && config == old(config).(ready := true, dataSecretName := owner)
                                else Reconciled(old(config), old(infraReady), old(secret), old(refreshed), config)
    {
      ok := ReconcileOnce(w);
      ReadyAgrees(run);
      if old(secret).Some? {
        SecretKept(run, old(run));
      }
    }

    method ReconcileOnce(w: World) returns (ok: bool)
      requires Valid() && Now().stage.Idle?
      modifies this
      ensures Valid() && Now().stage.Idle? && Extends(run, old(run))
      ensures Calm(w) ==>
                ok && if NeedsRestore(old(config), owner) then
                        secret == old(secret) && config == old(config).(ready := true, dataSecretName := owner)
                                else Reconciled(old(config), old(infraReady), old(secret), old(refreshed), config)
    {
      if !w.found {
        return true;
      }
      var local, seen, infra := config, owner, infraReady;
      run := After(run, Begin, System(config, secret, owner, infraReady, refreshed, Loaded, local, seen, infra));
      ghost var middle := run;
      if NeedsRestore(local, seen) {
        ok := Call(w);
        ExtendsTransitive(run, middle, old(run));
        middle := run;
        local := local.(ready := true, dataSecretName := seen);
        if ok {
          config := local;
        }
        Take(Restore(ok), Idle, Now().local);
        ExtendsTransitive(run, middle, old(run));
        return;
      }
      ok, local := ReconcileWorker(w, local, infra);
      ExtendsTransitive(run, middle, old(run));
      if !ok {
        return;
      }
      middle := run;
      ok := Call(w);
      ExtendsTransitive(run, middle, old(run));
      middle := run;
      if ok {
        config := local;
      }
      Take(Patch(ok), Idle, local);
      ExtendsTransitive(run, middle, old(run));
    }
  }

  lemma {:induction false} SecretKept(r: Run, q: Run)
    requires IsRun(r) && IsRun(q) && Extends(r, q) && Last(q).secret.Some?
    ensures Last(r).secret == Last(q).secret
    decreases r
  {
    if r != q {
      hide Inv, Next;
      SecretKept(r.before, q);
      InvAlways(r.before);
      InvNext(Last(r.before), r.step, r.now);
    }
  }
}
