/** The life of a worker's bootstrap data as a protocol: one reconcile at a time, each API call a step that may fail,
    and one patch of spec and status at the end of a reconcile that met no error. */
module Bootstrap {
  import opened Wrappers
  import opened Runs

  /** The parts of a CritConfig in question: the token in its spec and the two status fields. */
  datatype Config = Config(token: string, ready: bool, dataSecretName: Option<string>)

  datatype Stage = Idle | Loaded | Tokened | Patching

  /** The persisted config, the token inside the bootstrap secret, the secret name the owning Machine was given, whether
      its infrastructure is ready, the token last refreshed; and of the running reconcile its own copy of the config,
      and the Machine's secret name and readiness as it read them. */
  datatype System = System(config: Config, secret: Option<string>, owner: Option<string>, infraReady: bool,
                           refreshed: Option<string>, stage: Stage, local: Config, seen: Option<string>,
                               seenInfra: bool)

  /** The secret has the name of the config. */
  const NAME := "config"

  datatype Step =
    | Begin | Restore(ok: bool) | EarlyReturn | NewToken(token: string) | KeepToken | Refresh(ok: bool)
    | Store(ok: bool) | Patch(ok: bool) | Fail
    | OwnerPicks | InfraReady | LoseStatus

  /** The Machine has its secret but the status says otherwise, as after a move that drops the status. */
  predicate NeedsRestore(c: Config, owner: Option<string>) {
    owner.Some? && (!c.ready || c.dataSecretName.None?)
  }

  predicate MayStart(s: System) {
    s.stage.Loaded? && !NeedsRestore(s.local, s.seen)
  }

  predicate StoreStep(s: System, ok: bool, t: System) {
    && s.stage.Tokened?
    && t == if s.secret.Some? && ok then s.(stage := Patching)
            else if !ok then s.(stage := Idle)
            else s.(secret := Some(s.local.token), stage := Patching,
                local := s.local.(ready := true, dataSecretName := Some(NAME)))
  }

  predicate ControllerStep(s: System, step: Step, t: System) {
    match step
    case Begin => s.stage.Idle?
        && t == s.(stage := Loaded, local := s.config, seen := s.owner, seenInfra := s.infraReady)
    case Restore(ok) =>
      && s.stage.Loaded? && NeedsRestore(s.local, s.seen)
      && t == s.(stage := Idle, config := if ok then s.local.(ready := true, dataSecretName := s.seen) else s.config)
    case EarlyReturn => MayStart(s) && t == s.(stage := Patching)
    case NewToken(token) =>
      MayStart(s) && !s.local.ready && s.local.token == "" && token != ""
          && t == s.(stage := Tokened, local := s.local.(token := token))
    case KeepToken =>
      && MayStart(s) && (if s.local.ready then s.local.token == "" || s.seenInfra else s.local.token != "")
      && t == s.(stage := Tokened)
    case Refresh(ok) =>
      && MayStart(s) && s.local.ready && s.local.token != "" && !s.seenInfra
      && t == if ok then s.(stage := Patching, refreshed := Some(s.local.token)) else s.(stage := Idle)
    case Store(ok) => StoreStep(s, ok, t)
    case Patch(ok) => s.stage.Patching? && t == s.(stage := Idle, config := if ok then s.local else s.config)
    case Fail => t == s.(stage := Idle)
    case _ => false
  }

  /** The Machine controller copies the secret name of a ready config; a move between clusters, which pauses the
      reconciles, may lose the status. */
  predicate EnvironmentStep(s: System, step: Step, t: System) {
    match step
    case OwnerPicks => s.config.ready && s.owner.None? && t == s.(owner := s.config.dataSecretName)
    case InfraReady => t == s.(infraReady := true)
    case LoseStatus => s.stage.Idle? && t == s.(config := s.config.(ready := false, dataSecretName := None))
    case _ => false
  }

  predicate Next(s: System, step: Step, t: System) {
    ControllerStep(s, step, t) || EnvironmentStep(s, step, t)
  }

  /** A new config, with a token of the user's or none. */
  predicate Initial(s: System) {
    s.stage.Idle? && !s.config.ready && s.config.dataSecretName.None? && s.secret.None? && s.owner.None?
        && s.refreshed.None?
  }

  type Run = Trace<System, Step>

  predicate IsRun(r: Run) {
    if r.Start? then Initial(r.first) else IsRun(r.before) && Next(Last(r.before), r.step, r.now)
  }

  lemma Then(r: Run, step: Step, t: System) returns (q: Run)
    requires IsRun(r) && Next(Last(r), step, t)
    ensures IsRun(q) && q == After(r, step, t)
  {
    q := After(r, step, t);
  }

  // ----- Agreement of the tokens ------------------------------------------------------------------

  /** The config says what the secret holds. */
  predicate Agrees(c: Config, secret: Option<string>) {
    c.token != "" && secret == Some(c.token)
  }

  predicate LocalOk(s: System) {
    match s.stage
    case Idle => true
    case Loaded => s.local == s.config && (s.seen.Some? ==> s.seen == s.owner)
    case Tokened =>
      && s.local.ready == s.config.ready && s.local.dataSecretName == s.config.dataSecretName && s.local.token != ""
      && (s.config.token != "" ==> s.local.token == s.config.token)
    case Patching =>
      && (s.config.token != "" ==> s.local.token == s.config.token)
      && (s.config.ready ==> s.local.ready)
          && (s.local.ready ==> s.local.dataSecretName.Some? && Agrees(s.local, s.secret))
  }

  predicate Inv(s: System) {
    && (s.config.ready ==> s.config.dataSecretName.Some?)
    && (s.config.ready || s.owner.Some? ==> Agrees(s.config, s.secret))
    && (s.refreshed.Some? ==> s.refreshed == s.secret)
    && LocalOk(s)
  }

  lemma InvNext(s: System, step: Step, t: System)
    requires Inv(s) && Next(s, step, t)
    ensures Inv(t)
    ensures s.secret.Some? ==> t.secret == s.secret
  {
  }

  lemma {:induction false} InvAlways(r: Run)
    requires IsRun(r)
    ensures Inv(Last(r))
  {
    if r.After? {
      hide Inv, Next;
      InvAlways(r.before);
      InvNext(Last(r.before), r.step, r.now);
    }
  }

  /** Persisted Ready means that the secret exists and holds the token of the persisted spec; and every refresh
      extends that token, the one the machine was given. */
  lemma ReadyAgrees(r: Run)
    requires IsRun(r)
    ensures var s := Last(r);
            && (s.config.ready ==> s.config.token != "" && s.secret == Some(s.config.token))
            && (s.owner.Some? ==> s.secret == Some(s.config.token))
            && (s.refreshed.Some? ==> s.refreshed == s.secret)
  {
    InvAlways(r);
  }

  function Writes(r: Run): nat {
    if r.Start? then 0 else Writes(r.before) + if r.now.secret != Last(r.before).secret then 1 else 0
  }

  /** The secret is written at most once and never changed. */
  lemma {:induction false} WrittenOnce(r: Run)
    requires IsRun(r)
    ensures Writes(r) == if Last(r).secret.Some? then 1 else 0
  {
    if r.After? {
      hide Inv, Next;
      WrittenOnce(r.before);
      InvAlways(r.before);
      InvNext(Last(r.before), r.step, r.now);
    }
  }

  /** The controller never clears Ready. */
  lemma ReadyIsNotCleared(r: Run)
    requires IsRun(r) && r.After? && Last(r.before).config.ready && r.step != LoseStatus
    ensures r.now.config.ready
  {
    InvAlways(r.before);
  }

  // ----- A lost patch -----------------------------------------------------------------------------

  /** The reconcile wrote the secret and has not patched yet. */
  predicate Undelivered(s: System) {
    s.stage.Patching? && s.local.ready && !s.config.ready
  }

  /** A reconcile that wrote the secret ended without its patch. */
  predicate Loses(s: System, step: Step) {
    Undelivered(s) && (step == Patch(false) || step.Fail?)
  }

  predicate HasLoss(r: Run) {
    r.After? && (HasLoss(r.before) || Loses(Last(r.before), r.step))
  }

  /** The status is lost before the Machine was given the secret's name. */
  predicate LosesEarly(s: System, step: Step) {
    step.LoseStatus? && s.secret.Some? && s.owner.None?
  }

  predicate HasEarlyLoss(r: Run) {
    r.After? && (HasEarlyLoss(r.before) || LosesEarly(Last(r.before), r.step))
  }

  /** The status of a ready config was lost and has not been restored since. */
  predicate StatusLost(r: Run) {
    r.After? && if r.step.LoseStatus? then StatusLost(r.before) || Last(r.before).config.ready
                else StatusLost(r.before) && r.step != Restore(true)
  }

  /** With a secret that no status tells of, the config cannot become ready. */
  predicate Forgotten(s: System) {
    s.secret.Some? && !s.config.ready && s.owner.None? && (!s.stage.Idle? ==> !s.local.ready && s.seen.None?)
  }

  /** A ready config lost its status, and the Machine still has the secret's name to restore it from. */
  predicate Restorable(s: System) {
    s.secret.Some? && !s.config.ready && s.owner.Some?
        && (s.stage.Idle? || (s.stage.Loaded? && s.seen == s.owner && !s.local.ready))
  }

  /** A config whose secret, if there is one, is on record or about to be. */
  predicate OnRecord(s: System) {
    && (!s.stage.Idle? ==> s.local.ready == s.config.ready || Undelivered(s))
    && (s.secret.Some? ==> s.config.ready || Undelivered(s))
    && (s.config.ready || s.owner.Some? ==> s.secret.Some? && s.config.ready)
  }

  predicate Account(s: System, forgotten: bool, lost: bool) {
    if forgotten then Forgotten(s) else if lost then Restorable(s) else OnRecord(s)
  }

  lemma AccountNext(s: System, step: Step, t: System, forgotten: bool, lost: bool)
    requires Inv(s) && Account(s, forgotten, lost) && Next(s, step, t)
    ensures Account(t, forgotten || Loses(s, step) || LosesEarly(s, step),
                    if step.LoseStatus? then lost || s.config.ready else lost && step != Restore(true))
  {
  }

  lemma {:induction false} AccountAlways(r: Run)
    requires IsRun(r)
    ensures Account(Last(r), HasLoss(r) || HasEarlyLoss(r), StatusLost(r))
  {
    if r.After? {
      hide Inv, Next, Account;
      AccountAlways(r.before);
      InvAlways(r.before);
      AccountNext(Last(r.before), r.step, r.now, HasLoss(r.before) || HasEarlyLoss(r.before), StatusLost(r.before));
    }
  }

  /** "Once the secret is stored the config becomes ready" is false of the code, because an existing secret does not set
      Ready.  Between reconciles, a config with a secret is ready exactly when the patch of the reconcile that wrote it
      got through and no status lost since is still to be restored. */
  lemma ReadyExactlyWhen(r: Run)
    requires IsRun(r) && Last(r).stage.Idle? && Last(r).secret.Some?
    ensures Last(r).config.ready <==> !HasLoss(r) && !StatusLost(r)
  {
    AccountAlways(r);
    EarlyIsLost(r);
  }

  lemma {:induction false} EarlyIsLost(r: Run)
    requires IsRun(r)
    ensures HasEarlyLoss(r) ==> HasLoss(r) || StatusLost(r)
  {
    if r.After? {
      EarlyIsLost(r.before);
      AccountAlways(r.before);
    }
  }

  lemma ForgottenNext(s: System, step: Step, t: System)
    requires Forgotten(s) && Next(s, step, t)
    ensures Forgotten(t)
  {
  }

  lemma {:induction false} ForgottenStays(r: Run, q: Run)
    requires IsRun(r) && Extends(r, q) && Forgotten(Last(q))
    ensures Forgotten(Last(r))
    decreases r
  {
    if r != q {
      hide Next, Forgotten;
      ForgottenStays(r.before, q);
      ForgottenNext(Last(r.before), r.step, r.now);
    }
  }

  lemma {:induction false} PrefixIsRun(r: Run, q: Run)
    requires IsRun(r) && Extends(r, q)
    ensures IsRun(q)
    decreases r
  {
    if r != q {
      PrefixIsRun(r.before, q);
    }
  }

  /** After a lost patch, or a loss of the status before the Machine was given the secret's name, no run, whatever fails
      or succeeds later, ever makes the config ready. */
  lemma NeverReadyAfterLoss(r: Run, q: Run)
    requires IsRun(r) && Extends(r, q) && (HasLoss(q) || HasEarlyLoss(q))
    ensures Last(r).secret.Some? && !Last(r).config.ready && Last(r).owner.None?
  {
    PrefixIsRun(r, q);
    AccountAlways(q);
    ForgottenStays(r, q);
  }

  ghost predicate MayBecomeReady(r: Run) {
    exists p :: IsRun(p) && Extends(p, r) && Last(p).config.ready
  }

  /** Between reconciles, a config with a secret can still become ready, or is, exactly if neither loss has happened. */
  lemma ReadyPossibleExactly(r: Run)
    requires IsRun(r) && Last(r).stage.Idle? && Last(r).secret.Some?
    ensures MayBecomeReady(r) <==> !HasLoss(r) && !HasEarlyLoss(r)
  {
    AccountAlways(r);
    if HasLoss(r) || HasEarlyLoss(r) {
      forall p | IsRun(p) && Extends(p, r) ensures !Last(p).config.ready {
        NeverReadyAfterLoss(p, r);
      }
    } else {
      var p := MakeReady(r);
    }
  }

  lemma MakeReady(r: Run) returns (p: Run)
    requires IsRun(r) && Last(r).stage.Idle? && (OnRecord(Last(r)) || Restorable(Last(r))) && Last(r).secret.Some?
    ensures IsRun(p) && Extends(p, r) && Last(p).config.ready
  {
    p := r;
    var s := Last(r);
    if !s.config.ready {
      var loaded := s.(stage := Loaded, local := s.config, seen := s.owner, seenInfra := s.infraReady);
      p := Then(p, Begin, loaded);
      p := Then(p, Restore(true),
                loaded.(stage := Idle, config := s.config.(ready := true, dataSecretName := s.owner)));
    }
  }

  /** A run in which every patch got through and the config can still never become ready: its status is lost before the
      Machine controller has copied the secret's name. */
  lemma StatusMayGoTooEarly(token: string) returns (r: Run)
    requires token != ""
    ensures IsRun(r) && !HasLoss(r) && HasEarlyLoss(r) && Last(r).stage.Idle? && Last(r).secret == Some(token)
  {
    var blank := Config("", false, None);
    var s := System(blank, None, None, false, None, Idle, blank, None, false);
    var full := Config(token, true, Some(NAME));
    r := Start(s);
    r := Then(r, Begin, s.(stage := Loaded));
    r := Then(r, NewToken(token), s.(stage := Tokened, local := Config(token, false, None)));
    assert !HasLoss(r);
    r := Then(r, Store(true), s.(stage := Patching, secret := Some(token), local := full));
    assert !HasLoss(r);
    var done := s.(secret := Some(token), local := full, config := full);
    r := Then(r, Patch(true), done);
    r := Then(r, LoseStatus, done.(config := Config(token, false, None)));
  }

  // ----- When the tokens differ -------------------------------------------------------------------

  /** Generated tokens are fresh: none is the one already in the secret. */
  predicate FreshTokens(r: Run) {
    r.After? ==> FreshTokens(r.before) && (r.step.NewToken? ==> Last(r.before).secret != Some(r.step.token))
  }

  /** The tokens in play, for a config that started with token `first`, after a lost patch and without one. */
  predicate TokenAccount(s: System, first: string, loss: bool) {
    && (s.stage.Loaded? ==> s.local.token == s.config.token)
    && (loss ==> s.secret.Some? && !Undelivered(s))
    && if first != "" then
         s.config.token == first && (!s.stage.Idle? ==> s.local.token == first)
             && (s.secret.Some? ==> s.secret == Some(first))
       else if loss then
         s.secret != Some(s.config.token) && (!s.stage.Idle? ==> s.secret != Some(s.local.token))
       else if s.secret.None? then
         s.config.token == "" && !Undelivered(s) && (s.stage.Patching? ==> s.local.token == "")
       else
         && s.secret == Some(if Undelivered(s) then s.local.token else s.config.token) && s.secret != Some("")
         && (Undelivered(s) ==> s.config.token == "") && (!s.stage.Idle? ==> s.secret == Some(s.local.token))
  }

  lemma TokenNext(s: System, step: Step, t: System, first: string, loss: bool)
    requires Inv(s) && TokenAccount(s, first, loss) && Next(s, step, t)
    requires step.NewToken? ==> s.secret != Some(step.token)
    ensures TokenAccount(t, first, loss || Loses(s, step))
  {
  }

  lemma {:induction false} TokensAlways(r: Run)
    requires IsRun(r) && FreshTokens(r)
    ensures TokenAccount(Last(r), First(r).config.token, HasLoss(r))
  {
    if r.After? {
      hide Inv, Next, TokenAccount;
      TokensAlways(r.before);
      InvAlways(r.before);
      TokenNext(Last(r.before), r.step, r.now, First(r).config.token, HasLoss(r.before));
    }
  }

  /** "The spec holds the token of the secret" is false of the code.  Between reconciles, losses of the status included,
      the two differ exactly if the patch of the reconcile that wrote the secret was lost and the config came without a
      token of the user's. */
  lemma TokensDivergeExactly(r: Run)
    requires IsRun(r) && FreshTokens(r) && Last(r).stage.Idle? && Last(r).secret.Some?
    ensures Last(r).secret != Some(Last(r).config.token) <==> HasLoss(r) && First(r).config.token == ""
  {
    TokensAlways(r);
  }

  /** Such a run, with the other token generated anew and persisted. */
  lemma TokensMayDiverge(one: string, two: string) returns (r: Run)
    requires one != "" && two != "" && one != two
    ensures IsRun(r) && Last(r).secret == Some(one) && Last(r).config == Config(two, false, None) && Forgotten(Last(r))
  {
    var blank := Config("", false, None);
    var s := System(blank, None, None, false, None, Idle, blank, None, false);
    r := Start(s);
    r := Then(r, Begin, s.(stage := Loaded));
    r := Then(r, NewToken(one), s.(stage := Tokened, local := Config(one, false, None)));
    r := Then(r, Store(true), s.(stage := Patching, secret := Some(one), local := Config(one, true, Some(NAME))));
    var lost := s.(secret := Some(one), local := Config(one, true, Some(NAME)));
    r := Then(r, Patch(false), lost);
    r := Then(r, Begin, lost.(stage := Loaded, local := blank));
    r := Then(r, NewToken(two), lost.(stage := Tokened, local := Config(two, false, None)));
    r := Then(r, Store(true), lost.(stage := Patching, local := Config(two, false, None)));
    r := Then(r, Patch(true), lost.(config := Config(two, false, None), local := Config(two, false, None)));
  }
}
