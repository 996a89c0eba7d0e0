/** Any number of controllers look up, generate and save the certificates of clusters at the same time. */
module CertificateAgreement {
  import opened Wrappers
  import opened Runs
  import opened Certificates

  datatype Stage = Looking | Saving | Succeeded | Failed

  /** A call of LookupOrGenerate in progress; `next` is the certificate its loop is at. */
  datatype Caller = Caller(cluster: ObjectKey, owner: string, certs: seq<Certificate>, stage: Stage, next: nat)

  datatype System = System(secrets: Secrets, callers: map<string, Caller>)

  /** `ok` is whether the API call succeeds.  `Other` is a secret created by anybody else. */
  datatype Step =
    | Call(id: string, cluster: ObjectKey, owner: string, purposes: seq<Purpose>)
    | Look(id: string, ok: bool) | Generate(id: string, made: Option<seq<KeyPair>>) | Save(id: string, ok: bool)
    | Other(key: ObjectKey, secret: Secret)

  function Blank(purposes: seq<Purpose>): seq<Certificate> {
    seq(|purposes|, i requires 0 <= i < |purposes| => Certificate(purposes[i], None, false))
  }

  function Fail(c: Caller): Caller {
    c.(stage := Failed)
  }

  /** One turn of Lookup's loop. */
  function AfterLook(c: Caller, secrets: Secrets, ok: bool): Caller
    requires c.next < |c.certs|
  {
    var key := SecretKey(c.cluster, c.certs[c.next].purpose);
    if !ok then Fail(c)
    else if key !in secrets then c.(next := c.next + 1)
    else if SecretToKeyPair(secrets[key]).None? then Fail(c)
    else c.(certs := c.certs[c.next := c.certs[c.next].(keyPair := SecretToKeyPair(secrets[key]))], next := c.next + 1)
  }

  function WithPair(c: Certificate, pair: KeyPair): Certificate {
    if c.keyPair.Some? || c.purpose.APIServerEtcdClient? then c else c.(keyPair := Some(pair), generated := true)
  }

  function AfterGenerate(c: Caller, made: seq<KeyPair>): Caller
    requires |made| == |c.certs|
  {
    c.(certs := seq(|made|, i requires 0 <= i < |made| => WithPair(c.certs[i], made[i])), stage := Saving, next := 0)
  }

  predicate LookStep(s: System, id: string, ok: bool, t: System) {
    && id in s.callers && s.callers[id].stage.Looking? && s.callers[id].next < |s.callers[id].certs|
    && t == s.(callers := s.callers[id := AfterLook(s.callers[id], s.secrets, ok)])
  }

  predicate GenerateStep(s: System, id: string, made: Option<seq<KeyPair>>, t: System) {
    && id in s.callers && s.callers[id].stage.Looking? && s.callers[id].next == |s.callers[id].certs|
    && (made.Some? ==> |made.value| == |s.callers[id].certs|)
    && t == s.(callers :=
        s.callers[id := if made.None? then Fail(s.callers[id]) else AfterGenerate(s.callers[id], made.value)])
  }

  /** One turn of SaveGenerated's loop, or its end.  Creation is refused when the secret is there already. */
  predicate SaveStep(s: System, id: string, ok: bool, t: System) {
    && id in s.callers && s.callers[id].stage.Saving?
    && var c := s.callers[id];
       if c.next >= |c.certs| then t == s.(callers := s.callers[id := c.(stage := Succeeded)])
       else if !c.certs[c.next].generated then t == s.(callers := s.callers[id := c.(next := c.next + 1)])
       else
         var key := SecretKey(c.cluster, c.certs[c.next].purpose);
         if !ok || key in s.secrets || c.certs[c.next].keyPair.None? then t == s.(callers := s.callers[id := Fail(c)])
         else t == System(s.secrets[key := AsSecret(c.certs[c.next], c.cluster, c.owner)],
             s.callers[id := c.(next := c.next + 1)])
  }

  predicate Next(s: System, step: Step, t: System) {
    match step
    case Call(id, cluster, owner, purposes) =>
      id !in s.callers && t == s.(callers := s.callers[id := Caller(cluster, owner, Blank(purposes), Looking, 0)])
    case Look(id, ok) => LookStep(s, id, ok, t)
    case Generate(id, made) => GenerateStep(s, id, made, t)
    case Save(id, ok) => SaveStep(s, id, ok, t)
    case Other(key, secret) => key !in s.secrets && t == s.(secrets := s.secrets[key := secret])
  }

  /** A run from any store of secrets. */
  type Run = Trace<System, Step>

  predicate IsRun(r: Run) {
    if r.Start? then r.first.callers == map[] else IsRun(r.before) && Next(Last(r.before), r.step, r.now)
  }

  // ----- Agreement --------------------------------------------------------------------------------

  predicate Grows(a: Secrets, b: Secrets) {
    forall k | k in a :: k in b && b[k] == a[k]
  }

  /** The certificate holds exactly the pair stored for its purpose. */
  predicate Stored(secrets: Secrets, cluster: ObjectKey, c: Certificate) {
    var key := SecretKey(cluster, c.purpose);
    c.keyPair.Some? && key in secrets && SecretToKeyPair(secrets[key]) == c.keyPair
  }

  /** What a successful call ends with: only a user-supplied certificate may be missing. */
  predicate Agreed(secrets: Secrets, cluster: ObjectKey, certs: seq<Certificate>) {
    forall i | 0 <= i < |certs| ::
      Stored(secrets, cluster, certs[i]) || (certs[i].keyPair.None? && certs[i].purpose.APIServerEtcdClient?)
  }

  predicate CallerOk(secrets: Secrets, c: Caller) {
    match c.stage
    case Failed => true
    case Looking =>
      forall i | 0 <= i < |c.certs| :: !c.certs[i].generated
          && (c.certs[i].keyPair.Some? ==> Stored(secrets, c.cluster, c.certs[i]))
    case _ =>
      && (forall i | 0 <= i < |c.certs| :: c.certs[i].keyPair.None? ==>
          !c.certs[i].generated && c.certs[i].purpose.APIServerEtcdClient?)
      && (forall i | 0 <= i < |c.certs| :: c.certs[i].keyPair.Some? ==>
            Stored(secrets, c.cluster, c.certs[i]) || (c.certs[i].generated && i >= c.next && c.stage.Saving?))
  }

  predicate Inv(s: System) {
    forall id | id in s.callers :: CallerOk(s.secrets, s.callers[id])
  }

  lemma Later(a: Secrets, b: Secrets, c: Caller)
    requires Grows(a, b) && CallerOk(a, c)
    ensures CallerOk(b, c)
  {
    forall i | 0 <= i < |c.certs| && Stored(a, c.cluster, c.certs[i]) ensures Stored(b, c.cluster, c.certs[i]) {
    }
  }

  lemma LookOk(secrets: Secrets, c: Caller, ok: bool)
    requires CallerOk(secrets, c) && c.stage.Looking? && c.next < |c.certs|
    ensures CallerOk(secrets, AfterLook(c, secrets, ok))
  {
  }

  lemma GenerateOk(secrets: Secrets, c: Caller, made: seq<KeyPair>)
    requires CallerOk(secrets, c) && c.stage.Looking? && |made| == |c.certs|
    ensures CallerOk(secrets, AfterGenerate(c, made))
  {
  }

  lemma SaveOk(s: System, id: string, ok: bool, t: System)
    requires Inv(s) && SaveStep(s, id, ok, t)
    ensures Grows(s.secrets, t.secrets) && id in t.callers && CallerOk(t.secrets, t.callers[id])
    ensures forall x | x in t.callers && x != id :: x in s.callers && t.callers[x] == s.callers[x]
  {
    var c := s.callers[id];
    if c.next < |c.certs| && c.certs[c.next].keyPair.Some? {
      SecretRoundTrip(c.certs[c.next], c.cluster, c.owner);
      Later(s.secrets, t.secrets, c);
    }
  }

  lemma InvNext(s: System, step: Step, t: System)
    requires Inv(s) && Next(s, step, t)
    ensures Inv(t) && Grows(s.secrets, t.secrets)
  {
    match step
    case Call(id, cluster, owner, purposes) => assert CallerOk(t.secrets, t.callers[id]);
    case Look(id, ok) => LookOk(s.secrets, s.callers[id], ok);
    case Generate(id, made) =>
      if made.Some? {
        GenerateOk(s.secrets, s.callers[id], made.value);
      }
    case Save(id, ok) => SaveOk(s, id, ok, t);
    case Other(key, secret) =>
    hide CallerOk, SaveStep;
    forall x | x in t.callers && x in s.callers && t.callers[x] == s.callers[x]
      ensures CallerOk(t.secrets, t.callers[x])
    {
      Later(s.secrets, t.secrets, s.callers[x]);
    }
  }

  lemma {:induction false} InvAlways(r: Run)
    requires IsRun(r)
    ensures Inv(Last(r))
  {
    if r.After? {
      hide Inv, Next;
      InvAlways(r.before);
      InvNext(Last(r.before), r.step, r.now);
    }
  }

  /** Under any interleaving and any failures a stored secret never changes. */
  lemma {:induction false} StoredForGood(r: Run, q: Run)
    requires IsRun(r) && IsRun(q) && Extends(r, q)
    ensures Grows(Last(q).secrets, Last(r).secrets)
    decreases r
  {
    if r != q {
      hide Inv, Next;
      StoredForGood(r.before, q);
      InvAlways(r.before);
      InvNext(Last(r.before), r.step, r.now);
    }
  }

  /** Every call that succeeds holds exactly the stored pairs, its own or another's. */
  lemma SuccessAgrees(r: Run, id: string)
    requires IsRun(r) && id in Last(r).callers && Last(r).callers[id].stage.Succeeded?
    ensures Agreed(Last(r).secrets, Last(r).callers[id].cluster, Last(r).callers[id].certs)
  {
    InvAlways(r);
    assert CallerOk(Last(r).secrets, Last(r).callers[id]);
  }

  /** Key agreement: any two calls for one cluster that succeed, whenever they ran and whatever failed around them,
      hold the same pair for each purpose; the user-supplied one at most one of them may lack. */
  lemma KeyAgreement(r: Run, a: string, b: string, i: nat, j: nat)
    requires IsRun(r) && a in Last(r).callers && b in Last(r).callers
    requires Last(r).callers[a].stage.Succeeded? && Last(r).callers[b].stage.Succeeded?
    requires Last(r).callers[a].cluster == Last(r).callers[b].cluster
    requires i < |Last(r).callers[a].certs| && j < |Last(r).callers[b].certs|
    requires Last(r).callers[a].certs[i].purpose == Last(r).callers[b].certs[j].purpose
    ensures var x, y := Last(r).callers[a].certs[i].keyPair, Last(r).callers[b].certs[j].keyPair;
            x == y || (Last(r).callers[a].certs[i].purpose.APIServerEtcdClient? && (x.None? || y.None?))
  {
    SuccessAgrees(r, a);
    SuccessAgrees(r, b);
  }

  /** Agreement is for one cluster.  Two clusters are kept apart, but for the one pair of names that collides: then
      the first to save decides the proxy certificate of both, and here is a run in which both calls succeed. */
  lemma ClustersMayShare(namespace: string, cluster: string, pair: KeyPair) returns (r: Run)
    ensures IsRun(r) && "a" in Last(r).callers && "b" in Last(r).callers
    ensures var a, b := Last(r).callers["a"], Last(r).callers["b"];
            && a.stage.Succeeded? && b.stage.Succeeded? && a.cluster != b.cluster
            && a.certs == [Certificate(AuthProxyCA, Some(pair), true)]
                && b.certs == [Certificate(FrontProxyCA, Some(pair), false)]
  {
    var one, two := ObjectKey(namespace, cluster), ObjectKey(namespace, cluster + "-auth");
    NamesCollideExactly(cluster, AuthProxyCA, cluster + "-auth", FrontProxyCA);
    var key := SecretKey(one, AuthProxyCA);
    var made := Certificate(AuthProxyCA, Some(pair), true);
    var secret := AsSecret(made, one, "");
    SecretRoundTrip(made, one, "");
    var a := Caller(one, "", [Certificate(AuthProxyCA, None, false)], Looking, 0);
    assert Blank([AuthProxyCA]) == a.certs;
    r := Start(System(map[], map[]));
    r := Then(r, Call("a", one, "", [AuthProxyCA]), System(map[], map["a" := a]));
    r := Then(r, Look("a", true), System(map[], map["a" := a.(next := 1)]));
    r := Then(r, Generate("a", Some([pair])), System(map[], map["a" := AfterGenerate(a.(next := 1), [pair])]));
    a := Caller(one, "", [made], Saving, 0);
    assert Last(r).callers["a"] == a;
    r := SaveOne(r, a, key, secret);
    r := LookTwo(r, two, key, secret, pair);
  }

  lemma Then(r: Run, step: Step, t: System) returns (q: Run)
    requires IsRun(r) && Next(Last(r), step, t)
    ensures IsRun(q) && q == After(r, step, t) && Last(q) == t
  {
    q := After(r, step, t);
  }

  lemma SaveOne(r: Run, a: Caller, key: ObjectKey, secret: Secret) returns (q: Run)
    requires IsRun(r) && Last(r) == System(map[], map["a" := a]) && a.stage.Saving? && a.next == 0 && |a.certs| == 1
    requires a.certs[0].generated && a.certs[0].keyPair.Some?
    requires key == SecretKey(a.cluster, a.certs[0].purpose) && secret == AsSecret(a.certs[0], a.cluster, a.owner)
    ensures IsRun(q) && Last(q) == System(map[key := secret], map["a" := a.(next := 1, stage := Succeeded)])
  {
    q := Then(r, Save("a", true), System(map[key := secret], map["a" := a.(next := 1)]));
    q := Then(q, Save("a", true), System(map[key := secret], map["a" := a.(next := 1, stage := Succeeded)]));
  }

  lemma LookTwo(r: Run, cluster: ObjectKey, key: ObjectKey, secret: Secret, pair: KeyPair) returns (q: Run)
    requires IsRun(r) && Last(r).secrets == map[key := secret] && Last(r).callers.Keys == {"a"}
    requires key == SecretKey(cluster, FrontProxyCA) && SecretToKeyPair(secret) == Some(pair)
    ensures IsRun(q) && "a" in Last(q).callers && Last(q).callers["a"] == Last(r).callers["a"] && "b" in Last(q).callers
    ensures Last(q).callers["b"] == Caller(cluster, "", [Certificate(FrontProxyCA, Some(pair), false)], Succeeded, 1)
  {
    var s := Last(r);
    var c := Caller(cluster, "", [Certificate(FrontProxyCA, None, false)], Looking, 0);
    var found := [Certificate(FrontProxyCA, Some(pair), false)];
    assert "a" in s.callers.Keys && Blank([FrontProxyCA]) == c.certs;
    q := Then(r, Call("b", cluster, "", [FrontProxyCA]), s.(callers := s.callers["b" := c]));
    assert AfterLook(c, s.secrets, true).certs == found;
    q := Then(q, Look("b", true), With(Last(q), c.(certs := found, next := 1)));
    assert AfterGenerate(c.(certs := found, next := 1), [pair]).certs == found;
    q := Then(q, Generate("b", Some([pair])), With(Last(q), c.(certs := found, stage := Saving, next := 0)));
    q := Then(q, Save("b", true), With(Last(q), c.(certs := found, stage := Saving, next := 1)));
    q := Then(q, Save("b", true), With(Last(q), c.(certs := found, stage := Succeeded, next := 1)));
  }

  function With(s: System, c: Caller): System {
    s.(callers := s.callers["b" := c])
  }
}
