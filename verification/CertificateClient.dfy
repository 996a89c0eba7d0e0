/** One call of LookupOrGenerate in the form of the code, with others free to create secrets before each of its API
    calls.  It is a caller of the agreement protocol. */
module CertificateClient {
  import opened Wrappers
  import opened Runs
  import opened Certificates
  import opened CertificateAgreement

  /** What the outside decides: the secrets others create before each API call, which calls fail, and the key pair
      generated for each certificate, None when generating it fails. */
  datatype World = World(gaps: nat -> seq<(ObjectKey, Secret)>, faults: nat -> bool, pairs: nat -> Option<KeyPair>)

  ghost predicate Calm(w: World) {
    forall k: nat :: w.gaps(k) == [] && !w.faults(k) && w.pairs(k).Some?
  }

  predicate DistinctPurposes(certs: seq<Certificate>) {
    forall i, j | 0 <= i < j < |certs| :: certs[i].purpose != certs[j].purpose
  }

  predicate SamePurposes(a: seq<Certificate>, b: seq<Certificate>) {
    |a| == |b| && forall i | 0 <= i < |a| :: a[i].purpose == b[i].purpose
  }

  /** What the secrets hold for the certificate: nothing, or data that does or does not make a key pair. */
  predicate Readable(secrets: Secrets, cluster: ObjectKey, c: Certificate) {
    var key := SecretKey(cluster, c.purpose);
    key in secrets ==> SecretToKeyPair(secrets[key]).Some?
  }

  predicate LooksUp(secrets: Secrets, cluster: ObjectKey, c: Certificate) {
    var key := SecretKey(cluster, c.purpose);
    !c.generated && c.keyPair == if key in secrets then SecretToKeyPair(secrets[key]) else None
  }

  datatype Missing = MissingCertificate | MissingCrt(purpose: Purpose) | MissingKey(purpose: Purpose)

  function MissingIn(c: Certificate): Option<Missing> {
    if c.keyPair.None? then Some(MissingCertificate)
    else if c.keyPair.value.cert == "" then Some(MissingCrt(c.purpose))
    else if c.keyPair.value.key == "" then Some(MissingKey(c.purpose))
    else None
  }

  const ME := ""

  lemma SuccessHolds(r: Run)
    requires IsRun(r) && ME in Last(r).callers
    ensures Last(r).callers[ME].stage.Succeeded? ==>
        Agreed(Last(r).secrets, Last(r).callers[ME].cluster, Last(r).callers[ME].certs)
  {
    if Last(r).callers[ME].stage.Succeeded? {
      SuccessAgrees(r, ME);
    }
  }

  class Client {
    const cluster: ObjectKey
    const owner: string
    var secrets: Secrets
    var certs: seq<Certificate>
    var calls: nat
    ghost var run: Run

    ghost predicate Valid()
      reads this
    {
      && IsRun(run) && Last(run).secrets == secrets && ME in Last(run).callers
      && Me().cluster == cluster && Me().owner == owner && Me().next <= |certs|
          && (!Me().stage.Failed? ==> Me().certs == certs)
    }

    ghost function Me(): Caller
      requires ME in Last(run).callers
      reads this
    {
      Last(run).callers[ME]
    }

    constructor (secrets: Secrets, cluster: ObjectKey, owner: string, purposes: seq<Purpose>)
      ensures Valid() && Me().stage.Looking? && Me().next == 0
      ensures this.secrets == secrets && this.cluster == cluster && certs == Blank(purposes)
    {
      this.secrets, this.cluster, this.owner, certs, calls := secrets, cluster, owner, Blank(purposes), 0;
      run := After(Start(System(secrets, map[])), Step.Call(ME, cluster, owner, purposes),
                   System(secrets, map[ME := Caller(cluster, owner, Blank(purposes), Looking, 0)]));
    }

    ghost method Take(step: Step, c: Caller)
      requires IsRun(run) && ME in Last(run).callers && c.cluster == cluster && c.owner == owner && c.next <= |certs|
      requires !c.stage.Failed? ==> c.certs == certs
      requires CertificateAgreement.Next(Last(run), step, System(secrets, Last(run).callers[ME := c]))
      modifies this`run
      ensures Valid() && Me() == c
    {
      run := After(run, step, System(secrets, Last(run).callers[ME := c]));
    }

    /** Before each API call others may create secrets, and the call may fail. */
    method Call(w: World) returns (ok: bool)
      requires Valid()
      modifies this`secrets, this`calls, this`run
      ensures Valid() && Me() == old(Me()) && Grows(old(secrets), secrets) && calls == old(calls) + 1
      ensures ok == !w.faults(old(calls)) && (w.gaps(old(calls)) == [] ==> secrets == old(secrets))
    {
      var script := w.gaps(calls);
      for i := 0 to |script|
        invariant Valid() && Me() == old(Me()) && Grows(old(secrets), secrets) && calls == old(calls)
        invariant i == 0 ==> secrets == old(secrets)
      {
        var (key, secret) := script[i];
        if key !in secrets {
          secrets := secrets[key := secret];
          run := After(run, Other(key, secret), Last(run).(secrets := secrets));
        }
      }
      ok := !w.faults(calls);
      calls := calls + 1;
    }

    /** A list that no lookup or generation has touched. */
    predicate Untouched(list: seq<Certificate>) {
      forall i | 0 <= i < |list| :: list[i].keyPair.None? && !list[i].generated
    }

    method Lookup(w: World) returns (ok: bool)
      requires Valid() && Me().stage.Looking? && Me().next == 0
      modifies this
      ensures Valid() && Grows(old(secrets), secrets) && SamePurposes(certs, old(certs))
      ensures if ok then Me().stage.Looking? && Me().next == |certs| else Me().stage.Failed?
      ensures Calm(w) ==> secrets == old(secrets)
      ensures Calm(w) ==> (ok <==> forall i | 0 <= i < |certs| :: Readable(secrets, cluster, certs[i]))
      ensures Calm(w) && Untouched(old(certs)) && ok ==>
          forall i | 0 <= i < |certs| :: LooksUp(secrets, cluster, certs[i])
    {
      for i := 0 to |certs|
        invariant Valid() && Grows(old(secrets), secrets) && SamePurposes(certs, old(certs))
        invariant Me().stage.Looking? && Me().next == i
        invariant forall j | i <= j < |certs| :: certs[j] == old(certs)[j]
        invariant Calm(w) ==> secrets == old(secrets) && forall j | 0 <= j < i :: Readable(secrets, cluster, certs[j])
        invariant Calm(w) && Untouched(old(certs)) ==> forall j | 0 <= j < i :: LooksUp(secrets, cluster, certs[j])
      {
        ok := LookupOne(w, i);
        if !ok {
          return;
        }
      }
      ok := true;
    }

    method LookupOne(w: World, i: nat) returns (ok: bool)
      requires Valid() && Me().stage.Looking? && Me().next == i < |certs|
      modifies this
      ensures Valid() && Grows(old(secrets), secrets)
      ensures |certs| == |old(certs)| && certs[i].purpose == old(certs)[i].purpose
          && certs[i].generated == old(certs)[i].generated
      ensures forall j | 0 <= j < |certs| && j != i :: certs[j] == old(certs)[j]
      ensures if ok then Me().stage.Looking? && Me().next == i + 1 else Me().stage.Failed?
      ensures Calm(w) ==> secrets == old(secrets) && (ok <==> Readable(secrets, cluster, certs[i]))
      ensures Calm(w) && old(certs)[i].keyPair.None? && !old(certs)[i].generated && ok ==>
          LooksUp(secrets, cluster, certs[i])
    {
      hide IsRun;
      ok := Call(w);
      var key := SecretKey(cluster, certs[i].purpose);
      ghost var step, c := Look(ME, ok), AfterLook(Me(), secrets, ok);
      if !ok {
        Take(step, c);
        return;
      }
      if key in secrets {
        var kp := SecretToKeyPair(secrets[key]);
        if kp.None? {
          ok := false;
          Take(step, c);
          return;
        }
        certs := certs[i := certs[i].(keyPair := kp)];
      }
      Take(step, c);
    }

    method Generate(w: World) returns (ok: bool)
      requires Valid() && Me().stage.Looking? && Me().next == |certs|
      modifies this`certs, this`run
      ensures Valid() && SamePurposes(certs, old(certs))
      ensures if ok then Me().stage.Saving? && Me().next == 0 else Me().stage.Failed?
      ensures (forall k: nat :: w.pairs(k).Some?) ==> ok
      ensures ok ==> forall i | 0 <= i < |certs| ::
                certs[i] == if w.pairs(i).Some? then WithPair(old(certs)[i], w.pairs(i).value) else old(certs)[i]
    {
      ghost var made: seq<KeyPair> := [];
      for i := 0 to |certs|
        invariant |certs| == |old(certs)| && |made| == i && run == old(run)
        invariant forall j | i <= j < |certs| :: certs[j] == old(certs)[j]
        invariant forall j | 0 <= j < i :: certs[j] == WithPair(old(certs)[j], made[j])
        invariant forall j | 0 <= j < i ::
            if w.pairs(j).Some? then made[j] == w.pairs(j).value else certs[j] == old(certs)[j]
      {
        var kp := w.pairs(i);
        made := made + [if kp.Some? then kp.value else KeyPair("", "")];
        if certs[i].keyPair.None? {
          if certs[i].purpose.APIServerEtcdClient? {
            continue;
          }
          if kp.None? {
            Take(Step.Generate(ME, None), Fail(Me()));
            return false;
          }
          certs := certs[i := certs[i].(keyPair := kp, generated := true)];
        }
      }
      ghost var c := AfterGenerate(Me(), made);
      assert c.certs == certs;
      Take(Step.Generate(ME, Some(made)), c);
      ok := true;
    }

    /** Every secret that is new is that of one of the first n certificates. */
    ghost predicate OnlySaved(first: Secrets, now: Secrets, list: seq<Certificate>, n: nat)
      requires n <= |list|
    {
      forall k | k in now && k !in first :: exists j :: 0 <= j < n && SavedAs(list[j], now, k)
    }

    /** Each generated one of the first n certificates has its secret. */
    predicate AllSaved(now: Secrets, list: seq<Certificate>, n: nat)
      requires n <= |list|
    {
      forall j | 0 <= j < n && list[j].generated :: SecretKey(cluster, list[j].purpose) in now
    }

    /** The first n certificates can all be saved. */
    predicate AllSavable(first: Secrets, list: seq<Certificate>, n: nat)
      requires n <= |list|
    {
      forall j | 0 <= j < n :: Savable(first, list[j])
    }

    method SaveGenerated(w: World) returns (ok: bool)
      requires Valid() && Me().stage.Saving? && Me().next == 0
      modifies this`secrets, this`calls, this`run
      ensures Valid() && Grows(old(secrets), secrets)
      ensures if ok then Me().stage.Succeeded? else Me().stage.Failed?
      ensures Calm(w) && DistinctPurposes(certs) ==> (ok <==> AllSavable(old(secrets), certs, |certs|))
      ensures Calm(w) ==> OnlySaved(old(secrets), secrets, certs, |certs|)
      ensures ok ==> AllSaved(secrets, certs, |certs|)
    {
      hide OnlySaved, AllSaved, AllSavable, Grows;
      Unsaved(secrets, certs);
      for i := 0 to |certs|
        invariant Valid() && Grows(old(secrets), secrets)
        invariant Me().stage.Saving? && Me().next == i
        invariant Calm(w) ==> OnlySaved(old(secrets), secrets, certs, i)
        invariant AllSaved(secrets, certs, i)
        invariant Calm(w) && DistinctPurposes(certs) ==> AllSavable(old(secrets), certs, i)
      {
        ghost var before := secrets;
        if !certs[i].generated {
          Take(Save(ME, true), Me().(next := i + 1));
          ok := true;
        } else {
          ok := CreateSecret(w, i);
        }
        SaveNext(old(secrets), before, secrets, certs, i);
        if !ok {
          return;
        }
      }
      Take(Save(ME, true), Me().(stage := Succeeded));
      ok := true;
    }

    lemma Unsaved(first: Secrets, list: seq<Certificate>)
      ensures Grows(first, first) && OnlySaved(first, first, list, 0) && AllSaved(first, list, 0)
          && AllSavable(first, list, 0)
    {
    }

    lemma SaveNext(first: Secrets, before: Secrets, now: Secrets, list: seq<Certificate>, i: nat)
      requires i < |list| && Grows(first, before) && Grows(before, now) && AllSaved(before, list, i)
      ensures Grows(first, now)
      ensures OnlySaved(first, before, list, i) && NewIs(before, now, list[i]) ==>
                OnlySaved(first, now, list, i + 1) && OnlySaved(first, now, list, |list|)
      ensures (list[i].generated ==> SecretKey(cluster, list[i].purpose) in now) ==> AllSaved(now, list, i + 1)
      ensures OnlySaved(first, before, list, i) && DistinctPurposes(list) && AllSavable(first, list, i) ==>
                (Savable(before, list[i]) <==> Savable(first, list[i]))
                && (Savable(first, list[i]) <==> AllSavable(first, list, i + 1))
                && (!Savable(first, list[i]) ==> !AllSavable(first, list, |list|))
    {
      forall j | 0 <= j < i && list[j].purpose != list[i].purpose
        ensures SecretKey(cluster, list[j].purpose) != SecretKey(cluster, list[i].purpose)
      {
        NamesCollideExactly(cluster.name, list[j].purpose, cluster.name, list[i].purpose);
      }
      NewSaved(first, before, now, list, i);
    }

    predicate NewIs(before: Secrets, now: Secrets, cert: Certificate) {
      forall k | k in now && k !in before :: SavedAs(cert, now, k)
    }

    lemma NewSaved(first: Secrets, before: Secrets, now: Secrets, list: seq<Certificate>, i: nat)
      requires i < |list| && Grows(before, now)
      ensures OnlySaved(first, before, list, i) && NewIs(before, now, list[i]) ==>
                OnlySaved(first, now, list, i + 1) && OnlySaved(first, now, list, |list|)
    {
      if OnlySaved(first, before, list, i) && NewIs(before, now, list[i]) {
        forall k | k in now && k !in first ensures exists j :: 0 <= j < i + 1 && SavedAs(list[j], now, k) {
          if k in before {
            var j :| 0 <= j < i && SavedAs(list[j], before, k);
            assert SavedAs(list[j], now, k);
          } else {
            assert SavedAs(list[i], now, k);
          }
        }
      }
    }

    method CreateSecret(w: World, i: nat) returns (ok: bool)
      requires Valid() && Me().stage.Saving? && Me().next == i < |certs| && certs[i].generated
      modifies this`secrets, this`calls, this`run
      ensures Valid() && Grows(old(secrets), secrets)
      ensures if ok then Me().stage.Saving? && Me().next == i + 1 else Me().stage.Failed?
      ensures Calm(w) ==> (ok <==> Savable(old(secrets), certs[i]))
      ensures Calm(w) ==> NewIs(old(secrets), secrets, certs[i])
      ensures ok ==> SecretKey(cluster, certs[i].purpose) in secrets
    {
      ok := Call(w);
      var key := SecretKey(cluster, certs[i].purpose);
      if !ok || key in secrets || certs[i].keyPair.None? {
        ok := false;
        Take(Save(ME, false), Fail(Me()));
        return;
      }
      ghost var before := Last(run);
      secrets := secrets[key := AsSecret(certs[i], cluster, owner)];
      ghost var c := Me().(next := i + 1);
      run := After(run, Save(ME, true), System(secrets, before.callers[ME := c]));
    }

    /** LookupOrGenerate.  Whatever others create and whichever calls fail, a call that succeeds holds exactly the
        stored pairs, and stored secrets stay.  Left alone it succeeds exactly when the secrets there can be read, and
        adds only the secrets of the certificates it generated. */
    method LookupOrGenerate(w: World) returns (ok: bool)
      requires Valid() && Me().stage.Looking? && Me().next == 0
      modifies this
      ensures Valid() && Grows(old(secrets), secrets) && SamePurposes(certs, old(certs))
      ensures ok ==> Agreed(secrets, cluster, certs)
      ensures Calm(w) && Untouched(old(certs)) && DistinctPurposes(old(certs)) ==>
                (ok <==> forall i | 0 <= i < |certs| :: Readable(old(secrets), cluster, certs[i]))
      ensures Calm(w) && Untouched(old(certs)) ==>
                OnlySaved(old(secrets), secrets, certs, |certs|)
    {
      ok := Lookup(w);
      if !ok {
        return;
      }
      ghost var looked := certs;
      ok := Generate(w);
      if !ok {
        return;
      }
      GeneratedAreSavable(w, secrets, looked, certs);
      ok := SaveGenerated(w);
      SuccessHolds(run);
    }

    lemma GeneratedAreSavable(w: World, secrets: Secrets, looked: seq<Certificate>, made: seq<Certificate>)
      requires |made| == |looked| && forall i | 0 <= i < |made| ::
                 made[i] == if w.pairs(i).Some? then WithPair(looked[i], w.pairs(i).value) else looked[i]
      ensures Calm(w) &&
              (forall i | 0 <= i < |looked| ::
                 LooksUp(secrets, cluster, looked[i]) && Readable(secrets, cluster, looked[i])) ==>
                forall i | 0 <= i < |made| :: Savable(secrets, made[i])
    {
    }

    /** The secret k is that of the generated certificate. */
    predicate SavedAs(cert: Certificate, secrets: Secrets, k: ObjectKey) {
      && cert.generated && cert.keyPair.Some? && SecretKey(cluster, cert.purpose) == k
      && k in secrets && secrets[k] == AsSecret(cert, cluster, owner)
    }

    /** A generated certificate has a key pair and no secret yet. */
    predicate Savable(secrets: Secrets, c: Certificate) {
      c.generated ==> c.keyPair.Some? && SecretKey(cluster, c.purpose) !in secrets
    }

    /** The first of the certificates lacking something decides the error. */
    method EnsureAllExist() returns (err: Option<Missing>)
      ensures err.None? <==> forall i | 0 <= i < |certs| :: MissingIn(certs[i]).None?
      ensures err.Some? ==>
          exists i :: 0 <= i < |certs| && err == MissingIn(certs[i]) && forall j | 0 <= j < i ::
          MissingIn(certs[j]).None?
    {
      for i := 0 to |certs|
        invariant forall j | 0 <= j < i :: MissingIn(certs[j]).None?
      {
        var c := certs[i];
        if c.keyPair.None? {
          return Some(MissingCertificate);
        }
        if |c.keyPair.value.cert| == 0 {
          return Some(MissingCrt(c.purpose));
        }
        if |c.keyPair.value.key| == 0 {
          return Some(MissingKey(c.purpose));
        }
      }
      err := None;
    }

    method GetByPurpose(purpose: Purpose) returns (c: Option<Certificate>)
      ensures c.None? <==> forall x | x in certs :: x.purpose != purpose
      ensures c.Some? ==> exists i :: 0 <= i < |certs| && certs[i] == c.value && c.value.purpose == purpose
                                      && forall j | 0 <= j < i :: certs[j].purpose != purpose
    {
      for i := 0 to |certs|
        invariant forall j | 0 <= j < i :: certs[j].purpose != purpose
      {
        if certs[i].purpose == purpose {
          return Some(certs[i]);
        }
      }
      c := None;
    }
  }
}
