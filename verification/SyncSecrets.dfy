/**
 What a synchronisation in which no call fails leaves under one secret name. The plan is followed segment by segment:
 which effect touches the name last decides.
 */
module SyncSecrets {
  import opened Wrappers
  import opened Resources
  import opened Cluster
  import opened Secrets
  import opened SyncPlan
  import opened SyncService
  import opened Synchronisation
  import D = Director
  import NR = NameResolver
  import C = Converter

  predicate SameSecret(w: World, w': World, n: string) {
    && (n in w.secrets <==> n in w'.secrets)
    && (n in w.secrets ==> w'.secrets[n] == w.secrets[n])
  }

  /** `gone` secrets are dropped, and any other one stays as it is. */
  predicate DroppedIf(w: World, w': World, n: string, gone: bool) {
    && (n in w'.secrets <==> n in w.secrets && !gone)
    && (n in w'.secrets ==> w'.secrets[n] == w.secrets[n])
  }

  function OwnNames(d: D.Application): set<string> {
    CredentialsNames(d) + ParametersNames(d)
  }

  /** The secret names that the bundles of one application resolve to are pairwise different. */
  ghost predicate DistinctWithin(d: D.Application) {
    forall i, j :: 0 <= i < |d.bundles| && 0 <= j < |d.bundles| ==>
      var a, b := d.bundles[i], d.bundles[j];
      && (i != j && a.Credentials().Some? && b.Credentials().Some? ==>
            NR.CredentialsSecretName(d.name, a.id) != NR.CredentialsSecretName(d.name, b.id))
      && (i != j && a.Parameters().Some? && b.Parameters().Some? ==>
            NR.ParametersSecretName(d.name, a.id) != NR.ParametersSecretName(d.name, b.id))
      && (a.Credentials().Some? && b.Parameters().Some? ==>
            NR.CredentialsSecretName(d.name, a.id) != NR.ParametersSecretName(d.name, b.id))
  }

  /** All secret names that the Director's list resolves to are pairwise different. */
  ghost predicate DistinctResolved(ds: seq<D.Application>) {
    && (forall i :: 0 <= i < |ds| ==> DistinctWithin(ds[i]))
    && (forall i, j :: 0 <= i < j < |ds| ==> OwnNames(ds[i]) !! OwnNames(ds[j]))
  }

  /** The secret of the bundle reads as the Director's credentials; incomplete credentials are never stored. */
  predicate CredentialsStored(w: World, application: string, b: D.Bundle)
    requires b.Credentials().Some?
  {
    var c, name := b.Credentials().value, NR.CredentialsSecretName(application, b.id);
    IsComplete(c) ==> name in w.secrets && !ShouldUpdate(c, w.secrets[name].data, CredentialsData(c))
  }

  function NameOf(d: D.Application, j: nat): string
    requires j < |d.bundles|
  {
    NR.CredentialsSecretName(d.name, d.bundles[j].id)
  }

  predicate HasComplete(d: D.Application, j: nat)
    requires j < |d.bundles|
  {
    d.bundles[j].Credentials().Some? && IsComplete(d.bundles[j].Credentials().value)
  }

  /** There is a secret that reads as the credentials of the bundle, whoever owns it. */
  predicate ReadsSame(w: World, d: D.Application, j: nat)
    requires j < |d.bundles| && HasComplete(d, j)
  {
    CredentialsStored(w, d.name, d.bundles[j])
  }

  /** The secret that is written when there is none that reads the same. */
  function Written(d: D.Application, j: nat, uid: nat): Secret
    requires j < |d.bundles| && HasComplete(d, j)
  {
    Secret(d.name, d.bundles[j].id, uid, CredentialsData(d.bundles[j].Credentials().value))
  }

  /** A secret that reads the same stays, any other one is replaced under the ownership of `uid`. */
  ghost predicate KeptOrWritten(w: World, w': World, d: D.Application, j: nat, uid: nat, kept: bool)
    requires j < |d.bundles| && HasComplete(d, j)
  {
    var n := NameOf(d, j);
    && n in w'.secrets && (kept ==> n in w.secrets)
    && w'.secrets[n] == if kept then w.secrets[n] else Written(d, j, uid)
  }

  predicate ParametersStored(w: World, application: string, b: D.Bundle)
    requires b.Parameters().Some?
  {
    var name := NR.ParametersSecretName(application, b.id);
    && application in w.apps && name in w.secrets
    && w.secrets[name] == Secret(application, b.id, w.apps[application].uid, ParametersData(b.Parameters().value))
  }

  // ---------------------------------------------------------------- the secrets of one application

  lemma {:induction false} CredentialsApps(w: World, application: string, bundles: seq<D.Bundle>)
    ensures Run(w, CredentialsEffects(application, bundles)).apps == w.apps
  {
    if bundles != [] {
      CredentialsApps(w, application, bundles[..|bundles| - 1]);
      LastCredentials(w, application, bundles);
    }
  }

  /** Credentials of other names are left alone. */
  lemma {:induction false} CredentialsLeaves(w: World, application: string, bundles: seq<D.Bundle>, n: string)
    requires forall j ::
               0 <= j < |bundles| && bundles[j].Credentials().Some? ==>
                 NR.CredentialsSecretName(application, bundles[j].id) != n
    ensures SameSecret(w, Run(w, CredentialsEffects(application, bundles)), n)
  {
    if bundles == [] {
      return;
    }
    hide Run, CredentialsEffects, CredentialsData, NR.CredentialsSecretName;
    CredentialsLeaves(w, application, bundles[..|bundles| - 1], n);
    LastCredentials(w, application, bundles);
  }

  lemma LastCredentials(w: World, application: string, bundles: seq<D.Bundle>)
    requires bundles != []
    ensures var front, b := bundles[..|bundles| - 1], bundles[|bundles| - 1];
            var w1 := Run(w, CredentialsEffects(application, front));
            Run(w, CredentialsEffects(application, bundles))
            == if b.Credentials().Some? then Apply(w1, PutOfCredentials(application, b)) else w1
  {
    var front, b := bundles[..|bundles| - 1], bundles[|bundles| - 1];
    if b.Credentials().Some? {
      RunOne(w, CredentialsEffects(application, front), PutOfCredentials(application, b));
    } else {
      assert CredentialsEffects(application, front) + [] == CredentialsEffects(application, front);
    }
  }

  lemma PutIsExact(w: World, d: D.Application, j: nat)
    requires j < |d.bundles| && HasComplete(d, j) && d.name in w.apps
    ensures KeptOrWritten(w, Apply(w, PutOfCredentials(d.name, d.bundles[j])), d, j, w.apps[d.name].uid,
                          ReadsSame(w, d, j))
  {
  }

  lemma PutLeaves(w: World, application: string, b: D.Bundle, n: string)
    requires b.Credentials().Some? && NR.CredentialsSecretName(application, b.id) != n
    ensures SameSecret(w, Apply(w, PutOfCredentials(application, b)), n)
  {
  }

  lemma {:induction false} CredentialsRunIsExact(w: World, d: D.Application, j: nat, k: nat)
    requires j < k <= |d.bundles| && HasComplete(d, j) && d.name in w.apps && DistinctWithin(d)
    ensures KeptOrWritten(w, Run(w, CredentialsEffects(d.name, d.bundles[..k])), d, j, w.apps[d.name].uid,
                          ReadsSame(w, d, j))
  {
    hide Run, CredentialsEffects, Apply, NR.CredentialsSecretName, CredentialsData, ShouldUpdate, IsComplete;
    var front := d.bundles[..k - 1];
    assert d.bundles[..k][..k - 1] == front;
    LastCredentials(w, d.name, d.bundles[..k]);
    CredentialsApps(w, d.name, front);
    var w1 := Run(w, CredentialsEffects(d.name, front));
    if j == k - 1 {
      CredentialsLeaves(w, d.name, front, NameOf(d, j));
      PutIsExact(w1, d, j);
    } else {
      CredentialsRunIsExact(w, d, j, k - 1);
      if d.bundles[k - 1].Credentials().Some? {
        PutLeaves(w1, d.name, d.bundles[k - 1], NameOf(d, j));
      }
    }
  }

  lemma CredentialsRunStores(w: World, d: D.Application, j: nat)
    requires j < |d.bundles| && d.bundles[j].Credentials().Some? && d.name in w.apps && DistinctWithin(d)
    ensures CredentialsStored(Run(w, CredentialsEffects(d.name, d.bundles)), d.name, d.bundles[j])
  {
    if HasComplete(d, j) {
      hide Run, CredentialsEffects, NR.CredentialsSecretName;
      CredentialsRunIsExact(w, d, j, |d.bundles|);
      assert d.bundles[..|d.bundles|] == d.bundles;
    }
  }

  lemma {:induction false} ParametersApps(w: World, application: string, bundles: seq<D.Bundle>)
    ensures Run(w, ParametersEffects(application, bundles)).apps == w.apps
  {
    if bundles != [] {
      ParametersApps(w, application, bundles[..|bundles| - 1]);
      LastParameters(w, application, bundles);
    }
  }

  /** Request parameters of other names are left alone. */
  lemma {:induction false} ParametersLeaves(w: World, application: string, bundles: seq<D.Bundle>, n: string)
    requires forall j ::
               0 <= j < |bundles| && bundles[j].Parameters().Some? ==>
                 NR.ParametersSecretName(application, bundles[j].id) != n
    ensures SameSecret(w, Run(w, ParametersEffects(application, bundles)), n)
  {
    if bundles == [] {
      return;
    }
    hide Run, ParametersEffects, ParametersData, NR.ParametersSecretName;
    ParametersLeaves(w, application, bundles[..|bundles| - 1], n);
    LastParameters(w, application, bundles);
  }

  lemma LastParameters(w: World, application: string, bundles: seq<D.Bundle>)
    requires bundles != []
    ensures var front, b := bundles[..|bundles| - 1], bundles[|bundles| - 1];
            var w1 := Run(w, ParametersEffects(application, front));
            Run(w, ParametersEffects(application, bundles))
            == if b.Parameters().Some? then Apply(w1, PutOfParameters(application, b)) else w1
  {
    var front, b := bundles[..|bundles| - 1], bundles[|bundles| - 1];
    if b.Parameters().Some? {
      RunOne(w, ParametersEffects(application, front), PutOfParameters(application, b));
    } else {
      assert ParametersEffects(application, front) + [] == ParametersEffects(application, front);
    }
  }

  lemma PutKeeps(w: World, application: string, b: D.Bundle, other: D.Bundle)
    requires b.Parameters().Some? && other.Parameters().Some? && application in w.apps
    requires NR.ParametersSecretName(application, b.id) != NR.ParametersSecretName(application, other.id)
    requires ParametersStored(w, application, b)
    ensures ParametersStored(Apply(w, PutOfParameters(application, other)), application, b)
  {
  }

  lemma PutStores(w: World, application: string, b: D.Bundle)
    requires b.Parameters().Some? && application in w.apps
    ensures ParametersStored(Apply(w, PutOfParameters(application, b)), application, b)
  {
  }

  lemma {:induction false} ParametersRunStores(w: World, application: string, bundles: seq<D.Bundle>, j: nat)
    requires j < |bundles| && bundles[j].Parameters().Some? && application in w.apps
    requires forall k :: 0 <= k < |bundles| && k != j && bundles[k].Parameters().Some? ==>
               NR.ParametersSecretName(application, bundles[k].id)
               != NR.ParametersSecretName(application, bundles[j].id)
    ensures ParametersStored(Run(w, ParametersEffects(application, bundles)), application, bundles[j])
  {
    hide Run, ParametersEffects, Apply, ParametersStored, NR.ParametersSecretName;
    var front := bundles[..|bundles| - 1];
    LastParameters(w, application, bundles);
    ParametersApps(w, application, front);
    var w1, last := Run(w, ParametersEffects(application, front)), bundles[|bundles| - 1];
    if j == |front| {
      PutStores(w1, application, last);
    } else {
      ParametersRunStores(w, application, front, j);
      if last.Parameters().Some? {
        PutKeeps(w1, application, bundles[j], last);
      }
    }
  }

  /** The names in the new specification are among those that the bundles resolve to. */
  lemma NewNamesAreOwn(c: C.Settings, d: D.Application)
    ensures CredentialsSecretNames(C.Services(c, d.name, d.bundles)) <= CredentialsNames(d)
    ensures ParametersSecretNames(C.Services(c, d.name, d.bundles)) <= ParametersNames(d)
  {
    C.NamedCredentials(c, d.name, d.bundles);
    C.NamedParameters(c, d.name, d.bundles);
  }

  lemma IsOwn(d: D.Application, j: nat)
    requires j < |d.bundles|
    ensures d.bundles[j].Credentials().Some? ==>
              NR.CredentialsSecretName(d.name, d.bundles[j].id) in CredentialsNames(d)
    ensures d.bundles[j].Parameters().Some? ==> NR.ParametersSecretName(d.name, d.bundles[j].id) in ParametersNames(d)
  {
    assert d.bundles[j] in d.bundles;
  }

  /** The credentials of other names are left alone. */
  lemma CredentialsOnlyOwn(w: World, d: D.Application, n: string)
    requires n !in CredentialsNames(d)
    ensures SameSecret(w, Run(w, CredentialsEffects(d.name, d.bundles)), n)
    ensures Run(w, CredentialsEffects(d.name, d.bundles)).apps == w.apps
  {
    forall j | 0 <= j < |d.bundles| && d.bundles[j].Credentials().Some?
      ensures NR.CredentialsSecretName(d.name, d.bundles[j].id) != n
    {
      IsOwn(d, j);
    }
    CredentialsLeaves(w, d.name, d.bundles, n);
    CredentialsApps(w, d.name, d.bundles);
  }

  lemma ParametersOnlyOwn(w: World, d: D.Application, n: string)
    requires n !in ParametersNames(d)
    ensures SameSecret(w, Run(w, ParametersEffects(d.name, d.bundles)), n)
    ensures Run(w, ParametersEffects(d.name, d.bundles)).apps == w.apps
  {
    forall j | 0 <= j < |d.bundles| && d.bundles[j].Parameters().Some?
      ensures NR.ParametersSecretName(d.name, d.bundles[j].id) != n
    {
      IsOwn(d, j);
    }
    ParametersLeaves(w, d.name, d.bundles, n);
    ParametersApps(w, d.name, d.bundles);
  }

  lemma NotParameters(d: D.Application, j: nat)
    requires j < |d.bundles| && d.bundles[j].Credentials().Some? && DistinctWithin(d)
    ensures NR.CredentialsSecretName(d.name, d.bundles[j].id) !in ParametersNames(d)
  {
    var n := NR.CredentialsSecretName(d.name, d.bundles[j].id);
    forall b | b in d.bundles && b.Parameters().Some?
      ensures NR.ParametersSecretName(d.name, b.id) != n
    {
      var k :| 0 <= k < |d.bundles| && d.bundles[k] == b;
    }
  }

  lemma NotCredentials(d: D.Application, j: nat)
    requires j < |d.bundles| && d.bundles[j].Parameters().Some? && DistinctWithin(d)
    ensures NR.ParametersSecretName(d.name, d.bundles[j].id) !in CredentialsNames(d)
  {
    var n := NR.ParametersSecretName(d.name, d.bundles[j].id);
    forall b | b in d.bundles && b.Credentials().Some?
      ensures NR.CredentialsSecretName(d.name, b.id) != n
    {
      var k :| 0 <= k < |d.bundles| && d.bundles[k] == b;
    }
  }

  // ---------------------------------------------------------------- creating one application

  lemma CreateRun(w: World, c: C.Settings, d: D.Application)
    ensures var w1 := WithCreated(w, C.Convert(c, d));
            var w2 := Run(w1, CredentialsEffects(d.name, d.bundles));
            Run(w, CreateEffects(c, d))
            == if HasAmbiguous(d.bundles) then w2 else Run(w2, ParametersEffects(d.name, d.bundles))
  {
    RunTwo(w, Create(C.Convert(c, d)), DropSecrets({}));
    RunConcat(w, [Create(C.Convert(c, d))], FirstSecretsEffects(d));
    var w1 := WithCreated(w, C.Convert(c, d));
    if HasAmbiguous(d.bundles) {
      assert CredentialsEffects(d.name, d.bundles) + [] == CredentialsEffects(d.name, d.bundles);
    } else {
      RunConcat(w1, CredentialsEffects(d.name, d.bundles), ParametersEffects(d.name, d.bundles));
    }
  }

  lemma CreateLeaves(w: World, c: C.Settings, d: D.Application, n: string)
    requires n !in OwnNames(d)
    ensures SameSecret(w, Run(w, CreateEffects(c, d)), n)
  {
    CreateRun(w, c, d);
    var w1 := WithCreated(w, C.Convert(c, d));
    CredentialsOnlyOwn(w1, d, n);
    ParametersOnlyOwn(Run(w1, CredentialsEffects(d.name, d.bundles)), d, n);
  }

  lemma CreateApps(w: World, c: C.Settings, d: D.Application)
    ensures Run(w, CreateEffects(c, d)).apps == WithCreated(w, C.Convert(c, d)).apps
  {
    CreateRun(w, c, d);
    var w1 := WithCreated(w, C.Convert(c, d));
    CredentialsApps(w1, d.name, d.bundles);
    ParametersApps(Run(w1, CredentialsEffects(d.name, d.bundles)), d.name, d.bundles);
  }

  lemma CreateAppsAt(w: World, c: C.Settings, d: D.Application, n: string)
    ensures var w' := Run(w, CreateEffects(c, d));
            if n == d.name then n in w'.apps && Carries(w'.apps[n], C.Convert(c, d))
            else (n in w'.apps <==> n in w.apps) && (n in w.apps ==> w'.apps[n] == w.apps[n])
  {
    CreateApps(w, c, d);
  }

  lemma CreateStores(w: World, c: C.Settings, d: D.Application, j: nat)
    requires j < |d.bundles| && DistinctWithin(d)
    ensures d.bundles[j].Credentials().Some? ==> CredentialsStored(Run(w, CreateEffects(c, d)), d.name, d.bundles[j])
    ensures d.bundles[j].Parameters().Some? && !HasAmbiguous(d.bundles) ==>
              ParametersStored(Run(w, CreateEffects(c, d)), d.name, d.bundles[j])
  {
    hide Run, CreateEffects, CredentialsEffects, ParametersEffects, C.Services, CredentialsData, ParametersData,
         HasAmbiguous;
    CreateRun(w, c, d);
    var w1 := WithCreated(w, C.Convert(c, d));
    CredentialsApps(w1, d.name, d.bundles);
    var w2 := Run(w1, CredentialsEffects(d.name, d.bundles));
    if d.bundles[j].Credentials().Some? {
      CredentialsRunStores(w1, d, j);
      NotParameters(d, j);
      ParametersOnlyOwn(w2, d, NR.CredentialsSecretName(d.name, d.bundles[j].id));
    }
    if d.bundles[j].Parameters().Some? {
      ParametersRunStores(w2, d.name, d.bundles, j);
    }
  }

  // ---------------------------------------------------------------- updating one application

  lemma UpdateRun(w: World, c: C.Settings, existing: Application, d: D.Application)
    requires d.name in w.apps && w.apps[d.name].name == d.name
    ensures var w' := Run(w, UpdateEffects(c, existing, d));
            w'.apps == w.apps[d.name := Merge(w.apps[d.name], C.Convert(c, d))]
  {
    hide Run, UpdateEffects, CredentialsEffects, ParametersEffects, C.Services, CredentialsSecretNames,
         ParametersSecretNames;
    RunUpdate(c, w, existing, d);
    var services := C.Services(c, d.name, d.bundles);
    var w0 := Apply(w, Update(C.Convert(c, d)));
    var w1 := Apply(w0, DropSecrets(CredentialsSecretNames(existing.spec.services) - CredentialsSecretNames(services)));
    CredentialsApps(w1, d.name, d.bundles);
    var w2 := Run(w1, CredentialsEffects(d.name, d.bundles));
    var w3 := Apply(w2, DropSecrets(ParametersSecretNames(existing.spec.services) - ParametersSecretNames(services)));
    ParametersApps(w3, d.name, d.bundles);
  }

  /** A name that the application does not resolve to is dropped when the old specification refers to it. */
  lemma UpdateDrops(w: World, c: C.Settings, existing: Application, d: D.Application, n: string)
    requires d.name in w.apps && n !in OwnNames(d)
    ensures DroppedIf(w, Run(w, UpdateEffects(c, existing, d)), n, n in ReferencedNames(existing))
  {
    hide Run, UpdateEffects, CredentialsEffects, ParametersEffects, C.Convert, C.Services, CredentialsNames,
         ParametersNames, CredentialsSecretNames, ParametersSecretNames;
    RunUpdate(c, w, existing, d);
    NewNamesAreOwn(c, d);
    var services := C.Services(c, d.name, d.bundles);
    var w0 := Apply(w, Update(C.Convert(c, d)));
    var w1 := Apply(w0, DropSecrets(CredentialsSecretNames(existing.spec.services) - CredentialsSecretNames(services)));
    CredentialsOnlyOwn(w1, d, n);
    var w2 := Run(w1, CredentialsEffects(d.name, d.bundles));
    var w3 := Apply(w2, DropSecrets(ParametersSecretNames(existing.spec.services) - ParametersSecretNames(services)));
    ParametersOnlyOwn(w3, d, n);
  }

  /** The credentials are stored, and lost again when the old specification has their name for request parameters. */
  lemma UpdateStoresCredentials(w: World, c: C.Settings, existing: Application, d: D.Application, j: nat)
    requires d.name in w.apps && j < |d.bundles| && d.bundles[j].Credentials().Some? && DistinctWithin(d)
    ensures var n, w' := NR.CredentialsSecretName(d.name, d.bundles[j].id), Run(w, UpdateEffects(c, existing, d));
            if n in ParametersSecretNames(existing.spec.services) then n !in w'.secrets
            else CredentialsStored(w', d.name, d.bundles[j])
  {
    hide Run, UpdateEffects, CredentialsEffects, ParametersEffects, C.Convert, C.Services, CredentialsNames,
         ParametersNames, CredentialsSecretNames, ParametersSecretNames;
    RunUpdate(c, w, existing, d);
    NewNamesAreOwn(c, d);
    var services := C.Services(c, d.name, d.bundles);
    var n := NR.CredentialsSecretName(d.name, d.bundles[j].id);
    var w0 := Apply(w, Update(C.Convert(c, d)));
    var w1 := Apply(w0, DropSecrets(CredentialsSecretNames(existing.spec.services) - CredentialsSecretNames(services)));
    CredentialsRunStores(w1, d, j);
    var w2 := Run(w1, CredentialsEffects(d.name, d.bundles));
    var w3 := Apply(w2, DropSecrets(ParametersSecretNames(existing.spec.services) - ParametersSecretNames(services)));
    NotParameters(d, j);
    ParametersOnlyOwn(w3, d, n);
  }

  lemma UpdateStoresParameters(w: World, c: C.Settings, existing: Application, d: D.Application, j: nat)
    requires d.name in w.apps && j < |d.bundles| && d.bundles[j].Parameters().Some? && DistinctWithin(d)
    ensures ParametersStored(Run(w, UpdateEffects(c, existing, d)), d.name, d.bundles[j])
  {
    hide Run, UpdateEffects, CredentialsEffects, ParametersEffects, C.Convert, C.Services, CredentialsNames,
         ParametersNames, CredentialsSecretNames, ParametersSecretNames, ParametersStored;
    RunUpdate(c, w, existing, d);
    var services := C.Services(c, d.name, d.bundles);
    var w0 := Apply(w, Update(C.Convert(c, d)));
    var w1 := Apply(w0, DropSecrets(CredentialsSecretNames(existing.spec.services) - CredentialsSecretNames(services)));
    CredentialsApps(w1, d.name, d.bundles);
    var w2 := Run(w1, CredentialsEffects(d.name, d.bundles));
    var w3 := Apply(w2, DropSecrets(ParametersSecretNames(existing.spec.services) - ParametersSecretNames(services)));
    ParametersRunStores(w3, d.name, d.bundles, j);
  }

  // ---------------------------------------------------------------- the create phase

  lemma CreatePlanGrows(c: C.Settings, w: World, listed: seq<Application>, ds: seq<D.Application>, k: nat)
    requires k < |ds|
    ensures Run(w, CreatePlan(c, w, listed, ds[..k + 1]))
            == if !Exists(ds[k].name, listed) && IsCreatable(w, ds[k].name)
               then Run(Run(w, CreatePlan(c, w, listed, ds[..k])), CreateEffects(c, ds[k]))
               else Run(w, CreatePlan(c, w, listed, ds[..k]))
  {
    assert ds[..k + 1][..k] == ds[..k];
    var plan := CreatePlan(c, w, listed, ds[..k]);
    assert plan + [] == plan;
    RunConcat(w, plan, CreateEffects(c, ds[k]));
  }

  /** Creating applications keeps the others. */
  lemma {:induction false} CreatePhaseKeeps(c: C.Settings, w: World, listed: seq<Application>, ds: seq<D.Application>,
                                            k: nat, n: string)
    requires k <= |ds| && DistinctNames(ds)
    requires n in w.apps || forall i :: 0 <= i < k && !Exists(ds[i].name, listed) ==> ds[i].name != n
    ensures var w' := Run(w, CreatePlan(c, w, listed, ds[..k]));
            (n in w'.apps <==> n in w.apps) && (n in w.apps ==> w'.apps[n] == w.apps[n])
  {
    if k == 0 {
      return;
    }
    hide Run, CreatePlan, CreateEffects, Exists, Carries, C.Convert, DistinctNames;
    CreatePhaseKeeps(c, w, listed, ds, k - 1, n);
    CreatePlanGrows(c, w, listed, ds, k - 1);
    var w1 := Run(w, CreatePlan(c, w, listed, ds[..k - 1]));
    if !Exists(ds[k - 1].name, listed) && IsCreatable(w, ds[k - 1].name) {
      assert n != ds[k - 1].name;
      CreateAppsAt(w1, c, ds[k - 1], n);
    }
  }

  lemma CreatePhaseAdds(c: C.Settings, w: World, listed: seq<Application>, ds: seq<D.Application>, i: nat)
    requires i < |ds| && DistinctNames(ds)
    requires !Exists(ds[i].name, listed) && IsCreatable(w, ds[i].name)
    ensures var w' := Run(w, CreatePlan(c, w, listed, ds[..i + 1]));
            ds[i].name in w'.apps && Carries(w'.apps[ds[i].name], C.Convert(c, ds[i]))
  {
    CreatePlanGrows(c, w, listed, ds, i);
    CreateAppsAt(Run(w, CreatePlan(c, w, listed, ds[..i])), c, ds[i], ds[i].name);
  }

  /** Creations from `lo` on leave alone what they do not resolve to. */
  lemma {:induction false} CreateTail(c: C.Settings, w: World, listed: seq<Application>, ds: seq<D.Application>,
                                      lo: nat, k: nat, n: string)
    requires lo <= k <= |ds|
    requires forall j :: lo <= j < k && !Exists(ds[j].name, listed) ==> n !in OwnNames(ds[j])
    ensures SameSecret(Run(w, CreatePlan(c, w, listed, ds[..lo])), Run(w, CreatePlan(c, w, listed, ds[..k])), n)
  {
    hide Run, CreatePlan, CreateEffects, Exists, OwnNames;
    if lo < k {
      CreateTail(c, w, listed, ds, lo, k - 1, n);
      CreatePlanGrows(c, w, listed, ds, k - 1);
      if !Exists(ds[k - 1].name, listed) {
        CreateLeaves(Run(w, CreatePlan(c, w, listed, ds[..k - 1])), c, ds[k - 1], n);
      }
    }
  }

  lemma {:induction false} CreateTailApps(c: C.Settings, w: World, listed: seq<Application>, ds: seq<D.Application>,
                                          lo: nat, k: nat, name: string)
    requires lo <= k <= |ds|
    requires forall j :: lo <= j < k ==> ds[j].name != name
    ensures var w1, w2 := Run(w, CreatePlan(c, w, listed, ds[..lo])), Run(w, CreatePlan(c, w, listed, ds[..k]));
            name in w1.apps ==> name in w2.apps && w2.apps[name] == w1.apps[name]
  {
    hide Run, CreatePlan, CreateEffects, Exists, Carries, C.Convert;
    if lo < k {
      CreateTailApps(c, w, listed, ds, lo, k - 1, name);
      CreatePlanGrows(c, w, listed, ds, k - 1);
      CreateAppsAt(Run(w, CreatePlan(c, w, listed, ds[..k - 1])), c, ds[k - 1], name);
    }
  }

  // ---------------------------------------------------------------- the delete phase

  /** Some application that is to be deleted refers to the secret. */
  predicate DeletionRefers(listed: seq<Application>, ds: seq<D.Application>, n: string) {
    exists i :: 0 <= i < |listed| && !InDirector(listed[i].name, ds) && n in ReferencedNames(listed[i])
  }

  lemma DeletePlanGrows(w: World, listed: seq<Application>, ds: seq<D.Application>)
    requires listed != []
    ensures var front, a := listed[..|listed| - 1], listed[|listed| - 1];
            var w1 := Run(w, DeletePlan(front, ds));
            Run(w, DeletePlan(listed, ds))
            == if InDirector(a.name, ds) then w1
               else WithoutApplication(WithoutSecrets(WithoutSecrets(w1, ParametersSecretNames(a.spec.services)),
                                                      CredentialsSecretNames(a.spec.services)), a.name)
  {
    var front, a := listed[..|listed| - 1], listed[|listed| - 1];
    var plan := DeletePlan(front, ds);
    assert plan + [] == plan;
    RunConcat(w, plan, DeleteEffects(a));
    var w1 := Run(w, plan);
    var params, creds :=
      DropSecrets(ParametersSecretNames(a.spec.services)), DropSecrets(CredentialsSecretNames(a.spec.services));
    RunTwo(w1, params, creds);
    RunOne(w1, [params, creds], Delete(a.name));
    assert [params, creds] + [Delete(a.name)] == DeleteEffects(a);
  }

  lemma {:induction false} DeletePhase(w: World, listed: seq<Application>, ds: seq<D.Application>)
    ensures var w' := Run(w, DeletePlan(listed, ds));
            && w'.apps == w.apps - DeletedNames(listed, ds)
            && forall n :: DroppedIf(w, w', n, DeletionRefers(listed, ds, n))
  {
    if listed == [] {
      assert w.apps - {} == w.apps;
      return;
    }
    hide Run, DeletePlan, DeletionRefers, ReferencedNames, InDirector, DeletedNames;
    var front, a := listed[..|listed| - 1], listed[|listed| - 1];
    DeletePhase(w, front, ds);
    DeletePlanGrows(w, listed, ds);
    DeletedNamesGrow(listed, ds);
    forall n
      ensures DroppedIf(w, Run(w, DeletePlan(listed, ds)), n, DeletionRefers(listed, ds, n))
    {
      ReferringGrows(listed, ds, n);
      DroppedMore(w, Run(w, DeletePlan(front, ds)), Run(w, DeletePlan(listed, ds)), a, n, DeletionRefers(front, ds, n),
                  InDirector(a.name, ds));
    }
  }

  lemma DeletedNamesGrow(listed: seq<Application>, ds: seq<D.Application>)
    requires listed != []
    ensures var front, a := listed[..|listed| - 1], listed[|listed| - 1];
            DeletedNames(listed, ds) == DeletedNames(front, ds) + if InDirector(a.name, ds) then {} else {a.name}
  {
    assert listed == listed[..|listed| - 1] + [listed[|listed| - 1]];
  }

  lemma DroppedMore(w: World, w1: World, w2: World, a: Application, n: string, gone: bool, kept: bool)
    requires DroppedIf(w, w1, n, gone)
    requires w2.secrets
             == if kept then w1.secrets
                else w1.secrets - ParametersSecretNames(a.spec.services) - CredentialsSecretNames(a.spec.services)
    ensures DroppedIf(w, w2, n, gone || (!kept && n in ReferencedNames(a)))
  {
  }

  lemma ReferringGrows(listed: seq<Application>, ds: seq<D.Application>, n: string)
    requires listed != []
    ensures var front, a := listed[..|listed| - 1], listed[|listed| - 1];
            DeletionRefers(listed, ds, n)
            <==> DeletionRefers(front, ds, n) || (!InDirector(a.name, ds) && n in ReferencedNames(a))
  {
    var front := listed[..|listed| - 1];
    if DeletionRefers(front, ds, n) {
      var i :| 0 <= i < |front| && !InDirector(front[i].name, ds) && n in ReferencedNames(front[i]);
      assert listed[i] == front[i];
    }
  }

  // ---------------------------------------------------------------- the update phase

  /** The old specification of some application updated from `lo` on refers to the secret. */
  predicate UpdateRefers(listed: seq<Application>, ds: seq<D.Application>, lo: nat, k: nat, n: string)
    requires k <= |ds|
  {
    exists j :: lo <= j < k && Exists(ds[j].name, listed) && n in ReferencedNames(Find(ds[j].name, listed))
  }

  lemma UpdatePlanGrows(c: C.Settings, w: World, listed: seq<Application>, ds: seq<D.Application>, k: nat)
    requires k < |ds|
    ensures Run(w, UpdatePlan(c, listed, ds[..k + 1]))
            == if Exists(ds[k].name, listed)
               then Run(Run(w, UpdatePlan(c, listed, ds[..k])), UpdateEffects(c, Find(ds[k].name, listed), ds[k]))
               else Run(w, UpdatePlan(c, listed, ds[..k]))
  {
    assert ds[..k + 1][..k] == ds[..k];
    var plan := UpdatePlan(c, listed, ds[..k]);
    assert plan + [] == plan;
    if Exists(ds[k].name, listed) {
      RunConcat(w, plan, UpdateEffects(c, Find(ds[k].name, listed), ds[k]));
    }
  }

  ghost predicate UpdatedAreThere(w: World, listed: seq<Application>, ds: seq<D.Application>) {
    forall i :: 0 <= i < |ds| && Exists(ds[i].name, listed) ==> ds[i].name in w.apps
  }

  /** An update merges into the application it finds, which keeps its UID. */
  lemma {:induction false} UpdatePhaseKeeps(c: C.Settings, w: World, listed: seq<Application>, ds: seq<D.Application>,
                                            k: nat, n: string)
    requires k <= |ds| && DistinctNames(ds) && UpdatedAreThere(w, listed, ds) && Keyed(w)
    ensures var w' := Run(w, UpdatePlan(c, listed, ds[..k]));
            && Keyed(w') && w'.apps.Keys == w.apps.Keys
            && ((forall i :: 0 <= i < k && Exists(ds[i].name, listed) ==> ds[i].name != n) && n in w.apps
                ==> w'.apps[n] == w.apps[n])
  {
    if k == 0 {
      return;
    }
    hide Run, UpdatePlan, UpdateEffects, Exists, Find, Keyed, C.Convert;
    UpdatePhaseKeeps(c, w, listed, ds, k - 1, n);
    UpdatePlanGrows(c, w, listed, ds, k - 1);
    if Exists(ds[k - 1].name, listed) {
      UpdateAppsAt(Run(w, UpdatePlan(c, listed, ds[..k - 1])), c, Find(ds[k - 1].name, listed), ds[k - 1], n);
    }
  }

  lemma UpdateAppsAt(w: World, c: C.Settings, existing: Application, d: D.Application, n: string)
    requires d.name in w.apps && Keyed(w)
    ensures var w' := Run(w, UpdateEffects(c, existing, d));
            && Keyed(w') && w'.apps.Keys == w.apps.Keys
            && (n != d.name && n in w.apps ==> w'.apps[n] == w.apps[n])
  {
    hide Run, UpdateEffects;
    UpdateRun(w, c, existing, d);
  }

  lemma UpdatePhaseMerges(c: C.Settings, w: World, listed: seq<Application>, ds: seq<D.Application>, i: nat)
    requires i < |ds| && DistinctNames(ds) && UpdatedAreThere(w, listed, ds) && Keyed(w)
    requires Exists(ds[i].name, listed)
    ensures var w' := Run(w, UpdatePlan(c, listed, ds[..i + 1])); var n := ds[i].name;
            n in w'.apps && w'.apps[n] == Merge(w.apps[n], C.Convert(c, ds[i]))
  {
    UpdatePhaseKeeps(c, w, listed, ds, i, ds[i].name);
    UpdatePlanGrows(c, w, listed, ds, i);
    UpdateRun(Run(w, UpdatePlan(c, listed, ds[..i])), c, Find(ds[i].name, listed), ds[i]);
  }

  /** Updates of other applications leave this one alone. */
  lemma {:induction false} UpdateTailApps(c: C.Settings, w: World, listed: seq<Application>, ds: seq<D.Application>,
                                          lo: nat, k: nat, name: string)
    requires lo <= k <= |ds| && DistinctNames(ds) && UpdatedAreThere(w, listed, ds) && Keyed(w)
    requires forall j :: lo <= j < k ==> ds[j].name != name
    requires name in w.apps
    ensures var w1, w2 := Run(w, UpdatePlan(c, listed, ds[..lo])), Run(w, UpdatePlan(c, listed, ds[..k]));
            name in w1.apps && name in w2.apps && w2.apps[name] == w1.apps[name]
  {
    hide Run, UpdatePlan, UpdateEffects, Exists, Find, C.Convert;
    UpdatePhaseKeeps(c, w, listed, ds, lo, name);
    if lo < k {
      UpdateTailApps(c, w, listed, ds, lo, k - 1, name);
      UpdatePhaseKeeps(c, w, listed, ds, k - 1, ds[k - 1].name);
      UpdatePlanGrows(c, w, listed, ds, k - 1);
      if Exists(ds[k - 1].name, listed) {
        UpdateRun(Run(w, UpdatePlan(c, listed, ds[..k - 1])), c, Find(ds[k - 1].name, listed), ds[k - 1]);
      }
    }
  }

  /** Updates from `lo` on drop exactly what their old specifications refer to, of the names they do not resolve to. */
  lemma {:induction false} UpdateTail(c: C.Settings, w: World, listed: seq<Application>, ds: seq<D.Application>,
                                      lo: nat, k: nat, n: string)
    requires lo <= k <= |ds| && DistinctNames(ds) && UpdatedAreThere(w, listed, ds) && Keyed(w)
    requires forall j :: lo <= j < k && Exists(ds[j].name, listed) ==> n !in OwnNames(ds[j])
    ensures DroppedIf(Run(w, UpdatePlan(c, listed, ds[..lo])), Run(w, UpdatePlan(c, listed, ds[..k])), n,
                      UpdateRefers(listed, ds, lo, k, n))
  {
    hide Run, UpdatePlan, UpdateEffects, Exists, Find, OwnNames, ReferencedNames;
    if lo < k {
      UpdateTail(c, w, listed, ds, lo, k - 1, n);
      UpdatePlanGrows(c, w, listed, ds, k - 1);
      UpdatePhaseKeeps(c, w, listed, ds, k - 1, ds[k - 1].name);
      var d := ds[k - 1];
      if Exists(d.name, listed) {
        UpdateDrops(Run(w, UpdatePlan(c, listed, ds[..k - 1])), c, Find(d.name, listed), d, n);
        assert UpdateRefers(listed, ds, lo, k, n)
               <==> UpdateRefers(listed, ds, lo, k - 1, n) || n in ReferencedNames(Find(d.name, listed));
      }
    }
  }
}
