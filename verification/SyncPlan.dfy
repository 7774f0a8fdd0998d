/**
 What one synchronisation does to the cluster when every call succeeds, as a plan: the sequence of effects that follow
 from the Director's list and the listed applications.
 */
module SyncPlan {
  import opened Wrappers
  import opened Resources
  import opened Cluster
  import opened Secrets
  import D = Director
  import C = Converter
  import NR = NameResolver

  datatype Effect =
    | Create(app: Application)
    | Update(app: Application)
    | Delete(name: string)
    | PutCredentials(application: string, bundleId: string, credentials: D.Credentials)
    | PutParameters(application: string, bundleId: string, parameters: D.RequestParameters)
    | DropSecrets(names: set<string>)

  /** The fields that an update overwrites; all others keep their current value. */
  function Merge(current: Application, new_: Application): Application {
    current.(labels := new_.labels,
             spec := current.spec.(description := new_.spec.description,
                                   labels := new_.spec.labels,
                                   services := new_.spec.services,
                                   compassMetadata := new_.spec.compassMetadata))
  }

  /** What a successful create or update leaves on the cluster. */
  predicate Carries(app: Application, new_: Application) {
    && app.name == new_.name && app.labels == new_.labels
    && app.spec.description == new_.spec.description
    && app.spec.labels == new_.spec.labels
    && app.spec.services == new_.spec.services
    && app.spec.compassMetadata == new_.spec.compassMetadata
  }

  function Apply(w: World, e: Effect): World {
    match e
    case Create(app) => WithCreated(w, app)
    case Update(app) => if app.name in w.apps then WithApplication(w, Merge(w.apps[app.name], app)) else w
    case Delete(name) => WithoutApplication(w, name)
    case PutCredentials(a, b, c) => if a in w.apps then WithCredentials(w, a, w.apps[a].uid, b, c) else w
    case PutParameters(a, b, p) => if a in w.apps then WithParameters(w, a, w.apps[a].uid, b, p) else w
    case DropSecrets(names) => WithoutSecrets(w, names)
  }

  function Run(w: World, effects: seq<Effect>): World {
    if effects == [] then w
    else Apply(Run(w, effects[..|effects| - 1]), effects[|effects| - 1])
  }

  lemma RunOne(w: World, effects: seq<Effect>, e: Effect)
    ensures Run(w, effects + [e]) == Apply(Run(w, effects), e)
  {
    assert (effects + [e])[..|effects|] == effects;
  }

  lemma {:induction false} RunConcat(w: World, a: seq<Effect>, b: seq<Effect>)
    ensures Run(w, a + b) == Run(Run(w, a), b)
    decreases |b|
  {
    if b == [] {
      assert a + b == a;
    } else {
      assert (a + b)[..|a + b| - 1] == a + b[..|b| - 1];
      RunConcat(w, a, b[..|b| - 1]);
    }
  }

  lemma RunTwo(w: World, e: Effect, f: Effect)
    ensures Run(w, [e]) == Apply(w, e)
    ensures Run(w, [e, f]) == Apply(Apply(w, e), f)
  {
    assert [e][..0] == [] && [e, f][..1] == [e];
  }

  // ---------------------------------------------------------------- what no effect does

  predicate IsCredentialsOf(d: D.Application, b: D.Bundle, n: string, s: Secret) {
    && b.Credentials().Some? && IsComplete(b.Credentials().value)
    && n == NR.CredentialsSecretName(d.name, b.id)
    && s == Secret(d.name, b.id, s.owner, CredentialsData(b.Credentials().value))
  }

  predicate IsParametersOf(d: D.Application, b: D.Bundle, n: string, s: Secret) {
    && b.Parameters().Some?
    && n == NR.ParametersSecretName(d.name, b.id)
    && s == Secret(d.name, b.id, s.owner, ParametersData(b.Parameters().value))
  }

  /** A secret as the Director asks for it; its owner is left open. */
  predicate IsAskedFor(ds: seq<D.Application>, n: string, s: Secret) {
    exists d <- ds, b <- d.bundles :: IsCredentialsOf(d, b, n, s) || IsParametersOf(d, b, n, s)
  }

  predicate IsUidKeptOrNew(w: World, w': World, n: string) {
    && n in w'.apps
    && ((n in w.apps && w'.apps[n].uid == w.apps[n].uid) || w.nextUid <= w'.apps[n].uid < w'.nextUid)
  }

  predicate IsSecretKeptOrAskedFor(w: World, w': World, ds: seq<D.Application>, n: string) {
    && n in w'.secrets
    && ((n in w.secrets && w'.secrets[n] == w.secrets[n]) || IsAskedFor(ds, n, w'.secrets[n]))
  }

  /**
   UIDs are kept or new, and every secret is one that was there or one that the Director asks for: nothing else comes
   about, whichever calls fail.
   */
  ghost predicate Advances(w: World, w': World, ds: seq<D.Application>) {
    && w.nextUid <= w'.nextUid
    && (forall n :: n in w'.apps ==> IsUidKeptOrNew(w, w', n))
    && (forall n :: n in w'.secrets ==> IsSecretKeptOrAskedFor(w, w', ds, n))
  }

  lemma NothingAdvances(w: World, ds: seq<D.Application>)
    ensures Advances(w, w, ds)
  {
  }

  lemma DropAdvances(w: World, names: set<string>, ds: seq<D.Application>)
    ensures Advances(w, WithoutSecrets(w, names), ds)
  {
  }

  lemma AdvancesOn(w: World, w1: World, w2: World, ds: seq<D.Application>)
    requires Advances(w, w1, ds) && Advances(w1, w2, ds)
    ensures Advances(w, w2, ds)
  {
    hide IsAskedFor;
    forall n | n in w2.apps
      ensures IsUidKeptOrNew(w, w2, n)
    {
      assert IsUidKeptOrNew(w1, w2, n);
      assert n in w1.apps ==> IsUidKeptOrNew(w, w1, n);
    }
    forall n | n in w2.secrets
      ensures IsSecretKeptOrAskedFor(w, w2, ds, n)
    {
      assert IsSecretKeptOrAskedFor(w1, w2, ds, n);
      assert n in w1.secrets ==> IsSecretKeptOrAskedFor(w, w1, ds, n);
    }
  }

  lemma AdvancesWidens(w: World, w': World, ds: seq<D.Application>, more: seq<D.Application>)
    requires Advances(w, w', ds) && forall d :: d in ds ==> d in more
    ensures Advances(w, w', more)
  {
    hide IsCredentialsOf, IsParametersOf;
    forall n | n in w'.secrets
      ensures IsSecretKeptOrAskedFor(w, w', more, n)
    {
      assert IsSecretKeptOrAskedFor(w, w', ds, n);
    }
  }

  /** The effect is one of a synchronisation with the list. */
  predicate IsEffectFor(ds: seq<D.Application>, e: Effect) {
    match e
    case Create(app) => app.name != ""
    case PutCredentials(a, id, c) =>
      exists d <- ds, b <- d.bundles :: a == d.name && id == b.id && b.Credentials() == Some(c)
    case PutParameters(a, id, p) =>
      exists d <- ds, b <- d.bundles :: a == d.name && id == b.id && b.Parameters() == Some(p)
    case _ => true
  }

  lemma EffectAdvances(w: World, e: Effect, ds: seq<D.Application>)
    requires Keyed(w) && IsEffectFor(ds, e)
    ensures Keyed(Apply(w, e)) && Advances(w, Apply(w, e), ds)
  {
    hide NR.CredentialsSecretName, NR.ParametersSecretName, CredentialsData, ParametersData, IsComplete, ShouldUpdate;
    var w' := Apply(w, e);
    forall n | n in w'.apps
      ensures IsUidKeptOrNew(w, w', n)
    {
    }
    forall n | n in w'.secrets
      ensures IsSecretKeptOrAskedFor(w, w', ds, n)
    {
    }
  }

  lemma {:induction false} RunAdvances(w: World, effects: seq<Effect>, ds: seq<D.Application>)
    requires Keyed(w) && forall e <- effects :: IsEffectFor(ds, e)
    ensures Keyed(Run(w, effects)) && Advances(w, Run(w, effects), ds)
  {
    hide Advances, Apply, Keyed;
    if effects == [] {
      NothingAdvances(w, ds);
    } else {
      var front, last := effects[..|effects| - 1], effects[|effects| - 1];
      RunAdvances(w, front, ds);
      EffectAdvances(Run(w, front), last, ds);
      AdvancesOn(w, Run(w, front), Run(w, effects), ds);
    }
  }

  // ---------------------------------------------------------------- the effects for one application

  function CredentialsEffect(application: string, b: D.Bundle): seq<Effect> {
    if b.Credentials().Some? then [PutCredentials(application, b.id, b.Credentials().value)] else []
  }

  function CredentialsEffects(application: string, bundles: seq<D.Bundle>): seq<Effect> {
    if bundles == [] then []
    else
      CredentialsEffects(application, bundles[..|bundles| - 1]) + CredentialsEffect(application, bundles[|bundles| - 1])
  }

  function ParametersEffect(application: string, b: D.Bundle): seq<Effect> {
    if b.Parameters().Some? then [PutParameters(application, b.id, b.Parameters().value)] else []
  }

  function ParametersEffects(application: string, bundles: seq<D.Bundle>): seq<Effect> {
    if bundles == [] then []
    else
      ParametersEffects(application, bundles[..|bundles| - 1]) + ParametersEffect(application, bundles[|bundles| - 1])
  }

  /** Some bundle gives both kinds of credentials, which the secret strategies refuse. */
  predicate HasAmbiguous(bundles: seq<D.Bundle>) {
    exists b <- bundles :: b.Credentials().Some? && IsAmbiguous(b.Credentials().value)
  }

  lemma CredentialsEffectsGrow(application: string, bundles: seq<D.Bundle>, i: nat)
    requires i < |bundles|
    ensures CredentialsEffects(application, bundles[..i + 1])
            == CredentialsEffects(application, bundles[..i]) + CredentialsEffect(application, bundles[i])
    ensures bundles[i].Credentials().None? ==>
              CredentialsEffects(application, bundles[..i + 1]) == CredentialsEffects(application, bundles[..i])
    ensures HasAmbiguous(bundles[..i + 1]) <==>
            HasAmbiguous(bundles[..i])
            || (bundles[i].Credentials().Some? && IsAmbiguous(bundles[i].Credentials().value))
  {
    assert bundles[..i + 1][..i] == bundles[..i];
    assert CredentialsEffects(application, bundles[..i]) + [] == CredentialsEffects(application, bundles[..i]);
    assert bundles[..i + 1] == bundles[..i] + [bundles[i]];
  }

  lemma ParametersEffectsGrow(application: string, bundles: seq<D.Bundle>, i: nat)
    requires i < |bundles|
    ensures ParametersEffects(application, bundles[..i + 1])
            == ParametersEffects(application, bundles[..i]) + ParametersEffect(application, bundles[i])
    ensures bundles[i].Parameters().None? ==>
              ParametersEffects(application, bundles[..i + 1]) == ParametersEffects(application, bundles[..i])
  {
    assert bundles[..i + 1][..i] == bundles[..i];
    assert ParametersEffects(application, bundles[..i]) + [] == ParametersEffects(application, bundles[..i]);
  }

  /** Storing the secrets of a new application stops before its request parameters when credentials were refused. */
  function FirstSecretsEffects(d: D.Application): seq<Effect> {
    CredentialsEffects(d.name, d.bundles)
    + (if HasAmbiguous(d.bundles) then [] else ParametersEffects(d.name, d.bundles))
  }

  function CreateEffects(c: C.Settings, d: D.Application): seq<Effect> {
    [Create(C.Convert(c, d))] + FirstSecretsEffects(d)
  }

  function DeleteEffects(a: Application): seq<Effect> {
    [DropSecrets(ParametersSecretNames(a.spec.services)), DropSecrets(CredentialsSecretNames(a.spec.services)),
     Delete(a.name)]
  }

  /** Secrets that only the old resource names are dropped before the current ones are stored, kind by kind. */
  function UpdateEffects(c: C.Settings, existing: Application, d: D.Application): seq<Effect> {
    var services := C.Services(c, d.name, d.bundles);
    [Update(C.Convert(c, d))]
    + [DropSecrets(CredentialsSecretNames(existing.spec.services) - CredentialsSecretNames(services))]
    + CredentialsEffects(d.name, d.bundles)
    + [DropSecrets(ParametersSecretNames(existing.spec.services) - ParametersSecretNames(services))]
    + ParametersEffects(d.name, d.bundles)
  }

  // ---------------------------------------------------------------- the whole plan

  predicate Exists(name: string, apps: seq<Application>) {
    exists a <- apps :: a.name == name
  }

  predicate InDirector(name: string, ds: seq<D.Application>) {
    exists d <- ds :: d.name == name
  }

  /** The first application of that name, as util.go finds it. */
  function Find(name: string, apps: seq<Application>): (a: Application)
    requires Exists(name, apps)
    ensures a in apps && a.name == name
  {
    if apps[0].name == name then apps[0] else Find(name, apps[1..])
  }

  /** A name that another application already has, or an empty one, cannot be created. */
  predicate IsCreatable(w: World, name: string) {
    name != "" && name !in w.apps
  }

  function CreatePlan(c: C.Settings, w: World, listed: seq<Application>, ds: seq<D.Application>): seq<Effect> {
    if ds == [] then []
    else
      var d := ds[|ds| - 1];
      CreatePlan(c, w, listed, ds[..|ds| - 1])
      + (if !Exists(d.name, listed) && IsCreatable(w, d.name) then CreateEffects(c, d) else [])
  }

  function DeletePlan(listed: seq<Application>, ds: seq<D.Application>): seq<Effect> {
    if listed == [] then []
    else
      var a := listed[|listed| - 1];
      DeletePlan(listed[..|listed| - 1], ds) + (if InDirector(a.name, ds) then [] else DeleteEffects(a))
  }

  function UpdatePlan(c: C.Settings, listed: seq<Application>, ds: seq<D.Application>): seq<Effect> {
    if ds == [] then []
    else
      var d := ds[|ds| - 1];
      UpdatePlan(c, listed, ds[..|ds| - 1])
      + (if Exists(d.name, listed) then UpdateEffects(c, Find(d.name, listed), d) else [])
  }

  /** `listed` are the listed applications that Compass manages, `ds` the Director's applications. */
  function Plan(c: C.Settings, w: World, listed: seq<Application>, ds: seq<D.Application>): seq<Effect> {
    CreatePlan(c, w, listed, ds) + DeletePlan(listed, ds) + UpdatePlan(c, listed, ds)
  }

  // ---------------------------------------------------------------- what the plan consists of

  lemma {:induction false} CredentialsAreFor(ds: seq<D.Application>, d: D.Application, k: nat)
    requires d in ds && k <= |d.bundles|
    ensures forall e <- CredentialsEffects(d.name, d.bundles[..k]) :: IsEffectFor(ds, e)
  {
    if k > 0 {
      CredentialsAreFor(ds, d, k - 1);
      CredentialsEffectsGrow(d.name, d.bundles, k - 1);
      assert d.bundles[k - 1] in d.bundles;
    }
  }

  lemma {:induction false} ParametersAreFor(ds: seq<D.Application>, d: D.Application, k: nat)
    requires d in ds && k <= |d.bundles|
    ensures forall e <- ParametersEffects(d.name, d.bundles[..k]) :: IsEffectFor(ds, e)
  {
    if k > 0 {
      ParametersAreFor(ds, d, k - 1);
      ParametersEffectsGrow(d.name, d.bundles, k - 1);
      assert d.bundles[k - 1] in d.bundles;
    }
  }

  lemma EffectsAreFor(c: C.Settings, ds: seq<D.Application>, d: D.Application)
    requires d in ds
    ensures d.name != "" ==> forall e <- CreateEffects(c, d) :: IsEffectFor(ds, e)
    ensures forall existing: Application, e <- UpdateEffects(c, existing, d) :: IsEffectFor(ds, e)
  {
    hide CredentialsEffects, ParametersEffects, HasAmbiguous, C.Services;
    CredentialsAreFor(ds, d, |d.bundles|);
    ParametersAreFor(ds, d, |d.bundles|);
    assert d.bundles[..|d.bundles|] == d.bundles;
  }

  lemma {:induction false} CreationsAreFor(c: C.Settings, w: World, listed: seq<Application>, ds: seq<D.Application>,
                                           k: nat)
    requires k <= |ds|
    ensures forall e <- CreatePlan(c, w, listed, ds[..k]) :: IsEffectFor(ds, e)
  {
    if k > 0 {
      hide IsEffectFor, CreateEffects;
      assert ds[..k][..k - 1] == ds[..k - 1];
      CreationsAreFor(c, w, listed, ds, k - 1);
      EffectsAreFor(c, ds, ds[k - 1]);
    }
  }

  lemma {:induction false} DeletionsAreFor(listed: seq<Application>, ds: seq<D.Application>)
    ensures forall e <- DeletePlan(listed, ds) :: IsEffectFor(ds, e)
  {
    if listed != [] {
      DeletionsAreFor(listed[..|listed| - 1], ds);
    }
  }

  lemma {:induction false} UpdatesAreFor(c: C.Settings, listed: seq<Application>, ds: seq<D.Application>, k: nat)
    requires k <= |ds|
    ensures forall e <- UpdatePlan(c, listed, ds[..k]) :: IsEffectFor(ds, e)
  {
    if k > 0 {
      hide IsEffectFor, UpdateEffects, Exists, Find;
      assert ds[..k][..k - 1] == ds[..k - 1];
      UpdatesAreFor(c, listed, ds, k - 1);
      EffectsAreFor(c, ds, ds[k - 1]);
    }
  }

  lemma PlanAdvances(c: C.Settings, w: World, listed: seq<Application>, ds: seq<D.Application>)
    requires Keyed(w)
    ensures Keyed(Run(w, Plan(c, w, listed, ds))) && Advances(w, Run(w, Plan(c, w, listed, ds)), ds)
  {
    hide IsEffectFor, Advances, Run, CreatePlan, DeletePlan, UpdatePlan;
    assert ds[..|ds|] == ds;
    CreationsAreFor(c, w, listed, ds, |ds|);
    DeletionsAreFor(listed, ds);
    UpdatesAreFor(c, listed, ds, |ds|);
    RunAdvances(w, Plan(c, w, listed, ds), ds);
  }

  // ---------------------------------------------------------------- when all calls for secrets fail

  predicate IsForApplication(e: Effect) {
    e.Create? || e.Update? || e.Delete?
  }

  /** What is left of the effects when every call for a secret fails. */
  function OfApplications(effects: seq<Effect>): seq<Effect> {
    if effects == [] then []
    else
      OfApplications(effects[..|effects| - 1])
      + (if IsForApplication(effects[|effects| - 1]) then [effects[|effects| - 1]] else [])
  }

  /** The applications become the same as without failures, and no secret changes. */
  lemma {:induction false} RunOfApplications(w: World, effects: seq<Effect>)
    ensures Run(w, OfApplications(effects)) == Run(w, effects).(secrets := w.secrets)
  {
    if effects != [] {
      var front, last := effects[..|effects| - 1], effects[|effects| - 1];
      RunOfApplications(w, front);
      if IsForApplication(last) {
        RunOne(w, OfApplications(front), last);
      } else {
        assert OfApplications(front) + [] == OfApplications(front);
      }
      ApplyApart(Run(w, front), last, w.secrets);
    }
  }

  lemma ApplyApart(w: World, e: Effect, secrets: map<string, Secret>)
    ensures if IsForApplication(e) then Apply(w.(secrets := secrets), e) == Apply(w, e).(secrets := secrets)
            else Apply(w, e).(secrets := secrets) == w.(secrets := secrets)
  {
  }
}
