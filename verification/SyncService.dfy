/**
 Synchronising the applications of the cluster with the Director's list
 (components/compass-runtime-agent/internal/kyma/service.go and internal/kyma/applications/repository.go).
 */
module SyncService {
  import opened Wrappers
  import opened Resources
  import opened Cluster
  import opened AppErrors
  import opened Secrets
  import opened SyncPlan
  import D = Director
  import NR = NameResolver
  import C = Converter

  datatype Operation = Created | Updated | Deleted

  datatype SyncResult = SyncResult(name: string, id: string, operation: Operation, error: Option<AppError>)

  // ---------------------------------------------------------------- what each step may touch

  function CredentialsNames(d: D.Application): set<string> {
    set b | b in d.bundles && b.Credentials().Some? :: NR.CredentialsSecretName(d.name, b.id)
  }

  function ParametersNames(d: D.Application): set<string> {
    set b | b in d.bundles && b.Parameters().Some? :: NR.ParametersSecretName(d.name, b.id)
  }

  /** The secrets that the Director's list resolves to. */
  function ResolvedNames(ds: seq<D.Application>): set<string> {
    set d, n | d in ds && n in CredentialsNames(d) + ParametersNames(d) :: n
  }

  function ReferencedNames(a: Application): set<string> {
    CredentialsSecretNames(a.spec.services) + ParametersSecretNames(a.spec.services)
  }

  /** The secrets that the listed applications name. */
  function AllReferencedNames(listed: seq<Application>): set<string> {
    set a, n | a in listed && n in ReferencedNames(a) :: n
  }

  // ---------------------------------------------------------------- application repository

  /**
   Fetches the current object and overwrites some of its fields. When fetching fails other than with NotFound the code
   goes on with an empty object, which the API server then refuses.
   */
  method UpdateApplication(api: ApiServer, app: Application) returns (r: Result<Application, AppError>)
    requires api.Valid()
    modifies api`apps, api`failures
    ensures api.Valid() && api.failures >= old(api.failures)
    ensures r.Success? ==> app.name in old(api.apps) && r.value == Merge(old(api.apps)[app.name], app)
    ensures api.State() == if r.Success? then Apply(old(api.State()), Update(app)) else old(api.State())
    ensures api.failures == old(api.failures) ==> (r.Success? <==> app.name in old(api.apps))
  {
    var current := api.GetApplication(app.name);
    if current.Failure? && current.error.NotFound? {
      return Failure(AppError.NotFound);
    }
    var base := if current.Success? then current.value
      else Application("", 0, map[], Spec("", false, [], map[], None, false, false, NO_PROFILE));
    var updated := api.UpdateApplication(Merge(base, app));
    r := if updated.Success? then Success(updated.value) else Failure(AppError.Internal);
  }

  method GetApplicationUid(api: ApiServer, name: string) returns (r: Result<nat, AppError>)
    modifies api`failures
    ensures api.failures >= old(api.failures)
    ensures r.Success? ==> name in api.apps && r.value == api.apps[name].uid
    ensures api.failures == old(api.failures) ==> (r.Success? <==> name in api.apps)
  {
    var app := api.GetApplication(name);
    r := if app.Success? then Success(app.value.uid) else Failure(AppError.Internal);
  }

  // ---------------------------------------------------------------- secrets of one application

  function PutOfCredentials(application: string, b: D.Bundle): Effect
    requires b.Credentials().Some?
  {
    PutCredentials(application, b.id, b.Credentials().value)
  }

  /** Storing the credentials or the request parameters of a bundle, or failing to, is an advance. */
  lemma PutAdvances(w: World, before: World, after: World, d: D.Application, b: D.Bundle, e: Effect)
    requires Keyed(before) && Advances(w, before, [d]) && b in d.bundles
    requires (b.Credentials().Some? && e == PutOfCredentials(d.name, b))
             || (b.Parameters().Some? && e == PutOfParameters(d.name, b))
    requires after == before || after == Apply(before, e)
    ensures Advances(w, after, [d])
  {
    hide Advances, Apply;
    if after == Apply(before, e) {
      assert d in [d];
      EffectAdvances(before, e, [d]);
      AdvancesOn(w, before, after, [d]);
    }
  }

  method UpsertBundleCredentials(api: ApiServer, d: D.Application, b: D.Bundle, uid: nat)
    returns (err: Option<AppError>)
    requires b in d.bundles && b.Credentials().Some?
    requires d.name in api.apps && uid == api.apps[d.name].uid
    modifies api`secrets, api`failures
    ensures api.failures >= old(api.failures)
    ensures api.secrets - CredentialsNames(d) == old(api.secrets) - CredentialsNames(d)
    ensures err.None? ==> api.State() == Apply(old(api.State()), PutOfCredentials(d.name, b))
    ensures err.Some? ==> api.State() == old(api.State())
    ensures IsAmbiguous(b.Credentials().value) ==>
              err.Some? && Apply(old(api.State()), PutOfCredentials(d.name, b)) == old(api.State())
    ensures api.failures == old(api.failures) ==> (err.None? <==> !IsAmbiguous(b.Credentials().value))
  {
    assert NR.CredentialsSecretName(d.name, b.id) in CredentialsNames(d);
    err := UpsertCredentials(api, d.name, uid, b.id, b.Credentials().value);
  }

  method UpsertCredentialsSecrets(api: ApiServer, d: D.Application) returns (err: Option<AppError>)
    requires api.Valid()
    modifies api`secrets, api`failures
    ensures api.failures >= old(api.failures)
    ensures api.secrets - CredentialsNames(d) == old(api.secrets) - CredentialsNames(d)
    ensures Advances(old(api.State()), api.State(), [d])
    ensures err.None? ==>
              api.State() == Run(old(api.State()), CredentialsEffects(d.name, d.bundles)) && !HasAmbiguous(d.bundles)
    ensures api.failures == old(api.failures) && d.name in api.apps ==>
              && api.State() == Run(old(api.State()), CredentialsEffects(d.name, d.bundles))
              && (err.None? <==> !HasAmbiguous(d.bundles))
  {
    ghost var start := api.State();
    var appended := None;
    var uid := None;
    NothingAdvances(start, [d]);
    hide Advances;
    for i := 0 to |d.bundles|
      invariant api.failures >= old(api.failures)
      invariant api.secrets - CredentialsNames(d) == old(api.secrets) - CredentialsNames(d)
      invariant Advances(start, api.State(), [d])
      invariant uid.Some? ==> d.name in api.apps && uid.value == api.apps[d.name].uid
      invariant appended.None? ==>
                  api.State() == Run(start, CredentialsEffects(d.name, d.bundles[..i])) && !HasAmbiguous(d.bundles[..i])
      invariant api.failures == old(api.failures) && d.name in api.apps ==>
                  && api.State() == Run(start, CredentialsEffects(d.name, d.bundles[..i]))
                  && (appended.None? <==> !HasAmbiguous(d.bundles[..i]))
    {
      var b := d.bundles[i];
      CredentialsEffectsGrow(d.name, d.bundles, i);
      if b.Credentials().Some? {
        if uid.None? {
          var r := GetApplicationUid(api, d.name);
          if r.Failure? {
            return Some(r.error);
          }
          uid := Some(r.value);
        }
        RunOne(start, CredentialsEffects(d.name, d.bundles[..i]), PutOfCredentials(d.name, b));
        ghost var before := api.State();
        var e := UpsertBundleCredentials(api, d, b, uid.value);
        PutAdvances(start, before, api.State(), d, b, PutOfCredentials(d.name, b));
        if e.Some? {
          appended := AppendError(appended, e.value);
        }
      }
    }
    assert d.bundles[..|d.bundles|] == d.bundles;
    err := appended;
  }

  function PutOfParameters(application: string, b: D.Bundle): Effect
    requires b.Parameters().Some?
  {
    PutParameters(application, b.id, b.Parameters().value)
  }

  method UpsertBundleParameters(api: ApiServer, d: D.Application, b: D.Bundle, uid: nat) returns (err: Option<AppError>)
    requires b in d.bundles && b.Parameters().Some?
    requires d.name in api.apps && uid == api.apps[d.name].uid
    modifies api`secrets, api`failures
    ensures api.failures >= old(api.failures)
    ensures api.secrets - ParametersNames(d) == old(api.secrets) - ParametersNames(d)
    ensures err.None? ==> api.State() == Apply(old(api.State()), PutOfParameters(d.name, b))
    ensures err.Some? ==> api.State() == old(api.State())
    ensures api.failures == old(api.failures) ==> err.None?
  {
    assert NR.ParametersSecretName(d.name, b.id) in ParametersNames(d);
    err := UpsertParameters(api, d.name, uid, b.id, b.Parameters().value);
  }

  method UpsertParametersSecrets(api: ApiServer, d: D.Application) returns (err: Option<AppError>)
    requires api.Valid()
    modifies api`secrets, api`failures
    ensures api.failures >= old(api.failures)
    ensures api.secrets - ParametersNames(d) == old(api.secrets) - ParametersNames(d)
    ensures Advances(old(api.State()), api.State(), [d])
    ensures err.None? ==> api.State() == Run(old(api.State()), ParametersEffects(d.name, d.bundles))
    ensures api.failures == old(api.failures) && d.name in api.apps ==> err.None?
  {
    ghost var start := api.State();
    var appended := None;
    var uid := None;
    NothingAdvances(start, [d]);
    hide Advances;
    for i := 0 to |d.bundles|
      invariant api.failures >= old(api.failures)
      invariant api.secrets - ParametersNames(d) == old(api.secrets) - ParametersNames(d)
      invariant Advances(start, api.State(), [d])
      invariant uid.Some? ==> d.name in api.apps && uid.value == api.apps[d.name].uid
      invariant appended.None? ==> api.State() == Run(start, ParametersEffects(d.name, d.bundles[..i]))
      invariant api.failures == old(api.failures) && d.name in api.apps ==> appended.None?
    {
      var b := d.bundles[i];
      ParametersEffectsGrow(d.name, d.bundles, i);
      if b.Parameters().Some? {
        if uid.None? {
          var r := GetApplicationUid(api, d.name);
          if r.Failure? {
            return Some(r.error);
          }
          uid := Some(r.value);
        }
        RunOne(start, ParametersEffects(d.name, d.bundles[..i]), PutOfParameters(d.name, b));
        ghost var before := api.State();
        var e := UpsertBundleParameters(api, d, b, uid.value);
        PutAdvances(start, before, api.State(), d, b, PutOfParameters(d.name, b));
        if e.Some? {
          appended := AppendError(appended, e.value);
        }
      }
    }
    assert d.bundles[..|d.bundles|] == d.bundles;
    err := appended;
  }

  /** Of `names`, `rest` are still to be tried and deleting `stuck` failed; all others are gone. */
  ghost predicate AreBeingDeleted(w: World, w': World, names: set<string>, rest: set<string>, stuck: set<string>) {
    rest !! stuck && rest + stuck <= names && w' == WithoutSecrets(w, names - rest - stuck)
  }

  lemma OneMoreDeleted(w: World, w': World, names: set<string>, rest: set<string>, stuck: set<string>, name: string)
    requires AreBeingDeleted(w, w', names, rest, stuck) && name in rest
    ensures AreBeingDeleted(w, WithoutSecrets(w', {name}), names, rest - {name}, stuck)
    ensures AreBeingDeleted(w, w', names, rest - {name}, stuck + {name})
    ensures |stuck + {name}| == |stuck| + 1
  {
    var gone := names - rest - stuck;
    assert names - (rest - {name}) - stuck == gone + {name};
    assert names - (rest - {name}) - (stuck + {name}) == gone;
    assert w.secrets - gone - {name} == w.secrets - (gone + {name});
  }

  lemma DeletionBegins(w: World, names: set<string>)
    ensures AreBeingDeleted(w, w, names, names, {})
  {
    assert names - names - {} == {};
    assert w.secrets - {} == w.secrets;
  }

  lemma DeletionEnds(w: World, w': World, names: set<string>, stuck: set<string>)
    requires AreBeingDeleted(w, w', names, {}, stuck)
    ensures stuck <= names && w' == Apply(w, DropSecrets(names - stuck))
    ensures w'.secrets - names == w.secrets - names
  {
    assert names - {} - stuck == names - stuck;
    assert w.secrets - (names - stuck) - names == w.secrets - names;
  }

  /** Deletes each of the secrets, in any order, and goes on after an error: each of `stuck` cost one failed call. */
  method DeleteSecrets(api: ApiServer, names: set<string>) returns (err: Option<AppError>, ghost stuck: set<string>)
    modifies api`secrets, api`failures
    ensures stuck <= names && api.failures == old(api.failures) + |stuck|
    ensures api.State() == Apply(old(api.State()), DropSecrets(names - stuck))
    ensures api.secrets - names == old(api.secrets) - names
    ensures Advances(old(api.State()), api.State(), [])
    ensures err.None? <==> stuck == {}
    ensures err.None? ==> api.State() == Apply(old(api.State()), DropSecrets(names))
    ensures api.failures == old(api.failures) ==> err.None?
  {
    DeletionBegins(api.State(), names);
    err, stuck := DeleteEach(api, names);
    DeletionEnds(old(api.State()), api.State(), names, stuck);
    DropAdvances(old(api.State()), names - stuck, []);
    assert stuck == {} ==> names - stuck == names;
  }

  method DeleteEach(api: ApiServer, names: set<string>) returns (err: Option<AppError>, ghost stuck: set<string>)
    requires AreBeingDeleted(api.State(), api.State(), names, names, {})
    modifies api`secrets, api`failures
    ensures AreBeingDeleted(old(api.State()), api.State(), names, {}, stuck)
    ensures api.failures == old(api.failures) + |stuck|
    ensures err.None? <==> stuck == {}
  {
    hide AreBeingDeleted;
    var rest := names;
    err, stuck := None, {};
    while rest != {}
      invariant AreBeingDeleted(old(api.State()), api.State(), names, rest, stuck)
      invariant api.failures == old(api.failures) + |stuck|
      invariant err.None? <==> stuck == {}
    {
      var name :| name in rest;
      OneMoreDeleted(old(api.State()), api.State(), names, rest, stuck, name);
      var e := DeleteSecret(api, name);
      rest := rest - {name};
      if e.Some? {
        err := AppendError(err, e.value);
        stuck := stuck + {name};
      }
    }
  }

  function CredentialsNamesOf(entries: seq<Entry>): set<string> {
    set e | e in entries && e.credentials.secretName != "" :: e.credentials.secretName
  }

  lemma CredentialsNamesGrow(services: seq<Service>, i: nat)
    requires i < |services|
    ensures CredentialsSecretNames(services[..i + 1])
            == CredentialsSecretNames(services[..i]) + CredentialsNamesOf(services[i].entries)
  {
    assert services[..i + 1] == services[..i] + [services[i]];
  }

  lemma CredentialsEntryMore(entries: seq<Entry>, j: nat)
    requires j < |entries|
    ensures CredentialsNamesOf(entries[..j + 1])
            == CredentialsNamesOf(entries[..j])
               + if entries[j].credentials.secretName != "" then {entries[j].credentials.secretName} else {}
  {
    assert entries[..j + 1] == entries[..j] + [entries[j]];
  }

  /** The names of the credentials secrets, collected entry by entry. */
  method CollectCredentialsSecretNames(services: seq<Service>) returns (names: set<string>)
    ensures names == CredentialsSecretNames(services)
  {
    names := {};
    for i := 0 to |services|
      invariant names == CredentialsSecretNames(services[..i])
    {
      CredentialsNamesGrow(services, i);
      ghost var before := names;
      var entries := services[i].entries;
      for j := 0 to |entries|
        invariant names == before + CredentialsNamesOf(entries[..j])
      {
        CredentialsEntryMore(entries, j);
        if entries[j].credentials.secretName != "" {
          names := names + {entries[j].credentials.secretName};
        }
      }
      assert entries[..|entries|] == entries;
    }
    assert services[..|services|] == services;
  }

  function ParametersNamesOf(entries: seq<Entry>): set<string> {
    set e | e in entries && e.parametersSecretName != "" :: e.parametersSecretName
  }

  lemma ParametersNamesGrow(services: seq<Service>, i: nat)
    requires i < |services|
    ensures ParametersSecretNames(services[..i + 1])
            == ParametersSecretNames(services[..i]) + ParametersNamesOf(services[i].entries)
  {
    assert services[..i + 1] == services[..i] + [services[i]];
  }

  lemma ParametersEntryMore(entries: seq<Entry>, j: nat)
    requires j < |entries|
    ensures ParametersNamesOf(entries[..j + 1])
            == ParametersNamesOf(entries[..j])
               + if entries[j].parametersSecretName != "" then {entries[j].parametersSecretName} else {}
  {
    assert entries[..j + 1] == entries[..j] + [entries[j]];
  }

  method CollectParametersSecretNames(services: seq<Service>) returns (names: set<string>)
    ensures names == ParametersSecretNames(services)
  {
    names := {};
    for i := 0 to |services|
      invariant names == ParametersSecretNames(services[..i])
    {
      ParametersNamesGrow(services, i);
      ghost var before := names;
      var entries := services[i].entries;
      for j := 0 to |entries|
        invariant names == before + ParametersNamesOf(entries[..j])
      {
        ParametersEntryMore(entries, j);
        if entries[j].parametersSecretName != "" {
          names := names + {entries[j].parametersSecretName};
        }
      }
      assert entries[..|entries|] == entries;
    }
    assert services[..|services|] == services;
  }

  // ---------------------------------------------------------------- one application

  method StoreFirstSecrets(api: ApiServer, d: D.Application) returns (err: Option<AppError>)
    requires api.Valid() && d.name in api.apps
    modifies api`secrets, api`failures
    ensures api.failures >= old(api.failures)
    ensures api.secrets - (CredentialsNames(d) + ParametersNames(d))
            == old(api.secrets) - (CredentialsNames(d) + ParametersNames(d))
    ensures Advances(old(api.State()), api.State(), [d])
    ensures err.None? || api.failures == old(api.failures) ==>
              api.State() == Run(old(api.State()), FirstSecretsEffects(d))
    ensures api.failures == old(api.failures) ==> (err.None? <==> !HasAmbiguous(d.bundles))
    ensures err.None? ==> !HasAmbiguous(d.bundles)
  {
    ghost var start := api.State();
    ghost var credentials := CredentialsEffects(d.name, d.bundles);
    ghost var touched := CredentialsNames(d) + ParametersNames(d);
    hide Advances;
    err := UpsertCredentialsSecrets(api, d);
    FrameWidens(start.secrets, api.secrets, CredentialsNames(d), touched);
    if err.Some? {
      assert credentials + [] == credentials;
    } else {
      ghost var middle := api.State();
      err := UpsertParametersSecrets(api, d);
      FrameWidens(middle.secrets, api.secrets, ParametersNames(d), touched);
      AdvancesOn(start, middle, api.State(), [d]);
      RunConcat(start, credentials, ParametersEffects(d.name, d.bundles));
    }
  }

  /** What creating the application of `d` did to the cluster; `sound` says that no call failed. */
  ghost predicate IsCreation(c: C.Settings, w: World, w': World, d: D.Application, r: SyncResult, sound: bool) {
    var names := CredentialsNames(d) + ParametersNames(d);
    && r == SyncResult(d.name, d.id, Created, r.error)
    && w'.apps - {d.name} == w.apps - {d.name}
    && (d.name in w.apps ==> w'.apps == w.apps && r.error.Some?)
    && (d.name in w'.apps && d.name !in w.apps ==> Carries(w'.apps[d.name], C.Convert(c, d)))
    && (r.error.None? ==> d.name in w'.apps && Carries(w'.apps[d.name], C.Convert(c, d)))
    && w'.secrets - names == w.secrets - names
    && Advances(w, w', [d])
    && (sound || r.error.None? ==> w' == if IsCreatable(w, d.name) then Run(w, CreateEffects(c, d)) else w)
    && (sound ==> (r.error.None? <==> IsCreatable(w, d.name) && !HasAmbiguous(d.bundles)))
  }

  lemma CreationRefused(c: C.Settings, w: World, d: D.Application, e: AppError, sound: bool)
    requires sound ==> !IsCreatable(w, d.name)
    ensures IsCreation(c, w, w, d, SyncResult(d.name, d.id, Created, Some(e)), sound)
  {
    hide Run, CreateEffects, CredentialsNames, ParametersNames, HasAmbiguous, Advances, C.Convert;
    NothingAdvances(w, [d]);
  }

  lemma CreationDone(c: C.Settings, w: World, w': World, d: D.Application, err: Option<AppError>, sound: bool)
    requires Keyed(w) && IsCreatable(w, d.name)
    requires var w1 := WithCreated(w, C.Convert(c, d));
             var names := CredentialsNames(d) + ParametersNames(d);
             && w'.apps == w1.apps && w'.secrets - names == w1.secrets - names && Advances(w1, w', [d])
             && (sound || err.None? ==> w' == Run(w1, FirstSecretsEffects(d)))
             && (sound ==> (err.None? <==> !HasAmbiguous(d.bundles)))
             && (err.None? ==> !HasAmbiguous(d.bundles))
    ensures IsCreation(c, w, w', d, SyncResult(d.name, d.id, Created, err), sound)
  {
    hide Run, CredentialsNames, ParametersNames, HasAmbiguous, Advances, FirstSecretsEffects, C.Services;
    RunCreation(c, w, d);
    EffectAdvances(w, Create(C.Convert(c, d)), [d]);
    AdvancesOn(w, WithCreated(w, C.Convert(c, d)), w', [d]);
  }

  lemma RunCreation(c: C.Settings, w: World, d: D.Application)
    ensures Run(w, CreateEffects(c, d)) == Run(WithCreated(w, C.Convert(c, d)), FirstSecretsEffects(d))
  {
    hide C.Convert, FirstSecretsEffects;
    RunTwo(w, Create(C.Convert(c, d)), DropSecrets({}));
    RunConcat(w, [Create(C.Convert(c, d))], FirstSecretsEffects(d));
  }

  method CreateApplication(api: ApiServer, c: C.Settings, d: D.Application) returns (r: SyncResult)
    requires api.Valid()
    modifies api
    ensures api.Valid() && api.failures >= old(api.failures)
    ensures IsCreation(c, old(api.State()), api.State(), d, r, api.failures == old(api.failures))
  {
    hide IsCreation, Run, FirstSecretsEffects, CredentialsNames, ParametersNames, HasAmbiguous, Advances, C.Services;
    var created := api.CreateApplication(C.Convert(c, d));
    if created.Failure? {
      CreationRefused(c, old(api.State()), d, AppError.Internal, api.failures == old(api.failures));
      return SyncResult(d.name, d.id, Created, Some(AppError.Internal));
    }
    var err := StoreFirstSecrets(api, d);
    CreationDone(c, old(api.State()), api.State(), d, err, api.failures == old(api.failures));
    r := SyncResult(d.name, d.id, Created, err);
  }

  function ApplicationId(a: Application): string {
    if a.spec.compassMetadata.Some? then a.spec.compassMetadata.value.applicationId else ""
  }

  ghost predicate IsDeletion(w: World, w': World, a: Application, r: SyncResult, sound: bool) {
    && r == SyncResult(a.name, ApplicationId(a), Deleted, r.error)
    && w'.apps == (if r.error.None? then w.apps - {a.name} else w.apps)
    && w'.secrets - ReferencedNames(a) == w.secrets - ReferencedNames(a)
    && Advances(w, w', [])
    && (sound && a.name in w.apps ==> r.error.None? && w' == Run(w, DeleteEffects(a)))
  }

  lemma DeleteAdvances(w: World, w': World, name: string)
    requires Keyed(w') && Advances(w, w', [])
    ensures Advances(w, WithoutApplication(w', name), [])
  {
    EffectAdvances(w', Delete(name), []);
    AdvancesOn(w, w', WithoutApplication(w', name), []);
  }

  /** Errors of the secrets are only logged; the application is deleted in any case. */
  method DeleteApplication(api: ApiServer, a: Application) returns (r: SyncResult)
    requires api.Valid()
    modifies api
    ensures api.Valid() && api.failures >= old(api.failures)
    ensures IsDeletion(old(api.State()), api.State(), a, r, api.failures == old(api.failures))
  {
    ghost var start := api.State();
    hide Advances, IsEffectFor;
    var names := CollectParametersSecretNames(a.spec.services);
    var _, _ := DeleteSecrets(api, names);
    FrameWidens(old(api.secrets), api.secrets, names, ReferencedNames(a));
    ghost var middle := api.State();
    names := CollectCredentialsSecretNames(a.spec.services);
    var _, _ := DeleteSecrets(api, names);
    FrameWidens(middle.secrets, api.secrets, names, ReferencedNames(a));
    AdvancesOn(start, middle, api.State(), []);
    DeleteAdvances(start, api.State(), a.name);
    ghost var params, creds :=
      DropSecrets(ParametersSecretNames(a.spec.services)), DropSecrets(CredentialsSecretNames(a.spec.services));
    RunTwo(start, params, creds);
    RunOne(start, [params, creds], Delete(a.name));
    assert [params, creds] + [Delete(a.name)] == DeleteEffects(a);
    var deleted := api.DeleteApplication(a.name);
    r := SyncResult(a.name, ApplicationId(a), Deleted, if deleted.Success? then None else Some(AppError.Internal));
  }

  /** What does not change outside a set of names does not change outside a larger one. */
  lemma FrameWidens<T>(before: map<string, T>, after: map<string, T>, names: set<string>, more: set<string>)
    requires before - names == after - names && names <= more
    ensures before - more == after - more
  {
    assert before - more == (before - names) - more;
    assert after - more == (after - names) - more;
  }

  method DeleteStale(api: ApiServer, old_: set<string>, current: set<string>) returns (err: Option<AppError>)
    modifies api`secrets, api`failures
    ensures api.failures >= old(api.failures)
    ensures api.secrets - old_ == old(api.secrets) - old_
    ensures Advances(old(api.State()), api.State(), [])
    ensures err.None? ==> api.State() == Apply(old(api.State()), DropSecrets(old_ - current))
    ensures api.failures == old(api.failures) ==> err.None?
  {
    ghost var stuck;
    err, stuck := DeleteSecrets(api, old_ - current);
    FrameWidens(old(api.secrets), api.secrets, old_ - current, old_);
  }

  ghost function WithoutStaleCredentials(w: World, oldServices: seq<Service>, services: seq<Service>): World {
    Apply(w, DropSecrets(CredentialsSecretNames(oldServices) - CredentialsSecretNames(services)))
  }

  /** Drops the secrets that only the old services name, then stores the current ones. */
  method UpdateCredentialsSecrets(api: ApiServer, oldServices: seq<Service>, services: seq<Service>, d: D.Application)
    returns (err: Option<AppError>)
    requires api.Valid()
    modifies api`secrets, api`failures
    ensures api.failures >= old(api.failures)
    ensures var touched := CredentialsSecretNames(oldServices) + CredentialsNames(d);
            api.secrets - touched == old(api.secrets) - touched
    ensures Advances(old(api.State()), api.State(), [d])
    ensures api.failures == old(api.failures) && d.name in api.apps ==>
              api.State() == Run(WithoutStaleCredentials(old(api.State()), oldServices, services),
                                 CredentialsEffects(d.name, d.bundles))
  {
    ghost var touched := CredentialsSecretNames(oldServices) + CredentialsNames(d);
    hide Advances;
    var oldNames := CollectCredentialsSecretNames(oldServices);
    var newNames := CollectCredentialsSecretNames(services);
    var appended := DeleteStale(api, oldNames, newNames);
    FrameWidens(old(api.secrets), api.secrets, oldNames, touched);
    ghost var dropped := api.State();
    var e := UpsertCredentialsSecrets(api, d);
    FrameWidens(dropped.secrets, api.secrets, CredentialsNames(d), touched);
    AdvancesWidens(old(api.State()), dropped, [], [d]);
    AdvancesOn(old(api.State()), dropped, api.State(), [d]);
    err := if e.Some? then AppendError(appended, e.value) else appended;
  }

  /** The cluster after the request parameters of an updated application were replaced. */
  ghost function WithUpdatedParameters(w: World, oldServices: seq<Service>, services: seq<Service>,
                                       d: D.Application): World {
    Run(Apply(w, DropSecrets(ParametersSecretNames(oldServices) - ParametersSecretNames(services))),
        ParametersEffects(d.name, d.bundles))
  }

  /** Drops the secrets that only the old services name, then stores the current ones. */
  method UpdateParametersSecrets(api: ApiServer, oldServices: seq<Service>, services: seq<Service>, d: D.Application)
    returns (err: Option<AppError>)
    requires api.Valid()
    modifies api`secrets, api`failures
    ensures api.failures >= old(api.failures)
    ensures var touched := ParametersSecretNames(oldServices) + ParametersNames(d);
            api.secrets - touched == old(api.secrets) - touched
    ensures Advances(old(api.State()), api.State(), [d])
    ensures err.None? ==> api.State() == WithUpdatedParameters(old(api.State()), oldServices, services, d)
    ensures api.failures == old(api.failures) && d.name in api.apps ==> err.None?
  {
    ghost var touched := ParametersSecretNames(oldServices) + ParametersNames(d);
    hide Advances;
    var oldNames := CollectParametersSecretNames(oldServices);
    var newNames := CollectParametersSecretNames(services);
    var appended := DeleteStale(api, oldNames, newNames);
    FrameWidens(old(api.secrets), api.secrets, oldNames, touched);
    ghost var dropped := api.State();
    var e := UpsertParametersSecrets(api, d);
    FrameWidens(dropped.secrets, api.secrets, ParametersNames(d), touched);
    AdvancesWidens(old(api.State()), dropped, [], [d]);
    AdvancesOn(old(api.State()), dropped, api.State(), [d]);
    err := if e.Some? then AppendError(appended, e.value) else appended;
  }

  /** The cluster after the secrets of an updated application were replaced, kind by kind. */
  ghost function WithUpdatedSecrets(w: World, oldServices: seq<Service>, services: seq<Service>,
                                    d: D.Application): World {
    var w1 := Run(WithoutStaleCredentials(w, oldServices, services), CredentialsEffects(d.name, d.bundles));
    WithUpdatedParameters(w1, oldServices, services, d)
  }

  /**
   The error of the credentials is overwritten by that of the request parameters: whatever calls failed until `middle`,
   where the credentials are done with, the result is an error only when a call fails after it, and without an error it
   is the request parameters that are complete.
   */
  method UpdateSecrets(api: ApiServer, existing: Application, services: seq<Service>, d: D.Application)
    returns (err: Option<AppError>, ghost middle: World, ghost failuresUntil: nat)
    requires api.Valid()
    modifies api`secrets, api`failures
    ensures old(api.failures) <= failuresUntil <= api.failures && middle.apps == api.apps
    ensures var credentials := CredentialsSecretNames(existing.spec.services) + CredentialsNames(d);
            middle.secrets - credentials == old(api.secrets) - credentials
    ensures var touched := ReferencedNames(existing) + CredentialsNames(d) + ParametersNames(d);
            api.secrets - touched == old(api.secrets) - touched
    ensures Advances(old(api.State()), api.State(), [d])
    ensures err.None? ==> api.State() == WithUpdatedParameters(middle, existing.spec.services, services, d)
    ensures api.failures == failuresUntil && d.name in api.apps ==> err.None?
    ensures api.failures == old(api.failures) && d.name in api.apps ==>
              err.None? && api.State() == WithUpdatedSecrets(old(api.State()), existing.spec.services, services, d)
  {
    ghost var touched := ReferencedNames(existing) + CredentialsNames(d) + ParametersNames(d);
    hide Advances;
    err := UpdateCredentialsSecrets(api, existing.spec.services, services, d);
    FrameWidens(old(api.secrets), api.secrets, CredentialsSecretNames(existing.spec.services) + CredentialsNames(d),
                touched);
    middle, failuresUntil := api.State(), api.failures;
    err := UpdateParametersSecrets(api, existing.spec.services, services, d);
    FrameWidens(middle.secrets, api.secrets, ParametersSecretNames(existing.spec.services) + ParametersNames(d),
                touched);
    AdvancesOn(old(api.State()), middle, api.State(), [d]);
  }

  ghost predicate IsUpdate(c: C.Settings, w: World, w': World, existing: Application, d: D.Application, r: SyncResult,
                           sound: bool) {
    var touched := ReferencedNames(existing) + CredentialsNames(d) + ParametersNames(d);
    && r == SyncResult(d.name, d.id, Updated, r.error)
    && w'.apps - {d.name} == w.apps - {d.name}
    && w'.apps.Keys == w.apps.Keys
    && (w'.apps != w.apps ==> d.name in w'.apps && Carries(w'.apps[d.name], C.Convert(c, d)))
    && (d.name in w.apps ==> w'.apps[d.name].uid == w.apps[d.name].uid)
    && (r.error.None? ==> d.name in w'.apps && Carries(w'.apps[d.name], C.Convert(c, d)))
    && w'.secrets - touched == w.secrets - touched
    && Advances(w, w', [d])
    && (sound && d.name in w.apps ==> r.error.None? && w' == Run(w, UpdateEffects(c, existing, d)))
  }

  lemma UpdateRefused(c: C.Settings, w: World, existing: Application, d: D.Application, e: AppError, sound: bool)
    requires sound ==> d.name !in w.apps
    ensures IsUpdate(c, w, w, existing, d, SyncResult(d.name, d.id, Updated, Some(e)), sound)
  {
    hide ReferencedNames, CredentialsNames, ParametersNames, UpdateEffects, Run;
  }

  lemma MergedCarries(w: World, app: Application)
    requires Keyed(w) && app.name in w.apps
    ensures var w1 := Apply(w, Update(app));
            && w1.secrets == w.secrets && w1.apps.Keys == w.apps.Keys && w1.apps - {app.name} == w.apps - {app.name}
            && Carries(w1.apps[app.name], app) && w1.apps[app.name].uid == w.apps[app.name].uid
  {
  }

  lemma UpdateDone(c: C.Settings, w: World, w': World, existing: Application, d: D.Application, err: Option<AppError>,
                   sound: bool)
    requires Keyed(w) && d.name in w.apps
    requires var w1 := Apply(w, Update(C.Convert(c, d)));
             var touched := ReferencedNames(existing) + CredentialsNames(d) + ParametersNames(d);
             && w'.apps == w1.apps && w'.secrets - touched == w1.secrets - touched && Advances(w1, w', [d])
             && (sound ==>
                   err.None?
                   && w' == WithUpdatedSecrets(w1, existing.spec.services, C.Services(c, d.name, d.bundles), d))
    ensures IsUpdate(c, w, w', existing, d, SyncResult(d.name, d.id, Updated, err), sound)
  {
    RunUpdate(c, w, existing, d);
    MergedCarries(w, C.Convert(c, d));
    ConvertKeepsName(c, d);
    UpdateAdvances(w, C.Convert(c, d), w', d);
    hide ReferencedNames, CredentialsNames, ParametersNames, UpdateEffects, Run, Apply, WithUpdatedSecrets, Carries,
         C.Convert;
  }

  lemma UpdateAdvances(w: World, app: Application, w': World, d: D.Application)
    requires Keyed(w) && Advances(Apply(w, Update(app)), w', [d])
    ensures Advances(w, w', [d])
  {
    hide Advances, Apply, Keyed;
    EffectAdvances(w, Update(app), [d]);
    AdvancesOn(w, Apply(w, Update(app)), w', [d]);
  }

  lemma ConvertKeepsName(c: C.Settings, d: D.Application)
    ensures C.Convert(c, d).name == d.name && C.Convert(c, d).spec.services == C.Services(c, d.name, d.bundles)
  {
  }

  method UpdateExisting(api: ApiServer, c: C.Settings, existing: Application, d: D.Application) returns (r: SyncResult)
    requires api.Valid() && existing.name == d.name
    modifies api
    ensures api.Valid() && api.failures >= old(api.failures)
    ensures IsUpdate(c, old(api.State()), api.State(), existing, d, r, api.failures == old(api.failures))
  {
    hide IsUpdate, Apply, WithUpdatedSecrets, WithUpdatedParameters, C.Convert;
    ConvertKeepsName(c, d);
    var updated := UpdateApplication(api, C.Convert(c, d));
    if updated.Failure? {
      UpdateRefused(c, old(api.State()), existing, d, updated.error, api.failures == old(api.failures));
      return SyncResult(d.name, d.id, Updated, Some(updated.error));
    }
    MergedCarries(old(api.State()), C.Convert(c, d));
    var err, _, _ := UpdateSecrets(api, existing, updated.value.spec.services, d);
    UpdateDone(c, old(api.State()), api.State(), existing, d, err, api.failures == old(api.failures));
    r := SyncResult(d.name, d.id, Updated, err);
  }

  lemma RunUpdate(c: C.Settings, w: World, existing: Application, d: D.Application)
    ensures Run(w, UpdateEffects(c, existing, d))
            == WithUpdatedSecrets(Apply(w, Update(C.Convert(c, d))), existing.spec.services,
                                  C.Services(c, d.name, d.bundles), d)
  {
    var services := C.Services(c, d.name, d.bundles);
    var e1 := Update(C.Convert(c, d));
    var e2 := DropSecrets(CredentialsSecretNames(existing.spec.services) - CredentialsSecretNames(services));
    var e4 := DropSecrets(ParametersSecretNames(existing.spec.services) - ParametersSecretNames(services));
    var credentials, parameters := CredentialsEffects(d.name, d.bundles), ParametersEffects(d.name, d.bundles);
    RunTwo(w, e1, e2);
    assert [e1] + [e2] == [e1, e2];
    RunConcat(w, [e1, e2], credentials);
    RunOne(w, [e1, e2] + credentials, e4);
    RunConcat(w, [e1, e2] + credentials + [e4], parameters);
  }
}
