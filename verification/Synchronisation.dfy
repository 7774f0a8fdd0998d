/**
 The three phases of a synchronisation and `Apply` itself
 (components/compass-runtime-agent/internal/kyma/service.go).
 */
module Synchronisation {
  import opened Wrappers
  import opened Resources
  import opened Cluster
  import opened AppErrors
  import opened SyncPlan
  import opened SyncService
  import D = Director
  import C = Converter

  // ---------------------------------------------------------------- accounting

  /** A result without its error. */
  datatype Header = Header(name: string, id: string, operation: Operation)

  function Headers(results: seq<SyncResult>): seq<Header> {
    seq(|results|, i requires 0 <= i < |results| => Header(results[i].name, results[i].id, results[i].operation))
  }

  function CreateHeaders(listed: seq<Application>, ds: seq<D.Application>): seq<Header> {
    if ds == [] then []
    else
      var d := ds[|ds| - 1];
      CreateHeaders(listed, ds[..|ds| - 1]) + (if Exists(d.name, listed) then [] else [Header(d.name, d.id, Created)])
  }

  function DeleteHeaders(listed: seq<Application>, ds: seq<D.Application>): seq<Header> {
    if listed == [] then []
    else
      var a := listed[|listed| - 1];
      DeleteHeaders(listed[..|listed| - 1], ds)
      + (if InDirector(a.name, ds) then [] else [Header(a.name, ApplicationId(a), Deleted)])
  }

  function UpdateHeaders(listed: seq<Application>, ds: seq<D.Application>): seq<Header> {
    if ds == [] then []
    else
      var d := ds[|ds| - 1];
      UpdateHeaders(listed, ds[..|ds| - 1]) + (if Exists(d.name, listed) then [Header(d.name, d.id, Updated)] else [])
  }

  function Accounting(listed: seq<Application>, ds: seq<D.Application>): seq<Header> {
    CreateHeaders(listed, ds) + DeleteHeaders(listed, ds) + UpdateHeaders(listed, ds)
  }

  predicate DistinctNames(ds: seq<D.Application>) {
    forall i, j :: 0 <= i < j < |ds| ==> ds[i].name != ds[j].name
  }

  ghost predicate DistinctListing(listed: seq<Application>) {
    forall i, j :: 0 <= i < j < |listed| ==> listed[i].name != listed[j].name
  }

  /** The listed applications that Compass manages. */
  ghost predicate IsListing(listed: seq<Application>, apps: map<string, Application>) {
    && (forall i ::
          0 <= i < |listed| ==> listed[i].name in apps && apps[listed[i].name] == listed[i] && listed[i].IsManaged())
    && (forall n :: n in apps && apps[n].IsManaged() ==> Exists(n, listed))
    && DistinctListing(listed)
  }

  function CreatedNames(listed: seq<Application>, ds: seq<D.Application>): set<string> {
    set d | d in ds && !Exists(d.name, listed) :: d.name
  }

  function DeletedNames(listed: seq<Application>, ds: seq<D.Application>): set<string> {
    set a | a in listed && !InDirector(a.name, ds) :: a.name
  }

  function UpdatedNames(listed: seq<Application>, ds: seq<D.Application>): set<string> {
    set d | d in ds && Exists(d.name, listed) :: d.name
  }

  /** The application of that name carries what the Director said. */
  ghost predicate IsConverted(apps: map<string, Application>, c: C.Settings, name: string, ds: seq<D.Application>) {
    name in apps && forall i :: 0 <= i < |ds| && ds[i].name == name ==> Carries(apps[name], C.Convert(c, ds[i]))
  }

  /** The application carries what the Director said of one of `ds`. */
  ghost predicate ComesFrom(app: Application, c: C.Settings, ds: seq<D.Application>) {
    exists i :: 0 <= i < |ds| && Carries(app, C.Convert(c, ds[i]))
  }

  /** Every application is one that was there, or carries what the Director said. */
  ghost predicate Moved(c: C.Settings, before: map<string, Application>, after: map<string, Application>,
                        ds: seq<D.Application>) {
    forall n :: n in after ==> (n in before && after[n] == before[n]) || ComesFrom(after[n], c, ds)
  }

  /** An application that stays keeps its UID. */
  ghost predicate SameUids(before: map<string, Application>, after: map<string, Application>) {
    forall n :: n in before && n in after ==> after[n].uid == before[n].uid
  }

  /** A result without an error tells what is on the cluster. */
  ghost predicate IsTrue(apps: map<string, Application>, c: C.Settings, ds: seq<D.Application>, r: SyncResult) {
    r.error.None? ==>
      if r.operation == Deleted then r.name !in apps else IsConverted(apps, c, r.name, ds)
  }

  ghost predicate AreTrue(apps: map<string, Application>, c: C.Settings, ds: seq<D.Application>,
                          results: seq<SyncResult>) {
    forall k :: 0 <= k < |results| ==> IsTrue(apps, c, ds, results[k])
  }

  // ---------------------------------------------------------------- creating

  /** What the creations for `ds` did to the cluster; `sound` says that no call failed. */
  ghost predicate IsCreatePhase(c: C.Settings, w: World, w': World, listed: seq<Application>, ds: seq<D.Application>,
                                results: seq<SyncResult>, sound: bool) {
    && Headers(results) == CreateHeaders(listed, ds)
    && (forall n :: n in w.apps ==> n in w'.apps && w'.apps[n] == w.apps[n])
    && w'.apps.Keys <= w.apps.Keys + CreatedNames(listed, ds)
    && w'.secrets - ResolvedNames(ds) == w.secrets - ResolvedNames(ds)
    && AreTrue(w'.apps, c, ds, results)
    && AreNew(w.apps, results)
    && Moved(c, w.apps, w'.apps, ds)
    && Advances(w, w', ds)
    && (sound ==> w' == Run(w, CreatePlan(c, w, listed, ds)))
  }

  /** Only applications that were not there before are reported as created. */
  ghost predicate AreNew(apps: map<string, Application>, results: seq<SyncResult>) {
    forall k ::
      0 <= k < |results| ==> results[k].operation == Created && (results[k].error.None? ==> results[k].name !in apps)
  }

  method CreateApplications(api: ApiServer, c: C.Settings, ds: seq<D.Application>, listed: seq<Application>)
    returns (results: seq<SyncResult>)
    requires api.Valid() && DistinctNames(ds)
    modifies api
    ensures api.Valid() && api.failures >= old(api.failures)
    ensures IsCreatePhase(c, old(api.State()), api.State(), listed, ds, results, api.failures == old(api.failures))
  {
    ghost var start := api.State();
    results := [];
    CreatePhaseBegins(c, start, listed);
    hide IsCreatePhase, IsCreation, Exists, InDirector, Find;
    for i := 0 to |ds|
      invariant api.Valid() && api.failures >= old(api.failures)
      invariant IsCreatePhase(c, start, api.State(), listed, ds[..i], results, api.failures == old(api.failures))
    {
      ghost var before := api.State();
      if !Exists(ds[i].name, listed) {
        ghost var sound := api.failures == old(api.failures);
        var result := CreateApplication(api, c, ds[i]);
        CreateStep(c, start, before, api.State(), listed, ds, i, results, result, sound,
                   api.failures == old(api.failures));
        results := results + [result];
      } else {
        CreateSkips(c, start, before, listed, ds, i, results, api.failures == old(api.failures));
      }
    }
    assert ds[..|ds|] == ds;
  }

  lemma CreatePhaseBegins(c: C.Settings, w: World, listed: seq<Application>)
    ensures IsCreatePhase(c, w, w, listed, [], [], true)
  {
  }

  lemma DeletePhaseBegins(w: World, ds: seq<D.Application>)
    ensures IsDeletePhase(w, w, [], ds, [], true)
  {
  }

  lemma UpdatePhaseBegins(c: C.Settings, w: World, listed: seq<Application>)
    ensures IsUpdatePhase(c, w, w, listed, [], [], true)
  {
  }

  lemma PrefixNames(listed: seq<Application>, ds: seq<D.Application>, i: nat)
    requires i < |ds|
    ensures ds[..i + 1] == ds[..i] + [ds[i]] && ds[..i + 1][..i] == ds[..i]
    ensures ResolvedNames(ds[..i]) <= ResolvedNames(ds[..i + 1])
    ensures CredentialsNames(ds[i]) + ParametersNames(ds[i]) <= ResolvedNames(ds[..i + 1])
    ensures CreatedNames(listed, ds[..i]) <= CreatedNames(listed, ds[..i + 1])
    ensures !Exists(ds[i].name, listed) ==> ds[i].name in CreatedNames(listed, ds[..i + 1])
    ensures UpdatedNames(listed, ds[..i]) <= UpdatedNames(listed, ds[..i + 1])
    ensures Exists(ds[i].name, listed) ==> ds[i].name in UpdatedNames(listed, ds[..i + 1])
  {
    assert ds[i] in ds[..i + 1];
    assert forall d :: d in ds[..i] ==> d in ds[..i + 1];
  }

  lemma CreateSkips(c: C.Settings, w: World, w': World, listed: seq<Application>, ds: seq<D.Application>, i: nat,
                    results: seq<SyncResult>, sound: bool)
    requires i < |ds| && DistinctNames(ds) && Exists(ds[i].name, listed)
    requires IsCreatePhase(c, w, w', listed, ds[..i], results, sound)
    ensures IsCreatePhase(c, w, w', listed, ds[..i + 1], results, sound)
  {
    hide Run, CreateEffects, CredentialsNames, ParametersNames, AreTrue, Moved, C.Convert, Advances;
    PrefixNames(listed, ds, i);
    AdvancesWidens(w, w', ds[..i], ds[..i + 1]);
    FrameWidens(w.secrets, w'.secrets, ResolvedNames(ds[..i]), ResolvedNames(ds[..i + 1]));
    assert CreateHeaders(listed, ds[..i]) + [] == CreateHeaders(listed, ds[..i]);
    var plan := CreatePlan(c, w, listed, ds[..i]);
    assert plan + [] == plan;
    CreatedResultNames(listed, ds[..i], results);
    AddOne(w'.apps, c, ds, i, results);
    MovedNoMore(c, w.apps, w'.apps, ds, i);
  }

  lemma CreateStep(c: C.Settings, w: World, w': World, w'': World, listed: seq<Application>, ds: seq<D.Application>,
                   i: nat, results: seq<SyncResult>, r: SyncResult, sound: bool, still: bool)
    requires i < |ds| && DistinctNames(ds) && !Exists(ds[i].name, listed)
    requires IsCreatePhase(c, w, w', listed, ds[..i], results, sound)
    requires IsCreation(c, w', w'', ds[i], r, still) && (still ==> sound)
    ensures IsCreatePhase(c, w, w'', listed, ds[..i + 1], results + [r], still)
  {
    hide Run, CreatePlan, CreateEffects, CredentialsNames, ParametersNames, AreTrue, Moved, C.Convert, InDirector,
         Advances;
    var d := ds[i];
    PrefixNames(listed, ds, i);
    AdvancesByOne(w, w', w'', ds, i);
    var names := ResolvedNames(ds[..i + 1]);
    FrameWidens(w.secrets, w'.secrets, ResolvedNames(ds[..i]), names);
    FrameWidens(w'.secrets, w''.secrets, CredentialsNames(d) + ParametersNames(d), names);
    CreatedResultNames(listed, ds[..i], results);
    AddOne(w'.apps, c, ds, i, results);
    KeepResults(w'.apps, w''.apps, c, ds[..i + 1], results, d.name);
    NewResult(w''.apps, c, ds, i, results, r);
    assert AreNew(w.apps, results + [r]);
    CreateFrame(w, w', w'', listed, ds, i);
    CreatePlanStep(c, w, w', w'', listed, ds, i, still);
    MovedStep(c, w.apps, w'.apps, w''.apps, ds, i);
    HeadersStep(results, r);
  }

  lemma AdvancesByOne(w: World, w': World, w'': World, ds: seq<D.Application>, i: nat)
    requires i < |ds| && Advances(w, w', ds[..i]) && Advances(w', w'', [ds[i]])
    ensures Advances(w, w'', ds[..i + 1])
  {
    hide Advances;
    assert ds[..i + 1] == ds[..i] + [ds[i]];
    AdvancesWidens(w, w', ds[..i], ds[..i + 1]);
    AdvancesWidens(w', w'', [ds[i]], ds[..i + 1]);
    AdvancesOn(w, w', w'', ds[..i + 1]);
  }

  lemma HeadersStep(results: seq<SyncResult>, r: SyncResult)
    ensures Headers(results + [r]) == Headers(results) + [Header(r.name, r.id, r.operation)]
  {
  }

  lemma CreatePlanStep(c: C.Settings, w: World, w': World, w'': World, listed: seq<Application>, ds: seq<D.Application>,
                       i: nat, still: bool)
    requires i < |ds| && !Exists(ds[i].name, listed)
    requires ds[i].name in w'.apps <==> ds[i].name in w.apps
    requires still ==> w' == Run(w, CreatePlan(c, w, listed, ds[..i]))
    requires still ==> w'' == if IsCreatable(w', ds[i].name) then Run(w', CreateEffects(c, ds[i])) else w'
    ensures still ==> w'' == Run(w, CreatePlan(c, w, listed, ds[..i + 1]))
  {
    var plan := CreatePlan(c, w, listed, ds[..i]);
    assert ds[..i + 1][..i] == ds[..i];
    RunConcat(w, plan, CreateEffects(c, ds[i]));
    assert plan + [] == plan;
  }

  lemma CreateFrame(w: World, w': World, w'': World, listed: seq<Application>, ds: seq<D.Application>, i: nat)
    requires i < |ds| && DistinctNames(ds) && !Exists(ds[i].name, listed)
    requires forall n :: n in w.apps ==> n in w'.apps && w'.apps[n] == w.apps[n]
    requires w'.apps.Keys <= w.apps.Keys + CreatedNames(listed, ds[..i])
    requires w''.apps - {ds[i].name} == w'.apps - {ds[i].name}
    requires ds[i].name in w'.apps ==> w''.apps == w'.apps
    ensures forall n :: n in w.apps ==> n in w''.apps && w''.apps[n] == w.apps[n]
    ensures w''.apps.Keys <= w.apps.Keys + CreatedNames(listed, ds[..i + 1])
    ensures ds[i].name in w'.apps <==> ds[i].name in w.apps
  {
    PrefixNames(listed, ds, i);
    var name := ds[i].name;
    assert name !in CreatedNames(listed, ds[..i]);
    forall n | n != name
      ensures n in w''.apps <==> n in w'.apps
      ensures n in w'.apps ==> w''.apps[n] == w'.apps[n]
    {
      SameElsewhere(w'.apps, w''.apps, name, n);
    }
  }

  // ---------------------------------------------------------------- deleting

  ghost predicate AllSucceeded(results: seq<SyncResult>) {
    forall k :: 0 <= k < |results| ==> results[k].error.None?
  }

  ghost predicate AreGone(apps: map<string, Application>, results: seq<SyncResult>) {
    forall k ::
      0 <= k < |results| ==> results[k].operation == Deleted && (results[k].error.None? ==> results[k].name !in apps)
  }

  ghost predicate AreThere(listed: seq<Application>, apps: map<string, Application>) {
    forall i :: 0 <= i < |listed| ==> listed[i].name in apps
  }

  ghost predicate IsDeletePhase(w: World, w': World, listed: seq<Application>, ds: seq<D.Application>,
                                results: seq<SyncResult>, sound: bool) {
    && Headers(results) == DeleteHeaders(listed, ds)
    && w'.apps.Keys <= w.apps.Keys
    && w'.apps - DeletedNames(listed, ds) == w.apps - DeletedNames(listed, ds)
    && (forall n :: n in w'.apps ==> w'.apps[n] == w.apps[n])
    && w'.secrets - AllReferencedNames(listed) == w.secrets - AllReferencedNames(listed)
    && AreGone(w'.apps, results)
    && Advances(w, w', [])
    && (sound && AreThere(listed, w.apps) ==> w' == Run(w, DeletePlan(listed, ds)) && AllSucceeded(results))
  }

  method DeleteApplications(api: ApiServer, ds: seq<D.Application>, listed: seq<Application>)
    returns (results: seq<SyncResult>)
    requires api.Valid() && DistinctListing(listed)
    modifies api
    ensures api.Valid() && api.failures >= old(api.failures)
    ensures IsDeletePhase(old(api.State()), api.State(), listed, ds, results, api.failures == old(api.failures))
  {
    ghost var start := api.State();
    results := [];
    DeletePhaseBegins(start, ds);
    hide IsDeletePhase, IsDeletion, Exists, InDirector, Find;
    for i := 0 to |listed|
      invariant api.Valid() && api.failures >= old(api.failures)
      invariant IsDeletePhase(start, api.State(), listed[..i], ds, results, api.failures == old(api.failures))
    {
      ghost var before := api.State();
      if !InDirector(listed[i].name, ds) {
        ghost var sound := api.failures == old(api.failures);
        var result := DeleteApplication(api, listed[i]);
        DeleteStep(start, before, api.State(), listed, ds, i, results, result, sound,
                   api.failures == old(api.failures));
        results := results + [result];
      } else {
        DeleteSkips(start, before, listed, ds, i, results, api.failures == old(api.failures));
      }
    }
    assert listed[..|listed|] == listed;
  }

  lemma PrefixListing(listed: seq<Application>, ds: seq<D.Application>, i: nat)
    requires i < |listed| && DistinctListing(listed)
    ensures listed[..i + 1] == listed[..i] + [listed[i]] && listed[..i + 1][..i] == listed[..i]
    ensures AllReferencedNames(listed[..i]) <= AllReferencedNames(listed[..i + 1])
    ensures ReferencedNames(listed[i]) <= AllReferencedNames(listed[..i + 1])
    ensures DeletedNames(listed[..i], ds) <= DeletedNames(listed[..i + 1], ds)
    ensures !InDirector(listed[i].name, ds) ==> listed[i].name in DeletedNames(listed[..i + 1], ds)
    ensures listed[i].name !in DeletedNames(listed[..i], ds)
  {
    assert listed[i] in listed[..i + 1];
    assert forall a :: a in listed[..i] ==> a in listed[..i + 1];
  }

  lemma DeleteSkips(w: World, w': World, listed: seq<Application>, ds: seq<D.Application>, i: nat,
                    results: seq<SyncResult>, sound: bool)
    requires i < |listed| && DistinctListing(listed) && InDirector(listed[i].name, ds)
    requires IsDeletePhase(w, w', listed[..i], ds, results, sound)
    ensures IsDeletePhase(w, w', listed[..i + 1], ds, results, sound)
  {
    hide Advances;
    PrefixListing(listed, ds, i);
    FrameWidens(w.secrets, w'.secrets, AllReferencedNames(listed[..i]), AllReferencedNames(listed[..i + 1]));
    FrameWidens(w.apps, w'.apps, DeletedNames(listed[..i], ds), DeletedNames(listed[..i + 1], ds));
    assert DeleteHeaders(listed[..i], ds) + [] == DeleteHeaders(listed[..i], ds);
    assert DeletePlan(listed[..i], ds) + [] == DeletePlan(listed[..i], ds);
    assert AreThere(listed[..i + 1], w.apps) ==> AreThere(listed[..i], w.apps) by {
      assert forall j :: 0 <= j < i ==> listed[..i + 1][j] == listed[..i][j];
    }
  }

  lemma DeleteStep(w: World, w': World, w'': World, listed: seq<Application>, ds: seq<D.Application>, i: nat,
                   results: seq<SyncResult>, r: SyncResult, sound: bool, still: bool)
    requires i < |listed| && DistinctListing(listed) && !InDirector(listed[i].name, ds)
    requires IsDeletePhase(w, w', listed[..i], ds, results, sound)
    requires IsDeletion(w', w'', listed[i], r, still) && (still ==> sound)
    ensures IsDeletePhase(w, w'', listed[..i + 1], ds, results + [r], still)
  {
    hide Run, CredentialsSecretNames, ParametersSecretNames, DeletePlan, DeleteEffects, InDirector, Advances;
    var a := listed[i];
    AdvancesOn(w, w', w'', []);
    PrefixListing(listed, ds, i);
    var names := AllReferencedNames(listed[..i + 1]);
    FrameWidens(w.secrets, w'.secrets, AllReferencedNames(listed[..i]), names);
    FrameWidens(w'.secrets, w''.secrets, ReferencedNames(a), names);
    var deleted := DeletedNames(listed[..i + 1], ds);
    FrameWidens(w.apps, w'.apps, DeletedNames(listed[..i], ds), deleted);
    assert w''.apps - deleted == w'.apps - deleted;
    HeadersStep(results, r);
    DeletePlanStep(w, w', w'', listed, ds, i, still);
    if still && AreThere(listed[..i + 1], w.apps) {
      AreThereBefore(listed, w.apps, i);
      assert a.name in w.apps - DeletedNames(listed[..i], ds);
    }
  }

  lemma AreThereBefore(listed: seq<Application>, apps: map<string, Application>, i: nat)
    requires i < |listed| && AreThere(listed[..i + 1], apps)
    ensures AreThere(listed[..i], apps) && listed[i].name in apps
  {
    assert listed[..i + 1][i] == listed[i];
    assert forall j :: 0 <= j < i ==> listed[..i + 1][j] == listed[..i][j];
  }

  lemma DeletePlanStep(w: World, w': World, w'': World, listed: seq<Application>, ds: seq<D.Application>, i: nat,
                       still: bool)
    requires i < |listed| && DistinctListing(listed) && !InDirector(listed[i].name, ds)
    requires still && AreThere(listed[..i], w.apps) ==> w' == Run(w, DeletePlan(listed[..i], ds))
    requires still && listed[i].name in w'.apps ==> w'' == Run(w', DeleteEffects(listed[i]))
    requires w'.apps - DeletedNames(listed[..i], ds) == w.apps - DeletedNames(listed[..i], ds)
    ensures still && AreThere(listed[..i + 1], w.apps) ==> w'' == Run(w, DeletePlan(listed[..i + 1], ds))
  {
    if still && AreThere(listed[..i + 1], w.apps) {
      PrefixListing(listed, ds, i);
      AreThereBefore(listed, w.apps, i);
      assert listed[i].name in w.apps - DeletedNames(listed[..i], ds);
      RunConcat(w, DeletePlan(listed[..i], ds), DeleteEffects(listed[i]));
    }
  }

  // ---------------------------------------------------------------- updating

  function TouchedNames(listed: seq<Application>, ds: seq<D.Application>): set<string> {
    AllReferencedNames(listed) + ResolvedNames(ds)
  }

  ghost predicate IsUpdatePhase(c: C.Settings, w: World, w': World, listed: seq<Application>, ds: seq<D.Application>,
                                results: seq<SyncResult>, sound: bool) {
    && Headers(results) == UpdateHeaders(listed, ds)
    && w'.apps.Keys == w.apps.Keys
    && w'.apps - UpdatedNames(listed, ds) == w.apps - UpdatedNames(listed, ds)
    && w'.secrets - TouchedNames(listed, ds) == w.secrets - TouchedNames(listed, ds)
    && AreTrue(w'.apps, c, ds, results)
    && Moved(c, w.apps, w'.apps, ds)
    && SameUids(w.apps, w'.apps)
    && Advances(w, w', ds)
    && (sound && UpdatedNames(listed, ds) <= w.apps.Keys ==>
          w' == Run(w, UpdatePlan(c, listed, ds)) && AllSucceeded(results))
  }

  method UpdateApplications(api: ApiServer, c: C.Settings, ds: seq<D.Application>, listed: seq<Application>)
    returns (results: seq<SyncResult>)
    requires api.Valid() && DistinctNames(ds)
    modifies api
    ensures api.Valid() && api.failures >= old(api.failures)
    ensures IsUpdatePhase(c, old(api.State()), api.State(), listed, ds, results, api.failures == old(api.failures))
  {
    ghost var start := api.State();
    results := [];
    UpdatePhaseBegins(c, start, listed);
    hide IsUpdatePhase, IsUpdate, Exists, InDirector, Find;
    for i := 0 to |ds|
      invariant api.Valid() && api.failures >= old(api.failures)
      invariant IsUpdatePhase(c, start, api.State(), listed, ds[..i], results, api.failures == old(api.failures))
    {
      ghost var before := api.State();
      if Exists(ds[i].name, listed) {
        ghost var sound := api.failures == old(api.failures);
        var result := UpdateExisting(api, c, Find(ds[i].name, listed), ds[i]);
        UpdateStep(c, start, before, api.State(), listed, ds, i, results, result, sound,
                   api.failures == old(api.failures));
        results := results + [result];
      } else {
        UpdateSkips(c, start, before, listed, ds, i, results, api.failures == old(api.failures));
      }
    }
    assert ds[..|ds|] == ds;
  }

  lemma UpdateSkips(c: C.Settings, w: World, w': World, listed: seq<Application>, ds: seq<D.Application>, i: nat,
                    results: seq<SyncResult>, sound: bool)
    requires i < |ds| && DistinctNames(ds) && !Exists(ds[i].name, listed)
    requires IsUpdatePhase(c, w, w', listed, ds[..i], results, sound)
    ensures IsUpdatePhase(c, w, w', listed, ds[..i + 1], results, sound)
  {
    hide Advances;
    AdvancesWidens(w, w', ds[..i], ds[..i + 1]);
    PrefixNames(listed, ds, i);
    FrameWidens(w.secrets, w'.secrets, TouchedNames(listed, ds[..i]), TouchedNames(listed, ds[..i + 1]));
    FrameWidens(w.apps, w'.apps, UpdatedNames(listed, ds[..i]), UpdatedNames(listed, ds[..i + 1]));
    assert UpdateHeaders(listed, ds[..i]) + [] == UpdateHeaders(listed, ds[..i]);
    assert UpdatePlan(c, listed, ds[..i]) + [] == UpdatePlan(c, listed, ds[..i]);
    UpdatedResultNames(listed, ds[..i], results);
    AddOne(w'.apps, c, ds, i, results);
    MovedNoMore(c, w.apps, w'.apps, ds, i);
  }

  lemma UpdateStep(c: C.Settings, w: World, w': World, w'': World, listed: seq<Application>, ds: seq<D.Application>,
                   i: nat, results: seq<SyncResult>, r: SyncResult, sound: bool, still: bool)
    requires i < |ds| && DistinctNames(ds) && Exists(ds[i].name, listed)
    requires IsUpdatePhase(c, w, w', listed, ds[..i], results, sound)
    requires IsUpdate(c, w', w'', Find(ds[i].name, listed), ds[i], r, still) && (still ==> sound)
    ensures IsUpdatePhase(c, w, w'', listed, ds[..i + 1], results + [r], still)
  {
    hide Run, UpdatePlan, UpdateEffects, CredentialsNames, ParametersNames, AreTrue, Moved, C.Convert, Find, InDirector,
         Advances;
    var d := ds[i];
    AdvancesByOne(w, w', w'', ds, i);
    var existing := Find(d.name, listed);
    PrefixNames(listed, ds, i);
    var names := TouchedNames(listed, ds[..i + 1]);
    FrameWidens(w.secrets, w'.secrets, TouchedNames(listed, ds[..i]), names);
    assert ReferencedNames(existing) <= AllReferencedNames(listed);
    FrameWidens(w'.secrets, w''.secrets, ReferencedNames(existing) + CredentialsNames(d) + ParametersNames(d), names);
    var updated := UpdatedNames(listed, ds[..i + 1]);
    FrameWidens(w.apps, w'.apps, UpdatedNames(listed, ds[..i]), updated);
    FrameWidens(w'.apps, w''.apps, {d.name}, updated);
    UpdatedResultNames(listed, ds[..i], results);
    AddOne(w'.apps, c, ds, i, results);
    KeepResults(w'.apps, w''.apps, c, ds[..i + 1], results, d.name);
    NewResult(w''.apps, c, ds, i, results, r);
    HeadersStep(results, r);
    UpdatePlanStep(c, w, w', w'', listed, ds, i, still);
    MovedStep(c, w.apps, w'.apps, w''.apps, ds, i);
    UidsStep(w.apps, w'.apps, w''.apps, d.name);
    assert still && updated <= w.apps.Keys ==> AllSucceeded(results + [r]);
  }

  lemma UpdatePlanStep(c: C.Settings, w: World, w': World, w'': World, listed: seq<Application>, ds: seq<D.Application>,
                       i: nat, still: bool)
    requires i < |ds| && Exists(ds[i].name, listed)
    requires still && UpdatedNames(listed, ds[..i]) <= w.apps.Keys ==> w' == Run(w, UpdatePlan(c, listed, ds[..i]))
    requires still && ds[i].name in w'.apps ==> w'' == Run(w', UpdateEffects(c, Find(ds[i].name, listed), ds[i]))
    requires w'.apps.Keys == w.apps.Keys
    ensures still && UpdatedNames(listed, ds[..i + 1]) <= w.apps.Keys ==>
              w'' == Run(w, UpdatePlan(c, listed, ds[..i + 1]))
  {
    PrefixNames(listed, ds, i);
    RunConcat(w, UpdatePlan(c, listed, ds[..i]), UpdateEffects(c, Find(ds[i].name, listed), ds[i]));
  }

  // ---------------------------------------------------------------- applications that moved

  lemma ComesFromMore(app: Application, c: C.Settings, ds: seq<D.Application>, i: nat)
    requires i < |ds| && ComesFrom(app, c, ds[..i])
    ensures ComesFrom(app, c, ds[..i + 1])
  {
    var j :| 0 <= j < i && Carries(app, C.Convert(c, ds[..i][j]));
    assert ds[..i + 1][j] == ds[..i][j];
  }

  lemma MovedNoMore(c: C.Settings, before: map<string, Application>, after: map<string, Application>,
                    ds: seq<D.Application>, i: nat)
    requires i < |ds|
    requires Moved(c, before, after, ds[..i])
    ensures Moved(c, before, after, ds[..i + 1])
  {
    forall n | n in after && ComesFrom(after[n], c, ds[..i])
      ensures ComesFrom(after[n], c, ds[..i + 1])
    {
      ComesFromMore(after[n], c, ds, i);
    }
  }

  lemma MovedStep(c: C.Settings, before: map<string, Application>, middle: map<string, Application>,
                  after: map<string, Application>, ds: seq<D.Application>, i: nat)
    requires i < |ds|
    requires Moved(c, before, middle, ds[..i])
    requires after - {ds[i].name} == middle - {ds[i].name}
    requires ds[i].name in after && !(ds[i].name in middle && after[ds[i].name] == middle[ds[i].name]) ==>
               Carries(after[ds[i].name], C.Convert(c, ds[i]))
    ensures Moved(c, before, after, ds[..i + 1])
  {
    MovedNoMore(c, before, middle, ds, i);
    forall n | n in after
      ensures (n in before && after[n] == before[n]) || ComesFrom(after[n], c, ds[..i + 1])
    {
      if n != ds[i].name {
        SameElsewhere(middle, after, ds[i].name, n);
      } else if !(n in middle && after[n] == middle[n]) {
        assert ds[..i + 1][i] == ds[i];
      }
    }
  }

  lemma UidsStep(before: map<string, Application>, middle: map<string, Application>, after: map<string, Application>,
                 name: string)
    requires SameUids(before, middle) && before.Keys == middle.Keys == after.Keys
    requires after - {name} == middle - {name} && (name in middle ==> after[name].uid == middle[name].uid)
    ensures SameUids(before, after)
  {
    forall n | n in before && n in after
      ensures after[n].uid == before[n].uid
    {
      if n != name {
        SameElsewhere(middle, after, name, n);
      }
    }
  }

  // ---------------------------------------------------------------- results and their names

  lemma {:induction false} CreateHeaderNames(listed: seq<Application>, ds: seq<D.Application>)
    ensures forall h <- CreateHeaders(listed, ds) ::
              InDirector(h.name, ds) && !Exists(h.name, listed) && h.operation == Created
    ensures forall n :: InDirector(n, ds) && !Exists(n, listed) ==> exists h <- CreateHeaders(listed, ds) :: h.name == n
  {
    if ds != [] {
      var front, d := ds[..|ds| - 1], ds[|ds| - 1];
      CreateHeaderNames(listed, front);
      assert ds == front + [d];
      forall n | InDirector(n, ds) && !Exists(n, listed)
        ensures exists h <- CreateHeaders(listed, ds) :: h.name == n
      {
        if n == d.name {
          assert Header(d.name, d.id, Created) in CreateHeaders(listed, ds);
        } else {
          assert InDirector(n, front);
          var h :| h in CreateHeaders(listed, front) && h.name == n;
          assert h in CreateHeaders(listed, ds);
        }
      }
    }
  }

  lemma CreatedResultNames(listed: seq<Application>, ds: seq<D.Application>, results: seq<SyncResult>)
    requires Headers(results) == CreateHeaders(listed, ds)
    ensures forall k :: 0 <= k < |results| ==> InDirector(results[k].name, ds) && !Exists(results[k].name, listed)
  {
    CreateHeaderNames(listed, ds);
    forall k | 0 <= k < |results|
      ensures InDirector(results[k].name, ds) && !Exists(results[k].name, listed)
    {
      assert Headers(results)[k] in CreateHeaders(listed, ds);
    }
  }

  /** Results about earlier applications do not speak of the next one. */
  lemma AddOne(apps: map<string, Application>, c: C.Settings, ds: seq<D.Application>, i: nat, results: seq<SyncResult>)
    requires i < |ds| && DistinctNames(ds)
    requires forall k :: 0 <= k < |results| ==> InDirector(results[k].name, ds[..i])
    requires AreTrue(apps, c, ds[..i], results)
    ensures forall k :: 0 <= k < |results| ==> results[k].name != ds[i].name
    ensures AreTrue(apps, c, ds[..i + 1], results)
  {
    forall k | 0 <= k < |results|
      ensures results[k].name != ds[i].name && IsTrue(apps, c, ds[..i + 1], results[k])
    {
      var j :| 0 <= j < i && ds[..i][j].name == results[k].name;
      assert ds[j].name == results[k].name;
      assert forall j :: 0 <= j < i ==> ds[..i + 1][j] == ds[..i][j];
    }
  }

  lemma NewResult(apps: map<string, Application>, c: C.Settings, ds: seq<D.Application>, i: nat,
                  results: seq<SyncResult>, r: SyncResult)
    requires i < |ds| && DistinctNames(ds)
    requires AreTrue(apps, c, ds[..i + 1], results)
    requires r.name == ds[i].name && r.operation != Deleted
    requires r.error.None? ==> r.name in apps && Carries(apps[r.name], C.Convert(c, ds[i]))
    ensures AreTrue(apps, c, ds[..i + 1], results + [r])
  {
    assert forall j :: 0 <= j < i + 1 ==> ds[..i + 1][j] == ds[j];
    assert IsTrue(apps, c, ds[..i + 1], r);
  }

  /** Results about other names stay true when one application changes. */
  lemma KeepResults(before: map<string, Application>, after: map<string, Application>, c: C.Settings,
                    ds: seq<D.Application>, results: seq<SyncResult>, name: string)
    requires before - {name} == after - {name}
    requires forall k :: 0 <= k < |results| ==> results[k].name != name
    requires AreTrue(before, c, ds, results)
    ensures AreTrue(after, c, ds, results)
  {
    forall k | 0 <= k < |results|
      ensures IsTrue(after, c, ds, results[k])
    {
      SameElsewhere(before, after, name, results[k].name);
    }
  }

  lemma SameElsewhere(before: map<string, Application>, after: map<string, Application>, name: string, other: string)
    requires before - {name} == after - {name} && other != name
    ensures other in before <==> other in after
    ensures other in before ==> before[other] == after[other]
  {
    assert other in before <==> other in before - {name};
    assert other in after <==> other in after - {name};
    if other in before {
      assert (before - {name})[other] == (after - {name})[other];
    }
  }

  lemma {:induction false} UpdateHeaderNames(listed: seq<Application>, ds: seq<D.Application>)
    ensures forall h <- UpdateHeaders(listed, ds) ::
              InDirector(h.name, ds) && Exists(h.name, listed) && h.operation == Updated
    ensures forall n :: InDirector(n, ds) && Exists(n, listed) ==> exists h <- UpdateHeaders(listed, ds) :: h.name == n
  {
    if ds != [] {
      var front, d := ds[..|ds| - 1], ds[|ds| - 1];
      UpdateHeaderNames(listed, front);
      assert ds == front + [d];
      forall n | InDirector(n, ds) && Exists(n, listed)
        ensures exists h <- UpdateHeaders(listed, ds) :: h.name == n
      {
        if n == d.name {
          assert Header(d.name, d.id, Updated) in UpdateHeaders(listed, ds);
        } else {
          assert InDirector(n, front);
          var h :| h in UpdateHeaders(listed, front) && h.name == n;
          assert h in UpdateHeaders(listed, ds);
        }
      }
    }
  }

  lemma UpdatedResultNames(listed: seq<Application>, ds: seq<D.Application>, results: seq<SyncResult>)
    requires Headers(results) == UpdateHeaders(listed, ds)
    ensures forall k :: 0 <= k < |results| ==> InDirector(results[k].name, ds) && Exists(results[k].name, listed)
  {
    UpdateHeaderNames(listed, ds);
    forall k | 0 <= k < |results|
      ensures InDirector(results[k].name, ds) && Exists(results[k].name, listed)
    {
      assert Headers(results)[k] in UpdateHeaders(listed, ds);
    }
  }

  lemma {:induction false} DeleteHeaderNames(listed: seq<Application>, ds: seq<D.Application>)
    ensures forall h <- DeleteHeaders(listed, ds) ::
              Exists(h.name, listed) && !InDirector(h.name, ds) && h.operation == Deleted
    ensures forall n :: Exists(n, listed) && !InDirector(n, ds) ==> exists h <- DeleteHeaders(listed, ds) :: h.name == n
  {
    if listed != [] {
      var front, a := listed[..|listed| - 1], listed[|listed| - 1];
      DeleteHeaderNames(front, ds);
      assert listed == front + [a];
      forall n | Exists(n, listed) && !InDirector(n, ds)
        ensures exists h <- DeleteHeaders(listed, ds) :: h.name == n
      {
        if n == a.name {
          assert Header(a.name, ApplicationId(a), Deleted) in DeleteHeaders(listed, ds);
        } else {
          assert Exists(n, front);
          var h :| h in DeleteHeaders(front, ds) && h.name == n;
          assert h in DeleteHeaders(listed, ds);
        }
      }
    }
  }
}
