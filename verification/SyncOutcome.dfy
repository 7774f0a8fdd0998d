/**
 What is on the cluster after a synchronisation, told from the Director's list alone: field by field, name by name, and
 without the functions that the agent converts and stores with.
 */
module SyncOutcome {
  import opened Wrappers
  import opened Resources
  import opened Cluster
  import opened Secrets
  import opened SyncPlan
  import opened SyncService
  import opened Synchronisation
  import opened SyncSecrets
  import opened SyncTheorems
  import opened SyncHistory
  import D = Director
  import NR = NameResolver
  import C = Converter
  import N = Normalization
  import G = Gateway
  import A = SyncApply

  // ---------------------------------------------------------------- one application

  predicate ShowsDescription(given: string, shown: string) {
    shown == if given != "" then given else "Description not provided"
  }

  /** The two kinds of credentials a bundle can have, as they stand in the Director's answer. */
  predicate GivesOauth(b: D.Bundle, o: D.OAuth) {
    b.auth.Some? && b.auth.value.credentials.Some? && b.auth.value.credentials.value.oauth == Some(o)
  }

  predicate GivesBasic(b: D.Bundle, p: D.Basic) {
    && b.auth.Some? && b.auth.value.credentials.Some?
    && b.auth.value.credentials.value.basic == Some(p) && b.auth.value.credentials.value.oauth.None?
  }

  predicate GivesNeither(b: D.Bundle) {
    b.auth.Some? && b.auth.value.credentials.Some? ==>
      b.auth.value.credentials.value.oauth.None? && b.auth.value.credentials.value.basic.None?
  }

  /** The bundle asks for headers or query parameters. */
  predicate GivesFields(b: D.Bundle, p: D.RequestParameters) {
    && b.auth.Some? && b.auth.value.requestParameters == Some(p)
    && ((p.headers.Some? && |p.headers.value| > 0) || (p.queryParameters.Some? && |p.queryParameters.value| > 0))
  }

  /** The entry names the kind and the secret of the bundle's credentials. */
  ghost predicate ShowsCredentials(application: string, b: D.Bundle, e: EntryCredentials) {
    var n := NR.CredentialsSecretName(application, b.id);
    && (GivesNeither(b) ==> e == EntryCredentials("", "", "", None))
    && (forall o :: GivesOauth(b, o) ==> e == EntryCredentials("OAuth", n, o.url, b.auth.value.credentials.value.csrf))
    && (forall p :: GivesBasic(b, p) ==> e == EntryCredentials("Basic", n, "", b.auth.value.credentials.value.csrf))
  }

  ghost predicate ShowsParameters(application: string, b: D.Bundle, name: string) {
    && (forall p :: GivesFields(b, p) ==> name == NR.ParametersSecretName(application, b.id))
    && ((forall p :: !GivesFields(b, p)) ==> name == "")
  }

  /** A path below the gateway's URL, which the gateway takes apart into application, bundle and API. */
  ghost predicate LeadsTo(gatewayUrl: string, url: string, application: string, b: D.Bundle, api: D.ApiDefinition) {
    && gatewayUrl <= url
    && ('/' !in application && application != "" && N.NormalizeName(api.name) != "" ==>
          var path := url[|gatewayUrl|..];
          G.Extract(path, 3)
          == Success(G.Request([application, N.NormalizeName(b.name), N.NormalizeName(api.name)], "", path)))
  }

  ghost predicate ShowsApi(c: C.Settings, application: string, b: D.Bundle, api: D.ApiDefinition, e: Entry) {
    && e.id == api.id && e.name == api.name && e.entryType == "API" && e.targetUrl == api.targetUrl
    && LeadsTo(c.gatewayUrl, e.centralGatewayUrl, application, b, api)
    && ShowsCredentials(application, b, e.credentials)
    && ShowsParameters(application, b, e.parametersSecretName)
  }

  predicate ShowsEvent(event: D.EventDefinition, e: Entry) {
    && e.id == event.id && e.name == event.name && e.entryType == "Events" && e.targetUrl == ""
    && e.centralGatewayUrl == "" && e.credentials.secretName == "" && e.parametersSecretName == ""
  }

  ghost predicate ShowsBundle(c: C.Settings, application: string, b: D.Bundle, s: Service) {
    && s.id == b.id && s.displayName == b.name && s.authSchema == b.authSchema
    && s.name == N.NormalizeServiceNameWithId(b.name, c.idSuffix(b.id))
    && ShowsDescription(if b.description.Some? then b.description.value else "", s.description)
    && |s.entries| == |b.apis| + |b.events|
    && (forall j :: 0 <= j < |b.apis| ==> ShowsApi(c, application, b, b.apis[j], s.entries[j]))
    && (forall j :: 0 <= j < |b.events| ==> ShowsEvent(b.events[j], s.entries[|b.apis| + j]))
  }

  ghost predicate ShowsServices(c: C.Settings, d: D.Application, services: seq<Service>) {
    && |services| == |d.bundles|
    && forall i :: 0 <= i < |d.bundles| ==> ShowsBundle(c, d.name, d.bundles[i], services[i])
  }

  ghost predicate Shows(c: C.Settings, d: D.Application, a: Application) {
    && a.name == d.name
    && a.labels == map["applicationconnector.kyma-project.io/managed-by" := "compass-runtime-agent"]
    && a.spec.labels == map["connected-app" := d.name]
    && ShowsDescription(d.description, a.spec.description)
    && a.spec.compassMetadata == Some(CompassMetadata(d.id, d.systemAuthIds))
    && ShowsServices(c, d, a.spec.services)
  }

  lemma PrintedUrlLeads(c: C.Settings, application: string, b: D.Bundle, api: D.ApiDefinition)
    ensures LeadsTo(c.gatewayUrl, c.gatewayUrl + C.GatewayPath(application, b.name, api.name), application, b, api)
  {
    var path := C.GatewayPath(application, b.name, api.name);
    assert (c.gatewayUrl + path)[|c.gatewayUrl|..] == path;
    if '/' !in application {
      G.PrintedPathIsExtracted(application, b.name, api.name);
    }
  }

  lemma ConvertedApiShows(c: C.Settings, application: string, b: D.Bundle, api: D.ApiDefinition)
    ensures ShowsApi(c, application, b, api, C.ToApiEntry(c, application, b, api))
  {
    PrintedUrlLeads(c, application, b, api);
    hide LeadsTo, NR.CredentialsSecretName, NR.ParametersSecretName, C.GatewayPath;
    if b.Parameters().Some? {
      assert GivesFields(b, b.Parameters().value);
    }
  }

  lemma ConvertedBundleShows(c: C.Settings, application: string, b: D.Bundle)
    ensures ShowsBundle(c, application, b, C.ToService(c, application, b))
  {
    forall j | 0 <= j < |b.apis|
      ensures ShowsApi(c, application, b, b.apis[j], C.ToApiEntry(c, application, b, b.apis[j]))
    {
      ConvertedApiShows(c, application, b, b.apis[j]);
    }
    hide ShowsApi, N.NormalizeServiceNameWithId, C.ToApiEntry;
  }

  /** What carries the conversion of a Director application shows that application. */
  lemma CarriedShows(c: C.Settings, d: D.Application, a: Application)
    requires Carries(a, C.Convert(c, d))
    ensures Shows(c, d, a)
  {
    forall i | 0 <= i < |d.bundles|
      ensures ShowsBundle(c, d.name, d.bundles[i], C.ToService(c, d.name, d.bundles[i]))
    {
      ConvertedBundleShows(c, d.name, d.bundles[i]);
    }
    hide ShowsBundle, C.ToService;
  }

  // ---------------------------------------------------------------- a whole synchronisation

  /** Users' own applications, which have no Compass metadata, stay as they are. */
  ghost predicate LeavesUsers(w: World, w': World) {
    forall n :: n in w.apps && w.apps[n].spec.compassMetadata.None? ==> n in w'.apps && w'.apps[n] == w.apps[n]
  }

  /**
   Whatever fails, users' own applications stay as they are, and every application that is new or changed shows what the
   Director says of it. When all results are successes, every application of the Director does, and no other application
   has Compass metadata.
   */
  lemma SynchronisationShows(c: C.Settings, w: World, w': World, listed: seq<Application>, ds: seq<D.Application>,
                             results: seq<SyncResult>, sound: bool)
    requires Keyed(w) && Keyed(w') && IsListing(listed, w.apps) && DistinctNames(ds)
    requires A.IsSynchronisation(c, w, w', listed, ds, results, sound)
    ensures LeavesUsers(w, w')
    ensures forall n :: n in w'.apps && !(n in w.apps && w'.apps[n] == w.apps[n]) ==>
                          exists d <- ds :: d.name == n && Shows(c, d, w'.apps[n])
    ensures (forall k :: 0 <= k < |results| ==> results[k].error.None?) ==>
              && (forall i :: 0 <= i < |ds| ==> ds[i].name in w'.apps && Shows(c, ds[i], w'.apps[ds[i].name]))
              && (forall n :: n in w'.apps && w'.apps[n].spec.compassMetadata.Some? ==> exists d <- ds :: d.name == n)
  {
    hide Shows, Carries, C.Convert, Advances, Run, Plan, A.Converged, Moved, LeavesUsers, AreTrue, Keyed, IsListing;
    UnmanagedStay(w, w');
    forall n | n in w'.apps && !(n in w.apps && w'.apps[n] == w.apps[n])
      ensures exists d <- ds :: d.name == n && Shows(c, d, w'.apps[n])
    {
      NewShows(c, w, w', ds, n);
    }
    if AllSucceeded(results) {
      ConvergedShows(c, w', ds);
    }
  }

  lemma UnmanagedStay(w: World, w': World)
    requires A.LeavesUnmanaged(w, w')
    ensures LeavesUsers(w, w')
  {
  }

  lemma NewShows(c: C.Settings, w: World, w': World, ds: seq<D.Application>, n: string)
    requires Keyed(w') && Moved(c, w.apps, w'.apps, ds)
    requires n in w'.apps && !(n in w.apps && w'.apps[n] == w.apps[n])
    ensures exists d <- ds :: d.name == n && Shows(c, d, w'.apps[n])
  {
    hide Shows, Carries, C.Convert;
    var i :| 0 <= i < |ds| && Carries(w'.apps[n], C.Convert(c, ds[i]));
    CarriedShows(c, ds[i], w'.apps[n]);
    CarriedIsNamed(c, ds[i], w'.apps[n]);
    assert ds[i] in ds;
  }

  lemma ConvergedShows(c: C.Settings, w': World, ds: seq<D.Application>)
    requires A.Converged(w'.apps, c, ds)
    ensures forall i :: 0 <= i < |ds| ==> ds[i].name in w'.apps && Shows(c, ds[i], w'.apps[ds[i].name])
    ensures forall n :: n in w'.apps && w'.apps[n].spec.compassMetadata.Some? ==> exists d <- ds :: d.name == n
  {
    hide Shows, Carries, C.Convert;
    forall i | 0 <= i < |ds|
      ensures ds[i].name in w'.apps && Shows(c, ds[i], w'.apps[ds[i].name])
    {
      assert IsConverted(w'.apps, c, ds[i].name, ds);
      CarriedShows(c, ds[i], w'.apps[ds[i].name]);
    }
  }

  lemma CarriedIsNamed(c: C.Settings, d: D.Application, a: Application)
    requires Carries(a, C.Convert(c, d))
    ensures a.name == d.name
  {
  }

  /**
   A result gives the name and the id under which the Director, or else the Compass metadata, knows its application.
   */
  predicate TellsWhose(listed: seq<Application>, ds: seq<D.Application>, h: Header) {
    if h.operation == Deleted then
      exists a <- listed ::
        && a.name == h.name
        && h.id == if a.spec.compassMetadata.Some? then a.spec.compassMetadata.value.applicationId else ""
    else exists d <- ds :: d.name == h.name && d.id == h.id
  }

  lemma {:induction false} CreatedTellWhose(listed: seq<Application>, ds: seq<D.Application>, k: nat)
    requires k <= |ds|
    ensures forall h <- CreateHeaders(listed, ds[..k]) + UpdateHeaders(listed, ds[..k]) :: TellsWhose(listed, ds, h)
  {
    if k > 0 {
      CreatedTellWhose(listed, ds, k - 1);
      assert ds[..k][..k - 1] == ds[..k - 1] && ds[k - 1] in ds;
      hide Exists;
    }
  }

  lemma {:induction false} DeletedTellWhose(listed: seq<Application>, ds: seq<D.Application>, k: nat)
    requires k <= |listed|
    ensures forall h <- DeleteHeaders(listed[..k], ds) :: TellsWhose(listed, ds, h)
  {
    if k > 0 {
      DeletedTellWhose(listed, ds, k - 1);
      assert listed[..k][..k - 1] == listed[..k - 1] && listed[k - 1] in listed;
      hide InDirector;
    }
  }

  /** Every result tells whose it is. */
  lemma ResultsTellWhose(listed: seq<Application>, ds: seq<D.Application>, results: seq<SyncResult>)
    requires Headers(results) == Accounting(listed, ds)
    ensures forall r <- results :: TellsWhose(listed, ds, Header(r.name, r.id, r.operation))
  {
    CreatedTellWhose(listed, ds, |ds|);
    DeletedTellWhose(listed, ds, |listed|);
    assert ds[..|ds|] == ds && listed[..|listed|] == listed;
    hide CreateHeaders, UpdateHeaders, DeleteHeaders, TellsWhose;
    forall r | r in results
      ensures TellsWhose(listed, ds, Header(r.name, r.id, r.operation))
    {
      var k :| 0 <= k < |results| && results[k] == r;
      assert Headers(results)[k] == Header(r.name, r.id, r.operation);
      assert Headers(results)[k] in Accounting(listed, ds);
    }
  }

  /**
   The agent's own settings reach new applications only: one that was there before keeps whatever it had in the fields
   that the Director says nothing of.
   */
  lemma SettingsReachNewApplications(c: C.Settings, w: World, listed: seq<Application>, ds: seq<D.Application>, i: nat)
    requires IsStart(w, listed, ds) && i < |ds| && IsPresent(w, listed, ds, i)
    ensures var w', n := After(c, w, listed, ds), ds[i].name;
            && n in w'.apps
            && var spec := w'.apps[n].spec;
               if n in w.apps then
                 && spec.skipVerify == w.apps[n].spec.skipVerify && spec.encodeUrl == w.apps[n].spec.encodeUrl
                 && spec.skipInstallation == w.apps[n].spec.skipInstallation
                 && spec.profile == w.apps[n].spec.profile
               else
                 && spec.skipVerify == c.skipVerify && !spec.encodeUrl && !spec.skipInstallation
                 && spec.profile == NO_PROFILE
  {
    hide Run, CreatePlan, DeletePlan, UpdatePlan, After, C.Services;
    var n := ds[i].name;
    if Exists(n, listed) {
      ListedIsMerged(c, w, listed, ds, i);
    } else {
      NewIsConverted(c, w, listed, ds, i);
    }
  }

  lemma ListedIsMerged(c: C.Settings, w: World, listed: seq<Application>, ds: seq<D.Application>, i: nat)
    requires IsStart(w, listed, ds) && i < |ds| && Exists(ds[i].name, listed)
    ensures var w', n := After(c, w, listed, ds), ds[i].name;
            n in w.apps && n in w'.apps && w'.apps[n] == Merge(w.apps[n], C.Convert(c, ds[i]))
  {
    hide Run, CreatePlan, DeletePlan, UpdatePlan, After, C.Convert, Merge, DeletedNames;
    var n := ds[i].name;
    var w2 := AfterDeletions(c, w, listed, ds);
    InPhases(c, w, listed, ds);
    BeforeUpdates(c, w, listed, ds);
    assert ds[..|ds|] == ds;
    var a := Find(n, listed);
    var k :| 0 <= k < |listed| && listed[k] == a;
    CreatePhaseKeeps(c, w, listed, ds, |ds|, n);
    assert InDirector(n, ds);
    NotDeleted(listed, ds, n);
    UpdatePhaseMerges(c, w2, listed, ds, i);
    UpdateTailApps(c, w2, listed, ds, i + 1, |ds|, n);
  }

  lemma NewIsConverted(c: C.Settings, w: World, listed: seq<Application>, ds: seq<D.Application>, i: nat)
    requires IsStart(w, listed, ds) && i < |ds| && !Exists(ds[i].name, listed) && IsCreatable(w, ds[i].name)
    ensures var w', n := After(c, w, listed, ds), ds[i].name;
            n in w'.apps && w'.apps[n] == C.Convert(c, ds[i]).(uid := w'.apps[n].uid)
  {
    hide Run, CreatePlan, CreateEffects, After, C.Services;
    NewApplicationStays(c, w, listed, ds, i);
    CreatePlanGrows(c, w, listed, ds, i);
    CreateApps(Run(w, CreatePlan(c, w, listed, ds[..i])), c, ds[i]);
  }

  // ---------------------------------------------------------------- what a request is served with

  predicate Holds(w: World, n: string, key: string, text: string) {
    n in w.secrets && key in w.secrets[n].data && w.secrets[n].data[key] == Text(text)
  }

  predicate HoldsFields(w: World, n: string, key: string, fields: Option<D.Fields>) {
    && n in w.secrets
    && match fields
       case None => key !in w.secrets[n].data
       case Some(f) => key in w.secrets[n].data && w.secrets[n].data[key] == Json(f)
  }

  predicate HasBothKinds(b: D.Bundle) {
    && b.auth.Some? && b.auth.value.credentials.Some?
    && b.auth.value.credentials.value.oauth.Some? && b.auth.value.credentials.value.basic.Some?
  }

  /** What the gateway is told to use for an API of the bundle holds what the Director gave. */
  ghost predicate IsServedRight(w: World, b: D.Bundle, r: G.Definition, heldBack: bool) {
    && (GivesNeither(b) ==> r.credentials.None?)
    && (forall o :: GivesOauth(b, o) && !HasBothKinds(b) && o.clientId != "" && o.clientSecret != "" ==>
          && r.credentials.Some? && r.credentials.value.kind == "OAuth"
          && r.credentials.value.authenticationUrl == o.url
          && Holds(w, r.credentials.value.secretName, "clientId", o.clientId)
          && Holds(w, r.credentials.value.secretName, "clientSecret", o.clientSecret))
    && (forall p :: GivesBasic(b, p) && p.username != "" && p.password != "" ==>
          && r.credentials.Some? && r.credentials.value.kind == "Basic"
          && Holds(w, r.credentials.value.secretName, "username", p.username)
          && Holds(w, r.credentials.value.secretName, "password", p.password))
    && ((forall p :: !GivesFields(b, p)) ==> r.parametersSecretName == "")
    && (forall p :: GivesFields(b, p) && !heldBack ==>
          && HoldsFields(w, r.parametersSecretName, "headers", p.headers)
          && HoldsFields(w, r.parametersSecretName, "queryParameters", p.queryParameters))
  }

  /**
   From the Director's fields to a request: after any history that ends with a synchronisation without failures, the
   path that the entry of an API tells its callers resolves to its target URL and to secrets that hold, key by key,
   what the Director gave. Only the request parameters of an application that is new, and of which some bundle has
   credentials of both kinds, are still missing.
   */
  lemma RequestsAreServed(owners: Owners, c: C.Settings, w: World, steps: seq<Step>, a: Attempt,
                          i: nat, j: nat, k: nat, path: string, r: Result<G.Definition, G.GatewayError>)
    requires Invariant(owners, w) && IsHistory(c, owners, w, steps)
    requires IsStep(c, owners, Reached(w, steps), Synchronised(a)) && a.sound
    requires i < |a.ds| && G.IsApi(a.ds[i], j, k) && IsManagedIn(a.after, a.ds[i].name) && G.HasUniqueKey(a.ds[i], j, k)
    requires '/' !in a.ds[i].name && N.NormalizeName(a.ds[i].bundles[j].apis[k].name) != ""
    requires G.IsPrinted(c, a.after.apps, a.ds[i].name, j, k, path) && G.Resolves(Some(a.after.apps), path, r)
    ensures var before, d := Reached(w, steps), a.ds[i];
            var new_ := !(d.name in before.apps && before.apps[d.name].spec.compassMetadata.Some?);
            && r.Success? && r.value.targetUrl == d.bundles[j].apis[k].targetUrl
            && IsServedRight(a.after, d.bundles[j], r.value, new_ && exists b <- d.bundles :: HasBothKinds(b))
  {
    hide IsHistory, IsStep, Invariant, G.Resolves, G.IsPrinted, G.HasUniqueKey, Gives, GivesParameters, HasAmbiguous,
         N.NormalizeName, IsServedRight;
    RequestsFindCredentials(owners, c, w, steps, a, i, j, k, path, r);
    BothKindsAreAmbiguous(a.ds[i].bundles);
    GivenIsServed(a.after, a.ds[i].bundles[j], r.value,
                  !IsManagedIn(Reached(w, steps), a.ds[i].name) && HasAmbiguous(a.ds[i].bundles));
  }

  lemma BothKindsAreAmbiguous(bundles: seq<D.Bundle>)
    ensures HasAmbiguous(bundles) <==> exists b <- bundles :: HasBothKinds(b)
  {
  }

  lemma GivenIsServed(w: World, b: D.Bundle, r: G.Definition, heldBack: bool)
    requires b.Credentials().None? ==> r.credentials.None?
    requires b.Credentials().Some? && IsComplete(b.Credentials().value) ==>
               r.credentials.Some? && Gives(w, r.credentials.value, b.Credentials().value)
    requires b.Parameters().None? ==> r.parametersSecretName == ""
    requires b.Parameters().Some? && !heldBack ==> GivesParameters(w, r.parametersSecretName, b.Parameters().value)
    ensures IsServedRight(w, b, r, heldBack)
  {
    assert C.BASIC_TYPE[0] != C.OAUTH_TYPE[0];
    if b.Parameters().Some? {
      assert GivesFields(b, b.Parameters().value);
    }
  }

  /** Credentials of which a part is missing are never written, and those of both kinds are refused. */
  lemma IncompleteIsNotStored(w: World, application: string, uid: nat, id: string, c: D.Credentials)
    requires || (c.oauth.None? && c.basic.Some? && (c.basic.value.username == "" || c.basic.value.password == ""))
             || (c.basic.None? && c.oauth.Some? && (c.oauth.value.clientId == "" || c.oauth.value.clientSecret == ""))
             || (c.oauth.Some? && c.basic.Some?)
    ensures WithCredentials(w, application, uid, id, c) == w
  {
  }
}
