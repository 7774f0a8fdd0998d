/**
 From a Director application to an Application resource
 (components/compass-runtime-agent/internal/kyma/applications/converter.go).
 */
module Converter {
  import opened Wrappers
  import opened Normalization
  import opened Resources
  import D = Director
  import NR = NameResolver

  const DEFAULT_DESCRIPTION := "Description not provided"
  const CONNECTED_APP_LABEL := "connected-app"
  const MANAGED_BY_LABEL := "applicationconnector.kyma-project.io/managed-by"
  const MANAGED_BY := "compass-runtime-agent"
  const OAUTH_TYPE := "OAuth"
  const BASIC_TYPE := "Basic"

  /** The converter's settings; `idSuffix` gives the five digits of an id's SHA-1 sum. */
  datatype Settings = Settings(gatewayUrl: string, skipVerify: bool, idSuffix: string -> string)

  function Convert(c: Settings, app: D.Application): Application {
    Application(
      app.name, 0, map[MANAGED_BY_LABEL := MANAGED_BY],
      Spec(
        if app.description == "" then DEFAULT_DESCRIPTION else app.description,
        false,
        Services(c, app.name, app.bundles),
        map[CONNECTED_APP_LABEL := app.name],
        Some(CompassMetadata(app.id, app.systemAuthIds)),
        c.skipVerify,
        false,
        NO_PROFILE))
  }

  function Services(c: Settings, application: string, bundles: seq<D.Bundle>): seq<Service> {
    seq(|bundles|, i requires 0 <= i < |bundles| => ToService(c, application, bundles[i]))
  }

  function ToService(c: Settings, application: string, b: D.Bundle): Service {
    Service(
      b.id,
      NormalizeServiceNameWithId(b.name, c.idSuffix(b.id)),
      b.name,
      if b.description.Some? && b.description.value != "" then b.description.value else DEFAULT_DESCRIPTION,
      b.authSchema,
      ServiceEntries(c, application, b),
      "", "", [])
  }

  function ServiceEntries(c: Settings, application: string, b: D.Bundle): seq<Entry> {
    seq(|b.apis|, i requires 0 <= i < |b.apis| => ToApiEntry(c, application, b, b.apis[i]))
    + seq(|b.events|, i requires 0 <= i < |b.events| => ToEventEntry(b.events[i]))
  }

  function ToApiEntry(c: Settings, application: string, b: D.Bundle, api: D.ApiDefinition): Entry {
    Entry(
      api.id, api.name, API_TYPE, api.targetUrl,
      c.gatewayUrl + GatewayPath(application, b.name, api.name),
      ToCredentials(application, b),
      if b.Parameters().Some? then NR.ParametersSecretName(application, b.id) else "")
  }

  function ToEventEntry(event: D.EventDefinition): Entry {
    Entry(event.id, event.name, EVENTS_TYPE, "", "", NO_CREDENTIALS, "")
  }

  /** The path under which the gateway serves an API. */
  function GatewayPath(application: string, bundleName: string, apiName: string): string {
    "/" + application + "/" + NormalizeName(bundleName) + "/" + NormalizeName(apiName)
  }

  function ToCredentials(application: string, b: D.Bundle): EntryCredentials {
    match b.Credentials()
    case None => NO_CREDENTIALS
    case Some(c) =>
      if c.oauth.Some? then
        EntryCredentials(OAUTH_TYPE, NR.CredentialsSecretName(application, b.id), c.oauth.value.url, c.csrf)
      else
        EntryCredentials(BASIC_TYPE, NR.CredentialsSecretName(application, b.id), "", c.csrf)
  }

  // The loops of the converter.

  method ConvertServices(c: Settings, application: string, bundles: seq<D.Bundle>) returns (services: seq<Service>)
    ensures services == Services(c, application, bundles)
  {
    services := [];
    for i := 0 to |bundles|
      invariant services == Services(c, application, bundles[..i])
    {
      services := services + [ToService(c, application, bundles[i])];
    }
    assert bundles[..|bundles|] == bundles;
  }

  method ConvertEntries(c: Settings, application: string, b: D.Bundle) returns (entries: seq<Entry>)
    ensures entries == ServiceEntries(c, application, b)
  {
    entries := [];
    for i := 0 to |b.apis|
      invariant entries == seq(i, k requires 0 <= k < i => ToApiEntry(c, application, b, b.apis[k]))
    {
      entries := entries + [ToApiEntry(c, application, b, b.apis[i])];
    }
    ghost var apiEntries := entries;
    for i := 0 to |b.events|
      invariant entries == apiEntries + seq(i, k requires 0 <= k < i => ToEventEntry(b.events[k]))
    {
      entries := entries + [ToEventEntry(b.events[i])];
    }
  }

  // ---------------------------------------------------------------- the secrets a converted application names

  /** Exactly the bundles with an API and with some kind of credentials have their secret named in the resource. */
  lemma NamedCredentials(c: Settings, application: string, bundles: seq<D.Bundle>)
    ensures CredentialsSecretNames(Services(c, application, bundles))
            == set b | b in bundles && b.apis != [] && b.Credentials().Some? ::
              NR.CredentialsSecretName(application, b.id)
  {
    var services := Services(c, application, bundles);
    forall b | b in bundles && b.apis != [] && b.Credentials().Some?
      ensures NR.CredentialsSecretName(application, b.id) in CredentialsSecretNames(services)
    {
      var i :| 0 <= i < |bundles| && bundles[i] == b;
      assert services[i] in services;
      assert services[i].entries[0] == ToApiEntry(c, application, b, b.apis[0]);
      assert services[i].entries[0] in services[i].entries;
    }
    forall s, e | s in services && e in s.entries && e.credentials.secretName != ""
      ensures exists b :: b in bundles && b.apis != [] && b.Credentials().Some?
                          && e.credentials.secretName == NR.CredentialsSecretName(application, b.id)
    {
      var i :| 0 <= i < |services| && services[i] == s;
      EntryOrigin(c, application, bundles[i], e);
    }
  }

  lemma NamedParameters(c: Settings, application: string, bundles: seq<D.Bundle>)
    ensures ParametersSecretNames(Services(c, application, bundles))
            == set b | b in bundles && b.apis != [] && b.Parameters().Some? ::
              NR.ParametersSecretName(application, b.id)
  {
    var services := Services(c, application, bundles);
    forall b | b in bundles && b.apis != [] && b.Parameters().Some?
      ensures NR.ParametersSecretName(application, b.id) in ParametersSecretNames(services)
    {
      var i :| 0 <= i < |bundles| && bundles[i] == b;
      assert services[i] in services;
      assert services[i].entries[0] == ToApiEntry(c, application, b, b.apis[0]);
      assert services[i].entries[0] in services[i].entries;
    }
    forall s, e | s in services && e in s.entries && e.parametersSecretName != ""
      ensures exists b :: b in bundles && b.apis != [] && b.Parameters().Some?
                          && e.parametersSecretName == NR.ParametersSecretName(application, b.id)
    {
      var i :| 0 <= i < |services| && services[i] == s;
      EntryOrigin(c, application, bundles[i], e);
    }
  }

  /** Every entry comes from an API, or from an event, which names no secret. */
  lemma EntryOrigin(c: Settings, application: string, b: D.Bundle, e: Entry)
    requires e in ServiceEntries(c, application, b)
    ensures (exists api :: api in b.apis && e == ToApiEntry(c, application, b, api))
            || (e.entryType == EVENTS_TYPE && e.credentials == NO_CREDENTIALS && e.parametersSecretName == "")
  {
    var k :| 0 <= k < |ServiceEntries(c, application, b)| && ServiceEntries(c, application, b)[k] == e;
    if k < |b.apis| {
      assert b.apis[k] in b.apis;
    }
  }
}
