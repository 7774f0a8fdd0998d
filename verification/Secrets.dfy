/** Error codes of the agent (components/compass-runtime-agent/internal/apperrors/apperrors.go); texts are left out. */
module AppErrors {
  import opened Wrappers

  datatype AppError = Internal | NotFound | AlreadyExists | WrongInput

  /** Appending keeps the code of the first error. */
  function AppendError(wrapped: Option<AppError>, new_: AppError): Option<AppError> {
    if wrapped.None? then Some(new_) else wrapped
  }
}

/**
 The secrets of an application's bundles
 (components/compass-runtime-agent/internal/kyma/secrets and its strategy package).
 */
module Secrets {
  import opened Wrappers
  import opened Resources
  import opened Cluster
  import opened AppErrors
  import D = Director
  import NR = NameResolver
  import C = Converter

  const USERNAME := "username"
  const PASSWORD := "password"
  const CLIENT_ID := "clientId"
  const CLIENT_SECRET := "clientSecret"
  const HEADERS := "headers"
  const QUERY_PARAMETERS := "queryParameters"

  // ---------------------------------------------------------------- strategies

  predicate IsAmbiguous(c: D.Credentials) {
    c.oauth.Some? && c.basic.Some?
  }

  /** Exactly one kind of credentials is given, and both of its parts are filled in. */
  predicate IsComplete(c: D.Credentials) {
    && c.oauth.Some? != c.basic.Some?
    && (c.basic.Some? ==> c.basic.value.username != "" && c.basic.value.password != "")
    && (c.oauth.Some? ==> c.oauth.value.clientId != "" && c.oauth.value.clientSecret != "")
  }

  function CredentialsData(c: D.Credentials): SecretData
    requires IsComplete(c)
  {
    if c.basic.Some? then map[USERNAME := Text(c.basic.value.username), PASSWORD := Text(c.basic.value.password)]
    else map[CLIENT_ID := Text(c.oauth.value.clientId), CLIENT_SECRET := Text(c.oauth.value.clientSecret)]
  }

  function ValueOf(data: SecretData, key: string): SecretValue {
    if key in data then data[key] else Text("")
  }

  predicate ShouldUpdate(c: D.Credentials, current: SecretData, new_: SecretData) {
    if c.basic.Some? then
      ValueOf(current, USERNAME) != ValueOf(new_, USERNAME) || ValueOf(current, PASSWORD) != ValueOf(new_, PASSWORD)
    else
      ValueOf(current, CLIENT_ID) != ValueOf(new_, CLIENT_ID)
      || ValueOf(current, CLIENT_SECRET) != ValueOf(new_, CLIENT_SECRET)
  }

  function TextOf(data: SecretData, key: string): string {
    if ValueOf(data, key).Text? then ValueOf(data, key).text else ""
  }

  /** The access strategies: what a reader of the entry and its secret gets back. */
  function ReadCredentials(entry: EntryCredentials, data: SecretData): Result<D.Credentials, AppError> {
    if entry.kind == C.BASIC_TYPE then
      Success(D.Credentials(None, Some(D.Basic(TextOf(data, USERNAME), TextOf(data, PASSWORD))), entry.csrf))
    else if entry.kind == C.OAUTH_TYPE then
      Success(D.Credentials(
        Some(D.OAuth(entry.authenticationUrl, TextOf(data, CLIENT_ID), TextOf(data, CLIENT_SECRET))), None, entry.csrf))
    else Failure(AppError.Internal)
  }

  function ParametersData(p: D.RequestParameters): SecretData {
    (if p.headers.Some? then map[HEADERS := Json(p.headers.value)] else map[])
    + (if p.queryParameters.Some? then map[QUERY_PARAMETERS := Json(p.queryParameters.value)] else map[])
  }

  function FieldsOf(data: SecretData, key: string): Result<Option<D.Fields>, AppError> {
    if key !in data then Success(None)
    else if data[key].Json? then Success(Some(data[key].fields))
    else Failure(AppError.Internal)
  }

  function ReadParameters(data: SecretData): Result<Option<D.RequestParameters>, AppError> {
    var headers, query := FieldsOf(data, HEADERS), FieldsOf(data, QUERY_PARAMETERS);
    if headers.Failure? || query.Failure? then Failure(AppError.Internal)
    else if headers.value.None? && query.value.None? then Success(None)
    else Success(Some(D.RequestParameters(headers.value, query.value)))
  }

  lemma ParametersRoundTrip(p: D.RequestParameters)
    requires !p.IsEmpty()
    ensures ReadParameters(ParametersData(p)) == Success(Some(p))
  {
    assert HEADERS != QUERY_PARAMETERS by { assert |HEADERS| != |QUERY_PARAMETERS|; }
  }

  // ---------------------------------------------------------------- repository

  method CreateSecret(api: ApiServer, name: string, s: Secret) returns (err: Option<AppError>)
    modifies api`secrets, api`failures
    ensures api.failures >= old(api.failures)
    ensures api.State() == if err.None? then WithSecret(old(api.State()), name, s) else old(api.State())
    ensures api.failures == old(api.failures) ==> (err.None? <==> name !in old(api.secrets))
  {
    var r := api.CreateSecret(name, s);
    err := match r
      case Success(_) => None
      case Failure(AlreadyExists) => Some(AppError.AlreadyExists)
      case Failure(_) => Some(AppError.Internal);
  }

  method GetSecret(api: ApiServer, name: string) returns (r: Result<SecretData, AppError>)
    modifies api`failures
    ensures r.Success? ==> name in api.secrets && r.value == api.secrets[name].data && api.failures == old(api.failures)
    ensures r.Failure? && r.error.NotFound? ==> name !in api.secrets && api.failures == old(api.failures)
    ensures r.Failure? && !r.error.NotFound? ==> api.failures > old(api.failures)
  {
    var s := api.GetSecret(name);
    r := match s
      case Success(secret) => Success(secret.data)
      case Failure(NotFound) => Failure(AppError.NotFound)
      case Failure(_) => Failure(AppError.Internal);
  }

  method DeleteSecret(api: ApiServer, name: string) returns (err: Option<AppError>)
    modifies api`secrets, api`failures
    ensures api.failures == if err.None? then old(api.failures) else old(api.failures) + 1
    ensures api.State() == if err.None? then WithoutSecrets(old(api.State()), {name}) else old(api.State())
  {
    var r := api.DeleteSecret(name);
    if r.Failure? && r.error.NotFound? {
      assert api.secrets - {name} == api.secrets;
      err := None;
    } else {
      err := if r.Success? then None else Some(AppError.Internal);
    }
  }

  method UpsertSecret(api: ApiServer, name: string, s: Secret) returns (err: Option<AppError>)
    modifies api`secrets, api`failures
    ensures api.failures >= old(api.failures)
    ensures api.State() == if err.None? then WithSecret(old(api.State()), name, s) else old(api.State())
    ensures api.failures == old(api.failures) ==> err.None?
  {
    var r := api.UpdateSecret(name, s);
    match r
    case Success(_) => err := None;
    case Failure(NotFound) => err := CreateSecret(api, name, s);
    case Failure(_) => err := Some(AppError.Internal);
  }

  // ---------------------------------------------------------------- services

  /** The cluster after the credentials of a bundle were stored: a secret that already reads the same stays as it is. */
  function WithCredentials(w: World, application: string, uid: nat, bundleId: string, c: D.Credentials): World {
    if !IsComplete(c) then w
    else
      var name := NR.CredentialsSecretName(application, bundleId);
      if name in w.secrets && !ShouldUpdate(c, w.secrets[name].data, CredentialsData(c)) then w
      else WithSecret(w, name, Secret(application, bundleId, uid, CredentialsData(c)))
  }

  method UpsertCredentials(api: ApiServer, application: string, uid: nat, bundleId: string, c: D.Credentials)
    returns (err: Option<AppError>)
    modifies api`secrets, api`failures
    ensures api.failures >= old(api.failures)
    ensures api.State() == if err.None? then WithCredentials(old(api.State()), application, uid, bundleId, c)
                           else old(api.State())
    ensures c.oauth.Some? == c.basic.Some? ==> err == Some(AppError.WrongInput)
    ensures api.failures == old(api.failures) ==> (err.None? <==> c.oauth.Some? != c.basic.Some?)
  {
    if c.oauth.Some? == c.basic.Some? {
      return Some(AppError.WrongInput);
    }
    if !IsComplete(c) {
      return None;
    }
    var name := NR.CredentialsSecretName(application, bundleId);
    var data := CredentialsData(c);
    var current := GetSecret(api, name);
    match current
    case Success(d) =>
      if ShouldUpdate(c, d, data) {
        err := UpsertSecret(api, name, Secret(application, bundleId, uid, data));
      } else {
        err := None;
      }
    case Failure(NotFound) =>
      err := CreateSecret(api, name, Secret(application, bundleId, uid, data));
    case Failure(e) =>
      err := Some(e);
  }

  /** The cluster after the request parameters of a bundle were stored: written anew unless they are empty. */
  function WithParameters(w: World, application: string, uid: nat, bundleId: string, p: D.RequestParameters): World {
    if p.IsEmpty() then w
    else
      WithSecret(w, NR.ParametersSecretName(application, bundleId),
                 Secret(application, bundleId, uid, ParametersData(p)))
  }

  method UpsertParameters(api: ApiServer, application: string, uid: nat, bundleId: string, p: D.RequestParameters)
    returns (err: Option<AppError>)
    modifies api`secrets, api`failures
    ensures api.failures >= old(api.failures)
    ensures api.State() == if err.None? then WithParameters(old(api.State()), application, uid, bundleId, p)
                           else old(api.State())
    ensures api.failures == old(api.failures) ==> err.None?
  {
    if p.IsEmpty() {
      return None;
    }
    err := UpsertSecret(api, NR.ParametersSecretName(application, bundleId),
                        Secret(application, bundleId, uid, ParametersData(p)));
  }

  /**
   Storing and reading back: once stored, the credentials of a bundle are what a reader of its entries gets, whether
   the secret was written or found to be up to date, whatever was stored under its name before.
   */
  lemma CredentialsRoundTrip(w: World, application: string, uid: nat, b: D.Bundle)
    requires b.Credentials().Some? && IsComplete(b.Credentials().value)
    ensures var c := b.Credentials().value;
            var w' := WithCredentials(w, application, uid, b.id, c);
            var entry := C.ToCredentials(application, b);
            entry.secretName in w'.secrets
            && ReadCredentials(entry, w'.secrets[entry.secretName].data) == Success(c)
  {
    CredentialsDataReadsBack(b.Credentials().value);
    var c := b.Credentials().value;
    var name := NR.CredentialsSecretName(application, b.id);
    if name in w.secrets && !ShouldUpdate(c, w.secrets[name].data, CredentialsData(c)) {
      UpToDateReadsTheSame(c, w.secrets[name].data);
    }
    assert C.BASIC_TYPE[0] != C.OAUTH_TYPE[0];
  }

  lemma CredentialsDataReadsBack(c: D.Credentials)
    requires IsComplete(c)
    ensures c.basic.Some? ==> TextOf(CredentialsData(c), USERNAME) == c.basic.value.username
                              && TextOf(CredentialsData(c), PASSWORD) == c.basic.value.password
    ensures c.oauth.Some? ==> TextOf(CredentialsData(c), CLIENT_ID) == c.oauth.value.clientId
                              && TextOf(CredentialsData(c), CLIENT_SECRET) == c.oauth.value.clientSecret
  {
    assert USERNAME[0] != PASSWORD[0];
    assert |CLIENT_ID| != |CLIENT_SECRET|;
  }

  lemma UpToDateReadsTheSame(c: D.Credentials, data: SecretData)
    requires IsComplete(c)
    requires !ShouldUpdate(c, data, CredentialsData(c))
    ensures c.basic.Some? ==> TextOf(data, USERNAME) == c.basic.value.username
                              && TextOf(data, PASSWORD) == c.basic.value.password
    ensures c.oauth.Some? ==> TextOf(data, CLIENT_ID) == c.oauth.value.clientId
                              && TextOf(data, CLIENT_SECRET) == c.oauth.value.clientSecret
  {
    CredentialsDataReadsBack(c);
  }
}
