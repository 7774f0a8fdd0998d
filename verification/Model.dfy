/** Optional values and outcomes. */
module Wrappers {
  datatype Option<+T> = None | Some(value: T)

  datatype Result<+T, +E> = Success(value: T) | Failure(error: E)
}

/** What the Compass Director sends (components/compass-runtime-agent/internal/kyma/model/types.go). */
module Director {
  import opened Wrappers

  type Fields = map<string, seq<string>>

  datatype OAuth = OAuth(url: string, clientId: string, clientSecret: string)

  datatype Basic = Basic(username: string, password: string)

  datatype Credentials = Credentials(oauth: Option<OAuth>, basic: Option<Basic>, csrf: Option<string>)

  datatype RequestParameters = RequestParameters(headers: Option<Fields>, queryParameters: Option<Fields>) {
    predicate IsEmpty() {
      (headers.None? || |headers.value| == 0) && (queryParameters.None? || |queryParameters.value| == 0)
    }
  }

  datatype Auth = Auth(credentials: Option<Credentials>, requestParameters: Option<RequestParameters>)

  datatype ApiDefinition = ApiDefinition(id: string, name: string, targetUrl: string)

  datatype EventDefinition = EventDefinition(id: string, name: string)

  datatype Bundle = Bundle(
    id: string,
    name: string,
    description: Option<string>,
    authSchema: Option<string>,
    apis: seq<ApiDefinition>,
    events: seq<EventDefinition>,
    auth: Option<Auth>
  ) {
    /** The credentials of the bundle, if any kind is given. */
    function Credentials(): Option<Credentials> {
      if auth.Some? && auth.value.credentials.Some?
         && (auth.value.credentials.value.oauth.Some? || auth.value.credentials.value.basic.Some?)
      then auth.value.credentials
      else None
    }

    /** The request parameters of the bundle, if they are not empty. */
    function Parameters(): Option<RequestParameters> {
      if auth.Some? && auth.value.requestParameters.Some? && !auth.value.requestParameters.value.IsEmpty()
      then auth.value.requestParameters
      else None
    }
  }

  datatype Application = Application(
    id: string,
    name: string,
    description: string,
    systemAuthIds: seq<string>,
    bundles: seq<Bundle>
  )
}

/**
 The Application resource of the cluster
 (components/central-application-gateway/pkg/apis/applicationconnector/v1alpha1/types.go).
 */
module Resources {
  import opened Wrappers

  const API_TYPE := "API"
  const EVENTS_TYPE := "Events"

  datatype EntryCredentials = EntryCredentials(
    kind: string,
    secretName: string,
    authenticationUrl: string,
    csrf: Option<string>
  )

  const NO_CREDENTIALS := EntryCredentials("", "", "", None)

  datatype Entry = Entry(
    id: string,
    name: string,
    entryType: string,
    targetUrl: string,
    centralGatewayUrl: string,
    credentials: EntryCredentials,
    parametersSecretName: string
  )

  datatype Service = Service(
    id: string,
    name: string,
    displayName: string,
    description: string,
    authSchema: Option<string>,
    entries: seq<Entry>,
    // deprecated fields, which the agent leaves empty
    longDescription: string,
    providerDisplayName: string,
    tags: seq<string>
  )

  datatype CompassMetadata = CompassMetadata(applicationId: string, clientIds: seq<string>)

  /** The fields of the specification that the agent never writes after creation. */
  datatype Profile = Profile(
    tenant: string,
    group: string,
    tags: seq<string>,
    displayName: string,
    providerDisplayName: string,
    longDescription: string,
    accessLabel: string
  )

  const NO_PROFILE := Profile("", "", [], "", "", "", "")

  datatype Spec = Spec(
    description: string,
    skipInstallation: bool,
    services: seq<Service>,
    labels: map<string, string>,
    compassMetadata: Option<CompassMetadata>,
    skipVerify: bool,
    encodeUrl: bool,
    profile: Profile
  )

  datatype Application = Application(name: string, uid: nat, labels: map<string, string>, spec: Spec) {
    predicate IsManaged() {
      spec.compassMetadata.Some?
    }
  }

  /** The secrets that hold the credentials of the entries. */
  function CredentialsSecretNames(services: seq<Service>): set<string> {
    set s, e | s in services && e in s.entries && e.credentials.secretName != "" :: e.credentials.secretName
  }

  /** The secrets that hold the request parameters of the entries. */
  function ParametersSecretNames(services: seq<Service>): set<string> {
    set s, e | s in services && e in s.entries && e.parametersSecretName != "" :: e.parametersSecretName
  }
}
