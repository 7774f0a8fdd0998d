# Verified models of the application connector

Four parts of the repository decide on their own what happens to a cluster, and each of them works on stores whose calls
may fail. This project models them in Dafny and proves what they guarantee.

1. **Application synchronisation** of the Compass runtime agent. `Cluster.ApiServer` holds Applications and secrets by
   name; any call may fail and is then counted. `SyncService`, `Synchronisation` and `SyncApply` follow the service
   method by method. Each method is proved against a relation that says what it did under arbitrary failures and, when
   no call failed, against the plan of `SyncPlan`: the sequence of effects that follow from the Director's list.
   `SyncSecrets`, `SyncTheorems`, `SyncFixedPoint`, `SyncHistory` and `SyncOwnership` prove what the plan and whole
   histories of synchronisations do to Applications and secrets; `SyncOutcome` says it field by field from the
   Director's list.
2. **The state machine of the application connector manager.** `Reconciler` gives one relation for each state
   function, `ReconcilerRun` the class with the functions themselves and the loop that drives them. `ReconcilerSafety`
   follows all behaviours: any number of runs, reads of stale versions, failing calls, cancelled runs, restarts and
   users who change the specification or the dependencies at any moment. `ReconcilerProgress` is about what a run
   hands over and how many runs a deletion takes, `ReconcilerDependencies` about what happens while Istio is missing,
   `ReconcilerOutcome` about what a run applies and reports.
   `Manifests` is about the shared manifests that every run rewrites, `Verification` about the readiness of what was
   applied.
3. **The Compass connection.** `Connection` has the resource, the clock and one relation for a reconciliation,
   `ConnectionRun` the supervisor and the controller, `ConnectionHistory` the histories: which states are reachable, how
   often applications are synchronised, when the certificate is renewed.
4. **Names, paths and redirects.** `Normalization`, `AgentNames` and `NameResolver` are about the names that the agent
   and the gateway make, `Converter` and `Gateway` about the path the agent prints and the gateway takes apart again,
   `Redirects` about redirects that are rewritten and followed.

`dafny verify dfyconfig.toml` checks all of it.

## What the code does not promise

Some of the properties one would expect hold only under a condition. The lemmas say exactly when.

- `NormalizeName` drops a last dash before it cuts the name. It is idempotent exactly for names that are not cut
  behind a dash (`NormalizeNameStability`, `NotIdempotent`).
- The agent's `Normalize` is idempotent exactly for names with a letter or a digit. All others become `mp`, which turns
  into `mp-mp` when the list is normalised again in place (`NormalizeIdempotent`).
- Secret names are cut to 26 characters of the application. A bundle that moves to an application with the same first 26
  characters loses its credentials to the deletion of the old application, in the same synchronisation that stored them
  (`RenamingLosesCredentials`); the next one stores them again (`TwoRunsSettle`). `CredentialsSurvive` has the exact
  condition.
- The two secrets of one bundle share a name exactly for applications that start with `params-params-params-param`
  (`KindsCollide`).
- A new application with a bundle whose credentials are of both kinds gets no request parameters until it is updated:
  they are stored exactly for applications that are listed or have no such bundle (`ParametersStoredExactly`). On an
  update the same ambiguity goes unreported, since the error of the credentials is overwritten (`UpdateSecrets`).
- A secret whose deletion fails after the specification was overwritten is not collected by the agent as long as the
  Director keeps the application that owns it (`OrphansAppear`, `OrphansStay`). Once the owner is gone, the garbage
  collector of the cluster can take it (`CollectorNeedsNoOwner`).
- That collector can also take a secret that is in use. Credentials that are found to read the same stay with their
  owner, whoever that is, for new applications and for those that were there before; `OwnedExactly` says exactly when
  the application owns its credentials, `AdoptedSecretsCanGo` exactly when the collector can take them, and
  `SettledSecretsCanGo` that further synchronisations do not repair it.
- The agent's setting for TLS verification does not reach applications that are there already
  (`SettingsReachNewApplications`).
- A redirect survives rewriting exactly under the conditions of `RedirectRoundTrip`: paths with empty segments, dots
  or a slash behind are cleaned and do not. One to a sibling whose name merely continues the target path goes astray
  (`SiblingRedirectGoesAstray`), and so does one whose first segment has a colon, since the rest of the path is parsed
  as a URL (`ColonsGoAstray`).
- While Istio is not served a resource is not deleted either: the finalizer stays (`UnservedKeepsFinalizer`), and each
  run even sets the deletion back, since its status overwrites the condition that was persisted
  (`DeletionNeedsIstio`).
- The finalizer can be removed although the deletion of an object failed, exactly when there are two objects or more
  (`FailureCanBeForgotten`), since each deletion overwrites the error of the one before.
- Custom resource definitions are never validated: their API version is compared with the bare group
  (`DefinitionsAreSkipped`). An object that is not ready hides behind a later one of the same inventory key
  (`DuplicateHides`).
- When the manifests cannot be rewritten or no domain is found, the status does not show it: it stays as it was
  (`StatusTellsOutcome`).
- A synchronisation that applied everything but could not label the runtime loses the time of the last application
  (`SyncShows`).
- A maintenance shows in the resource exactly when the applications are not skipped and the write after them succeeds
  (`MaintenanceIsShown`). Otherwise it is lost, although new credentials were stored, and a renewal that was asked for
  stays due (`MaintenanceIsLost`); `LossIsReached` is a history that ends so.
- A client certificate that is missing is not renewed for that, since only the secret of the authority is looked for
  (`MissingCertificateWaits`).
- Compass URLs that change and change back are missed, because reported URLs are compared with the resource, which only
  the first connection writes (`CachedUrls`, `RevertedUrlsAreMissed`); `ReversalIsReached` is a history that ends so.

## Model

| member | source | states |
|---|---|---|
| Normalization.NormalizeNameShape | components/central-application-gateway/pkg/normalization/normalization.go:37-50 | every result has at most 57 characters, all lower-case letters, digits or dashes, no dash in front and no two in a row |
| Normalization.LowerLetterByLetter | components/central-application-gateway/pkg/normalization/normalization.go:37-50 | lower-casing maps the 26 letters of ASCII one by one and leaves every other character |
| Normalization.PlainNameStays | components/central-application-gateway/pkg/normalization/normalization.go:37-50 | a name of at most 57 letters and digits is only put in lower case |
| Normalization.NormalizeNameJoinsWords | components/central-application-gateway/pkg/normalization/normalization.go:37-50 | the replace-trim-cut pipeline equals an independent definition: the words in lower case joined with single dashes and cut |
| Normalization.NormalizeNameEndsInDash | components/central-application-gateway/pkg/normalization/normalization.go:44-47 | the result ends in a dash exactly when the cut falls right behind one |
| Normalization.NormalizeNameStability | components/central-application-gateway/pkg/normalization/normalization.go:37-50 | a second pass changes nothing exactly for names not cut behind a dash; the second result is always stable |
| Normalization.NotIdempotent | components/central-application-gateway/pkg/normalization/normalization.go:44-47 | there is a name that a second pass changes |
| Normalization.ServiceNameWithIdShape | components/central-application-gateway/pkg/normalization/normalization.go:20-35 | with the suffix the name is not empty, at most 63 long, ends in the suffix, and has a double dash exactly when the name was cut behind a dash |
| AgentNames.NormalizeJoinsIdentity | components/compass-runtime-agent/internal/kyma/applications/normalizer.go:32-56 | every result is the words of the name in lower case joined with single dashes, with `mp` in front unless the name is normalised already |
| AgentNames.NormalizeIdempotent | components/compass-runtime-agent/internal/kyma/applications/normalizer.go:32-56 | idempotent exactly for names with a letter or digit; all others become `mp`, which becomes `mp-mp` |
| AgentNames.NormalizeCollision | components/compass-runtime-agent/internal/kyma/applications/normalizer.go:32-56 | two names become equal exactly when they consist of the same words |
| NameResolver.SecretNameFits | components/compass-runtime-agent/internal/k8sconsts/nameresolver.go:31-62 | with ids up to 36 characters a secret name has at most 63 and ends in the whole id |
| NameResolver.ResourceNamesEqual | components/compass-runtime-agent/internal/k8sconsts/nameresolver.go:41-62 | names with 36-character ids are equal exactly when the ids and the first 26 characters of the prefixes are |
| NameResolver.ShortIdsCollide | components/compass-runtime-agent/internal/k8sconsts/nameresolver.go:41-48 | without the fixed length of ids, different bundles can share a name |
| NameResolver.KindsCollide | components/compass-runtime-agent/internal/k8sconsts/nameresolver.go:31-39 | credentials and request parameters of one bundle share a name exactly for applications that repeat the prefix for 26 characters |
| NameResolver.KindsDiffer | components/compass-runtime-agent/internal/k8sconsts/nameresolver.go:31-39 | names of the two kinds never meet for applications that carry the agent's prefix |
| Converter.ConvertServices | components/compass-runtime-agent/internal/kyma/applications/converter.go:75-83 | the loop builds one service for each bundle, in order |
| Converter.ConvertEntries | components/compass-runtime-agent/internal/kyma/applications/converter.go:102-114 | the two loops build the entries of all APIs and then of all events |
| Converter.NamedCredentials | components/compass-runtime-agent/internal/kyma/applications/converter.go:75-171 | the resource names credentials secrets of exactly the bundles that have an API and some kind of credentials |
| Converter.NamedParameters | components/compass-runtime-agent/internal/kyma/applications/converter.go:75-137 | the same for request parameters |
| Gateway.Get | components/central-application-gateway/internal/metadata/applications/repository.go:119-142 | the nested loops return the one matching entry, WrongInput exactly when two positions match, NotFound exactly when none does |
| Gateway.GetByEntryName | components/central-application-gateway/internal/metadata/applications/repository.go:104-142 | resolves a request path by application, service and entry name, with the extractor's error for short and malformed paths, Internal when the application cannot be read and NotFound when it is not there |
| Gateway.PrintedPathIsExtracted | components/central-application-gateway/internal/proxy/factory.go:74-100 | the printed path is taken apart into its three names exactly when application and normalised API name are not empty, and refused otherwise |
| Gateway.RoutingRoundTrip | components/compass-runtime-agent/internal/kyma/applications/converter.go:116-143 | a request to the path that the entry's own gateway URL gives reaches target URL, secrets and settings of exactly that API when its normalised names are unique, and WrongInput for every API whose names are shared |
| Gateway.ResolvedIsOfApplication | components/central-application-gateway/internal/metadata/applications/repository.go:104-215 | whatever is resolved is an API entry whose application, service and entry the path names, with the fields of entry and service and the verification and encoding settings of the application |
| Gateway.RefusalsTellWhy | components/central-application-gateway/internal/metadata/applications/repository.go:104-175 | Internal exactly when the application cannot be read, NotFound when it or the API is not there, WrongInput when the API is there twice |
| Redirects.ParseOfPlain | components/central-application-gateway/internal/proxy/factory.go:86-97 | the rest of a path is read as the path it is exactly when its first segment has no colon; otherwise it is refused or its scheme and more is lost |
| Redirects.WalkParameters | components/central-application-gateway/pkg/httptools/queryparameters.go:12-18 | the loop adds the values of every parameter that the query does not name, in whatever order the parameters come |
| Redirects.EncodeSorts | components/central-application-gateway/pkg/httptools/queryparameters.go:20 | the encoded query has as many pairs and is sorted by names |
| Redirects.AtMostIsAlphabetical | components/central-application-gateway/pkg/httptools/queryparameters.go:20 | names are ordered as in a dictionary |
| Redirects.EncodeKeepsValues | components/central-application-gateway/pkg/httptools/queryparameters.go:20 | encoding keeps the values of every name in their order |
| Redirects.QueryArrives | components/central-application-gateway/internal/proxy/reverseproxy.go:61-69 | a query reaches the target unchanged exactly when the target has none of its own and the custom parameters, if there are any, neither add to it nor find it unsorted |
| Redirects.ForwardedRequest | components/central-application-gateway/internal/proxy/reverseproxy.go:46-70 | a forwarded request goes to scheme, host and port of the target, and for each name carries the values of the target URL, then those of the request, and only without any those of the custom parameters |
| Redirects.RedirectsKeepTheirHost | components/central-application-gateway/internal/proxy/reverseproxy.go:173-188 | for all URLs: a redirect is rewritten exactly when its scheme is http or https, it names the host of the target and continues its path, and a client that follows it never arrives at another host than the one it named |
| Redirects.ResponsesKeepTheRest | components/central-application-gateway/internal/proxy/reverseproxy.go:125-168 | failures of the target become 502 with the status reported beside them, the location of redirects and creations within the target is rewritten, and nothing else of a response changes |
| Redirects.RedirectArrives | components/central-application-gateway/internal/proxy/reverseproxy.go:56-69 | any redirect to a path that continues the target path, rewritten and sent back, comes back to the same API exactly when cleaning leaves its identifying segments, and then arrives at the target path joined with what is read of the others, with both queries and the custom parameters, or nowhere when the rest is refused |
| Redirects.RedirectRoundTrip | components/central-application-gateway/internal/proxy/reverseproxy.go:97-188 | any such redirect arrives where it pointed exactly when it keeps scheme and port, its query survives, and what follows the target path is nothing or, with one slash in between, a path without empty segments, dots, a colon in the first segment or a slash behind |
| Redirects.ReachableRedirects | components/central-application-gateway/internal/proxy/reverseproxy.go:56-111 | a redirect to anything below the target, joined as the director joins, survives exactly when its query does and its first segment has no colon |
| Redirects.ColonsGoAstray | components/central-application-gateway/internal/proxy/factory.go:92-97 | a redirect to `v1:search` arrives at the target itself, one to `1:x` is refused |
| Redirects.SiblingRedirectGoesAstray | components/central-application-gateway/internal/proxy/reverseproxy.go:173-188 | the prefix test takes a sibling for a child; wherever the client then arrives, it is not the path the redirect named |
| Secrets.ParametersRoundTrip | components/compass-runtime-agent/internal/kyma/secrets/requestparameters.go:15-67 | request parameters that are not empty read back from the data they are stored as |
| Secrets.CredentialsRoundTrip | components/compass-runtime-agent/internal/kyma/secrets/credentialsservice.go:41-107 | once stored or found up to date, the Director's credentials are what a reader of the entry gets |
| Secrets.UpsertCredentials | components/compass-runtime-agent/internal/kyma/secrets/credentialsservice.go:63-107 | an error leaves the cluster as it was; WrongInput exactly for no or both kinds; an incomplete kind stores nothing |
| SyncOutcome.IncompleteIsNotStored | components/compass-runtime-agent/internal/kyma/secrets/strategy/factory.go:40-67 | credentials of which a part is missing, or of both kinds, change nothing |
| Secrets.UpsertParameters | components/compass-runtime-agent/internal/kyma/secrets/requestparametersservice.go:54-76 | stores the secret anew or leaves the cluster as it was |
| Secrets.UpsertSecret | components/compass-runtime-agent/internal/kyma/secrets/repository.go:65-76 | replaces the secret or creates it when it is not there; an error changes nothing |
| Secrets.DeleteSecret | components/compass-runtime-agent/internal/kyma/secrets/repository.go:57-63 | a missing secret is no error |
| SyncService.UpdateApplication | components/compass-runtime-agent/internal/kyma/applications/repository.go:44-64 | overwrites labels, description, services and metadata of the current object and keeps the rest; no object, no write |
| SyncService.UpsertCredentialsSecrets | components/compass-runtime-agent/internal/kyma/service.go:187-208 | touches only names of the bundles, goes on after errors, reports exactly the ambiguous bundles when no call fails |
| SyncService.UpsertParametersSecrets | components/compass-runtime-agent/internal/kyma/service.go:210-230 | the same loop for request parameters |
| SyncService.DeleteSecrets | components/compass-runtime-agent/internal/kyma/service.go:273-285 | every name of the set is tried in any order, also after errors: all are gone but those whose own call failed, and there are as many of these as failed calls; no other name is touched |
| SyncService.CollectCredentialsSecretNames | components/compass-runtime-agent/internal/kyma/service.go:287-297 | collects exactly the names that the entries give |
| SyncService.CollectParametersSecretNames | components/compass-runtime-agent/internal/kyma/service.go:313-323 | the same for request parameters |
| SyncService.CreateApplication | components/compass-runtime-agent/internal/kyma/service.go:162-185 | an existing application of that name is never changed; without failures it runs the creation plan and succeeds exactly when no bundle is ambiguous |
| SyncService.DeleteApplication | components/compass-runtime-agent/internal/kyma/service.go:253-271 | secrets first, their errors unreported; the result tells whether the application is gone |
| SyncService.UpdateSecrets | components/compass-runtime-agent/internal/kyma/service.go:349-417 | whatever fails, the result is the error of the request parameters alone: it is none unless a call fails after the credentials are done with, and without one the parameters are complete; failures and ambiguity of the credentials are never reported |
| SyncService.UpdateExisting | components/compass-runtime-agent/internal/kyma/service.go:340-361 | success means that the application carries what the Director said, under the UID it had; other applications and secrets of other names stay |
| Synchronisation.CreateApplications | components/compass-runtime-agent/internal/kyma/service.go:148-160 | the phase keeps all applications that were there; results are accounted for and true |
| Synchronisation.DeleteApplications | components/compass-runtime-agent/internal/kyma/service.go:232-251 | the phase removes only listed applications that the Director does not have |
| Synchronisation.UpdateApplications | components/compass-runtime-agent/internal/kyma/service.go:325-338 | the phase changes only listed applications that the Director has |
| SyncApply.FilterManaged | components/compass-runtime-agent/internal/kyma/service.go:115-124 | keeps exactly the applications with Compass metadata, each once |
| SyncApply.NormalizeApplications | components/compass-runtime-agent/internal/kyma/service.go:126-132 | renames every application of the Director's slice where it is |
| SyncApply.HasDuplicates | components/compass-runtime-agent/internal/kyma/service.go:134-146 | finds a duplicate exactly when two names are equal |
| SyncApply.ApplyApplications | components/compass-runtime-agent/internal/kyma/service.go:54-91 | an error means that nothing was written; otherwise, under arbitrary failures: accounting, framing, UIDs kept or new, no secret but those from before and those the Director asks for, every result true, convergence when all results succeed, and exactly the plan when no call failed |
| SyncApply.PhasesConverge | components/compass-runtime-agent/internal/kyma/service.go:78-91 | when all results succeed the managed applications are exactly the Director's and carry what it said |
| SyncApply.OneResultPerName | components/compass-runtime-agent/internal/kyma/service.go:78-91 | exactly one result for each name that Director or cluster knows, its operation fixed by who knows it |
| SyncOutcome.SynchronisationShows | components/compass-runtime-agent/internal/kyma/applications/converter.go:48-187 | field by field: whatever fails, users' applications stay and every new or changed application shows what the Director says; when all results succeed every application does - labels, given or default descriptions, Compass id and client ids, one service per bundle with its id, names, schema and one entry per API and event, whose gateway URL leads back to that application, bundle and API |
| SyncOutcome.ResultsTellWhose | components/compass-runtime-agent/internal/kyma/service.go:148-271 | every result gives the name and the id under which the Director, or for deletions the Compass metadata, knows the application |
| SyncOutcome.SettingsReachNewApplications | components/compass-runtime-agent/internal/kyma/applications/repository.go:44-64 | the agent's setting for TLS verification reaches new applications only; for all others it keeps the value that is there, as do the profile and the encoding of URLs |
| SyncSecrets.CreatePhaseKeeps | components/compass-runtime-agent/internal/kyma/service.go:148-185 | planned creations leave every other application as it is |
| SyncSecrets.DeletePhase | components/compass-runtime-agent/internal/kyma/service.go:232-323 | planned deletions remove exactly the applications the Director lacks and exactly the secrets these refer to |
| SyncSecrets.UpdateStoresCredentials | components/compass-runtime-agent/internal/kyma/service.go:363-417 | an update stores the credentials, and loses them exactly when the old specification has their name for request parameters |
| SyncSecrets.UpdateDrops | components/compass-runtime-agent/internal/kyma/service.go:363-417 | of the names it does not resolve to, an update drops exactly those that the old specification refers to |
| SyncTheorems.UnresolvedSecrets | components/compass-runtime-agent/internal/kyma/service.go:78-91 | a secret the list does not resolve to is deleted exactly when a listed application refers to it, and else left alone |
| SyncTheorems.CredentialsSurvive | components/compass-runtime-agent/internal/kyma/service.go:187-208 | for different secret names, stored credentials are there at the end exactly when no later step refers to their name |
| SyncTheorems.ParametersSurvive | components/compass-runtime-agent/internal/kyma/service.go:210-230 | the same for request parameters; those of a new application with ambiguous credentials are not stored: their name stays as it was, or goes when a later step refers to it |
| SyncTheorems.ParametersStoredExactly | components/compass-runtime-agent/internal/kyma/service.go:162-230 | when no owner is still to be created, request parameters are stored at the end exactly when no later step refers to their name and the application is listed or has no ambiguous credentials |
| SyncTheorems.ApplicationsConverge | components/compass-runtime-agent/internal/kyma/service.go:148-185 | every Director application that is listed or can be created carries what the Director said |
| SyncPlan.RunOfApplications | components/compass-runtime-agent/internal/kyma/service.go:162-417 | when all calls for secrets fail, applications become the same as without failures and no secret changes |
| SyncFixedPoint.FixedPoint | components/compass-runtime-agent/internal/kyma/service.go:325-417 | for such a list that loses no secret to the applications at hand, a synchronisation changes nothing exactly when everything is up to date |
| SyncFixedPoint.TwoRunsSettle | components/compass-runtime-agent/internal/kyma/service.go:54-91 | from any cluster, for a list whose secret names are all different and whose applications exist or can be created, the second synchronisation leaves everything up to date and a third changes nothing |
| SyncHistory.SynchronisationIsAttempt | components/compass-runtime-agent/internal/kyma/service.go:54-91 | what `Apply` promises makes it a step of a history |
| SyncHistory.PlanIsAttempt | components/compass-runtime-agent/internal/kyma/service.go:78-91 | from every cluster and for every list the plan meets what `Apply` promises: applications are old or converted, other secrets stay |
| SyncHistory.WellFormedResolved | components/compass-runtime-agent/internal/k8sconsts/nameresolver.go:31-62 | when each bundle keeps its application and has a UUID, all resolved secret names are different |
| SyncHistory.HistoryKeepsInvariant | components/compass-runtime-agent/internal/kyma/service.go:54-91 | over every history of synchronisations, other writers and the garbage collector, whatever fails, managed applications refer to secrets of their own bundles only |
| SyncHistory.NothingElseComesAbout | components/compass-runtime-agent/internal/kyma/service.go:54-91 | over every history of synchronisations and garbage collection, whatever fails, every secret was there before or was asked for by the Director, and every UID is kept or new |
| SyncHistory.LastSoundAttemptServes | components/compass-runtime-agent/internal/kyma/service.go:187-230 | when every bundle keeps its application: after any such history, one synchronisation without failures restores reference integrity: every bundle's secrets exist and hold the Director's values |
| SyncHistory.RequestsFindCredentials | components/central-application-gateway/internal/metadata/applications/repository.go:104-142 | then a request to the printed path is told secrets that give the Director's credentials and, unless they are held back, its request parameters |
| SyncOutcome.RequestsAreServed | components/compass-runtime-agent/internal/kyma/secrets/credentialsservice.go:41-107 | from the Director's fields to a request, over any history that ends with a synchronisation without failures: the path that an entry prints resolves to its target URL and to secrets that hold, key by key, client id and secret or user and password, and the headers and query parameters |
| SyncHistory.SoundAttemptCollects | components/compass-runtime-agent/internal/kyma/service.go:273-417 | it collects exactly the unresolved secrets that managed applications referred to |
| SyncHistory.OrphansStay | components/compass-runtime-agent/internal/kyma/service.go:340-417 | a secret that no application refers to stays as it is over every history of synchronisations and garbage collection, as long as the Director keeps the application that owns it and does not resolve to its name |
| SyncHistory.OrphansAppear | components/compass-runtime-agent/internal/kyma/service.go:349-417 | from every start, when all calls for secrets fail and no other, the applications become the same as without failures and every secret that the list does not resolve to stays behind, unreferenced, an orphan when its owner is kept |
| SyncHistory.CollectorNeedsNoOwner | components/compass-runtime-agent/internal/kyma/secrets/repository.go:89-101 | through the owner reference the garbage collector can take a secret exactly when its owner is gone |
| SyncOwnership.OwnedExactly | components/compass-runtime-agent/internal/kyma/secrets/credentialsservice.go:63-107 | for every application of the list, new or listed: it owns its complete credentials at the end exactly when they are not lost and no secret that reads the same was found under another owner, which no earlier step of the run had dropped |
| SyncOwnership.AdoptedSecretsCanGo | components/compass-runtime-agent/internal/kyma/secrets/credentialsservice.go:63-107 | after a synchronisation without failures the garbage collector can take complete credentials from the application that uses them exactly when they are not lost, were found to read the same, and their owner was not there or was deleted |
| SyncOwnership.SettledSecretsCanGo | components/compass-runtime-agent/internal/kyma/service.go:325-417 | when everything is up to date, no synchronisation changes anything, and the garbage collector can take credentials exactly when their owner is gone |
| SyncOwnership.OwnersAfter | components/compass-runtime-agent/internal/kyma/service.go:78-91 | an owner from before is there after the run exactly when it was there and is not among the applications to delete |
| SyncOwnership.UidsStayKnown | components/compass-runtime-agent/internal/kyma/service.go:78-91 | a run without failures leaves all owners and UIDs among those given out, as the lemmas about ownership ask of its start |
| SyncHistory.RenamingLosesCredentials | components/compass-runtime-agent/internal/kyma/service.go:78-91 | a bundle that moves to a name with the same first 26 characters ends without its secret while the entry refers to it |
| Upsert.PutOverwrites | pkg/reconciler/update_objects.go:66-83 | of two values put for one key the second is all that is left |
| Upsert.PutsCommute | pkg/reconciler/update_objects.go:66-83 | puts for keys that exclude each other commute when one of the keys is there |
| Upsert.PutsDoNotCommute | pkg/reconciler/update_objects.go:66-83 | without either key there, the order of the puts shows |
| Manifests.EnvVarUpdate | pkg/reconciler/update_objects.go:66-83 | the variable is the first of its name afterwards; replaced in place or appended |
| Manifests.ArgValueUpdate | pkg/reconciler/update_objects.go:175-191 | the argument is the first with its key as a prefix afterwards |
| Manifests.KeysExclude | api/v1alpha1/applicationconnector_types.go:52-71 | no variable has two of the names, no argument starts with two of the keys |
| Manifests.StepsCommute | pkg/reconciler/update_objects.go:35-63 | the five component updates do not disturb each other, also when they fail |
| Manifests.HistoryIndependence | pkg/reconciler/update_objects.go:35-63 | updating for one target and then another gives the same manifests and the same error as the second alone, also for updates that stop half-way |
| Manifests.OnlyTheLastTargetShows | pkg/reconciler/update_objects.go:35-63 | after any number of updates only the last target that could be read shows |
| Manifests.PassMeets | pkg/reconciler/update_objects.go:85-243 | after a successful update every component says what the target asks; no later step undoes an earlier one |
| Manifests.PassSays | pkg/reconciler/update_objects.go:85-243 | word for word after a successful update: the one host `gateway.` and domain of every server of every gateway and of every virtual service, URLs and replicas of the agent, arguments of the gateway, variables of the validator |
| Manifests.PassLeavesOthers | pkg/reconciler/update_objects.go:85-243 | all other objects, names, kinds and counts stay |
| Manifests.PassKeepsRest | pkg/reconciler/update_objects.go:85-243 | within the components too, nothing but the managed variables, arguments, replicas and hosts changes, and elements are only added at the end |
| Manifests.SharedManifests.Update | pkg/reconciler/update_objects.go:35-63 | the in-place update of the shared slices is this pass; without the agent's configuration nothing is rewritten |
| Manifests.SharedManifests.UpdateComponent | pkg/reconciler/manage_compass_rt_agent.go:54-93 | rewrites the container of one component and, for the agent, its replicas, or reports what is missing |
| Manifests.SharedManifests.UpdateAllHosts | pkg/reconciler/update_objects.go:193-243 | sets the hosts of every gateway or virtual service, or reports that there is none |
| Verification.Validate | pkg/reconciler/verify.go:26-92 | says whether a deployment, service or definition is ready, or that it cannot be converted |
| Verification.Verify | pkg/reconciler/verify.go:94-137 | the inventory loop answers ready exactly when of the objects with one key the last is ready |
| Verification.ReadyMeansAll | pkg/reconciler/inventory.go:19-30 | with distinct keys ready means that the API server shows every deployment available, every service with its addresses, and every definition established |
| Verification.KeysTellApart | pkg/reconciler/verify.go:128-129 | keys tell objects apart by namespace, kind and name and by nothing else |
| Verification.DuplicateHides | pkg/reconciler/verify.go:128-129 | an object that is not ready hides behind a later one of its key |
| Verification.DefinitionsAreSkipped | pkg/reconciler/verify.go:108-110 | no object of a versioned group is validated as a definition |
| Reconciler.CheckDeps | pkg/reconciler/check_dependencies.go:24-55 | the loop counts the definitions of the group that serve the version |
| Reconciler.ServedMeansBoth | pkg/reconciler/check_dependencies.go:24-55 | with one definition per kind the count is right exactly when the cluster serves VirtualService and Gateway of networking.istio.io in v1beta1 |
| Reconciler.RankDecreases | pkg/reconciler/fsm.go:62-73 | every transition goes down in rank, whatever the API answers |
| ReconcilerRun.Fsm.Run | pkg/reconciler/fsm.go:54-88 | a reconciliation is a trace of transitions, at most ten, that ends with the result and error it returns, and is cancelled exactly when its context is done between two of them |
| ReconcilerRun.Fsm.RunCheckDependencies | pkg/reconciler/check_dependencies.go:57-74 | goes on, waits ten seconds, or stops with an error and the status that says so |
| ReconcilerRun.Fsm.RunRegisterDependencyWatch | pkg/reconciler/check_dependencies.go:76-124 | the acknowledgement is set exactly when all watches were registered; those registered before a failing one stay |
| ReconcilerRun.Fsm.RunInitialize | pkg/reconciler/initialize.go:11-44 | adds the finalizer, ends, deletes or goes on, by deletion mark and finalizer of the version that was read |
| ReconcilerRun.Fsm.RunDetectDomain | pkg/reconciler/detect_domain.go:17-40 | takes the domain of the specification or of the cluster, or stops |
| ReconcilerRun.Fsm.RunUpdate | pkg/reconciler/update_objects.go:35-63 | rewrites the shared manifests to the specification or stops with the status unchanged |
| ReconcilerRun.Fsm.RunApply | pkg/reconciler/apply.go:17-51 | patches every object, also after an error, and goes on exactly when all succeeded |
| ReconcilerRun.Fsm.RunReconcileOptionalObjects | pkg/reconciler/reconcile_optional_objects.go:25-55 | adds the policies up to the first error, and then exactly those before it, or removes all whose deletion does not fail |
| ReconcilerRun.Fsm.RunVerify | pkg/reconciler/verify.go:94-154 | sets the status by the verdict, and leaves a ready one as it is |
| ReconcilerRun.Fsm.RunDeleteResources | pkg/reconciler/delete_resources.go:67-114 | persists the condition first, then releases the dependencies, then deletes |
| ReconcilerRun.Fsm.ReleaseAll | pkg/reconciler/delete_resources.go:89-105 | tries to take the hook off every dependency that carries it, also after errors: it stays on exactly as many as there are failed calls |
| ReconcilerRun.Fsm.RunCascadeDeletion | pkg/reconciler/delete_resources.go:166-200 | tries every object and keeps only the error of the last |
| ReconcilerRun.Fsm.RunRemoveFinalizer | pkg/reconciler/remove_finalizer.go:11-21 | removes the finalizer from the version that was read; a resource that is gone is no error |
| ReconcilerRun.Fsm.RunUpdateStatus | pkg/reconciler/update_status.go:8-22 | persists the status of the memory, or stops with the earlier error if there was one |
| ReconcilerSafety.EveryBehaviourKeeps | pkg/reconciler/fsm.go:54-88 | the invariant of all behaviours: what each state function has behind it, and that every write was justified |
| ReconcilerSafety.DeletionIsSafe | pkg/reconciler/delete_resources.go:67-200 | the finalizer goes only from a version marked for deletion, after an earlier run persisted the condition, no dependency carried the hook, every object was tried and the last attempt went well |
| ReconcilerSafety.EveryRemovalIsJustified | pkg/reconciler/remove_finalizer.go:11-21 | the same of every removal that ever was |
| ReconcilerSafety.ApplyingIsSafe | pkg/reconciler/initialize.go:11-44 | objects are applied only for a version with the finalizer that is not being deleted, with manifests that say what it asks |
| ReconcilerSafety.ReadyMeansInstalled | pkg/reconciler/verify.go:134-154 | a run turns the status to Ready only when it patched every object and, unless two share a key, the API server shows every one of them ready |
| ReconcilerOutcome.AppliedManifests | pkg/reconciler/detect_domain.go:17-40 | objects are applied only after the manifests say word for word what the version asks, with its own domain or that of the cluster, and with an agent exactly when it is configured |
| ReconcilerOutcome.PoliciesFollow | pkg/reconciler/reconcile_optional_objects.go:25-55 | where a run goes on to verify, every optional policy is there beside those from before if the version enables them, and none is left otherwise; where it stops it has only added optional ones or only removed some |
| ReconcilerOutcome.OnlyOneChangesPolicies | pkg/reconciler/reconcile_optional_objects.go:25-55 | no other state function changes the policies |
| ReconcilerOutcome.OnlyTheHookGoes | pkg/reconciler/delete_resources.go:67-114 | no finalizer of a dependency goes but the deletion hook, and only while deleting |
| ReconcilerOutcome.StatusTellsOutcome | pkg/reconciler/common.go:8-26 | over every run: which status goes with which error and which requeue; errors of the manifests and of the domain leave the status as it was |
| ReconcilerOutcome.ReadDecides | pkg/reconciler/initialize.go:11-44 | deletion mark and finalizer of the version that was read decide between nothing, adding the finalizer, installing and deleting |
| ReconcilerOutcome.VerdictDecides | pkg/reconciler/verify.go:94-154 | over every run: an error, waiting, or ready with a check after two minutes, by what the API server answered |
| ReconcilerOutcome.RemovalDecides | pkg/reconciler/remove_finalizer.go:11-21 | a resource that is gone is no error, the version that was read loses the finalizer, any other one is left and the run comes back with an error |
| ReconcilerOutcome.AcknowledgedMeansWatched | pkg/reconciler/check_dependencies.go:76-124 | the dependencies are acknowledged only with a watch for each |
| ReconcilerProgress.HandOver | pkg/reconciler/update_status.go:8-22 | with the status persisted the caller gets exactly the chosen result and error; if not, the earlier error wins over that of the write |
| ReconcilerProgress.RunProgresses | pkg/reconciler/delete_resources.go:67-200 | every undisturbed run of a deletion does exactly one of the things left to do |
| ReconcilerProgress.DeletionIsBounded | pkg/reconciler/delete_resources.go:67-92 | a deletion takes exactly as many undisturbed runs as things are left, at most four |
| ReconcilerProgress.FourRunsAreNeeded | pkg/reconciler/check_dependencies.go:69-123 | in a fresh process any number of undisturbed runs below four leaves the finalizer, and the fourth removes it |
| ReconcilerProgress.FailureCanBeForgotten | pkg/reconciler/delete_resources.go:166-200 | the finalizer can go although a deletion failed exactly when there are at least two objects |
| ReconcilerDependencies.UnservedKeepsFinalizer | pkg/reconciler/check_dependencies.go:57-74 | over every behaviour, while Istio is not served and no run is past the check, the finalizer stays and nothing but the status is written |
| ReconcilerDependencies.UnservedRunWaits | pkg/reconciler/check_dependencies.go:57-68 | an undisturbed run without Istio returns after ten seconds and changes nothing but the status |
| ReconcilerDependencies.DeletionNeedsIstio | pkg/reconciler/check_dependencies.go:57-74 | an undisturbed run of a deletion does one of the things left exactly when Istio is served, and otherwise undoes the persisted condition |
| ConnectionRun.CompassConnection.ShouldRenewCertificate | components/compass-runtime-agent/pkg/apis/compass/v1alpha1/types.go:56-69 | the renewal test, which needs a connection status |
| ConnectionRun.CompassConnection.SetCertificateStatus | components/compass-runtime-agent/pkg/apis/compass/v1alpha1/types.go:40-50 | sets the certificate and keeps the rest of the status |
| ConnectionRun.Agent.PreserveCredentials | components/compass-runtime-agent/internal/certificates/manager.go:61-98 | stores the client certificate and then those of the authority; a failure leaves both as they were, or the first alone |
| ConnectionRun.Agent.EstablishConnection | components/compass-runtime-agent/internal/compassconnection/supervisor.go:279-328 | connects and stores both credential secrets, or leaves the state ConnectionFailed, then with none or with only the first of them stored |
| ConnectionRun.Agent.InitializeCompassConnection | components/compass-runtime-agent/internal/compassconnection/supervisor.go:87-119 | creates the resource, connects again after a failure, or only fills the cache |
| ConnectionRun.Agent.MaintainCompassConnection | components/compass-runtime-agent/internal/compassconnection/supervisor.go:121-136 | an error is written to the resource, a success stays in memory |
| ConnectionRun.Agent.TryMaintain | components/compass-runtime-agent/internal/compassconnection/supervisor.go:210-259 | credentials are renewed exactly when they are due or those of the authority are missing |
| ConnectionRun.Agent.SynchronizeWithCompass | components/compass-runtime-agent/internal/compassconnection/supervisor.go:138-208 | every exit records and writes the time of the attempt |
| ConnectionRun.Agent.Reconcile | components/compass-runtime-agent/internal/compassconnection/controller.go:72-123 | one reconciliation of a version that may be stale does exactly one of five things; it does nothing only within the minimal time, and stops early only after a failed call |
| ConnectionHistory.ReachableStates | components/compass-runtime-agent/internal/compassconnection/supervisor.go:87-136 | in every persisted version the connection status is there and a state other than ConnectionFailed means that both credential secrets were stored; ConnectionFailed comes only from nothing or itself |
| ConnectionHistory.InitialisingShows | components/compass-runtime-agent/internal/compassconnection/supervisor.go:87-119 | what connecting writes: the time, and either the certificate, URLs and cache in use or the failure with everything else as before; a resource that is not failed is only read |
| ConnectionHistory.TooSoonDecides | components/compass-runtime-agent/internal/compassconnection/controller.go:72-123 | nothing is done exactly when it is too soon after the last check, and no synchronisation follows a maintenance exactly when it is too soon after the last one |
| ConnectionHistory.SynchronisationsAreLimited | components/compass-runtime-agent/internal/compassconnection/controller.go:99-122 | over whole histories an unforced synchronisation of the resource as it stands starts at least the whole minimal seconds after the last recorded attempt |
| ConnectionHistory.SyncIsRecorded | components/compass-runtime-agent/internal/compassconnection/supervisor.go:138-208 | a written attempt is recorded whatever its outcome |
| ConnectionHistory.SyncShows | components/compass-runtime-agent/internal/compassconnection/supervisor.go:138-208 | the state that is written tells which of fetching, applying and labelling failed, the times how far it came; of the specification only the request goes, and only after success |
| ConnectionHistory.RequestStands | components/compass-runtime-agent/internal/compassconnection/supervisor.go:204-207 | over whole histories without edits: a request for a synchronisation stands exactly until one that went well is written |
| ConnectionHistory.ForcedUntilDone | components/compass-runtime-agent/internal/compassconnection/supervisor.go:204-207 | after that no synchronisation of the resource as it stands is forced until a user asks again |
| ConnectionHistory.MaintenanceIsShown | components/compass-runtime-agent/internal/compassconnection/controller.go:99-122 | every successful maintenance leaves the resource written and showing it - times, certificate, cleared request - exactly when the applications are not skipped and the write after them succeeds, as it does on the current version without a failed call; renewed credentials are stored in any case |
| ConnectionHistory.MaintenanceIsLost | components/compass-runtime-agent/internal/compassconnection/controller.go:110-120 | when applications are skipped a maintenance leaves no trace in the resource, and a requested renewal is due again |
| ConnectionHistory.LossIsReached | components/compass-runtime-agent/internal/compassconnection/controller.go:110-120 | a history from nothing at whose end the secret holds a second certificate and the resource shows the first |
| ConnectionHistory.FailedMaintenanceShows | components/compass-runtime-agent/internal/compassconnection/supervisor.go:121-136 | a failed maintenance leaves cache, authority and the certificate of the resource alone, and stores either nothing or a client certificate that neither of them shows |
| ConnectionHistory.MissingCertificateWaits | components/compass-runtime-agent/internal/certificates/manager.go:57-59 | a missing client certificate comes back with a maintenance that finds the renewal due, and not with one that does not, as long as the secret of the authority is there |
| ConnectionHistory.CachedUrls | components/compass-runtime-agent/internal/compassconnection/supervisor.go:239-245 | in every history a maintenance leaves the reported URLs in the cache exactly when it renewed, or they differ from those of the resource, or the cache had them already |
| ConnectionHistory.RevertedUrlsAreMissed | components/compass-runtime-agent/internal/compassconnection/supervisor.go:261-264 | in every history, once other URLs than those of the resource were cached, they stay however often those of the resource are reported again |
| ConnectionHistory.ReversalIsReached | components/compass-runtime-agent/internal/compassconnection/supervisor.go:239-264 | a history from nothing at whose end report and resource agree on the URLs and the cache has others |
| ConnectionHistory.RenewalDeadline | components/compass-runtime-agent/pkg/apis/compass/v1alpha1/types.go:56-69 | every schedule of checks with gaps up to a bound renews before the end exactly when the bound is below the larger of twice the minimal time and the threshold's share of the validity, or that exceeds the validity |

## Left out

- Failed calls have no effect in the model; a call that takes effect and still reports an error is not modelled.
- Other writers during one synchronisation: its calls see only its own writes. Between two synchronisations other
  writers and the garbage collector are steps of a history; other writers keep managed applications to secrets of
  their own bundles. The state machine and the connection are modelled with other writers between any two steps.
- The garbage collector deletes secrets of owners that are gone at any time or never; when it does is not modelled.
- Secrets.ParametersRoundTrip: the JSON of request parameters is an injective constructor, its text is not modelled.
- The five digits of the SHA-1 sum are a parameter, case folding outside ASCII is a parameter, and error texts are
  dropped to their codes.
- Percent-encoding, fragments and user information of URLs: names and segments need no escaping, and a query is the
  list of its names and values.
- Gateway.GetByEntryName: the authority of a rest path that starts with two slashes is skipped as if it were
  well-formed.
- Redirects.ResponsesKeepTheRest: the location is taken as parsed; relative and malformed ones are not modelled.
- Caches of tokens, proxies, applications and secrets in the gateway, authorization strategies and request headers,
  custom headers included.
- Labels and provider fields of Director applications that the converter does not read.
- Events, logging, tracing, metrics and the snapshot they compare with; event emission is kept as the last state
  function.
- ReconcilerRun.Fsm.RunCascadeDeletion: whether a deleted object is really gone is not modelled; deletion in the cluster
  is asynchronous.
- The deletion strategies that no configuration selects (upstream and safe).
- Conversion of manifests between typed and generic form, which may add empty fields on the first pass.
- ConnectionRun.Agent.PreserveCredentials: of the certificates of the authority only the presence is modelled, and the
  merge with other data of both secrets is not.
- ConnectionHistory.RenewalDeadline: floating-point rounding of the validity's share is not modelled; times are whole
  seconds and shares real numbers.
- Users who write the status of a CompassConnection or the finalizers of an ApplicationConnector by hand.
- The connectivity validator, the command-line entry points and the parsing of options.
