/**
 How the central application gateway finds the API behind a path
 (components/central-application-gateway/internal/proxy/factory.go and internal/metadata/applications/repository.go).
 */
module Gateway {
  import opened Wrappers
  import opened Text
  import opened Normalization
  import opened Resources
  import opened Converter
  import D = Director

  datatype GatewayError = WrongInput | NotFound | Internal

  /** A request path taken apart: the identifying segments, the path for the target and the gateway's own path. */
  datatype Request = Request(ids: seq<string>, targetPath: string, gatewayPath: string)

  const COMPASS_SEGMENTS := 3

  // ---------------------------------------------------------------- the rest of a path, read as a URL

  predicate IsLetter(c: char) {
    'a' <= c <= 'z' || 'A' <= c <= 'Z'
  }

  /** Where the colon behind a scheme stands, if the text from `i` on can be the rest of one. */
  function SchemeEnd(text: string, i: nat): (end: Option<nat>)
    requires i <= |text|
    ensures end.Some? ==> 0 < end.value < |text| && text[end.value] == ':'
    decreases |text| - i
  {
    if i == |text| then None
    else if IsLetter(text[i]) then SchemeEnd(text, i + 1)
    else if '0' <= text[i] <= '9' || text[i] in "+-." then if i == 0 then None else SchemeEnd(text, i + 1)
    else if text[i] == ':' && i > 0 then Some(i)
    else None
  }

  /**
   The path that url.Parse finds in a text without escapes: a scheme is split off, and what follows it is no path unless
   it is rooted; a colon in the first segment that ends no scheme is refused; an authority is skipped.
   */
  function ParsePath(text: string): Result<string, GatewayError> {
    if text == "*" then Success(text)
    else if StartsWith(text, ':') then Failure(WrongInput)
    else
      var scheme := SchemeEnd(text, 0);
      var rest := if scheme.Some? then text[scheme.value + 1..] else text;
      if !StartsWith(rest, '/') then
        if scheme.Some? then Success("")
        else if ':' in Split(rest, '/')[0] then Failure(WrongInput)
        else Success(rest)
      else if StartsWith(rest[1..], '/') && (scheme.Some? || !StartsWith(rest[2..], '/')) then
        Success(AfterAuthority(rest[2..]))
      else Success(rest)
  }

  function AfterAuthority(text: string): (path: string)
    ensures |path| <= |text| && (path != "" ==> StartsWith(path, '/'))
  {
    if text == "" || text[0] == '/' then text else AfterAuthority(text[1..])
  }

  /** The extractor of both proxies, which differ only in the number of identifying segments. */
  function Extract(path: string, n: nat): Result<Request, GatewayError> {
    var split := Split(Trim(path, '/'), '/');
    if |split| < n || split[0] == path then Failure(WrongInput)
    else
      match ParsePath(Join(split[n..], '/'))
      case Failure(e) => Failure(e)
      case Success(targetPath) => Success(Request(split[..n], targetPath, "/" + Join(split[..n], '/')))
  }

  /** What the gateway needs to call an API. */
  datatype Definition = Definition(
    id: string,
    name: string,
    displayName: string,
    targetUrl: string,
    credentials: Option<EntryCredentials>,
    parametersSecretName: string,
    skipVerify: bool,
    encodeUrl: bool
  )

  function ToDefinition(s: Service, e: Entry, spec: Spec): Definition {
    Definition(
      s.id, s.name, s.displayName, e.targetUrl,
      if e.credentials == NO_CREDENTIALS then None else Some(e.credentials),
      e.parametersSecretName, spec.skipVerify, spec.encodeUrl)
  }

  predicate MatchesService(serviceName: string, s: Service, e: Entry) {
    serviceName == NormalizeName(s.displayName) && e.entryType == API_TYPE
  }

  predicate MatchesEntry(serviceName: string, entryName: string, s: Service, e: Entry) {
    MatchesService(serviceName, s, e) && entryName == NormalizeName(e.name)
  }

  /** A position of an entry: service and entry number. */
  datatype Position = At(service: int, entry: int)

  predicate IsHit(services: seq<Service>, matches: (Service, Entry) -> bool, p: Position) {
    && 0 <= p.service < |services| && 0 <= p.entry < |services[p.service].entries|
    && matches(services[p.service], services[p.service].entries[p.entry])
  }

  function DefinitionAt(spec: Spec, p: Position): Definition
    requires 0 <= p.service < |spec.services| && 0 <= p.entry < |spec.services[p.service].entries|
  {
    ToDefinition(spec.services[p.service], spec.services[p.service].entries[p.entry], spec)
  }

  /** What a search has to return: the one matching entry, or an error when there is none or more than one. */
  ghost predicate Finds(spec: Spec, matches: (Service, Entry) -> bool, r: Result<Definition, GatewayError>) {
    match r
    case Success(d) =>
      exists p :: && IsHit(spec.services, matches, p) && d == DefinitionAt(spec, p)
                  && forall q :: IsHit(spec.services, matches, q) ==> q == p
    case Failure(WrongInput) =>
      exists p, q :: p != q && IsHit(spec.services, matches, p) && IsHit(spec.services, matches, q)
    case Failure(NotFound) =>
      forall p :: !IsHit(spec.services, matches, p)
    case Failure(Internal) => false
  }

  /** A match is found when it is the only one, and refused otherwise. */
  lemma FoundWhenAlone(spec: Spec, matches: (Service, Entry) -> bool, r: Result<Definition, GatewayError>, p: Position)
    requires Finds(spec, matches, r) && IsHit(spec.services, matches, p)
    ensures if forall q :: IsHit(spec.services, matches, q) ==> q == p
            then r == Success(DefinitionAt(spec, p)) else r == Failure(WrongInput)
  {
  }

  predicate Before(p: Position, i: int, j: int) {
    p.service < i || (p.service == i && p.entry < j)
  }

  /** `hits` lists the matching positions before entry `j` of service `i`, `found` what stands there. */
  ghost predicate Collected(spec: Spec, matches: (Service, Entry) -> bool, found: seq<Definition>, hits: seq<Position>,
                            i: int, j: int) {
    && |hits| == |found|
    && (forall k :: 0 <= k < |hits| ==> IsHit(spec.services, matches, hits[k]) && Before(hits[k], i, j))
    && (forall k, l :: 0 <= k < l < |hits| ==> hits[k] != hits[l])
    && (forall p :: IsHit(spec.services, matches, p) && Before(p, i, j) ==> p in hits)
    && (hits != [] ==> found[0] == DefinitionAt(spec, hits[0]))
  }

  /** The search of the repository: collects every match, whatever their number. */
  method Get(spec: Spec, matches: (Service, Entry) -> bool) returns (r: Result<Definition, GatewayError>)
    ensures Finds(spec, matches, r)
  {
    var found: seq<Definition> := [];
    ghost var hits: seq<Position> := [];
    for i := 0 to |spec.services|
      invariant Collected(spec, matches, found, hits, i, 0)
    {
      for j := 0 to |spec.services[i].entries|
        invariant Collected(spec, matches, found, hits, i, j)
      {
        if matches(spec.services[i], spec.services[i].entries[j]) {
          CollectHit(spec, matches, found, hits, i, j);
          found := found + [ToDefinition(spec.services[i], spec.services[i].entries[j], spec)];
          hits := hits + [At(i, j)];
        } else {
          CollectMiss(spec, matches, found, hits, i, j);
        }
      }
    }
    CollectedAll(spec, matches, found, hits);
    if |found| == 1 {
      r := Success(found[0]);
    } else if |found| > 1 {
      r := Failure(WrongInput);
    } else {
      r := Failure(NotFound);
    }
  }

  lemma CollectHit(spec: Spec, matches: (Service, Entry) -> bool, found: seq<Definition>, hits: seq<Position>, i: int,
                   j: int)
    requires Collected(spec, matches, found, hits, i, j)
    requires IsHit(spec.services, matches, At(i, j))
    ensures Collected(spec, matches, found + [DefinitionAt(spec, At(i, j))], hits + [At(i, j)], i, j + 1)
  {
    assert forall p :: Before(p, i, j + 1) && p != At(i, j) ==> Before(p, i, j);
  }

  lemma CollectMiss(spec: Spec, matches: (Service, Entry) -> bool, found: seq<Definition>, hits: seq<Position>, i: int,
                    j: int)
    requires Collected(spec, matches, found, hits, i, j)
    requires !IsHit(spec.services, matches, At(i, j))
    ensures Collected(spec, matches, found, hits, i, j + 1)
  {
    assert forall p :: Before(p, i, j + 1) && p != At(i, j) ==> Before(p, i, j);
  }

  lemma CollectedAll(spec: Spec, matches: (Service, Entry) -> bool, found: seq<Definition>, hits: seq<Position>)
    requires Collected(spec, matches, found, hits, |spec.services|, 0)
    ensures Finds(spec, matches, if |found| == 1 then Success(found[0])
                                 else if |found| > 1 then Failure(WrongInput) else Failure(NotFound))
  {
    if |found| == 1 {
      assert forall q :: IsHit(spec.services, matches, q) ==> q == hits[0];
    } else if |found| > 1 {
      assert hits[0] != hits[1];
    }
  }

  /**
   Resolving a request of the Compass proxy: by application, service and entry name. Without `apps` the application
   could not be read.
   */
  ghost predicate Resolves(apps: Option<map<string, Application>>, path: string, r: Result<Definition, GatewayError>) {
    match Extract(path, COMPASS_SEGMENTS)
    case Failure(e) => r == Failure(e)
    case Success(q) =>
      if apps.None? then r == Failure(Internal)
      else if q.ids[0] !in apps.value then r == Failure(NotFound)
      else Finds(apps.value[q.ids[0]].spec, (s, e) => MatchesEntry(q.ids[1], q.ids[2], s, e), r)
  }

  method GetByEntryName(apps: Option<map<string, Application>>, path: string)
    returns (r: Result<Definition, GatewayError>)
    ensures Resolves(apps, path, r)
  {
    match Extract(path, COMPASS_SEGMENTS)
    case Failure(e) => r := Failure(e);
    case Success(q) =>
      if apps.None? {
        r := Failure(Internal);
      } else if q.ids[0] !in apps.value {
        r := Failure(NotFound);
      } else {
        r := Get(apps.value[q.ids[0]].spec, (s, e) => MatchesEntry(q.ids[1], q.ids[2], s, e));
      }
  }

  // ---------------------------------------------------------------- from the printed URL back to the API

  lemma NormalizedNameHasNoSlash(name: string)
    ensures '/' !in NormalizeName(name)
  {
    NormalizeNameShape(name);
  }

  /**
   The path that the agent prints is taken apart into the three names it was made of, exactly when neither the
   application name nor the normalised API name is empty; an empty bundle name does no harm.
   */
  lemma PrintedPathIsExtracted(application: string, bundleName: string, apiName: string)
    requires '/' !in application
    ensures var path := GatewayPath(application, bundleName, apiName);
            var r := Extract(path, COMPASS_SEGMENTS);
            if application != "" && NormalizeName(apiName) != ""
            then r == Success(Request([application, NormalizeName(bundleName), NormalizeName(apiName)], "", path))
            else r == Failure(WrongInput)
  {
    var b, a := NormalizeName(bundleName), NormalizeName(apiName);
    NormalizedNameHasNoSlash(bundleName);
    NormalizedNameHasNoSlash(apiName);
    var path := GatewayPath(application, bundleName, apiName);
    if application == "" || a == "" {
      ShortPath(application, b, a);
      assert path == "/" + application + "/" + b + "/" + a;
    } else {
      var parts := [application, b, a];
      var text := application + "/" + b + "/" + a;
      JoinThree(application, b, a);
      assert application[0] in application && a[|a| - 1] in a;
      assert path == ['/'] + text;
      TrimBoth(text, '/');
      SplitOfJoin(parts, '/');
      assert parts[3..] == [] && parts[..3] == parts;
    }
  }

  lemma JoinThree(x: string, y: string, z: string)
    ensures Join([x, y, z], '/') == x + "/" + y + "/" + z
  {
    assert [x, y, z][1..] == [y, z];
    assert [y, z][1..] == [z];
    assert Join([y, z], '/') == y + ['/'] + z;
    assert x + ['/'] + (y + ['/'] + z) == x + "/" + y + "/" + z;
  }

  /** With an empty name at either end at most two segments are left. */
  lemma ShortPath(x: string, y: string, z: string)
    requires '/' !in x && '/' !in y && '/' !in z
    requires x == "" || z == ""
    ensures |Split(Trim("/" + x + "/" + y + "/" + z, '/'), '/')| < 3
  {
    var path := "/" + x + "/" + y + "/" + z;
    var left := TrimLeft(path, '/');
    if x == "" {
      var rest := y + ['/'] + z;
      assert path == ['/'] + (['/'] + rest);
      TrimLeftOnce(['/'] + rest, '/');
      TrimLeftOnce(rest, '/');
      TrimLeftSplits(rest, '/');
      TwoSegments(y, z);
      TrimRightSplits(left, '/');
    } else {
      var rest := x + ['/'] + y;
      assert path == ['/'] + (rest + ['/']);
      TrimLeftOnce(rest + ['/'], '/');
      assert x[0] in x;
      assert left == rest + ['/'];
      TrimRightOnce(rest, '/');
      TrimRightSplits(rest, '/');
      TwoSegments(x, y);
    }
  }

  lemma TwoSegments(x: string, y: string)
    requires '/' !in x && '/' !in y
    ensures |Split(x + ['/'] + y, '/')| == 2
  {
    SplitOfConcat(x, y, '/');
    SplitPart(x, '/');
    SplitPart(y, '/');
  }

  /** The normalised pair of names by which the gateway tells the APIs of an application apart. */
  function ApiKey(app: D.Application, i: int, j: int): (string, string)
    requires 0 <= i < |app.bundles| && 0 <= j < |app.bundles[i].apis|
  {
    (NormalizeName(app.bundles[i].name), NormalizeName(app.bundles[i].apis[j].name))
  }

  predicate IsApi(app: D.Application, i: int, j: int) {
    0 <= i < |app.bundles| && 0 <= j < |app.bundles[i].apis|
  }

  predicate HasUniqueKey(app: D.Application, i: int, j: int)
    requires IsApi(app, i, j)
  {
    forall i', j' | 0 <= i' < |app.bundles| && 0 <= j' < |app.bundles[i'].apis| ::
      ApiKey(app, i', j') == ApiKey(app, i, j) ==> (i', j') == (i, j)
  }

  lemma HitsOfConverted(c: Settings, app: D.Application, key: (string, string), p: Position)
    ensures IsHit(Services(c, app.name, app.bundles), (s, e) => MatchesEntry(key.0, key.1, s, e), p)
            <==> IsApi(app, p.service, p.entry) && ApiKey(app, p.service, p.entry) == key
  {
  }

  /** The entry of the application tells its callers to use `path` below the gateway's URL. */
  predicate IsPrinted(c: Settings, apps: map<string, Application>, name: string, i: int, j: int, path: string) {
    && name in apps
    && 0 <= i < |apps[name].spec.services| && 0 <= j < |apps[name].spec.services[i].entries|
    && apps[name].spec.services[i].entries[j].centralGatewayUrl == c.gatewayUrl + path
  }

  /**
   End to end: once the converted services are on the cluster, a request to the path that the entry of an API tells its
   callers reaches the target URL and the secrets of exactly that API, under the settings of its application - if the
   normalised names are unique; otherwise it is always refused, for each of the APIs that share them.
   */
  lemma RoutingRoundTrip(c: Settings, app: D.Application, apps: map<string, Application>, i: int, j: int, path: string,
                         r: Result<Definition, GatewayError>)
    requires IsApi(app, i, j)
    requires '/' !in app.name && app.name != "" && NormalizeName(app.bundles[i].apis[j].name) != ""
    requires app.name in apps && apps[app.name].spec.services == Services(c, app.name, app.bundles)
    requires IsPrinted(c, apps, app.name, i, j, path) && Resolves(Some(apps), path, r)
    ensures if HasUniqueKey(app, i, j)
            then
              var b := app.bundles[i];
              && r.Success?
              && r.value.targetUrl == b.apis[j].targetUrl
              && r.value.id == b.id && r.value.displayName == b.name
              && r.value.credentials == (if b.Credentials().Some? then Some(ToCredentials(app.name, b)) else None)
              && r.value.parametersSecretName
                 == ToApiEntry(c, app.name, b, b.apis[j]).parametersSecretName
              && r.value.skipVerify == apps[app.name].spec.skipVerify
              && r.value.encodeUrl == apps[app.name].spec.encodeUrl
            else r == Failure(WrongInput)
  {
    var b := app.bundles[i];
    var url := c.gatewayUrl + path;
    var printed := GatewayPath(app.name, b.name, b.apis[j].name);
    assert url == c.gatewayUrl + printed;
    assert path == url[|c.gatewayUrl|..] && printed == (c.gatewayUrl + printed)[|c.gatewayUrl|..];
    PrintedPathIsExtracted(app.name, b.name, b.apis[j].name);
    ResolveConverted(c, app, apps[app.name].spec, i, j, r);
  }

  /**
   Whatever is resolved is an API of the application that the path names, with the fields of its entry and service and
   the settings of the application.
   */
  lemma ResolvedIsOfApplication(apps: map<string, Application>, path: string, r: Result<Definition, GatewayError>)
    requires Resolves(Some(apps), path, r) && r.Success?
    ensures exists name, i, j ::
              && name in apps && 0 <= i < |apps[name].spec.services| && 0 <= j < |apps[name].spec.services[i].entries|
              && var spec := apps[name].spec; var s, e, d := spec.services[i], spec.services[i].entries[j], r.value;
                 && Extract(path, 3).Success?
                 && Extract(path, 3).value.ids == [name, NormalizeName(s.displayName), NormalizeName(e.name)]
                 && e.entryType == "API"
                 && d.id == s.id && d.name == s.name && d.displayName == s.displayName && d.targetUrl == e.targetUrl
                 && d.parametersSecretName == e.parametersSecretName
                 && (if e.credentials == EntryCredentials("", "", "", None) then d.credentials.None?
                     else d.credentials == Some(e.credentials))
                 && d.skipVerify == spec.skipVerify && d.encodeUrl == spec.encodeUrl
  {
    hide Extract;
    ExtractedIds(path);
    var q := Extract(path, COMPASS_SEGMENTS).value;
    var spec := apps[q.ids[0]].spec;
    var matches := (s, e) => MatchesEntry(q.ids[1], q.ids[2], s, e);
    var p :| IsHit(spec.services, matches, p) && r.value == DefinitionAt(spec, p);
    assert q.ids == [q.ids[0], q.ids[1], q.ids[2]];
    assert spec == apps[q.ids[0]].spec;
  }

  /**
   A request that is refused is told why: Internal when the application could not be read, NotFound when it is not there
   or has no such API, and WrongInput only for a path without three names or for an API that is there twice.
   */
  lemma RefusalsTellWhy(apps: Option<map<string, Application>>, path: string, r: Result<Definition, GatewayError>)
    requires Resolves(apps, path, r) && Extract(path, 3).Success?
    ensures var ids := Extract(path, 3).value.ids;
            && |ids| == 3
            && (apps.None? ==> r == Failure(Internal))
            && (apps.Some? && ids[0] !in apps.value ==> r == Failure(NotFound))
            && (apps.Some? && ids[0] in apps.value ==>
                  var services := apps.value[ids[0]].spec.services;
                  && (r == Failure(NotFound) <==> forall i, j :: !IsNamed(services, ids[1], ids[2], i, j))
                  && (r == Failure(WrongInput) <==>
                        exists i, j, k, l :: (i, j) != (k, l) && IsNamed(services, ids[1], ids[2], i, j)
                                             && IsNamed(services, ids[1], ids[2], k, l))
                  && r != Failure(Internal))
  {
    hide Extract;
    ExtractedIds(path);
    var ids := Extract(path, 3).value.ids;
    if apps.Some? && ids[0] in apps.value {
      var services := apps.value[ids[0]].spec.services;
      FoundByName(apps.value[ids[0]].spec, ids[1], ids[2], r);
    }
  }

  /** The entry is one of an API with the names of the path. */
  predicate IsNamed(services: seq<Service>, service: string, entry: string, i: int, j: int) {
    && 0 <= i < |services| && 0 <= j < |services[i].entries|
    && services[i].entries[j].entryType == "API"
    && NormalizeName(services[i].displayName) == service && NormalizeName(services[i].entries[j].name) == entry
  }

  lemma FoundByName(spec: Spec, service: string, entry: string, r: Result<Definition, GatewayError>)
    requires Finds(spec, (s, e) => MatchesEntry(service, entry, s, e), r)
    ensures r == Failure(NotFound) <==> forall i, j :: !IsNamed(spec.services, service, entry, i, j)
    ensures r == Failure(WrongInput) <==>
              exists i, j, k, l :: (i, j) != (k, l) && IsNamed(spec.services, service, entry, i, j)
                                   && IsNamed(spec.services, service, entry, k, l)
    ensures r != Failure(Internal)
  {
    var matches := (s, e) => MatchesEntry(service, entry, s, e);
    forall i, j
      ensures IsNamed(spec.services, service, entry, i, j) <==> IsHit(spec.services, matches, At(i, j))
    {
    }
    hide IsNamed, IsHit, DefinitionAt;
    if r == Failure(WrongInput) {
      var p, q :| p != q && IsHit(spec.services, matches, p) && IsHit(spec.services, matches, q);
      assert p == At(p.service, p.entry) && q == At(q.service, q.entry);
      assert IsNamed(spec.services, service, entry, p.service, p.entry);
      assert IsNamed(spec.services, service, entry, q.service, q.entry);
    }
    if r == Failure(NotFound) {
      assert forall i, j :: !IsHit(spec.services, matches, At(i, j));
    }
    if r.Success? {
      var p :| IsHit(spec.services, matches, p) && r.value == DefinitionAt(spec, p)
               && forall q :: IsHit(spec.services, matches, q) ==> q == p;
      assert p == At(p.service, p.entry);
      assert IsNamed(spec.services, service, entry, p.service, p.entry);
    }
  }

  lemma ExtractedIds(path: string)
    ensures Extract(path, 3).Success? ==> |Extract(path, 3).value.ids| == 3
  {
  }

  lemma ResolveConverted(c: Settings, app: D.Application, spec: Spec, i: int, j: int,
                         r: Result<Definition, GatewayError>)
    requires IsApi(app, i, j)
    requires spec.services == Services(c, app.name, app.bundles)
    requires var key := ApiKey(app, i, j); Finds(spec, (s, e) => MatchesEntry(key.0, key.1, s, e), r)
    ensures if HasUniqueKey(app, i, j)
            then r == Success(ToDefinition(ToService(c, app.name, app.bundles[i]),
                                           ToApiEntry(c, app.name, app.bundles[i], app.bundles[i].apis[j]), spec))
            else r == Failure(WrongInput)
  {
    var key := ApiKey(app, i, j);
    var matches := (s, e) => MatchesEntry(key.0, key.1, s, e);
    forall p
      ensures IsHit(spec.services, matches, p)
              <==> IsApi(app, p.service, p.entry) && ApiKey(app, p.service, p.entry) == key
    {
      HitsOfConverted(c, app, key, p);
    }
    FoundWhenAlone(spec, matches, r, At(i, j));
    if !HasUniqueKey(app, i, j) {
      var i', j' :| IsApi(app, i', j') && ApiKey(app, i', j') == key && (i', j') != (i, j);
      assert IsHit(spec.services, matches, At(i', j'));
    }
  }
}
