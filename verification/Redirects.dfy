/**
 Paths through the gateway's reverse proxy: the director's join and the rewriting of redirects
 (components/central-application-gateway/internal/proxy/reverseproxy.go).

 Paths are unescaped here, so that a path and its escaped form are the same text.
 */
module Redirects {
  import opened Wrappers
  import opened Text
  import Gateway

  /** A name and a value of a query. */
  datatype Pair = Pair(name: string, value: string)

  /** A URL without its fragment, which no request carries; the query is the list of its names and values. */
  datatype Url = Url(scheme: string, hostname: string, port: string, path: string, query: seq<Pair>)

  /** A query parameter that an API asks for, with its values. */
  datatype Parameter = Parameter(name: string, values: seq<string>)

  function JoinPaths(a: string, b: string): string {
    if b == "" then a
    else if EndsWith(a, '/') && StartsWith(b, '/') then a + b[1..]
    else if !EndsWith(a, '/') && !StartsWith(b, '/') then a + "/" + b
    else a + b
  }

  /** path.Clean of a rooted path, segment by segment; `done` holds the segments kept so far. */
  function CleanSegments(segments: seq<string>, done: seq<string>): seq<string> {
    if segments == [] then done
    else if segments[0] == "" || segments[0] == "." then CleanSegments(segments[1..], done)
    else if segments[0] == ".." then CleanSegments(segments[1..], if done == [] then [] else done[..|done| - 1])
    else CleanSegments(segments[1..], done + [segments[0]])
  }

  /** url.URL.JoinPath with one element, for a rooted base path: the joined path is cleaned, a last slash is kept. */
  function JoinUrlPath(base: string, element: string): string {
    var joined := if element == "" then base else base + "/" + element;
    var clean := "/" + Join(CleanSegments(Split(joined, '/'), []), '/');
    if EndsWith(element, '/') && !EndsWith(clean, '/') then clean + "/" else clean
  }

  /** None leaves the redirect as it is. The ports are not compared. */
  function RewriteRedirect(gateway: Url, target: Url, location: Url): Option<Url> {
    if location.scheme != "http" && location.scheme != "https" then None
    else if location.hostname != target.hostname || !(target.path <= location.path) then None
    else
      Some(gateway.(path := JoinUrlPath(gateway.path, location.path[|target.path|..]), query := location.query))
  }

  /** A response of the target: its status, the system's status that is reported beside it, and where it points. */
  datatype Response = Response(status: nat, systemStatus: Option<nat>, location: Option<Url>)

  /** Failures of the target become those of the gateway; only redirects and creations have their location rewritten. */
  function Modified(gateway: Url, target: Url, r: Response): Response {
    if 500 <= r.status < 600 then r.(status := 502, systemStatus := Some(r.status))
    else if (r.status < 300 || r.status >= 400) && r.status != 201 then r
    else
      match r.location
      case None => r
      case Some(location) =>
        var rewritten := RewriteRedirect(gateway, target, location);
        if rewritten.Some? then r.(location := rewritten) else r
  }

  // ---------------------------------------------------------------- queries

  /** The order of strings by their characters. */
  predicate AtMost(a: string, b: string) {
    a == "" || (b != "" && (a[0] < b[0] || (a[0] == b[0] && AtMost(a[1..], b[1..]))))
  }

  lemma {:induction false} AtMostIsTotal(a: string, b: string)
    ensures AtMost(a, b) || AtMost(b, a)
  {
    if a != "" && b != "" && a[0] == b[0] {
      AtMostIsTotal(a[1..], b[1..]);
    }
  }

  /** The order of dictionaries: a prefix comes first, and otherwise the first character that differs decides. */
  lemma {:induction false} AtMostIsAlphabetical(a: string, b: string)
    ensures AtMost(a, b)
            <==> a <= b || exists k :: 0 <= k < |a| && k < |b| && a[..k] == b[..k] && a[k] < b[k]
  {
    if a != "" && b != "" {
      if a[0] == b[0] {
        AtMostIsAlphabetical(a[1..], b[1..]);
        assert a == [a[0]] + a[1..] && b == [b[0]] + b[1..];
        if k :| 0 <= k < |a[1..]| && k < |b[1..]| && a[1..][..k] == b[1..][..k] && a[1..][k] < b[1..][k] {
          assert a[..k + 1] == [a[0]] + a[1..][..k] && b[..k + 1] == [b[0]] + b[1..][..k];
        }
        if k :| 0 <= k < |a| && k < |b| && a[..k] == b[..k] && a[k] < b[k] {
          assert a[1..][..k - 1] == a[..k][1..] && b[1..][..k - 1] == b[..k][1..];
        }
      } else {
        assert a[..0] == b[..0];
        assert forall k :: 0 < k < |a| && k < |b| ==> a[..k][0] != b[..k][0];
      }
    }
  }

  predicate IsSorted(query: seq<Pair>) {
    forall i :: 0 <= i < |query| - 1 ==> AtMost(query[i].name, query[i + 1].name)
  }

  function Insert(p: Pair, query: seq<Pair>): seq<Pair> {
    if query == [] || AtMost(p.name, query[0].name) then [p] + query else [query[0]] + Insert(p, query[1..])
  }

  /** Encoding a query lists it by names; the values of one name keep their order. */
  function Encode(query: seq<Pair>): seq<Pair> {
    if query == [] then [] else Insert(query[0], Encode(query[1..]))
  }

  predicate Names(query: seq<Pair>, name: string) {
    exists i :: 0 <= i < |query| && query[i].name == name
  }

  function PairsOf(p: Parameter): seq<Pair> {
    seq(|p.values|, i requires 0 <= i < |p.values| => Pair(p.name, p.values[i]))
  }

  /** The parameters that the query does not name yet, in the order in which they are walked through. */
  function Added(parameters: seq<Parameter>, query: seq<Pair>): seq<Pair> {
    if parameters == [] then []
    else (if Names(query, parameters[0].name) then [] else PairsOf(parameters[0])) + Added(parameters[1..], query)
  }

  /** With parameters, if only an empty list of them, the query is encoded anew. */
  function SetQueryParameters(query: seq<Pair>, parameters: Option<seq<Parameter>>): seq<Pair> {
    if parameters.None? then query else Encode(query + Added(parameters.value, query))
  }

  method WalkParameters(query: seq<Pair>, parameters: seq<Parameter>) returns (r: seq<Pair>)
    ensures r == query + Added(parameters, query)
  {
    r := query;
    for i := 0 to |parameters|
      invariant r + Added(parameters[i..], query) == query + Added(parameters, query)
    {
      assert parameters[i..][0] == parameters[i] && parameters[i..][1..] == parameters[i + 1..];
      if !Names(query, parameters[i].name) {
        assert r + (PairsOf(parameters[i]) + Added(parameters[i + 1..], query))
               == (r + PairsOf(parameters[i])) + Added(parameters[i + 1..], query);
        r := r + PairsOf(parameters[i]);
      } else {
        assert [] + Added(parameters[i + 1..], query) == Added(parameters[i + 1..], query);
      }
    }
    assert r + [] == r;
  }

  lemma SortedTail(query: seq<Pair>)
    requires query != []
    ensures IsSorted(query) <==> IsSorted(query[1..]) && (|query| > 1 ==> AtMost(query[0].name, query[1].name))
  {
    var tail := query[1..];
    forall i | 0 <= i < |query| - 1 && IsSorted(tail) && (|query| > 1 ==> AtMost(query[0].name, query[1].name))
      ensures AtMost(query[i].name, query[i + 1].name)
    {
      if i > 0 {
        assert AtMost(tail[i - 1].name, tail[i - 1 + 1].name);
      }
    }
    forall i | 0 <= i < |tail| - 1 && IsSorted(query)
      ensures AtMost(tail[i].name, tail[i + 1].name)
    {
      assert AtMost(query[i + 1].name, query[i + 1 + 1].name);
    }
  }

  lemma {:induction false} InsertKeeps(p: Pair, query: seq<Pair>)
    requires IsSorted(query)
    ensures |Insert(p, query)| == |query| + 1 && IsSorted(Insert(p, query))
    ensures Insert(p, query)[0] == p || (query != [] && Insert(p, query)[0] == query[0])
  {
    var inserted := Insert(p, query);
    if query != [] && !AtMost(p.name, query[0].name) {
      AtMostIsTotal(p.name, query[0].name);
      SortedTail(query);
      InsertKeeps(p, query[1..]);
      assert inserted[1..] == Insert(p, query[1..]);
    } else {
      assert inserted[1..] == query;
    }
    SortedTail(inserted);
  }

  lemma {:induction false} EncodeSorts(query: seq<Pair>)
    ensures |Encode(query)| == |query| && IsSorted(Encode(query))
  {
    if query != [] {
      EncodeSorts(query[1..]);
      InsertKeeps(query[0], Encode(query[1..]));
    }
  }

  /** A sorted query is encoded as it is. */
  lemma {:induction false} EncodeOfSorted(query: seq<Pair>)
    requires IsSorted(query)
    ensures Encode(query) == query
  {
    if query != [] {
      SortedTail(query);
      EncodeOfSorted(query[1..]);
      assert [query[0]] + query[1..] == query;
    }
  }

  function ValuesOf(query: seq<Pair>, name: string): seq<string> {
    if query == [] then []
    else (if query[0].name == name then [query[0].value] else []) + ValuesOf(query[1..], name)
  }

  lemma {:induction false} AtMostItself(a: string)
    ensures AtMost(a, a)
  {
    if a != "" {
      AtMostItself(a[1..]);
    }
  }

  lemma {:induction false} InsertKeepsValues(p: Pair, query: seq<Pair>, name: string)
    ensures ValuesOf(Insert(p, query), name) == (if p.name == name then [p.value] else []) + ValuesOf(query, name)
  {
    AtMostItself(p.name);
    if query == [] || AtMost(p.name, query[0].name) {
      assert ([p] + query)[1..] == query;
    } else {
      InsertKeepsValues(p, query[1..], name);
      assert ([query[0]] + Insert(p, query[1..]))[1..] == Insert(p, query[1..]);
    }
  }

  /** Encoding keeps every value of every name, in order. */
  lemma {:induction false} EncodeKeepsValues(query: seq<Pair>, name: string)
    ensures ValuesOf(Encode(query), name) == ValuesOf(query, name)
  {
    if query != [] {
      EncodeKeepsValues(query[1..], name);
      InsertKeepsValues(query[0], Encode(query[1..]), name);
    }
  }

  /** The parameters bring nothing that the query does not name already. */
  predicate AddsNothing(parameters: seq<Parameter>, query: seq<Pair>) {
    forall i :: 0 <= i < |parameters| ==> parameters[i].values == [] || Names(query, parameters[i].name)
  }

  lemma {:induction false} AddedIsEmpty(parameters: seq<Parameter>, query: seq<Pair>)
    ensures Added(parameters, query) == [] <==> AddsNothing(parameters, query)
  {
    if parameters != [] {
      hide Names;
      AddedIsEmpty(parameters[1..], query);
      AddsNothingMore(parameters, query);
      var first := if Names(query, parameters[0].name) then [] else PairsOf(parameters[0]);
      assert Added(parameters, query) == first + Added(parameters[1..], query);
      assert |PairsOf(parameters[0])| == |parameters[0].values|;
    }
  }

  lemma AddsNothingMore(parameters: seq<Parameter>, query: seq<Pair>)
    requires parameters != []
    ensures AddsNothing(parameters, query)
            <==> (parameters[0].values == [] || Names(query, parameters[0].name)) && AddsNothing(parameters[1..], query)
  {
    hide Names;
    assert forall i :: 0 <= i < |parameters[1..]| ==> parameters[1..][i] == parameters[i + 1];
    assert forall i :: 0 < i < |parameters| ==> parameters[i] == parameters[1..][i - 1];
  }

  /** A query of a redirect survives: the target has none of its own and parameters neither add to it nor reorder it. */
  predicate KeepsQuery(target: Url, parameters: Option<seq<Parameter>>, query: seq<Pair>) {
    target.query == [] && (parameters.Some? ==> AddsNothing(parameters.value, query) && IsSorted(query))
  }

  lemma QueryArrives(target: Url, parameters: Option<seq<Parameter>>, query: seq<Pair>)
    ensures SetQueryParameters(target.query + query, parameters) == query <==> KeepsQuery(target, parameters, query)
  {
    var joined := target.query + query;
    assert target.query == [] ==> joined == query;
    if parameters.Some? {
      var all := joined + Added(parameters.value, joined);
      EncodeSorts(all);
      if IsSorted(query) {
        EncodeOfSorted(query);
      }
      AddedIsEmpty(parameters.value, joined);
      assert Added(parameters.value, joined) == [] ==> all == joined;
    }
  }

  // ---------------------------------------------------------------- forwarding

  /**
   Where a request arrives on the target of the API that `ids` identify: extractor, then director. None when the request
   is refused or is one for another API.
   */
  function Forward(request: Url, ids: seq<string>, target: Url, parameters: Option<seq<Parameter>>): Option<Url> {
    match Gateway.Extract(request.path, |ids|)
    case Failure(_) => None
    case Success(q) =>
      if q.ids != ids then None
      else
        Some(target.(path := JoinPaths(target.path, q.targetPath),
                     query := SetQueryParameters(target.query + request.query, parameters)))
  }

  /**
   A redirect is rewritten exactly when it is one of the web, names the host of the target and continues its path. It
   then goes to the gateway with the query it had, and wherever a client that follows it arrives, it is at the host that
   the redirect named.
   */
  lemma RedirectsKeepTheirHost(gateway: Url, target: Url, location: Url)
    ensures var rewritten := RewriteRedirect(gateway, target, location);
            && (rewritten.Some?
                <==> && (location.scheme == "http" || location.scheme == "https")
                     && location.hostname == target.hostname && target.path <= location.path)
            && (rewritten.Some? ==>
                  && rewritten.value.scheme == gateway.scheme && rewritten.value.hostname == gateway.hostname
                  && rewritten.value.port == gateway.port && rewritten.value.query == location.query
                  && forall ids, parameters ::
                       var arrived := Forward(rewritten.value, ids, target, parameters);
                       arrived.Some? ==> arrived.value.hostname == location.hostname)
  {
    hide Gateway.Extract, JoinUrlPath, JoinPaths, SetQueryParameters;
  }

  /**
   What a client is told: everything of the response stays as it was, but for a failure of the target, and for where a
   redirect or a creation points within the target.
   */
  lemma ResponsesKeepTheRest(gateway: Url, target: Url, r: Response)
    ensures var modified := Modified(gateway, target, r);
            && (if 500 <= r.status < 600 then modified.status == 502 && modified.systemStatus == Some(r.status)
                else modified.status == r.status && modified.systemStatus == r.systemStatus)
            && (modified.location != r.location ==>
                  && (300 <= r.status < 400 || r.status == 201) && r.location.Some? && modified.location.Some?
                  && r.location.value.scheme in {"http", "https"} && r.location.value.hostname == target.hostname
                  && target.path <= r.location.value.path
                  && modified.location.value.hostname == gateway.hostname)
            && ((300 <= r.status < 400 || r.status == 201) && r.location.Some?
                && r.location.value.scheme in {"http", "https"} && r.location.value.hostname == target.hostname
                && target.path <= r.location.value.path ==>
                  && modified.location.Some? && modified.location.value.scheme == gateway.scheme
                  && modified.location.value.hostname == gateway.hostname
                  && modified.location.value.query == r.location.value.query)
  {
    hide JoinUrlPath;
  }

  /** The values that the parameters give to a name. */
  function GivenTo(parameters: seq<Parameter>, name: string): seq<string> {
    if parameters == [] then []
    else (if parameters[0].name == name then parameters[0].values else []) + GivenTo(parameters[1..], name)
  }

  lemma {:induction false} ValuesOfConcat(a: seq<Pair>, b: seq<Pair>, name: string)
    ensures ValuesOf(a + b, name) == ValuesOf(a, name) + ValuesOf(b, name)
  {
    if a == [] {
      assert a + b == b;
    } else {
      assert (a + b)[1..] == a[1..] + b;
      ValuesOfConcat(a[1..], b, name);
    }
  }

  lemma {:induction false} ValuesOfPairs(name: string, values: seq<string>, n: string)
    ensures ValuesOf(PairsOf(Parameter(name, values)), n) == if name == n then values else []
  {
    if values != [] {
      var pairs := PairsOf(Parameter(name, values));
      assert pairs[1..] == PairsOf(Parameter(name, values[1..]));
      ValuesOfPairs(name, values[1..], n);
    } else {
      assert PairsOf(Parameter(name, values)) == [];
    }
  }

  lemma {:induction false} ValuesOfAdded(parameters: seq<Parameter>, query: seq<Pair>, name: string)
    ensures ValuesOf(Added(parameters, query), name) == if Names(query, name) then [] else GivenTo(parameters, name)
  {
    if parameters != [] {
      hide Names;
      ValuesOfAdded(parameters[1..], query, name);
      var p := parameters[0];
      ValuesOfPairs(p.name, p.values, name);
      assert p == Parameter(p.name, p.values);
      ValuesOfConcat(if Names(query, p.name) then [] else PairsOf(p), Added(parameters[1..], query), name);
    }
  }

  lemma {:induction false} NamedHasValues(query: seq<Pair>, name: string)
    ensures Names(query, name) <==> ValuesOf(query, name) != []
  {
    if query != [] {
      NamedHasValues(query[1..], name);
      if Names(query[1..], name) {
        var i :| 0 <= i < |query[1..]| && query[1..][i].name == name;
        assert query[i + 1].name == name;
      }
      if Names(query, name) && query[0].name != name {
        var i :| 0 <= i < |query| && query[i].name == name;
        assert query[1..][i - 1].name == name;
      }
    }
  }

  /**
   What a forwarded request asks the target for: scheme, host and port of the target, and for each name the values of
   the target URL, then those of the request, and only if there are none of either those of the custom parameters.
   */
  lemma ForwardedRequest(request: Url, ids: seq<string>, target: Url, parameters: Option<seq<Parameter>>)
    ensures var arrived := Forward(request, ids, target, parameters);
            arrived.Some? ==>
              && arrived.value.scheme == target.scheme && arrived.value.hostname == target.hostname
              && arrived.value.port == target.port
              && forall name ::
                   var own := ValuesOf(target.query, name) + ValuesOf(request.query, name);
                   ValuesOf(arrived.value.query, name)
                   == if own == [] && parameters.Some? then GivenTo(parameters.value, name) else own
  {
    hide Gateway.Extract, JoinPaths;
    var joined := target.query + request.query;
    forall name
      ensures var own := ValuesOf(target.query, name) + ValuesOf(request.query, name);
              ValuesOf(SetQueryParameters(joined, parameters), name)
              == if own == [] && parameters.Some? then GivenTo(parameters.value, name) else own
    {
      ValuesOfConcat(target.query, request.query, name);
      if parameters.Some? {
        var added := Added(parameters.value, joined);
        EncodeKeepsValues(joined + added, name);
        ValuesOfConcat(joined, added, name);
        ValuesOfAdded(parameters.value, joined, name);
        NamedHasValues(joined, name);
      }
    }
  }

  // ---------------------------------------------------------------- plain paths

  predicate IsPlain(segment: string) {
    segment != "" && segment != "." && segment != ".." && '/' !in segment
  }

  predicate ArePlain(segments: seq<string>) {
    forall s <- segments :: IsPlain(s)
  }

  lemma {:induction false} CleanOfPlain(segments: seq<string>, done: seq<string>)
    requires ArePlain(segments)
    ensures CleanSegments(segments, done) == done + segments
  {
    if segments != [] {
      assert IsPlain(segments[0]);
      CleanOfPlain(segments[1..], done + [segments[0]]);
      assert done + [segments[0]] + segments[1..] == done + segments;
    }
  }

  lemma {:induction false} CleanOfConcat(a: seq<string>, b: seq<string>, done: seq<string>)
    ensures CleanSegments(a + b, done) == CleanSegments(b, CleanSegments(a, done))
    decreases |a|
  {
    if a == [] {
      assert a + b == b;
    } else {
      assert (a + b)[1..] == a[1..] + b;
      CleanOfConcat(a[1..], b,
                    if a[0] == "" || a[0] == "." then done
                    else if a[0] == ".." then (if done == [] then [] else done[..|done| - 1])
                    else done + [a[0]]);
    }
  }

  /** Cleaning leaves plain segments, whatever it starts from. */
  lemma {:induction false} CleanIsPlain(segments: seq<string>, done: seq<string>)
    requires ArePlain(done) && forall s <- segments :: '/' !in s
    ensures ArePlain(CleanSegments(segments, done))
  {
    if segments != [] {
      assert '/' !in segments[0];
      CleanIsPlain(segments[1..],
                   if segments[0] == "" || segments[0] == "." then done
                   else if segments[0] == ".." then (if done == [] then [] else done[..|done| - 1])
                   else done + [segments[0]]);
    }
  }

  /** The length of segments with a slash behind each. */
  function Weight(segments: seq<string>): nat {
    if segments == [] then 0 else |segments[0]| + 1 + Weight(segments[1..])
  }

  lemma {:induction false} WeightOfConcat(a: seq<string>, b: seq<string>)
    ensures Weight(a + b) == Weight(a) + Weight(b)
  {
    if a == [] {
      assert a + b == b;
    } else {
      assert (a + b)[1..] == a[1..] + b;
      WeightOfConcat(a[1..], b);
    }
  }

  lemma {:induction false} WeightOfJoin(segments: seq<string>)
    requires segments != []
    ensures |Join(segments, '/')| + 1 == Weight(segments)
  {
    if |segments| > 1 {
      WeightOfJoin(segments[1..]);
    }
  }

  /** Cleaning makes nothing longer. */
  lemma {:induction false} CleanIsShort(segments: seq<string>, done: seq<string>)
    ensures Weight(CleanSegments(segments, done)) <= Weight(done) + Weight(segments)
  {
    if segments != [] {
      if segments[0] == ".." {
        if done != [] {
          WeightOfConcat(done[..|done| - 1], done[|done| - 1..]);
          assert done == done[..|done| - 1] + done[|done| - 1..];
        }
        CleanIsShort(segments[1..], if done == [] then [] else done[..|done| - 1]);
      } else if segments[0] == "" || segments[0] == "." {
        CleanIsShort(segments[1..], done);
      } else {
        WeightOfConcat(done, [segments[0]]);
        CleanIsShort(segments[1..], done + [segments[0]]);
      }
    }
  }

  lemma {:induction false} PlainEnds(segments: seq<string>)
    requires ArePlain(segments) && segments != []
    ensures Join(segments, '/') != "" && !StartsWith(Join(segments, '/'), '/') && !EndsWith(Join(segments, '/'), '/')
  {
    assert IsPlain(segments[0]);
    assert segments[0][0] in segments[0] && segments[0][|segments[0]| - 1] in segments[0];
    if |segments| > 1 {
      PlainEnds(segments[1..]);
    }
  }

  /** The segments of the gateway's own path and of what is joined to it, cleaned. */
  function Joined(ids: seq<string>, element: string): seq<string> {
    CleanSegments(Split(element, '/'), ids)
  }

  lemma NothingJoined(ids: seq<string>)
    ensures Joined(ids, "") == ids
  {
    SplitPart("", '/');
    CleanOfEmpty(ids);
  }

  lemma CleanOfEmpty(done: seq<string>)
    ensures CleanSegments([""], done) == done
  {
  }

  lemma SplitOfRooted(path: string)
    ensures Split("/" + path, '/') == [""] + Split(path, '/')
  {
    assert "/" + path == "" + ['/'] + path;
    SplitOfConcat("", path, '/');
    SplitPart("", '/');
  }

  lemma CleanOfIds(ids: seq<string>)
    requires ArePlain(ids) && ids != []
    ensures CleanSegments(Split("/" + Join(ids, '/'), '/'), []) == ids
  {
    SplitOfRooted(Join(ids, '/'));
    SplitOfJoin(ids, '/');
    CleanOfPlain(ids, []);
    assert ([""] + ids)[1..] == ids;
  }

  lemma JoinOfNothing()
    ensures Join([], '/') == ""
  {
  }

  lemma JoinOfElement(ids: seq<string>, element: string)
    requires ArePlain(ids) && ids != []
    ensures var all := Joined(ids, element);
            && ArePlain(all)
            && JoinUrlPath("/" + Join(ids, '/'), element)
               == "/" + Join(all, '/') + (if EndsWith(element, '/') && all != [] then "/" else "")
  {
    hide Split, Join, IsPlain;
    var base, all := "/" + Join(ids, '/'), Joined(ids, element);
    CleanIsPlain(Split(element, '/'), ids);
    CleanOfIds(ids);
    if element == "" {
      NothingJoined(ids);
    } else {
      SplitOfConcat(base, element, '/');
      CleanOfConcat(Split(base, '/'), Split(element, '/'), []);
      assert base + ['/'] + element == base + "/" + element;
    }
    if all == [] {
      assert Join(all, '/') == "" by { JoinOfNothing(); }
    } else {
      PlainEnds(all);
    }
  }

  /** The extractor undoes it, loses a last slash and reads the rest as a URL. */
  lemma ExtractOfPlain(ids: seq<string>, segments: seq<string>, trail: bool)
    requires ArePlain(ids) && |ids| > 1 && ArePlain(segments)
    ensures Gateway.Extract("/" + Join(ids + segments, '/') + (if trail then "/" else ""), |ids|)
            == match Gateway.ParsePath(Join(segments, '/'))
               case Failure(e) => Failure(e)
               case Success(path) => Success(Gateway.Request(ids, path, "/" + Join(ids, '/')))
  {
    var all := ids + segments;
    var text := Join(all, '/');
    PlainEnds(all);
    TrimBoth(text, '/');
    assert ['/'] + text == "/" + text && ['/'] + text + ['/'] == "/" + text + "/";
    SplitOfJoin(all, '/');
    assert all[..|ids|] == ids && all[|ids|..] == segments;
    var path := "/" + text + (if trail then "/" else "");
    assert !trail ==> path == "/" + text;
    assert all[0] != path by {
      assert all[0] == ids[0] && IsPlain(ids[0]);
      assert path[0] == '/';
    }
  }

  /** The rest of the path is read as it stands: no colon in its first segment could be taken for a scheme. */
  predicate HasNoScheme(segments: seq<string>) {
    segments == [] || ':' !in segments[0]
  }

  lemma {:induction false} NoSchemeWithoutColon(text: string, i: nat)
    requires i <= |text|
    ensures var end := Gateway.SchemeEnd(text, i);
            end.Some? ==> i <= end.value && forall j :: i <= j < end.value ==> text[j] != '/'
    decreases |text| - i
  {
    if i < |text| {
      NoSchemeWithoutColon(text, i + 1);
    }
  }

  lemma FirstSegment(segments: seq<string>)
    requires ArePlain(segments) && segments != []
    ensures segments[0] <= Join(segments, '/') && Split(Join(segments, '/'), '/')[0] == segments[0]
  {
    SplitOfJoin(segments, '/');
  }

  /**
   Plain segments are read as the path they are exactly when the first has no colon; otherwise they are refused or lose
   at least two characters.
   */
  lemma ParseOfPlain(segments: seq<string>)
    requires ArePlain(segments)
    ensures var text := Join(segments, '/'); var path := Gateway.ParsePath(text);
            if HasNoScheme(segments) then path == Success(text)
            else path.Failure? || path.value == "" || (StartsWith(path.value, '/') && |path.value| + 2 <= |text|)
  {
    hide Gateway.AfterAuthority, ArePlain;
    var text := Join(segments, '/');
    NoSchemeWithoutColon(text, 0);
    if segments != [] {
      PlainEnds(segments);
      FirstSegment(segments);
      var first, end := segments[0], Gateway.SchemeEnd(text, 0);
      if |first| < |text| {
        SlashBehindFirst(segments);
      }
      assert end.Some? ==> end.value < |first| && text[end.value] == first[end.value];
    } else {
      SplitPart("", '/');
    }
  }

  lemma SlashBehindFirst(segments: seq<string>)
    requires segments != [] && |segments[0]| < |Join(segments, '/')|
    ensures Join(segments, '/')[|segments[0]|] == '/'
  {
  }

  predicate IsWeb(url: Url) {
    url.scheme == "http" || url.scheme == "https"
  }

  /** With too few segments left the extractor refuses. */
  lemma ExtractOfFew(all: seq<string>, n: nat, trail: bool)
    requires ArePlain(all) && |all| < n && n > 1
    ensures Gateway.Extract("/" + Join(all, '/') + (if trail && all != [] then "/" else ""), n).Failure?
  {
    var text := Join(all, '/');
    if all == [] {
      assert "/" + text + "" == "/";
      assert Trim("/", '/') == "";
      SplitPart("", '/');
    } else {
      PlainEnds(all);
      TrimBoth(text, '/');
      assert ['/'] + text == "/" + text && ['/'] + text + ['/'] == "/" + text + "/";
      SplitOfJoin(all, '/');
      assert !trail ==> "/" + text + "" == "/" + text;
    }
  }

  /** The extractor finds the identifying segments exactly when cleaning leaves them. */
  lemma ExtractOfJoined(ids: seq<string>, element: string)
    requires |ids| > 1 && ArePlain(ids)
    ensures var all := Joined(ids, element);
            var r := Gateway.Extract(JoinUrlPath("/" + Join(ids, '/'), element), |ids|);
            && ArePlain(all)
            && if ids <= all then
                 match Gateway.ParsePath(Join(all[|ids|..], '/'))
                 case Failure(_) => r.Failure?
                 case Success(path) => r.Success? && r.value.ids == ids && r.value.targetPath == path
               else r.Success? ==> r.value.ids != ids
  {
    hide Gateway.Extract, Gateway.ParsePath, JoinUrlPath, Join;
    var all, n := Joined(ids, element), |ids|;
    JoinOfElement(ids, element);
    if |all| < n {
      ExtractOfFew(all, n, EndsWith(element, '/'));
    } else {
      assert all == all[..n] + all[n..];
      ExtractOfPlain(all[..n], all[n..], EndsWith(element, '/'));
    }
  }

  /**
   Any redirect to a path that continues the target path, rewritten and followed: it comes back to the same API exactly
   when cleaning leaves the identifying segments, and arrives at the target path joined with what is read of the others.
   */
  lemma RedirectArrives(gateway: Url, ids: seq<string>, target: Url, parameters: Option<seq<Parameter>>, location: Url)
    requires |ids| > 1 && ArePlain(ids) && gateway.path == "/" + Join(ids, '/')
    requires IsWeb(location) && location.hostname == target.hostname && target.path <= location.path
    ensures var rewritten := RewriteRedirect(gateway, target, location);
            var all := Joined(ids, location.path[|target.path|..]);
            && rewritten.Some? && ArePlain(all)
            && Forward(rewritten.value, ids, target, parameters)
               == if !(ids <= all) then None
                  else
                    match Gateway.ParsePath(Join(all[|ids|..], '/'))
                    case Failure(_) => None
                    case Success(path) =>
                      Some(target.(path := JoinPaths(target.path, path),
                                   query := SetQueryParameters(target.query + location.query, parameters)))
  {
    hide Gateway.Extract, Gateway.ParsePath, JoinUrlPath, JoinPaths, Joined, SetQueryParameters, Join, ArePlain;
    ExtractOfJoined(ids, location.path[|target.path|..]);
  }

  /** The path below the target path: segments that are plain, and of which the first has no colon. */
  predicate IsTidy(path: string) {
    ArePlain(Split(path, '/')) && HasNoScheme(Split(path, '/'))
  }

  /** What follows the target path is nothing, or a tidy path with one slash in between. */
  predicate Follows(targetPath: string, element: string) {
    element == "" || (StartsWith(element, '/') != EndsWith(targetPath, '/') && IsTidy(TrimFirst(element, '/')))
  }

  /**
   Any redirect to a path that continues the target path arrives where it pointed exactly when it kept scheme and port,
   its query survives, and what follows the target path is nothing or, with one slash in between, a path without empty
   segments, dots, a colon in the first segment, or a slash behind.
   */
  lemma RedirectRoundTrip(gateway: Url, ids: seq<string>, target: Url, parameters: Option<seq<Parameter>>,
                          location: Url)
    requires |ids| > 1 && ArePlain(ids) && gateway.path == "/" + Join(ids, '/')
    requires IsWeb(location) && location.hostname == target.hostname && target.path <= location.path
    ensures var rewritten := RewriteRedirect(gateway, target, location);
            && rewritten.Some?
            && (Forward(rewritten.value, ids, target, parameters) == Some(location) <==>
                && location.scheme == target.scheme && location.port == target.port
                && KeepsQuery(target, parameters, location.query)
                && Follows(target.path, location.path[|target.path|..]))
  {
    hide RewriteRedirect, Forward, Gateway.ParsePath, JoinPaths, Joined, SetQueryParameters, Join, ArePlain, Follows,
         KeepsQuery;
    var element := location.path[|target.path|..];
    RedirectArrives(gateway, ids, target, parameters, location);
    QueryArrives(target, parameters, location.query);
    assert location.path == target.path + element;
    PathArrives(ids, target.path, element);
  }

  /** The path at which a request arrives that comes back with `element` joined to the gateway's own path. */
  function Arrival(ids: seq<string>, targetPath: string, element: string): Option<string> {
    var all := Joined(ids, element);
    if !(ids <= all) then None
    else
      match Gateway.ParsePath(Join(all[|ids|..], '/'))
      case Failure(_) => None
      case Success(path) => Some(JoinPaths(targetPath, path))
  }

  lemma PathArrives(ids: seq<string>, targetPath: string, element: string)
    requires ArePlain(ids)
    ensures Arrival(ids, targetPath, element) == Some(targetPath + element) <==> Follows(targetPath, element)
  {
    if Follows(targetPath, element) {
      TidyArrives(ids, targetPath, element);
    }
    if Arrival(ids, targetPath, element) == Some(targetPath + element) {
      ArrivedIsTidy(ids, targetPath, element);
    }
  }

  lemma TidyArrives(ids: seq<string>, targetPath: string, element: string)
    requires ArePlain(ids) && Follows(targetPath, element)
    ensures Arrival(ids, targetPath, element) == Some(targetPath + element)
  {
    hide Gateway.ParsePath, CleanSegments, Joined;
    if element == "" {
      NothingJoined(ids);
      assert ids[|ids|..] == [];
      ParseOfPlain([]);
      assert targetPath + element == targetPath;
    } else {
      hide Split, Join;
      var body := TrimFirst(element, '/');
      var segments := Split(body, '/');
      PlainIsJoined(ids, element);
      assert (ids + segments)[|ids|..] == segments;
      ParseOfPlain(segments);
      PlainEnds(segments);
      JoinPathsOfPlain(targetPath, body);
      assert StartsWith(element, '/') ==> element == "/" + body;
      assert !StartsWith(element, '/') ==> element == "" + body;
    }
  }

  /** Plain segments with or without a slash in front are put behind the identifying ones. */
  lemma PlainIsJoined(ids: seq<string>, element: string)
    requires ArePlain(Split(TrimFirst(element, '/'), '/'))
    ensures Joined(ids, element) == ids + Split(TrimFirst(element, '/'), '/')
  {
    var segments := Split(TrimFirst(element, '/'), '/');
    CleanOfPlain(segments, ids);
    if StartsWith(element, '/') {
      assert element == "/" + element[1..];
      SplitOfRooted(element[1..]);
      assert ([""] + segments)[1..] == segments;
    }
  }

  lemma ArrivedIsTidy(ids: seq<string>, targetPath: string, element: string)
    requires ArePlain(ids) && Arrival(ids, targetPath, element) == Some(targetPath + element)
    ensures Follows(targetPath, element)
  {
    hide Gateway.ParsePath;
    var all := Joined(ids, element);
    var rest := all[|ids|..];
    var text := Join(rest, '/');
    CleanIsPlain(Split(element, '/'), ids);
    assert forall s <- rest :: s in all;
    ParseOfPlain(rest);
    if !HasNoScheme(rest) {
      SchemeIsLost(ids, targetPath, element);
      assert false;
    } else if rest == [] {
      ConcatCancels(targetPath, "", element);
      assert targetPath + "" == targetPath;
    } else {
      PlainEnds(rest);
      JoinPathsOfPlain(targetPath, text);
      ConcatCancels(targetPath, (if EndsWith(targetPath, '/') then "" else "/") + text, element);
      SplitOfJoin(rest, '/');
      assert TrimFirst(element, '/') == text;
    }
  }

  /** What looks like a scheme is lost, so that the path that arrives is too short. */
  lemma SchemeIsLost(ids: seq<string>, targetPath: string, element: string)
    requires ArePlain(ids) && ids <= Joined(ids, element) && !HasNoScheme(Joined(ids, element)[|ids|..])
    ensures Arrival(ids, targetPath, element) != Some(targetPath + element)
  {
    hide Gateway.ParsePath, CleanSegments, Joined, Split, Join, IsPlain;
    var rest := Joined(ids, element)[|ids|..];
    RestIsPlain(ids, element);
    ParseOfPlain(rest);
    RestIsShort(ids, element);
    NothingJoined(ids);
    assert element == "" ==> rest == [];
    var path := Gateway.ParsePath(Join(rest, '/'));
    if path.Success? {
      assert |JoinPaths(targetPath, path.value)| <= |targetPath| + |path.value|;
      assert |targetPath + element| == |targetPath| + |element|;
    }
  }

  lemma RestIsPlain(ids: seq<string>, element: string)
    requires ArePlain(ids) && ids <= Joined(ids, element)
    ensures ArePlain(Joined(ids, element)[|ids|..])
  {
    CleanIsPlain(Split(element, '/'), ids);
    assert forall s <- Joined(ids, element)[|ids|..] :: s in Joined(ids, element);
  }

  lemma RestIsShort(ids: seq<string>, element: string)
    requires ids <= Joined(ids, element)
    ensures |Join(Joined(ids, element)[|ids|..], '/')| <= |element|
  {
    var all := Joined(ids, element);
    var rest := all[|ids|..];
    CleanIsShort(Split(element, '/'), ids);
    assert all == ids + rest;
    WeightOfConcat(ids, rest);
    WeightOfJoin(Split(element, '/'));
    if rest != [] {
      WeightOfJoin(rest);
    }
  }

  lemma ConcatCancels(t: string, a: string, b: string)
    ensures t + a == t + b <==> a == b
  {
    assert (t + a)[|t|..] == a && (t + b)[|t|..] == b;
  }

  lemma JoinPathsOfPlain(targetPath: string, text: string)
    requires text != "" && !StartsWith(text, '/')
    ensures JoinPaths(targetPath, text) == targetPath + ((if EndsWith(targetPath, '/') then "" else "/") + text)
  {
    assert "" + text == text;
    assert targetPath + "/" + text == targetPath + ("/" + text);
  }

  /**
   In particular a redirect to anything below the target, as the director joins paths, survives exactly when its query
   does and its first segment has no colon.
   */
  lemma ReachableRedirects(gateway: Url, ids: seq<string>, target: Url, parameters: Option<seq<Parameter>>,
                           query: seq<Pair>, segments: seq<string>)
    requires |ids| > 1 && ArePlain(ids) && ArePlain(segments)
    requires gateway.path == "/" + Join(ids, '/')
    requires IsWeb(target)
    ensures var location := target.(path := JoinPaths(target.path, Join(segments, '/')), query := query);
            var rewritten := RewriteRedirect(gateway, target, location);
            && rewritten.Some?
            && (Forward(rewritten.value, ids, target, parameters) == Some(location)
                <==> KeepsQuery(target, parameters, query) && HasNoScheme(segments))
  {
    var text := Join(segments, '/');
    var location := target.(path := JoinPaths(target.path, text), query := query);
    if segments == [] {
      assert location.path == target.path + "";
    } else {
      PlainEnds(segments);
      JoinPathsOfPlain(target.path, text);
      SplitOfJoin(segments, '/');
      assert location.path == target.path + ((if EndsWith(target.path, '/') then "" else "/") + text);
    }
    RedirectRoundTrip(gateway, ids, target, parameters, location);
  }

  lemma OneSegment(gateway: Url, ids: seq<string>, target: Url, segment: string)
    requires |ids| > 1 && ArePlain(ids) && gateway.path == "/" + Join(ids, '/')
    requires IsWeb(target) && target.query == [] && IsPlain(segment)
    ensures var rewritten := RewriteRedirect(gateway, target, target.(path := target.path + "/" + segment));
            && rewritten.Some?
            && var arrived := Forward(rewritten.value, ids, target, None);
               match Gateway.ParsePath(segment)
               case Failure(_) => arrived == None
               case Success(path) => arrived == Some(target.(path := JoinPaths(target.path, path)))
  {
    hide RewriteRedirect, Forward, Gateway.ParsePath, JoinPaths, Join, Joined, SetQueryParameters, ArePlain, IsPlain;
    SegmentIsJoined(ids, segment);
    NoParameters(target.query);
    var location := target.(path := target.path + "/" + segment);
    assert location.path == target.path + ("/" + segment);
    RedirectArrives(gateway, ids, target, None, location);
    assert target.query + location.query == [];
  }

  lemma NoParameters(query: seq<Pair>)
    ensures SetQueryParameters(query, None) == query
  {
  }

  lemma SegmentIsJoined(ids: seq<string>, segment: string)
    requires IsPlain(segment)
    ensures Joined(ids, "/" + segment) == ids + [segment] && (ids + [segment])[|ids|..] == [segment]
    ensures Join([segment], '/') == segment
  {
    SplitPart(segment, '/');
    assert TrimFirst("/" + segment, '/') == segment;
    PlainIsJoined(ids, "/" + segment);
  }

  /** What looks like a scheme is lost: a redirect to `v1:search` arrives at the target itself, and `1:x` is refused. */
  lemma ColonsGoAstray(gateway: Url, ids: seq<string>, target: Url)
    requires |ids| > 1 && ArePlain(ids) && gateway.path == "/" + Join(ids, '/')
    requires IsWeb(target) && target.query == []
    ensures var rewritten := RewriteRedirect(gateway, target, target.(path := target.path + "/" + "v1:search"));
            rewritten.Some? && Forward(rewritten.value, ids, target, None) == Some(target)
    ensures var rewritten := RewriteRedirect(gateway, target, target.(path := target.path + "/" + "1:x"));
            rewritten.Some? && Forward(rewritten.value, ids, target, None) == None
  {
    ColonSegments();
    hide RewriteRedirect, Forward, Gateway.ParsePath, ArePlain, IsPlain, Join;
    OneSegment(gateway, ids, target, "v1:search");
    OneSegment(gateway, ids, target, "1:x");
  }

  lemma ColonSegments()
    ensures IsPlain("v1:search") && Gateway.ParsePath("v1:search") == Success("")
    ensures IsPlain("1:x") && Gateway.ParsePath("1:x").Failure?
  {
    hide Gateway.ParsePath;
    ParseOfScheme();
    ParseOfDigit();
  }

  lemma ParseOfScheme()
    ensures Gateway.ParsePath("v1:search") == Success("")
  {
    assert Gateway.SchemeEnd("v1:search", 2) == Some(2);
    assert Gateway.SchemeEnd("v1:search", 1) == Some(2);
    assert "v1:search"[3..] == "search";
  }

  lemma ParseOfDigit()
    ensures Gateway.ParsePath("1:x").Failure?
  {
    SplitPart("1:x", '/');
    assert "1:x"[1] == ':';
  }

  /** A redirect to a sibling whose name merely continues the target path never comes back to it. */
  lemma SiblingRedirectGoesAstray(gateway: Url, ids: seq<string>, target: Url, parameters: Option<seq<Parameter>>,
                                  segments: seq<string>)
    requires |ids| > 1 && ArePlain(ids) && ArePlain(segments) && segments != []
    requires gateway.path == "/" + Join(ids, '/')
    requires IsWeb(target) && !EndsWith(target.path, '/')
    ensures var location := target.(path := target.path + Join(segments, '/'));
            var rewritten := RewriteRedirect(gateway, target, location);
            && rewritten.Some?
            && var arrived := Forward(rewritten.value, ids, target, parameters);
               && (arrived.Some? ==> arrived.value.path != location.path)
               && (HasNoScheme(segments) ==>
                     arrived.Some? && arrived.value.path == target.path + "/" + Join(segments, '/'))
  {
    var text := Join(segments, '/');
    PlainEnds(segments);
    SplitOfJoin(segments, '/');
    PlainIsJoined(ids, text);
    assert (ids + segments)[|ids|..] == segments;
    var location := target.(path := target.path + text);
    RedirectArrives(gateway, ids, target, parameters, location);
    ParseOfPlain(segments);
    assert JoinPaths(target.path, text) == target.path + "/" + text;
  }
}
