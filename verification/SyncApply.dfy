/** `Apply` of the synchronisation service and what a whole synchronisation guarantees, whatever calls fail. */
module SyncApply {
  import opened Wrappers
  import opened Resources
  import opened Cluster
  import opened AppErrors
  import opened SyncPlan
  import opened SyncService
  import opened Synchronisation
  import D = Director
  import C = Converter
  import AgentNames

  /** The managed applications are the Director's, and each carries what the Director said. */
  ghost predicate Converged(apps: map<string, Application>, c: C.Settings, ds: seq<D.Application>) {
    && (forall n :: n in apps ==> (apps[n].IsManaged() <==> InDirector(n, ds)))
    && (forall i :: 0 <= i < |ds| ==> IsConverted(apps, c, ds[i].name, ds))
  }

  /** Applications that Compass does not manage, as they stand in `w`, stand the same in `w'`. */
  ghost predicate LeavesUnmanaged(w: World, w': World) {
    forall n :: n in w.apps && !w.apps[n].IsManaged() ==> n in w'.apps && w'.apps[n] == w.apps[n]
  }

  /** Applications that the Director has stay, and keep their UIDs. */
  ghost predicate KeepsDirectors(w: World, w': World, ds: seq<D.Application>) {
    forall n :: n in w.apps && InDirector(n, ds) ==> n in w'.apps && w'.apps[n].uid == w.apps[n].uid
  }

  ghost predicate IsSynchronisation(c: C.Settings, w: World, w': World, listed: seq<Application>,
                                    ds: seq<D.Application>, results: seq<SyncResult>, sound: bool) {
    && Headers(results) == Accounting(listed, ds)
    && LeavesUnmanaged(w, w')
    && Moved(c, w.apps, w'.apps, ds)
    && KeepsDirectors(w, w', ds)
    && Advances(w, w', ds)
    && w'.apps.Keys <= w.apps.Keys + CreatedNames(listed, ds)
    && w'.secrets - TouchedNames(listed, ds) == w.secrets - TouchedNames(listed, ds)
    && AreTrue(w'.apps, c, ds, results)
    && (AllSucceeded(results) ==> Converged(w'.apps, c, ds))
    && (sound ==> w' == Run(w, Plan(c, w, listed, ds)))
  }

  function NormalizeAll(ds: seq<D.Application>, fold: char -> char): seq<D.Application> {
    seq(|ds|, i requires 0 <= i < |ds| => ds[i].(name := AgentNames.Normalize(ds[i].name, fold)))
  }

  /** `managed` are the managed ones of the first `i` items, which stand at `origins`. */
  ghost predicate IsFiltered(items: seq<Application>, i: nat, managed: seq<Application>, origins: seq<nat>) {
    && |origins| == |managed| && i <= |items|
    && (forall k :: 0 <= k < |origins| ==> origins[k] < i && managed[k] == items[origins[k]] && managed[k].IsManaged())
    && (forall k, l :: 0 <= k < l < |origins| ==> origins[k] < origins[l])
    && (forall j :: 0 <= j < i && items[j].IsManaged() ==> j in origins)
  }

  method FilterManaged(items: seq<Application>, ghost apps: map<string, Application>)
    returns (managed: seq<Application>)
    requires Lists(items, apps)
    ensures IsListing(managed, apps)
  {
    managed := [];
    ghost var origins: seq<nat> := [];
    NothingFiltered(items);
    hide IsFiltered, Lists, IsListing;
    for i := 0 to |items|
      invariant IsFiltered(items, i, managed, origins)
    {
      OneMoreFiltered(items, i, managed, origins);
      if items[i].IsManaged() {
        managed := managed + [items[i]];
        origins := origins + [i];
      }
    }
    FilteredIsListing(items, apps, managed, origins);
  }

  lemma NothingFiltered(items: seq<Application>)
    ensures IsFiltered(items, 0, [], [])
  {
  }

  lemma OneMoreFiltered(items: seq<Application>, i: nat, managed: seq<Application>, origins: seq<nat>)
    requires i < |items| && IsFiltered(items, i, managed, origins)
    ensures if items[i].IsManaged() then IsFiltered(items, i + 1, managed + [items[i]], origins + [i])
            else IsFiltered(items, i + 1, managed, origins)
  {
  }

  lemma FilteredIsListing(items: seq<Application>, apps: map<string, Application>, managed: seq<Application>,
                          origins: seq<nat>)
    requires Lists(items, apps) && IsFiltered(items, |items|, managed, origins)
    ensures IsListing(managed, apps)
  {
    forall n | n in apps && apps[n].IsManaged()
      ensures Exists(n, managed)
    {
      var j :| 0 <= j < |items| && items[j].name == n;
      var k :| 0 <= k < |origins| && origins[k] == j;
      assert managed[k] in managed;
    }
  }

  /** Renames the Director's applications where they are. */
  method NormalizeApplications(director: array<D.Application>, fold: char -> char)
    modifies director
    ensures director[..] == NormalizeAll(old(director[..]), fold)
  {
    for i := 0 to director.Length
      invariant director[..i] == NormalizeAll(old(director[..i]), fold)
      invariant director[i..] == old(director[i..])
    {
      director[i] := director[i].(name := AgentNames.Normalize(director[i].name, fold));
    }
  }

  method HasDuplicates(ds: seq<D.Application>) returns (found: bool)
    ensures found <==> !DistinctNames(ds)
  {
    var used := {};
    for i := 0 to |ds|
      invariant used == set j | 0 <= j < i :: ds[j].name
      invariant DistinctNames(ds[..i])
    {
      if ds[i].name in used {
        return true;
      }
      used := used + {ds[i].name};
      assert ds[..i + 1] == ds[..i] + [ds[i]];
    }
    assert ds[..|ds|] == ds;
    found := false;
  }

  /**
   Without a list of the cluster, or with two Director applications of one name, nothing is written. `listed` is the
   listing of the managed applications that the synchronisation went by.
   */
  method ApplyApplications(api: ApiServer, c: C.Settings, fold: char -> char, director: array<D.Application>,
                           normalizeNames: bool)
    returns (r: Result<seq<SyncResult>, AppError>, ghost listed: seq<Application>)
    requires api.Valid()
    modifies api, director
    ensures api.Valid()
    ensures director[..] == if r == Failure(AppError.Internal) || !normalizeNames then old(director[..])
                            else NormalizeAll(old(director[..]), fold)
    ensures r.Failure? ==> api.State() == old(api.State())
    ensures r == Failure(AppError.Internal) || (r == Failure(AppError.AlreadyExists) <==> !DistinctNames(director[..]))
    ensures r == Failure(AppError.Internal) ==> api.failures > old(api.failures)
    ensures r.Success? ==>
              && IsListing(listed, old(api.apps))
              && IsSynchronisation(c, old(api.State()), api.State(), listed, director[..], r.value,
                                   api.failures == old(api.failures))
    ensures r.Success? || r.error == AppError.Internal || r.error == AppError.AlreadyExists
  {
    listed := [];
    var items := api.ListApplications();
    if items.Failure? {
      return Failure(AppError.Internal), listed;
    }
    var managed := FilterManaged(items.value, api.apps);
    listed := managed;
    if normalizeNames {
      NormalizeApplications(director, fold);
    }
    var ds := director[..];
    var duplicates := HasDuplicates(ds);
    if duplicates {
      return Failure(AppError.AlreadyExists), listed;
    }
    ghost var w, f0 := api.State(), api.failures;
    var created := CreateApplications(api, c, ds, managed);
    ghost var w1, f1 := api.State(), api.failures;
    var deleted := DeleteApplications(api, ds, managed);
    ghost var w2, f2 := api.State(), api.failures;
    var updated := UpdateApplications(api, c, ds, managed);
    PhasesCompose(c, w, w1, w2, api.State(), managed, ds, created, deleted, updated, f1 == f0, f2 == f1,
                  api.failures == f2);
    r := Success(created + deleted + updated);
  }

  lemma PhasesCompose(c: C.Settings, w: World, w1: World, w2: World, w3: World, listed: seq<Application>,
                      ds: seq<D.Application>,
                      created: seq<SyncResult>, deleted: seq<SyncResult>, updated: seq<SyncResult>,
                      s1: bool, s2: bool, s3: bool)
    requires IsListing(listed, w.apps) && DistinctNames(ds)
    requires IsCreatePhase(c, w, w1, listed, ds, created, s1)
    requires IsDeletePhase(w1, w2, listed, ds, deleted, s2)
    requires IsUpdatePhase(c, w2, w3, listed, ds, updated, s3)
    ensures IsSynchronisation(c, w, w3, listed, ds, created + deleted + updated, s1 && s2 && s3)
  {
    hide Run, CreatePlan, DeletePlan, UpdatePlan, Plan, Moved, LeavesUnmanaged, KeepsDirectors, AreTrue, Converged,
         IsListing, CreateHeaders, DeleteHeaders, UpdateHeaders, AreNew, AreGone, DistinctNames, Advances;
    var results := created + deleted + updated;
    ApplicationFrames(c, w, w1, w2, w3, listed, ds, created, deleted, updated, s1, s2, s3);
    assert Headers(results) == Headers(created) + Headers(deleted) + Headers(updated);
    SecretsCompose(w, w1, w2, w3, listed, ds);
    MovesCompose(c, w, w1, w2, w3, ds);
    AdvancesCompose(w, w1, w2, w3, ds);
    ResultsStayTrue(c, w1, w2, w3, listed, ds, created, deleted, updated);
    if AllSucceeded(results) {
      SplitSuccess(created, deleted, updated);
      PhasesConverge(c, w, w1, w2, w3, listed, ds, created, deleted, updated, s1, s2, s3);
    }
    if s1 && s2 && s3 {
      PlansCompose(c, w, w1, w2, w3, listed, ds);
    }
  }

  lemma PlansCompose(c: C.Settings, w: World, w1: World, w2: World, w3: World, listed: seq<Application>,
                     ds: seq<D.Application>)
    requires w1 == Run(w, CreatePlan(c, w, listed, ds))
    requires w2 == Run(w1, DeletePlan(listed, ds))
    requires w3 == Run(w2, UpdatePlan(c, listed, ds))
    ensures w3 == Run(w, Plan(c, w, listed, ds))
  {
    RunConcat(w, CreatePlan(c, w, listed, ds), DeletePlan(listed, ds));
    RunConcat(w, CreatePlan(c, w, listed, ds) + DeletePlan(listed, ds), UpdatePlan(c, listed, ds));
  }

  lemma SplitSuccess(a: seq<SyncResult>, b: seq<SyncResult>, c: seq<SyncResult>)
    requires AllSucceeded(a + b + c)
    ensures AllSucceeded(a) && AllSucceeded(b) && AllSucceeded(c)
  {
    var all := a + b + c;
    assert forall k :: 0 <= k < |a| ==> a[k] == all[k];
    assert forall k :: 0 <= k < |b| ==> b[k] == all[|a| + k];
    assert forall k :: 0 <= k < |c| ==> c[k] == all[|a| + |b| + k];
  }

  lemma SecretsCompose(w: World, w1: World, w2: World, w3: World, listed: seq<Application>, ds: seq<D.Application>)
    requires w1.secrets - ResolvedNames(ds) == w.secrets - ResolvedNames(ds)
    requires w2.secrets - AllReferencedNames(listed) == w1.secrets - AllReferencedNames(listed)
    requires w3.secrets - TouchedNames(listed, ds) == w2.secrets - TouchedNames(listed, ds)
    ensures w3.secrets - TouchedNames(listed, ds) == w.secrets - TouchedNames(listed, ds)
  {
    FrameWidens(w.secrets, w1.secrets, ResolvedNames(ds), TouchedNames(listed, ds));
    FrameWidens(w1.secrets, w2.secrets, AllReferencedNames(listed), TouchedNames(listed, ds));
  }

  lemma AdvancesCompose(w: World, w1: World, w2: World, w3: World, ds: seq<D.Application>)
    requires Advances(w, w1, ds) && Advances(w1, w2, []) && Advances(w2, w3, ds)
    ensures Advances(w, w3, ds)
  {
    hide Advances;
    AdvancesWidens(w1, w2, [], ds);
    AdvancesOn(w, w1, w2, ds);
    AdvancesOn(w, w2, w3, ds);
  }

  lemma MovesCompose(c: C.Settings, w: World, w1: World, w2: World, w3: World, ds: seq<D.Application>)
    requires Moved(c, w.apps, w1.apps, ds) && Moved(c, w2.apps, w3.apps, ds)
    requires w2.apps.Keys <= w1.apps.Keys && forall n :: n in w2.apps ==> w2.apps[n] == w1.apps[n]
    ensures Moved(c, w.apps, w3.apps, ds)
  {
  }

  /** A name outside a frame means the same application before and after. */
  lemma Outside(before: map<string, Application>, after: map<string, Application>, names: set<string>, n: string)
    requires after - names == before - names && n !in names
    ensures n in before <==> n in after
    ensures n in before ==> before[n] == after[n]
  {
    assert n in before <==> n in before - names;
    assert n in after <==> n in after - names;
    if n in before {
      assert (before - names)[n] == (after - names)[n];
    }
  }

  lemma ApplicationFrames(c: C.Settings, w: World, w1: World, w2: World, w3: World, listed: seq<Application>,
                          ds: seq<D.Application>,
                          created: seq<SyncResult>, deleted: seq<SyncResult>, updated: seq<SyncResult>,
                          s1: bool, s2: bool, s3: bool)
    requires IsListing(listed, w.apps) && DistinctNames(ds)
    requires IsCreatePhase(c, w, w1, listed, ds, created, s1)
    requires IsDeletePhase(w1, w2, listed, ds, deleted, s2)
    requires IsUpdatePhase(c, w2, w3, listed, ds, updated, s3)
    ensures LeavesUnmanaged(w, w3) && KeepsDirectors(w, w3, ds)
    ensures w3.apps.Keys <= w.apps.Keys + CreatedNames(listed, ds)
    ensures AreThere(listed, w1.apps)
    ensures UpdatedNames(listed, ds) <= w2.apps.Keys
  {
    hide Advances;
    forall n | n in w.apps && !w.apps[n].IsManaged()
      ensures n in w3.apps && w3.apps[n] == w.apps[n]
    {
      assert !Exists(n, listed);
      Outside(w1.apps, w2.apps, DeletedNames(listed, ds), n);
      Outside(w2.apps, w3.apps, UpdatedNames(listed, ds), n);
    }
    forall n | n in w.apps && InDirector(n, ds)
      ensures n in w3.apps && w3.apps[n].uid == w.apps[n].uid
    {
      assert n !in DeletedNames(listed, ds);
      Outside(w1.apps, w2.apps, DeletedNames(listed, ds), n);
    }
    forall n | n in UpdatedNames(listed, ds)
      ensures n in w2.apps
    {
      var k :| 0 <= k < |listed| && listed[k].name == n;
      assert n in w1.apps;
      Outside(w1.apps, w2.apps, DeletedNames(listed, ds), n);
    }
  }

  lemma ResultsStayTrue(c: C.Settings, w1: World, w2: World, w3: World, listed: seq<Application>,
                        ds: seq<D.Application>,
                        created: seq<SyncResult>, deleted: seq<SyncResult>, updated: seq<SyncResult>)
    requires Headers(created) == CreateHeaders(listed, ds) && AreTrue(w1.apps, c, ds, created)
    requires w2.apps - DeletedNames(listed, ds) == w1.apps - DeletedNames(listed, ds)
    requires AreGone(w2.apps, deleted)
    requires w3.apps - UpdatedNames(listed, ds) == w2.apps - UpdatedNames(listed, ds) && w3.apps.Keys == w2.apps.Keys
    requires AreTrue(w3.apps, c, ds, updated)
    ensures AreTrue(w3.apps, c, ds, created + deleted + updated)
  {
    CreatedResultNames(listed, ds, created);
    forall k | 0 <= k < |created|
      ensures IsTrue(w3.apps, c, ds, created[k])
    {
      Outside(w1.apps, w2.apps, DeletedNames(listed, ds), created[k].name);
      Outside(w2.apps, w3.apps, UpdatedNames(listed, ds), created[k].name);
      assert IsTrue(w1.apps, c, ds, created[k]);
    }
    forall k | 0 <= k < |deleted|
      ensures IsTrue(w3.apps, c, ds, deleted[k])
    {
    }
  }

  lemma PhasesConverge(c: C.Settings, w: World, w1: World, w2: World, w3: World, listed: seq<Application>,
                       ds: seq<D.Application>,
                       created: seq<SyncResult>, deleted: seq<SyncResult>, updated: seq<SyncResult>,
                       s1: bool, s2: bool, s3: bool)
    requires IsListing(listed, w.apps) && DistinctNames(ds)
    requires IsCreatePhase(c, w, w1, listed, ds, created, s1)
    requires IsDeletePhase(w1, w2, listed, ds, deleted, s2)
    requires IsUpdatePhase(c, w2, w3, listed, ds, updated, s3)
    requires AllSucceeded(created) && AllSucceeded(deleted) && AllSucceeded(updated)
    ensures Converged(w3.apps, c, ds)
  {
    ResultsStayTrue(c, w1, w2, w3, listed, ds, created, deleted, updated);
    var results := created + deleted + updated;
    forall i | 0 <= i < |ds|
      ensures IsConverted(w3.apps, c, ds[i].name, ds)
    {
      var k := ResultOf(listed, ds, created, updated, deleted, i);
      assert IsTrue(w3.apps, c, ds, results[k]);
    }
    forall n | n in w3.apps
      ensures w3.apps[n].IsManaged() <==> InDirector(n, ds)
    {
      if InDirector(n, ds) {
        var i :| 0 <= i < |ds| && ds[i].name == n;
        assert IsConverted(w3.apps, c, ds[i].name, ds);
      } else {
        Outside(w2.apps, w3.apps, UpdatedNames(listed, ds), n);
        if Exists(n, listed) {
          DeletedResult(listed, ds, deleted, n, w2.apps);
        } else {
          Outside(w1.apps, w2.apps, DeletedNames(listed, ds), n);
          assert n !in CreatedNames(listed, ds);
        }
      }
    }
  }

  lemma DeletedResult(listed: seq<Application>, ds: seq<D.Application>, deleted: seq<SyncResult>, n: string,
                      apps: map<string, Application>)
    requires Headers(deleted) == DeleteHeaders(listed, ds)
    requires AreGone(apps, deleted) && AllSucceeded(deleted)
    requires Exists(n, listed) && !InDirector(n, ds)
    ensures n !in apps
  {
    DeleteHeaderNames(listed, ds);
    var h :| h in DeleteHeaders(listed, ds) && h.name == n;
    var k :| 0 <= k < |deleted| && Headers(deleted)[k] == h;
    assert deleted[k].name == n;
  }

  /** Where the results say what the headers name. */
  lemma HeaderResult(results: seq<SyncResult>, headers: seq<Header>, n: string) returns (k: nat)
    requires Headers(results) == headers
    requires exists h <- headers :: h.name == n
    ensures k < |results| && results[k].name == n && results[k].operation == headers[k].operation
  {
    var h :| h in headers && h.name == n;
    k :| 0 <= k < |headers| && headers[k] == h;
  }

  lemma CreatedResult(listed: seq<Application>, ds: seq<D.Application>, created: seq<SyncResult>, n: string)
    returns (k: nat)
    requires Headers(created) == CreateHeaders(listed, ds) && InDirector(n, ds) && !Exists(n, listed)
    ensures k < |created| && created[k].name == n && created[k].operation == Created
  {
    CreateHeaderNames(listed, ds);
    k := HeaderResult(created, CreateHeaders(listed, ds), n);
    assert CreateHeaders(listed, ds)[k] in CreateHeaders(listed, ds);
  }

  lemma UpdatedResult(listed: seq<Application>, ds: seq<D.Application>, updated: seq<SyncResult>, n: string)
    returns (k: nat)
    requires Headers(updated) == UpdateHeaders(listed, ds) && InDirector(n, ds) && Exists(n, listed)
    ensures k < |updated| && updated[k].name == n && updated[k].operation == Updated
  {
    UpdateHeaderNames(listed, ds);
    k := HeaderResult(updated, UpdateHeaders(listed, ds), n);
    assert UpdateHeaders(listed, ds)[k] in UpdateHeaders(listed, ds);
  }

  lemma ResultOf(listed: seq<Application>, ds: seq<D.Application>, created: seq<SyncResult>, updated: seq<SyncResult>,
                 deleted: seq<SyncResult>, i: nat) returns (k: nat)
    requires i < |ds|
    requires Headers(created) == CreateHeaders(listed, ds) && Headers(updated) == UpdateHeaders(listed, ds)
    requires AllSucceeded(created) && AllSucceeded(updated)
    ensures var results := created + deleted + updated;
            k < |results| && results[k].name == ds[i].name && results[k].operation != Deleted && results[k].error.None?
  {
    if Exists(ds[i].name, listed) {
      var j := UpdatedResult(listed, ds, updated, ds[i].name);
      k := |created| + |deleted| + j;
    } else {
      k := CreatedResult(listed, ds, created, ds[i].name);
    }
  }

  // ---------------------------------------------------------------- accounting

  /** The operation that a name calls for. */
  function OperationFor(name: string, listed: seq<Application>, ds: seq<D.Application>): Operation {
    if !Exists(name, listed) then Created else if InDirector(name, ds) then Updated else Deleted
  }

  ghost predicate DistinctHeaders(headers: seq<Header>) {
    forall k, l :: 0 <= k < l < |headers| ==> headers[k].name != headers[l].name
  }

  /**
   A synchronisation reports exactly one result for each name that the Director or the cluster knows, and which
   operation it reports depends only on who knows the name.
   */
  lemma OneResultPerName(listed: seq<Application>, ds: seq<D.Application>)
    requires DistinctListing(listed) && DistinctNames(ds)
    ensures var headers := Accounting(listed, ds);
            && (forall n :: InDirector(n, ds) || Exists(n, listed) <==> Names(headers, n))
            && DistinctHeaders(headers)
            && (forall k :: 0 <= k < |headers| ==> headers[k].operation == OperationFor(headers[k].name, listed, ds))
  {
    var cs, xs, us := CreateHeaders(listed, ds), DeleteHeaders(listed, ds), UpdateHeaders(listed, ds);
    var headers := Accounting(listed, ds);
    CreateHeadersDistinct(listed, ds);
    DeleteHeadersDistinct(listed, ds);
    UpdateHeadersDistinct(listed, ds);
    forall k | 0 <= k < |headers|
      ensures headers[k].operation == OperationFor(headers[k].name, listed, ds)
      ensures InDirector(headers[k].name, ds) || Exists(headers[k].name, listed)
    {
      HeaderOrigin(listed, ds, k);
    }
    forall n | InDirector(n, ds) || Exists(n, listed)
      ensures Names(headers, n)
    {
      HeaderFor(listed, ds, n);
    }
    forall k, l | 0 <= k < l < |headers|
      ensures headers[k].name != headers[l].name
    {
      HeadersDiffer(listed, ds, k, l);
    }
  }

  predicate Names(headers: seq<Header>, n: string) {
    exists k :: 0 <= k < |headers| && headers[k].name == n
  }

  lemma HeaderOrigin(listed: seq<Application>, ds: seq<D.Application>, k: nat)
    requires k < |Accounting(listed, ds)|
    ensures var h := Accounting(listed, ds)[k];
            h.operation == OperationFor(h.name, listed, ds) && (InDirector(h.name, ds) || Exists(h.name, listed))
  {
    var cs, xs, us := CreateHeaders(listed, ds), DeleteHeaders(listed, ds), UpdateHeaders(listed, ds);
    var h := Accounting(listed, ds)[k];
    if k < |cs| {
      CreateHeaderNames(listed, ds);
      assert h == cs[k] && h in cs;
    } else if k < |cs| + |xs| {
      DeleteHeaderNames(listed, ds);
      assert h == xs[k - |cs|] && h in xs;
    } else {
      UpdateHeaderNames(listed, ds);
      assert h == us[k - |cs| - |xs|] && h in us;
    }
  }

  lemma HeaderFor(listed: seq<Application>, ds: seq<D.Application>, n: string)
    requires InDirector(n, ds) || Exists(n, listed)
    ensures Names(Accounting(listed, ds), n)
  {
    var cs, xs, us := CreateHeaders(listed, ds), DeleteHeaders(listed, ds), UpdateHeaders(listed, ds);
    if !Exists(n, listed) {
      CreateHeaderNames(listed, ds);
      NamedIn(cs, n, [], xs + us);
      assert [] + cs + (xs + us) == Accounting(listed, ds);
    } else if InDirector(n, ds) {
      UpdateHeaderNames(listed, ds);
      NamedIn(us, n, cs + xs, []);
      assert cs + xs + us + [] == Accounting(listed, ds);
    } else {
      DeleteHeaderNames(listed, ds);
      NamedIn(xs, n, cs, us);
    }
  }

  lemma NamedIn(headers: seq<Header>, n: string, before: seq<Header>, after: seq<Header>)
    requires exists h <- headers :: h.name == n
    ensures Names(before + headers + after, n)
  {
    var h :| h in headers && h.name == n;
    var k :| 0 <= k < |headers| && headers[k] == h;
    assert (before + headers + after)[|before| + k] == h;
  }

  lemma HeadersDiffer(listed: seq<Application>, ds: seq<D.Application>, k: nat, l: nat)
    requires k < l < |Accounting(listed, ds)|
    requires DistinctHeaders(CreateHeaders(listed, ds)) && DistinctHeaders(DeleteHeaders(listed, ds))
    requires DistinctHeaders(UpdateHeaders(listed, ds))
    ensures Accounting(listed, ds)[k].name != Accounting(listed, ds)[l].name
  {
    hide CreateHeaders, DeleteHeaders, UpdateHeaders, InDirector, Exists;
    HeaderPhase(listed, ds, k);
    HeaderPhase(listed, ds, l);
    HeaderOrigin(listed, ds, k);
    HeaderOrigin(listed, ds, l);
    if Accounting(listed, ds)[k].operation == Accounting(listed, ds)[l].operation {
      PartsDiffer(CreateHeaders(listed, ds), DeleteHeaders(listed, ds), UpdateHeaders(listed, ds), k, l);
    }
  }

  /** Two headers of one phase name different applications when those of every phase do. */
  lemma PartsDiffer(cs: seq<Header>, xs: seq<Header>, us: seq<Header>, k: nat, l: nat)
    requires k < l < |cs + xs + us|
    requires DistinctHeaders(cs) && DistinctHeaders(xs) && DistinctHeaders(us)
    requires l < |cs| || |cs| <= k
    requires l < |cs| + |xs| || |cs| + |xs| <= k
    ensures (cs + xs + us)[k].name != (cs + xs + us)[l].name
  {
  }

  lemma HeaderPhase(listed: seq<Application>, ds: seq<D.Application>, k: nat)
    requires k < |Accounting(listed, ds)|
    ensures var creations, deletions := |CreateHeaders(listed, ds)|, |DeleteHeaders(listed, ds)|;
            Accounting(listed, ds)[k].operation
            == if k < creations then Created else if k < creations + deletions then Deleted else Updated
  {
    CreateHeaderNames(listed, ds);
    DeleteHeaderNames(listed, ds);
    UpdateHeaderNames(listed, ds);
    PartOperation(CreateHeaders(listed, ds), DeleteHeaders(listed, ds), UpdateHeaders(listed, ds), k);
  }

  lemma PartOperation(cs: seq<Header>, xs: seq<Header>, us: seq<Header>, k: nat)
    requires k < |cs + xs + us|
    requires forall h <- cs :: h.operation == Created
    requires forall h <- xs :: h.operation == Deleted
    requires forall h <- us :: h.operation == Updated
    ensures (cs + xs + us)[k].operation == if k < |cs| then Created else if k < |cs| + |xs| then Deleted else Updated
  {
    var h := (cs + xs + us)[k];
    assert if k < |cs| then h in cs else if k < |cs| + |xs| then h in xs else h in us;
  }

  lemma {:induction false} CreateHeadersDistinct(listed: seq<Application>, ds: seq<D.Application>)
    requires DistinctNames(ds)
    ensures DistinctHeaders(CreateHeaders(listed, ds))
  {
    if ds != [] {
      var front := ds[..|ds| - 1];
      CreateHeadersDistinct(listed, front);
      CreateHeaderNames(listed, front);
      assert !InDirector(ds[|ds| - 1].name, front);
    }
  }

  lemma {:induction false} UpdateHeadersDistinct(listed: seq<Application>, ds: seq<D.Application>)
    requires DistinctNames(ds)
    ensures DistinctHeaders(UpdateHeaders(listed, ds))
  {
    if ds != [] {
      var front := ds[..|ds| - 1];
      UpdateHeadersDistinct(listed, front);
      UpdateHeaderNames(listed, front);
      assert !InDirector(ds[|ds| - 1].name, front);
    }
  }

  lemma {:induction false} DeleteHeadersDistinct(listed: seq<Application>, ds: seq<D.Application>)
    requires DistinctListing(listed)
    ensures DistinctHeaders(DeleteHeaders(listed, ds))
  {
    if listed != [] {
      var front := listed[..|listed| - 1];
      DeleteHeadersDistinct(front, ds);
      DeleteHeaderNames(front, ds);
      assert !Exists(listed[|listed| - 1].name, front);
    }
  }
}
