/** When a synchronisation has nothing left to do, and how soon it gets there. */
module SyncFixedPoint {
  import opened Wrappers
  import opened Resources
  import opened Cluster
  import opened Secrets
  import opened SyncPlan
  import opened SyncService
  import opened Synchronisation
  import opened SyncSecrets
  import opened SyncTheorems
  import D = Director
  import NR = NameResolver
  import C = Converter

  /** The application and the secrets of `d` are on the cluster as the Director wants them. */
  ghost predicate IsUpToDate(c: C.Settings, w: World, d: D.Application) {
    && d.name in w.apps && Carries(w.apps[d.name], C.Convert(c, d))
    && forall j :: 0 <= j < |d.bundles| ==>
         && (d.bundles[j].Credentials().Some? ==> CredentialsStored(w, d.name, d.bundles[j]))
         && (d.bundles[j].Parameters().Some? ==> ParametersStored(w, d.name, d.bundles[j]))
  }

  /** The managed applications are the Director's, and all of them are up to date. */
  ghost predicate IsSettled(c: C.Settings, w: World, ds: seq<D.Application>) {
    && (forall n :: n in w.apps && w.apps[n].IsManaged() ==> InDirector(n, ds))
    && (forall i :: 0 <= i < |ds| ==> IsUpToDate(c, w, ds[i]))
  }

  // ---------------------------------------------------------------- a settled cluster is left alone

  lemma {:induction false} StoredCredentialsStay(w: World, d: D.Application, k: nat)
    requires k <= |d.bundles|
    requires forall j :: 0 <= j < k && d.bundles[j].Credentials().Some? ==> CredentialsStored(w, d.name, d.bundles[j])
    ensures Run(w, CredentialsEffects(d.name, d.bundles[..k])) == w
  {
    if k > 0 {
      StoredCredentialsStay(w, d, k - 1);
      assert d.bundles[..k][..k - 1] == d.bundles[..k - 1];
      LastCredentials(w, d.name, d.bundles[..k]);
    }
  }

  lemma {:induction false} StoredParametersStay(w: World, d: D.Application, k: nat)
    requires k <= |d.bundles|
    requires forall j :: 0 <= j < k && d.bundles[j].Parameters().Some? ==> ParametersStored(w, d.name, d.bundles[j])
    ensures Run(w, ParametersEffects(d.name, d.bundles[..k])) == w
  {
    if k > 0 {
      StoredParametersStay(w, d, k - 1);
      assert d.bundles[..k][..k - 1] == d.bundles[..k - 1];
      LastParameters(w, d.name, d.bundles[..k]);
      if d.bundles[k - 1].Parameters().Some? {
        var n := NR.ParametersSecretName(d.name, d.bundles[k - 1].id);
        assert w.secrets[n := w.secrets[n]] == w.secrets;
      }
    }
  }

  lemma MergeOfSame(app: Application, new_: Application)
    requires Carries(app, new_)
    ensures Merge(app, new_) == app
  {
  }

  lemma SameApplicationStays(w: World, new_: Application)
    requires new_.name in w.apps && Carries(w.apps[new_.name], new_)
    ensures Apply(w, Update(new_)) == w
  {
    MergeOfSame(w.apps[new_.name], new_);
    assert w.apps[new_.name := w.apps[new_.name]] == w.apps;
  }

  lemma DropsNothing(w: World, names: set<string>)
    ensures Apply(w, DropSecrets(names - names)) == w
  {
    assert w.secrets - (names - names) == w.secrets;
  }

  lemma UpdateOfUpToDate(c: C.Settings, w: World, existing: Application, d: D.Application)
    requires IsUpToDate(c, w, d) && existing == w.apps[d.name]
    ensures Run(w, UpdateEffects(c, existing, d)) == w
  {
    RunUpdate(c, w, existing, d);
    assert existing.spec.services == C.Services(c, d.name, d.bundles);
    SameApplicationStays(w, C.Convert(c, d));
    DropsNothing(w, CredentialsSecretNames(existing.spec.services));
    DropsNothing(w, ParametersSecretNames(existing.spec.services));
    assert d.bundles[..|d.bundles|] == d.bundles;
    StoredCredentialsStay(w, d, |d.bundles|);
    StoredParametersStay(w, d, |d.bundles|);
  }

  lemma {:induction false} NothingToCreate(c: C.Settings, w: World, listed: seq<Application>, ds: seq<D.Application>,
                                           k: nat)
    requires k <= |ds| && forall i :: 0 <= i < k ==> Exists(ds[i].name, listed)
    ensures Run(w, CreatePlan(c, w, listed, ds[..k])) == w
  {
    if k > 0 {
      NothingToCreate(c, w, listed, ds, k - 1);
      CreatePlanGrows(c, w, listed, ds, k - 1);
    }
  }

  lemma {:induction false} NothingToDelete(w: World, listed: seq<Application>, ds: seq<D.Application>)
    requires forall i :: 0 <= i < |listed| ==> InDirector(listed[i].name, ds)
    ensures Run(w, DeletePlan(listed, ds)) == w
  {
    if listed != [] {
      NothingToDelete(w, listed[..|listed| - 1], ds);
      DeletePlanGrows(w, listed, ds);
    }
  }

  lemma {:induction false} NothingToUpdate(c: C.Settings, w: World, listed: seq<Application>, ds: seq<D.Application>,
                                           k: nat)
    requires k <= |ds| && IsListing(listed, w.apps)
    requires forall i :: 0 <= i < |ds| ==> IsUpToDate(c, w, ds[i])
    ensures Run(w, UpdatePlan(c, listed, ds[..k])) == w
  {
    if k > 0 {
      NothingToUpdate(c, w, listed, ds, k - 1);
      UpdatePlanGrows(c, w, listed, ds, k - 1);
      if Exists(ds[k - 1].name, listed) {
        var a := Find(ds[k - 1].name, listed);
        var i :| 0 <= i < |listed| && listed[i] == a;
        UpdateOfUpToDate(c, w, a, ds[k - 1]);
      }
    }
  }

  lemma SettledStays(c: C.Settings, w: World, listed: seq<Application>, ds: seq<D.Application>)
    requires IsStart(w, listed, ds) && IsSettled(c, w, ds)
    ensures After(c, w, listed, ds) == w
  {
    forall i | 0 <= i < |ds|
      ensures Exists(ds[i].name, listed)
    {
      assert IsUpToDate(c, w, ds[i]);
    }
    assert ds[..|ds|] == ds;
    NothingToCreate(c, w, listed, ds, |ds|);
    NothingToDelete(w, listed, ds);
    NothingToUpdate(c, w, listed, ds, |ds|);
    InPhases(c, w, listed, ds);
  }

  // ---------------------------------------------------------------- getting settled

  ghost predicate NoneLost(listed: seq<Application>, ds: seq<D.Application>) {
    forall i, j :: 0 <= i < |ds| && 0 <= j < |ds[i].bundles| ==>
      var d, b := ds[i], ds[i].bundles[j];
      && (b.Credentials().Some? ==> !IsLost(listed, ds, i, NR.CredentialsSecretName(d.name, b.id), true))
      && (b.Parameters().Some? ==> !IsLost(listed, ds, i, NR.ParametersSecretName(d.name, b.id), false))
  }

  /** Every Director application is listed or can be created. */
  ghost predicate AllPresent(w: World, listed: seq<Application>, ds: seq<D.Application>) {
    forall i :: 0 <= i < |ds| ==> IsPresent(w, listed, ds, i)
  }

  /** A new application keeps its request parameters from being stored. */
  predicate IsHeldBack(listed: seq<Application>, d: D.Application) {
    && !Exists(d.name, listed) && HasAmbiguous(d.bundles)
    && exists j :: 0 <= j < |d.bundles| && d.bundles[j].Parameters().Some?
  }

  lemma OnlyDirectors(c: C.Settings, w: World, listed: seq<Application>, ds: seq<D.Application>, n: string)
    requires IsStart(w, listed, ds) && !InDirector(n, ds)
    ensures var w' := After(c, w, listed, ds); n in w'.apps ==> !w'.apps[n].IsManaged()
  {
    var w1, w2 := AfterCreations(c, w, listed, ds), AfterDeletions(c, w, listed, ds);
    InPhases(c, w, listed, ds);
    BeforeUpdates(c, w, listed, ds);
    assert ds[..|ds|] == ds;
    forall i | 0 <= i < |ds|
      ensures ds[i].name != n
    {
      assert ds[i] in ds;
    }
    CreatePhaseKeeps(c, w, listed, ds, |ds|, n);
    UpdatePhaseKeeps(c, w2, listed, ds, |ds|, n);
    if n in w.apps && w.apps[n].IsManaged() {
      var a := Find(n, listed);
      assert a in listed && a.name in DeletedNames(listed, ds);
    }
  }

  lemma OneUpToDate(c: C.Settings, w: World, listed: seq<Application>, ds: seq<D.Application>, i: nat)
    requires IsStart(w, listed, ds) && DistinctResolved(ds) && i < |ds| && IsPresent(w, listed, ds, i)
    requires NoneLost(listed, ds) && !IsHeldBack(listed, ds[i])
    ensures IsUpToDate(c, After(c, w, listed, ds), ds[i])
  {
    ApplicationsConverge(c, w, listed, ds, i);
    forall j | 0 <= j < |ds[i].bundles|
      ensures var b := ds[i].bundles[j]; var w' := After(c, w, listed, ds);
              && (b.Credentials().Some? ==> CredentialsStored(w', ds[i].name, b))
              && (b.Parameters().Some? ==> ParametersStored(w', ds[i].name, b))
    {
      if ds[i].bundles[j].Credentials().Some? {
        CredentialsSurvive(c, w, listed, ds, i, j);
      }
      if ds[i].bundles[j].Parameters().Some? {
        ParametersSurvive(c, w, listed, ds, i, j);
      }
    }
  }

  lemma OneRunSettles(c: C.Settings, w: World, listed: seq<Application>, ds: seq<D.Application>)
    requires IsStart(w, listed, ds) && DistinctResolved(ds) && AllPresent(w, listed, ds) && NoneLost(listed, ds)
    requires forall i :: 0 <= i < |ds| ==> !IsHeldBack(listed, ds[i])
    ensures IsSettled(c, After(c, w, listed, ds), ds)
  {
    forall i | 0 <= i < |ds|
      ensures IsUpToDate(c, After(c, w, listed, ds), ds[i])
    {
      OneUpToDate(c, w, listed, ds, i);
    }
    forall n | n in After(c, w, listed, ds).apps && After(c, w, listed, ds).apps[n].IsManaged()
      ensures InDirector(n, ds)
    {
      if !InDirector(n, ds) {
        OnlyDirectors(c, w, listed, ds, n);
      }
    }
  }

  /**
   A synchronisation changes nothing exactly when everything is up to date, for lists whose secret names do not meet and
   are not lost to the applications at hand.
   */
  lemma FixedPoint(c: C.Settings, w: World, listed: seq<Application>, ds: seq<D.Application>)
    requires IsStart(w, listed, ds) && DistinctResolved(ds) && AllPresent(w, listed, ds) && NoneLost(listed, ds)
    ensures After(c, w, listed, ds) == w <==> IsSettled(c, w, ds)
  {
    if After(c, w, listed, ds) == w {
      forall i | 0 <= i < |ds|
        ensures Exists(ds[i].name, listed)
      {
        assert IsPresent(w, listed, ds, i);
        ApplicationsConverge(c, w, listed, ds, i);
      }
      OneRunSettles(c, w, listed, ds);
    }
    if IsSettled(c, w, ds) {
      SettledStays(c, w, listed, ds);
    }
  }

  // ---------------------------------------------------------------- from any start

  /** All managed applications are converted from the Director's list. */
  ghost predicate IsConvertedListing(c: C.Settings, listed: seq<Application>, ds: seq<D.Application>) {
    && (forall k :: 0 <= k < |listed| ==> InDirector(listed[k].name, ds))
    && (forall i :: 0 <= i < |ds| ==>
          Exists(ds[i].name, listed)
          && Find(ds[i].name, listed).spec.services == C.Services(c, ds[i].name, ds[i].bundles))
  }

  lemma ConvertedLosesNothing(c: C.Settings, listed: seq<Application>, ds: seq<D.Application>)
    requires IsConvertedListing(c, listed, ds) && DistinctResolved(ds)
    ensures NoneLost(listed, ds)
  {
    forall i, j | 0 <= i < |ds| && 0 <= j < |ds[i].bundles|
      ensures var d, b := ds[i], ds[i].bundles[j];
              && (b.Credentials().Some? ==> !IsLost(listed, ds, i, NR.CredentialsSecretName(d.name, b.id), true))
              && (b.Parameters().Some? ==> !IsLost(listed, ds, i, NR.ParametersSecretName(d.name, b.id), false))
    {
      var d, b := ds[i], ds[i].bundles[j];
      IsOwn(d, j);
      NewNamesAreOwn(c, d);
      if b.Credentials().Some? {
        NotParameters(d, j);
        NobodyElseRefers(c, listed, ds, i, NR.CredentialsSecretName(d.name, b.id));
      }
      if b.Parameters().Some? {
        NobodyElseRefers(c, listed, ds, i, NR.ParametersSecretName(d.name, b.id));
      }
    }
  }

  lemma NobodyElseRefers(c: C.Settings, listed: seq<Application>, ds: seq<D.Application>, i: nat, n: string)
    requires IsConvertedListing(c, listed, ds) && DistinctResolved(ds) && i < |ds| && n in OwnNames(ds[i])
    ensures !UpdateRefers(listed, ds, i + 1, |ds|, n)
  {
    OthersDiffer(ds, i, n);
    forall j | i < j < |ds|
      ensures n !in ReferencedNames(Find(ds[j].name, listed))
    {
      NewNamesAreOwn(c, ds[j]);
    }
  }

  lemma AfterIsConverted(c: C.Settings, w: World, listed: seq<Application>, ds: seq<D.Application>,
                         again: seq<Application>)
    requires IsStart(w, listed, ds) && AllPresent(w, listed, ds)
    requires IsListing(again, After(c, w, listed, ds).apps)
    ensures IsConvertedListing(c, again, ds)
  {
    var w' := After(c, w, listed, ds);
    forall k | 0 <= k < |again|
      ensures InDirector(again[k].name, ds)
    {
      if !InDirector(again[k].name, ds) {
        OnlyDirectors(c, w, listed, ds, again[k].name);
      }
    }
    forall i | 0 <= i < |ds|
      ensures Exists(ds[i].name, again)
              && Find(ds[i].name, again).spec.services == C.Services(c, ds[i].name, ds[i].bundles)
    {
      assert IsPresent(w, listed, ds, i);
      ApplicationsConverge(c, w, listed, ds, i);
      var a := Find(ds[i].name, again);
      var k :| 0 <= k < |again| && again[k] == a;
    }
  }

  /**
   Whatever the cluster looked like, the second synchronisation with a list leaves everything up to date, even where the
   first one lost secrets or held request parameters back; from then on nothing changes.
   */
  lemma TwoRunsSettle(c: C.Settings, w: World, listed: seq<Application>, ds: seq<D.Application>,
                      second: seq<Application>, third: seq<Application>)
    requires IsStart(w, listed, ds) && DistinctResolved(ds) && AllPresent(w, listed, ds)
    requires IsListing(second, After(c, w, listed, ds).apps)
    requires IsListing(third, After(c, After(c, w, listed, ds), second, ds).apps)
    ensures var w2 := After(c, After(c, w, listed, ds), second, ds);
            IsSettled(c, w2, ds) && After(c, w2, third, ds) == w2
  {
    var w1 := After(c, w, listed, ds);
    AfterKeyed(c, w, listed, ds);
    AfterIsConverted(c, w, listed, ds, second);
    ConvertedLosesNothing(c, second, ds);
    OneRunSettles(c, w1, second, ds);
    AfterKeyed(c, w1, second, ds);
    SettledStays(c, After(c, w1, second, ds), third, ds);
  }

  lemma AfterKeyed(c: C.Settings, w: World, listed: seq<Application>, ds: seq<D.Application>)
    requires IsStart(w, listed, ds)
    ensures Keyed(After(c, w, listed, ds))
  {
    InPhases(c, w, listed, ds);
    BeforeUpdates(c, w, listed, ds);
    assert ds[..|ds|] == ds;
    UpdatePhaseKeeps(c, AfterDeletions(c, w, listed, ds), listed, ds, |ds|, "");
  }
}
