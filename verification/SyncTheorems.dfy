/**
 What a synchronisation in which no call fails guarantees about secrets: which are collected, which survive, and when
 repeating it changes nothing.
 */
module SyncTheorems {
  import opened Wrappers
  import opened Resources
  import opened Cluster
  import opened Secrets
  import opened SyncPlan
  import opened SyncService
  import opened Synchronisation
  import opened SyncSecrets
  import D = Director
  import NR = NameResolver
  import C = Converter

  /** The cluster after a synchronisation without failures. */
  function After(c: C.Settings, w: World, listed: seq<Application>, ds: seq<D.Application>): World {
    Run(w, Plan(c, w, listed, ds))
  }

  function AfterCreations(c: C.Settings, w: World, listed: seq<Application>, ds: seq<D.Application>): World {
    Run(w, CreatePlan(c, w, listed, ds))
  }

  function AfterDeletions(c: C.Settings, w: World, listed: seq<Application>, ds: seq<D.Application>): World {
    Run(AfterCreations(c, w, listed, ds), DeletePlan(listed, ds))
  }

  lemma InPhases(c: C.Settings, w: World, listed: seq<Application>, ds: seq<D.Application>)
    ensures After(c, w, listed, ds) == Run(AfterDeletions(c, w, listed, ds), UpdatePlan(c, listed, ds))
  {
    RunConcat(w, CreatePlan(c, w, listed, ds), DeletePlan(listed, ds));
    RunConcat(w, CreatePlan(c, w, listed, ds) + DeletePlan(listed, ds), UpdatePlan(c, listed, ds));
  }

  /** A start from which a synchronisation runs: a listing of the cluster and Director names without duplicates. */
  ghost predicate IsStart(w: World, listed: seq<Application>, ds: seq<D.Application>) {
    Keyed(w) && IsListing(listed, w.apps) && DistinctNames(ds)
  }

  lemma {:induction false} CreatedKeyed(c: C.Settings, w: World, listed: seq<Application>, ds: seq<D.Application>,
                                        k: nat)
    requires k <= |ds| && Keyed(w)
    ensures Keyed(Run(w, CreatePlan(c, w, listed, ds[..k])))
  {
    if k == 0 {
      return;
    }
    hide CreatePlan, Run, CreateEffects;
    CreatedKeyed(c, w, listed, ds, k - 1);
    CreatePlanGrows(c, w, listed, ds, k - 1);
    CreateApps(Run(w, CreatePlan(c, w, listed, ds[..k - 1])), c, ds[k - 1]);
  }

  /** The updates find their applications. */
  lemma BeforeUpdates(c: C.Settings, w: World, listed: seq<Application>, ds: seq<D.Application>)
    requires IsStart(w, listed, ds)
    ensures var w1, w2 := AfterCreations(c, w, listed, ds), AfterDeletions(c, w, listed, ds);
            && Keyed(w2) && UpdatedAreThere(w2, listed, ds)
            && (forall n :: n in w2.apps <==> n in w1.apps && n !in DeletedNames(listed, ds))
            && (forall n :: n in w2.apps ==> w2.apps[n] == w1.apps[n])
  {
    assert ds[..|ds|] == ds;
    CreatedKeyed(c, w, listed, ds, |ds|);
    DeletePhase(AfterCreations(c, w, listed, ds), listed, ds);
    forall i | 0 <= i < |ds| && Exists(ds[i].name, listed)
      ensures ds[i].name in AfterDeletions(c, w, listed, ds).apps
    {
      CreatePhaseKeeps(c, w, listed, ds, |ds|, ds[i].name);
      assert InDirector(ds[i].name, ds);
    }
  }

  lemma {:induction false} FindListed(listed: seq<Application>, i: nat)
    requires i < |listed| && DistinctListing(listed)
    ensures Exists(listed[i].name, listed) && Find(listed[i].name, listed) == listed[i]
  {
    var a := Find(listed[i].name, listed);
    var j :| 0 <= j < |listed| && listed[j] == a;
  }

  /** Every listed application is either deleted or updated. */
  lemma Referring(listed: seq<Application>, ds: seq<D.Application>, n: string)
    requires DistinctListing(listed)
    ensures n in AllReferencedNames(listed) <==> DeletionRefers(listed, ds, n) || UpdateRefers(listed, ds, 0, |ds|, n)
  {
    if n in AllReferencedNames(listed) {
      var a :| a in listed && n in ReferencedNames(a);
      var i :| 0 <= i < |listed| && listed[i] == a;
      FindListed(listed, i);
      if InDirector(a.name, ds) {
        var j :| 0 <= j < |ds| && ds[j].name == a.name;
        assert Exists(ds[j].name, listed) && n in ReferencedNames(Find(ds[j].name, listed));
      }
    }
    if UpdateRefers(listed, ds, 0, |ds|, n) {
      var j :| 0 <= j < |ds| && Exists(ds[j].name, listed) && n in ReferencedNames(Find(ds[j].name, listed));
      assert Find(ds[j].name, listed) in listed;
    }
  }

  // ---------------------------------------------------------------- secrets the Director's list does not resolve to

  /**
   A secret that the Director's list does not resolve to is deleted exactly when some listed application refers to it,
   and is otherwise left as it is.
   */
  lemma UnresolvedSecrets(c: C.Settings, w: World, listed: seq<Application>, ds: seq<D.Application>, n: string)
    requires IsStart(w, listed, ds) && n !in ResolvedNames(ds)
    ensures DroppedIf(w, After(c, w, listed, ds), n, n in AllReferencedNames(listed))
  {
    var w1, w2 := AfterCreations(c, w, listed, ds), AfterDeletions(c, w, listed, ds);
    InPhases(c, w, listed, ds);
    BeforeUpdates(c, w, listed, ds);
    forall j | 0 <= j < |ds|
      ensures n !in OwnNames(ds[j])
    {
      assert ds[j] in ds;
    }
    assert ds[..|ds|] == ds && ds[..0] == [];
    CreateTail(c, w, listed, ds, 0, |ds|, n);
    DeletePhase(w1, listed, ds);
    UpdateTail(c, w2, listed, ds, 0, |ds|, n);
    Referring(listed, ds, n);
  }

  // ---------------------------------------------------------------- secrets the Director's list resolves to

  /**
   The secret `n` that a bundle of `ds[i]` resolves to is deleted after it was stored: a new application loses it to any
   listed application that refers to it, an updated one to its own old specification, where the name stood for request
   parameters, or to an application that is updated later.
   */
  predicate IsLost(listed: seq<Application>, ds: seq<D.Application>, i: nat, n: string, credentials: bool)
    requires i < |ds|
  {
    if !Exists(ds[i].name, listed) then n in AllReferencedNames(listed)
    else
      (credentials && n in ParametersSecretNames(Find(ds[i].name, listed).spec.services))
      || UpdateRefers(listed, ds, i + 1, |ds|, n)
  }

  predicate IsPresent(w: World, listed: seq<Application>, ds: seq<D.Application>, i: nat)
    requires i < |ds|
  {
    Exists(ds[i].name, listed) || IsCreatable(w, ds[i].name)
  }

  lemma OthersDiffer(ds: seq<D.Application>, i: nat, n: string)
    requires i < |ds| && DistinctResolved(ds) && n in OwnNames(ds[i])
    ensures forall j :: 0 <= j < |ds| && j != i ==> n !in OwnNames(ds[j])
  {
    forall j | 0 <= j < |ds| && j != i
      ensures n !in OwnNames(ds[j])
    {
      assert OwnNames(ds[i]) !! OwnNames(ds[j]);
    }
  }

  /** After the creations, what a new application stored is there, and it stays to the end unless it is referred to. */
  lemma NewSecretStays(c: C.Settings, w: World, listed: seq<Application>, ds: seq<D.Application>, i: nat, n: string)
    requires IsStart(w, listed, ds) && i < |ds| && !Exists(ds[i].name, listed)
    requires forall j :: 0 <= j < |ds| && j != i ==> n !in OwnNames(ds[j])
    ensures DroppedIf(Run(w, CreatePlan(c, w, listed, ds[..i + 1])), After(c, w, listed, ds), n,
                      n in AllReferencedNames(listed))
  {
    var w1, w2 := AfterCreations(c, w, listed, ds), AfterDeletions(c, w, listed, ds);
    InPhases(c, w, listed, ds);
    BeforeUpdates(c, w, listed, ds);
    assert ds[..|ds|] == ds && ds[..0] == [];
    CreateTail(c, w, listed, ds, i + 1, |ds|, n);
    DeletePhase(w1, listed, ds);
    UpdateTail(c, w2, listed, ds, 0, |ds|, n);
    Referring(listed, ds, n);
  }

  /** What an update stored stays to the end unless a later update refers to it. */
  lemma UpdatedSecretStays(c: C.Settings, w: World, listed: seq<Application>, ds: seq<D.Application>, i: nat, n: string)
    requires IsStart(w, listed, ds) && i < |ds|
    requires forall j :: i < j < |ds| ==> n !in OwnNames(ds[j])
    ensures DroppedIf(Run(AfterDeletions(c, w, listed, ds), UpdatePlan(c, listed, ds[..i + 1])),
                      After(c, w, listed, ds), n, UpdateRefers(listed, ds, i + 1, |ds|, n))
  {
    InPhases(c, w, listed, ds);
    BeforeUpdates(c, w, listed, ds);
    assert ds[..|ds|] == ds;
    UpdateTail(c, AfterDeletions(c, w, listed, ds), listed, ds, i + 1, |ds|, n);
  }

  /**
   Complete credentials of a bundle are on the cluster after the synchronisation exactly when their name is not lost,
   and if it is lost there is no secret under it at all.
   */
  lemma CredentialsSurvive(c: C.Settings, w: World, listed: seq<Application>, ds: seq<D.Application>, i: nat, j: nat)
    requires IsStart(w, listed, ds) && DistinctResolved(ds)
    requires i < |ds| && IsPresent(w, listed, ds, i)
    requires j < |ds[i].bundles| && ds[i].bundles[j].Credentials().Some?
    ensures var w', n := After(c, w, listed, ds), NR.CredentialsSecretName(ds[i].name, ds[i].bundles[j].id);
            if IsLost(listed, ds, i, n, true) then n !in w'.secrets
            else CredentialsStored(w', ds[i].name, ds[i].bundles[j])
  {
    var d := ds[i];
    var n := NR.CredentialsSecretName(d.name, d.bundles[j].id);
    IsOwn(d, j);
    OthersDiffer(ds, i, n);
    if !Exists(d.name, listed) {
      CreatePlanGrows(c, w, listed, ds, i);
      CreateStores(Run(w, CreatePlan(c, w, listed, ds[..i])), c, d, j);
      NewSecretStays(c, w, listed, ds, i, n);
    } else {
      var w2 := AfterDeletions(c, w, listed, ds);
      BeforeUpdates(c, w, listed, ds);
      UpdatePhaseKeeps(c, w2, listed, ds, i, d.name);
      UpdatePlanGrows(c, w2, listed, ds, i);
      UpdateStoresCredentials(Run(w2, UpdatePlan(c, listed, ds[..i])), c, Find(d.name, listed), d, j);
      UpdatedSecretStays(c, w, listed, ds, i, n);
    }
  }

  /** The application of `ds[i]` after the synchronisation, and the point from which it no longer changes. */
  lemma NewApplicationStays(c: C.Settings, w: World, listed: seq<Application>, ds: seq<D.Application>, i: nat)
    requires IsStart(w, listed, ds) && i < |ds| && !Exists(ds[i].name, listed) && IsCreatable(w, ds[i].name)
    ensures var w1, w' := Run(w, CreatePlan(c, w, listed, ds[..i + 1])), After(c, w, listed, ds); var n := ds[i].name;
            n in w1.apps && n in w'.apps && w'.apps[n] == w1.apps[n] && Carries(w'.apps[n], C.Convert(c, ds[i]))
  {
    var w2 := AfterDeletions(c, w, listed, ds);
    InPhases(c, w, listed, ds);
    BeforeUpdates(c, w, listed, ds);
    assert ds[..|ds|] == ds;
    CreatePhaseAdds(c, w, listed, ds, i);
    CreateTailApps(c, w, listed, ds, i + 1, |ds|, ds[i].name);
    UpdatePhaseKeeps(c, w2, listed, ds, |ds|, ds[i].name);
    assert ds[i].name !in DeletedNames(listed, ds);
  }

  lemma UpdatedApplicationStays(c: C.Settings, w: World, listed: seq<Application>, ds: seq<D.Application>, i: nat)
    requires IsStart(w, listed, ds) && i < |ds| && Exists(ds[i].name, listed)
    ensures var w2 := AfterDeletions(c, w, listed, ds);
            var w3, w' := Run(w2, UpdatePlan(c, listed, ds[..i + 1])), After(c, w, listed, ds); var n := ds[i].name;
            n in w3.apps && n in w'.apps && w'.apps[n] == w3.apps[n] && Carries(w'.apps[n], C.Convert(c, ds[i]))
  {
    var w2 := AfterDeletions(c, w, listed, ds);
    InPhases(c, w, listed, ds);
    BeforeUpdates(c, w, listed, ds);
    assert ds[..|ds|] == ds;
    UpdatePhaseMerges(c, w2, listed, ds, i);
    UpdateTailApps(c, w2, listed, ds, i + 1, |ds|, ds[i].name);
  }

  /** The application of every Director application that is listed or can be created carries what the Director said. */
  lemma ApplicationsConverge(c: C.Settings, w: World, listed: seq<Application>, ds: seq<D.Application>, i: nat)
    requires IsStart(w, listed, ds) && i < |ds| && IsPresent(w, listed, ds, i)
    ensures var w', n := After(c, w, listed, ds), ds[i].name; n in w'.apps && Carries(w'.apps[n], C.Convert(c, ds[i]))
  {
    if Exists(ds[i].name, listed) {
      UpdatedApplicationStays(c, w, listed, ds, i);
    } else {
      NewApplicationStays(c, w, listed, ds, i);
    }
  }

  /**
   The same for request parameters. A new application of which some bundle has credentials of both kinds does not get
   them: what is under their name at the end is what was there before.
   */
  lemma ParametersSurvive(c: C.Settings, w: World, listed: seq<Application>, ds: seq<D.Application>, i: nat, j: nat)
    requires IsStart(w, listed, ds) && DistinctResolved(ds)
    requires i < |ds| && IsPresent(w, listed, ds, i)
    requires j < |ds[i].bundles| && ds[i].bundles[j].Parameters().Some?
    ensures var w', n := After(c, w, listed, ds), NR.ParametersSecretName(ds[i].name, ds[i].bundles[j].id);
            if Exists(ds[i].name, listed) || !HasAmbiguous(ds[i].bundles) then
              if IsLost(listed, ds, i, n, false) then n !in w'.secrets
              else ParametersStored(w', ds[i].name, ds[i].bundles[j])
            else DroppedIf(w, w', n, IsLost(listed, ds, i, n, false))
  {
    var d := ds[i];
    var n := NR.ParametersSecretName(d.name, d.bundles[j].id);
    IsOwn(d, j);
    OthersDiffer(ds, i, n);
    if Exists(d.name, listed) {
      var w2 := AfterDeletions(c, w, listed, ds);
      BeforeUpdates(c, w, listed, ds);
      UpdatePhaseKeeps(c, w2, listed, ds, i, d.name);
      UpdatePlanGrows(c, w2, listed, ds, i);
      UpdateStoresParameters(Run(w2, UpdatePlan(c, listed, ds[..i])), c, Find(d.name, listed), d, j);
      UpdatedSecretStays(c, w, listed, ds, i, n);
      UpdatedApplicationStays(c, w, listed, ds, i);
    } else if !HasAmbiguous(d.bundles) {
      CreatePlanGrows(c, w, listed, ds, i);
      CreateStores(Run(w, CreatePlan(c, w, listed, ds[..i])), c, d, j);
      NewSecretStays(c, w, listed, ds, i, n);
      NewApplicationStays(c, w, listed, ds, i);
    } else {
      HeldBackParameters(c, w, listed, ds, i, j);
      NewSecretStays(c, w, listed, ds, i, n);
    }
  }

  /** The creation of an application with ambiguous credentials leaves the name of its request parameters alone. */
  lemma HeldBackParameters(c: C.Settings, w: World, listed: seq<Application>, ds: seq<D.Application>, i: nat, j: nat)
    requires DistinctResolved(ds) && i < |ds| && !Exists(ds[i].name, listed) && IsCreatable(w, ds[i].name)
    requires j < |ds[i].bundles| && ds[i].bundles[j].Parameters().Some? && HasAmbiguous(ds[i].bundles)
    ensures SameSecret(w, Run(w, CreatePlan(c, w, listed, ds[..i + 1])),
                       NR.ParametersSecretName(ds[i].name, ds[i].bundles[j].id))
  {
    hide CreatePlan, CreateEffects, CredentialsEffects, ParametersEffects, HasAmbiguous, C.Services, Exists, OwnNames;
    var d := ds[i];
    var n := NR.ParametersSecretName(d.name, d.bundles[j].id);
    OwnAndOthers(ds, i, n, j);
    assert ds[..0] == [];
    assert Run(w, CreatePlan(c, w, listed, ds[..0])) == w by { NothingPlanned(c, w, listed); }
    CreateTail(c, w, listed, ds, 0, i, n);
    CreatePlanGrows(c, w, listed, ds, i);
    var w1 := Run(w, CreatePlan(c, w, listed, ds[..i]));
    CreateRun(w1, c, d);
    NotCredentials(d, j);
    CredentialsOnlyOwn(WithCreated(w1, C.Convert(c, d)), d, n);
  }

  lemma NothingPlanned(c: C.Settings, w: World, listed: seq<Application>)
    ensures Run(w, CreatePlan(c, w, listed, [])) == w
  {
  }

  lemma OwnAndOthers(ds: seq<D.Application>, i: nat, n: string, j: nat)
    requires i < |ds| && j < |ds[i].bundles| && ds[i].bundles[j].Parameters().Some? && DistinctResolved(ds)
    requires n == NR.ParametersSecretName(ds[i].name, ds[i].bundles[j].id)
    ensures forall k :: 0 <= k < i ==> n !in OwnNames(ds[k])
  {
    IsOwn(ds[i], j);
    OthersDiffer(ds, i, n);
  }

  /** Secrets are owned by applications that were created before. */
  ghost predicate AreOwnersKnown(w: World) {
    forall n :: n in w.secrets ==> w.secrets[n].owner < w.nextUid
  }

  lemma {:induction false} UidsGrow(c: C.Settings, w: World, listed: seq<Application>, ds: seq<D.Application>, k: nat)
    requires k <= |ds|
    ensures Run(w, CreatePlan(c, w, listed, ds[..k])).nextUid >= w.nextUid
  {
    if k == 0 {
      return;
    }
    hide CreatePlan, CreateEffects, Run;
    UidsGrow(c, w, listed, ds, k - 1);
    CreatePlanGrows(c, w, listed, ds, k - 1);
    CreateUid(Run(w, CreatePlan(c, w, listed, ds[..k - 1])), c, ds[k - 1]);
  }

  lemma CreateUid(w: World, c: C.Settings, d: D.Application)
    ensures var w' := Run(w, CreateEffects(c, d));
            w'.nextUid == w.nextUid + 1 && d.name in w'.apps && w'.apps[d.name].uid == w.nextUid
  {
    hide CreateEffects, CredentialsEffects, ParametersEffects, HasAmbiguous, C.Services;
    CreateRun(w, c, d);
    CreateApps(w, c, d);
    var w1 := WithCreated(w, C.Convert(c, d));
    CredentialsUid(w1, d.name, d.bundles);
    ParametersUid(Run(w1, CredentialsEffects(d.name, d.bundles)), d.name, d.bundles);
  }

  lemma OnlyCreationsTakeUids(w: World, e: Effect)
    requires !e.Create?
    ensures Apply(w, e).nextUid == w.nextUid
  {
  }

  lemma {:induction false} CredentialsUid(w: World, application: string, bundles: seq<D.Bundle>)
    ensures Run(w, CredentialsEffects(application, bundles)).nextUid == w.nextUid
  {
    if bundles == [] {
      return;
    }
    hide Run, CredentialsEffects, Apply;
    var front, b := bundles[..|bundles| - 1], bundles[|bundles| - 1];
    CredentialsUid(w, application, front);
    LastCredentials(w, application, bundles);
    if b.Credentials().Some? {
      OnlyCreationsTakeUids(Run(w, CredentialsEffects(application, front)), PutOfCredentials(application, b));
    }
  }

  lemma {:induction false} ParametersUid(w: World, application: string, bundles: seq<D.Bundle>)
    ensures Run(w, ParametersEffects(application, bundles)).nextUid == w.nextUid
  {
    if bundles == [] {
      return;
    }
    hide Run, ParametersEffects, Apply;
    var front, b := bundles[..|bundles| - 1], bundles[|bundles| - 1];
    ParametersUid(w, application, front);
    LastParameters(w, application, bundles);
    if b.Parameters().Some? {
      OnlyCreationsTakeUids(Run(w, ParametersEffects(application, front)), PutOfParameters(application, b));
    }
  }

  /**
   Request parameters of a bundle are stored, under the ownership of its application, exactly when their name is not
   lost and the application was there before or has no bundle with credentials of both kinds.
   */
  lemma ParametersStoredExactly(c: C.Settings, w: World, listed: seq<Application>, ds: seq<D.Application>, i: nat,
                                j: nat)
    requires IsStart(w, listed, ds) && DistinctResolved(ds) && AreOwnersKnown(w)
    requires i < |ds| && IsPresent(w, listed, ds, i)
    requires j < |ds[i].bundles| && ds[i].bundles[j].Parameters().Some?
    ensures var n := NR.ParametersSecretName(ds[i].name, ds[i].bundles[j].id);
            ParametersStored(After(c, w, listed, ds), ds[i].name, ds[i].bundles[j])
            <==> !IsLost(listed, ds, i, n, false) && (Exists(ds[i].name, listed) || !HasAmbiguous(ds[i].bundles))
  {
    hide After, CreatePlan, Run, CreateEffects, IsLost, HasAmbiguous, C.Convert, DistinctResolved;
    ParametersSurvive(c, w, listed, ds, i, j);
    if !Exists(ds[i].name, listed) {
      NewApplicationStays(c, w, listed, ds, i);
      UidsGrow(c, w, listed, ds, i);
      CreatePlanGrows(c, w, listed, ds, i);
      CreateUid(Run(w, CreatePlan(c, w, listed, ds[..i])), c, ds[i]);
    }
  }
}
