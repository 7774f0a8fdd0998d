/**
 Who owns the credentials secrets after a synchronisation without failures, and which of them the garbage collector can
 take from an application that uses them (components/compass-runtime-agent/internal/kyma/secrets).
 */
module SyncOwnership {
  import opened Wrappers
  import opened Resources
  import opened Cluster
  import opened Secrets
  import opened SyncPlan
  import opened SyncService
  import opened Synchronisation
  import opened SyncSecrets
  import opened SyncTheorems
  import opened SyncFixedPoint
  import opened SyncHistory
  import D = Director
  import NR = NameResolver
  import C = Converter

  // ---------------------------------------------------------------- one application

  lemma CreateIsExact(w: World, c: C.Settings, d: D.Application, j: nat)
    requires j < |d.bundles| && HasComplete(d, j) && DistinctWithin(d)
    ensures KeptOrWritten(w, Run(w, CreateEffects(c, d)), d, j, w.nextUid, ReadsSame(w, d, j))
  {
    hide Run, CreateEffects, CredentialsEffects, ParametersEffects, C.Services, CredentialsData, HasAmbiguous,
         ShouldUpdate, IsComplete, ParametersNames;
    CreateRun(w, c, d);
    var w1 := WithCreated(w, C.Convert(c, d));
    assert d.bundles[..|d.bundles|] == d.bundles;
    CredentialsRunIsExact(w1, d, j, |d.bundles|);
    NotParameters(d, j);
    ParametersOnlyOwn(Run(w1, CredentialsEffects(d.name, d.bundles)), d, NameOf(d, j));
  }

  /** An update drops the secret before it stores the credentials: only the old specification names it. */
  predicate DropsOwn(c: C.Settings, existing: Application, d: D.Application, n: string) {
    && n in CredentialsSecretNames(existing.spec.services)
    && n !in CredentialsSecretNames(C.Services(c, d.name, d.bundles))
  }

  lemma UpdateIsExact(w: World, c: C.Settings, existing: Application, d: D.Application, j: nat)
    requires j < |d.bundles| && HasComplete(d, j) && DistinctWithin(d) && d.name in w.apps
    requires NameOf(d, j) !in ParametersSecretNames(existing.spec.services)
    ensures KeptOrWritten(w, Run(w, UpdateEffects(c, existing, d)), d, j, w.apps[d.name].uid,
                          ReadsSame(w, d, j) && !DropsOwn(c, existing, d, NameOf(d, j)))
  {
    hide Run, UpdateEffects, CredentialsEffects, ParametersEffects, C.Services, CredentialsData, ShouldUpdate,
         IsComplete, ParametersNames, CredentialsNames, CredentialsSecretNames, ParametersSecretNames;
    RunUpdate(c, w, existing, d);
    var services := C.Services(c, d.name, d.bundles);
    var w0 := Apply(w, Update(C.Convert(c, d)));
    var w1 := Apply(w0, DropSecrets(CredentialsSecretNames(existing.spec.services) - CredentialsSecretNames(services)));
    assert d.bundles[..|d.bundles|] == d.bundles;
    CredentialsRunIsExact(w1, d, j, |d.bundles|);
    var w2 := Run(w1, CredentialsEffects(d.name, d.bundles));
    var w3 := Apply(w2, DropSecrets(ParametersSecretNames(existing.spec.services) - ParametersSecretNames(services)));
    NotParameters(d, j);
    ParametersOnlyOwn(w3, d, NameOf(d, j));
  }

  // ---------------------------------------------------------------- a whole synchronisation

  /** An earlier step of the synchronisation drops the secret before the credentials of `ds[i]` are stored. */
  predicate IsDroppedFirst(c: C.Settings, listed: seq<Application>, ds: seq<D.Application>, i: nat, n: string)
    requires i < |ds|
  {
    && Exists(ds[i].name, listed)
    && (DeletionRefers(listed, ds, n) || UpdateRefers(listed, ds, 0, i, n)
        || DropsOwn(c, Find(ds[i].name, listed), ds[i], n))
  }

  /** When its turn comes, the synchronisation finds a secret that reads as the credentials. */
  predicate IsFoundSame(c: C.Settings, w: World, listed: seq<Application>, ds: seq<D.Application>, i: nat, j: nat)
    requires i < |ds| && j < |ds[i].bundles| && HasComplete(ds[i], j)
  {
    ReadsSame(w, ds[i], j) && !IsDroppedFirst(c, listed, ds, i, NameOf(ds[i], j))
  }

  lemma SameReadsSame(w: World, w': World, d: D.Application, j: nat)
    requires j < |d.bundles| && HasComplete(d, j) && SameSecret(w, w', NameOf(d, j))
    ensures ReadsSame(w', d, j) <==> ReadsSame(w, d, j)
  {
  }

  lemma NewIsExact(c: C.Settings, w: World, listed: seq<Application>, ds: seq<D.Application>, i: nat, j: nat)
    requires IsStart(w, listed, ds) && DistinctResolved(ds)
    requires i < |ds| && !Exists(ds[i].name, listed) && IsCreatable(w, ds[i].name)
    requires j < |ds[i].bundles| && HasComplete(ds[i], j) && !IsLost(listed, ds, i, NameOf(ds[i], j), true)
    ensures var w' := After(c, w, listed, ds);
            && ds[i].name in w'.apps && w'.apps[ds[i].name].uid >= w.nextUid
            && KeptOrWritten(w, w', ds[i], j, w'.apps[ds[i].name].uid, ReadsSame(w, ds[i], j))
  {
    hide After, CreatePlan, Run, CreateEffects, C.Convert, OwnNames, ReadsSame, HasComplete, Written;
    var d, n := ds[i], NameOf(ds[i], j);
    NamesOnlyOwn(ds, i, j);
    assert ds[..0] == [];
    NothingPlanned(c, w, listed);
    CreateTail(c, w, listed, ds, 0, i, n);
    var w1 := Run(w, CreatePlan(c, w, listed, ds[..i]));
    SameReadsSame(w, w1, d, j);
    CreatePlanGrows(c, w, listed, ds, i);
    CreateIsExact(w1, c, d, j);
    CreateUid(w1, c, d);
    UidsGrow(c, w, listed, ds, i);
    NewApplicationStays(c, w, listed, ds, i);
    NewSecretStays(c, w, listed, ds, i, n);
  }

  lemma NamesOnlyOwn(ds: seq<D.Application>, i: nat, j: nat)
    requires DistinctResolved(ds) && i < |ds| && j < |ds[i].bundles| && HasComplete(ds[i], j)
    ensures DistinctWithin(ds[i])
    ensures forall k :: 0 <= k < |ds| && k != i ==> NameOf(ds[i], j) !in OwnNames(ds[k])
  {
    IsOwn(ds[i], j);
    OthersDiffer(ds, i, NameOf(ds[i], j));
  }

  /** Before its update, the secret of a listed application is as it was, unless an earlier step dropped it. */
  lemma BeforeUpdate(c: C.Settings, w: World, listed: seq<Application>, ds: seq<D.Application>, i: nat, n: string)
    requires IsStart(w, listed, ds) && i < |ds| && Exists(ds[i].name, listed)
    requires forall k :: 0 <= k < |ds| && k != i ==> n !in OwnNames(ds[k])
    ensures var w3 := Run(AfterDeletions(c, w, listed, ds), UpdatePlan(c, listed, ds[..i]));
            && DroppedIf(w, w3, n, DeletionRefers(listed, ds, n) || UpdateRefers(listed, ds, 0, i, n))
            && ds[i].name in w.apps && ds[i].name in w3.apps && w3.apps[ds[i].name].uid == w.apps[ds[i].name].uid
  {
    hide Run, CreatePlan, DeletePlan, UpdatePlan, OwnNames, DeletionRefers, UpdateRefers, DeletedNames;
    var w1, w2 := AfterCreations(c, w, listed, ds), AfterDeletions(c, w, listed, ds);
    BeforeUpdates(c, w, listed, ds);
    assert ds[..|ds|] == ds && ds[..0] == [];
    NothingPlanned(c, w, listed);
    NothingUpdated(c, w2, listed);
    CreateTail(c, w, listed, ds, 0, |ds|, n);
    DeletePhase(w1, listed, ds);
    UpdateTail(c, w2, listed, ds, 0, i, n);
    ListedIsThere(w, listed, ds[i].name);
    CreatePhaseKeeps(c, w, listed, ds, |ds|, ds[i].name);
    UpdatePhaseKeeps(c, w2, listed, ds, i, ds[i].name);
  }

  lemma NothingUpdated(c: C.Settings, w: World, listed: seq<Application>)
    ensures Run(w, UpdatePlan(c, listed, [])) == w
  {
  }

  lemma ListedIsThere(w: World, listed: seq<Application>, name: string)
    requires IsListing(listed, w.apps) && Exists(name, listed)
    ensures name in w.apps
  {
    var a := Find(name, listed);
    var k :| 0 <= k < |listed| && listed[k] == a;
  }

  lemma ListedIsExact(c: C.Settings, w: World, listed: seq<Application>, ds: seq<D.Application>, i: nat, j: nat)
    requires IsStart(w, listed, ds) && DistinctResolved(ds) && i < |ds| && Exists(ds[i].name, listed)
    requires j < |ds[i].bundles| && HasComplete(ds[i], j) && !IsLost(listed, ds, i, NameOf(ds[i], j), true)
    ensures var w', name := After(c, w, listed, ds), ds[i].name;
            && name in w.apps && name in w'.apps && w'.apps[name].uid == w.apps[name].uid
            && KeptOrWritten(w, w', ds[i], j, w.apps[name].uid, IsFoundSame(c, w, listed, ds, i, j))
  {
    hide After, UpdatePlan, Run, UpdateEffects, C.Convert, OwnNames, HasComplete, Written, DeletionRefers, UpdateRefers,
         DropsOwn, ParametersSecretNames, CredentialsData, ShouldUpdate;
    var d, n := ds[i], NameOf(ds[i], j);
    NamesOnlyOwn(ds, i, j);
    BeforeUpdate(c, w, listed, ds, i, n);
    var w2 := AfterDeletions(c, w, listed, ds);
    var w3 := Run(w2, UpdatePlan(c, listed, ds[..i]));
    UpdatePlanGrows(c, w2, listed, ds, i);
    UpdateIsExact(w3, c, Find(d.name, listed), d, j);
    UpdatedSecretStays(c, w, listed, ds, i, n);
    assert InDirector(d.name, ds);
    DirectorStays(c, w, listed, ds, d.name);
  }

  /** `name` owns the secret `n`. */
  predicate IsOwner(w: World, name: string, n: string) {
    name in w.apps && n in w.secrets && w.secrets[n].owner == w.apps[name].uid
  }

  /**
   The complete credentials of a bundle belong to its application after the synchronisation exactly when they are not
   lost and no secret that read the same was found under another owner: such a secret stays with its owner, whether the
   application is new or was there before.
   */
  lemma OwnedExactly(c: C.Settings, w: World, listed: seq<Application>, ds: seq<D.Application>, i: nat, j: nat)
    requires IsStart(w, listed, ds) && DistinctResolved(ds) && AreOwnersKnown(w)
    requires i < |ds| && IsPresent(w, listed, ds, i) && j < |ds[i].bundles| && HasComplete(ds[i], j)
    ensures var w', name, n := After(c, w, listed, ds), ds[i].name, NameOf(ds[i], j);
            && (IsOwner(w', name, n)
                <==> !IsLost(listed, ds, i, n, true) && (!IsFoundSame(c, w, listed, ds, i, j) || IsOwner(w, name, n)))
            && (!IsLost(listed, ds, i, n, true) && IsFoundSame(c, w, listed, ds, i, j) ==> SameSecret(w, w', n))
  {
    hide After, IsLost, C.Convert, DistinctResolved, IsDroppedFirst, CredentialsStored;
    var n := NameOf(ds[i], j);
    if IsLost(listed, ds, i, n, true) {
      CredentialsSurvive(c, w, listed, ds, i, j);
    } else if Exists(ds[i].name, listed) {
      ListedIsExact(c, w, listed, ds, i, j);
    } else {
      NewIsExact(c, w, listed, ds, i, j);
      NewIsFound(c, w, listed, ds, i, j);
    }
  }

  lemma NewIsFound(c: C.Settings, w: World, listed: seq<Application>, ds: seq<D.Application>, i: nat, j: nat)
    requires i < |ds| && j < |ds[i].bundles| && HasComplete(ds[i], j) && !Exists(ds[i].name, listed)
    ensures IsFoundSame(c, w, listed, ds, i, j) <==> ReadsSame(w, ds[i], j)
  {
  }

  // ---------------------------------------------------------------- owners

  /** The UIDs of applications and of owners were given out before. */
  ghost predicate AreUidsKnown(w: World) {
    AreOwnersKnown(w) && forall n :: n in w.apps ==> w.apps[n].uid < w.nextUid
  }

  lemma {:induction false} RunKeepsUidsKnown(w: World, effects: seq<Effect>)
    requires AreUidsKnown(w)
    ensures AreUidsKnown(Run(w, effects))
  {
    if effects != [] {
      hide Run, AreUidsKnown;
      RunKeepsUidsKnown(w, effects[..|effects| - 1]);
      EffectKeepsUidsKnown(Run(w, effects[..|effects| - 1]), effects[|effects| - 1]);
      RunOne(w, effects[..|effects| - 1], effects[|effects| - 1]);
      assert effects[..|effects| - 1] + [effects[|effects| - 1]] == effects;
    }
  }

  lemma EffectKeepsUidsKnown(w: World, e: Effect)
    requires AreUidsKnown(w)
    ensures AreUidsKnown(Apply(w, e))
  {
    hide CredentialsData, ParametersData, IsComplete, ShouldUpdate, NR.CredentialsSecretName, NR.ParametersSecretName;
  }

  /** Owners stay known: what the lemmas about ownership ask of the start holds again at the end. */
  lemma UidsStayKnown(c: C.Settings, w: World, listed: seq<Application>, ds: seq<D.Application>)
    requires AreUidsKnown(w)
    ensures AreUidsKnown(After(c, w, listed, ds))
  {
    RunKeepsUidsKnown(w, Plan(c, w, listed, ds));
  }

  /** The application with that UID is there and is not deleted. */
  predicate OwnerStays(w: World, listed: seq<Application>, ds: seq<D.Application>, uid: nat) {
    exists a :: a in w.apps && w.apps[a].uid == uid && a !in DeletedNames(listed, ds)
  }

  /** An application that is not deleted keeps its UID. */
  lemma KeptStays(c: C.Settings, w: World, listed: seq<Application>, ds: seq<D.Application>, a: string)
    requires IsStart(w, listed, ds) && a in w.apps && a !in DeletedNames(listed, ds)
    ensures var w' := After(c, w, listed, ds); a in w'.apps && w'.apps[a].uid == w.apps[a].uid
  {
    if InDirector(a, ds) {
      DirectorStays(c, w, listed, ds, a);
    } else {
      hide Run, CreatePlan, DeletePlan, UpdatePlan, After, C.Convert, DeletedNames;
      var w2 := AfterDeletions(c, w, listed, ds);
      InPhases(c, w, listed, ds);
      BeforeUpdates(c, w, listed, ds);
      assert ds[..|ds|] == ds;
      CreatePhaseKeeps(c, w, listed, ds, |ds|, a);
      UpdatePhaseKeeps(c, w2, listed, ds, |ds|, a);
      assert forall i :: 0 <= i < |ds| ==> ds[i] in ds;
    }
  }

  lemma DeletedIsGone(c: C.Settings, w: World, listed: seq<Application>, ds: seq<D.Application>, a: string)
    requires IsStart(w, listed, ds) && a in DeletedNames(listed, ds)
    ensures a !in After(c, w, listed, ds).apps
  {
    hide Run, CreatePlan, DeletePlan, UpdatePlan, After, C.Convert, DeletedNames;
    InPhases(c, w, listed, ds);
    BeforeUpdates(c, w, listed, ds);
    assert ds[..|ds|] == ds;
    UpdatePhaseKeeps(c, AfterDeletions(c, w, listed, ds), listed, ds, |ds|, a);
  }

  /** An owner from before is there after the synchronisation exactly when it was there and is not deleted. */
  lemma OwnersAfter(c: C.Settings, w: World, listed: seq<Application>, ds: seq<D.Application>, uid: nat)
    requires IsStart(w, listed, ds) && uid < w.nextUid
    ensures HasOwner(After(c, w, listed, ds), uid) <==> OwnerStays(w, listed, ds, uid)
  {
    hide After, DeletedNames;
    var w' := After(c, w, listed, ds);
    if HasOwner(w', uid) {
      var a :| a in w'.apps && w'.apps[a].uid == uid;
      AfterAdvances(c, w, listed, ds);
      assert IsUidKeptOrNew(w, w', a);
      if a in DeletedNames(listed, ds) {
        DeletedIsGone(c, w, listed, ds, a);
      }
    }
    if OwnerStays(w, listed, ds, uid) {
      var a :| a in w.apps && w.apps[a].uid == uid && a !in DeletedNames(listed, ds);
      KeptStays(c, w, listed, ds, a);
    }
  }

  // ---------------------------------------------------------------- what the garbage collector can take

  /** The garbage collector can take the secret. */
  ghost predicate CanGo(w: World, n: string) {
    n in w.secrets && exists gone :: IsCollected(w, gone) && n !in gone.secrets
  }

  lemma CanGoWithoutOwner(w: World, n: string)
    ensures CanGo(w, n) <==> n in w.secrets && !HasOwner(w, w.secrets[n].owner)
  {
    if n in w.secrets && !HasOwner(w, w.secrets[n].owner) {
      var gone := w.(secrets := w.secrets - {n});
      assert IsCollected(w, gone) && n !in gone.secrets;
    }
  }

  /**
   After a synchronisation without failures the garbage collector can take the credentials of a bundle from the
   application that uses them exactly when they are not lost anyway, a secret that read the same was found, and the
   owner of that secret was not there or was deleted in the same synchronisation.
   */
  lemma AdoptedSecretsCanGo(c: C.Settings, w: World, listed: seq<Application>, ds: seq<D.Application>, i: nat, j: nat)
    requires IsStart(w, listed, ds) && DistinctResolved(ds) && AreOwnersKnown(w)
    requires i < |ds| && IsPresent(w, listed, ds, i) && j < |ds[i].bundles| && HasComplete(ds[i], j)
    ensures var w', n := After(c, w, listed, ds), NameOf(ds[i], j);
            && (CanGo(w', n)
                <==> && !IsLost(listed, ds, i, n, true) && IsFoundSame(c, w, listed, ds, i, j)
                     && !OwnerStays(w, listed, ds, w.secrets[n].owner))
            && ds[i].name in w'.apps
            && (ds[i].bundles[j].apis != [] ==> n in CredentialsSecretNames(w'.apps[ds[i].name].spec.services))
  {
    hide After, IsLost, C.Convert, DistinctResolved, IsDroppedFirst, CredentialsStored, DeletedNames, IsCollected;
    var w', n := After(c, w, listed, ds), NameOf(ds[i], j);
    CanGoWithoutOwner(w', n);
    UsesCredentials(c, w, listed, ds, i, j);
    if IsLost(listed, ds, i, n, true) {
      CredentialsSurvive(c, w, listed, ds, i, j);
    } else {
      OwnedExactly(c, w, listed, ds, i, j);
      if IsFoundSame(c, w, listed, ds, i, j) {
        FoundIsThere(c, w, listed, ds, i, j);
        OwnersAfter(c, w, listed, ds, w.secrets[n].owner);
      } else {
        assert w'.secrets[n].owner == w'.apps[ds[i].name].uid;
      }
    }
  }

  lemma FoundIsThere(c: C.Settings, w: World, listed: seq<Application>, ds: seq<D.Application>, i: nat, j: nat)
    requires i < |ds| && j < |ds[i].bundles| && HasComplete(ds[i], j) && IsFoundSame(c, w, listed, ds, i, j)
    ensures NameOf(ds[i], j) in w.secrets
  {
  }

  lemma UsesCredentials(c: C.Settings, w: World, listed: seq<Application>, ds: seq<D.Application>, i: nat, j: nat)
    requires IsStart(w, listed, ds) && i < |ds| && IsPresent(w, listed, ds, i)
    requires j < |ds[i].bundles| && HasComplete(ds[i], j)
    ensures var w' := After(c, w, listed, ds);
            && ds[i].name in w'.apps
            && (ds[i].bundles[j].apis != [] ==>
                  NameOf(ds[i], j) in CredentialsSecretNames(w'.apps[ds[i].name].spec.services))
  {
    hide After, IsPresent;
    AfterCarries(c, w, listed, ds, i);
    C.NamedCredentials(c, ds[i].name, ds[i].bundles);
    assert ds[i].bundles[j] in ds[i].bundles;
  }

  /**
   It is not repaired: in a cluster that is up to date every further synchronisation changes nothing, and the garbage
   collector can take the credentials exactly when their owner is gone.
   */
  lemma SettledSecretsCanGo(c: C.Settings, w: World, listed: seq<Application>, ds: seq<D.Application>, i: nat, j: nat)
    requires IsStart(w, listed, ds) && IsSettled(c, w, ds)
    requires i < |ds| && j < |ds[i].bundles| && HasComplete(ds[i], j)
    ensures var n := NameOf(ds[i], j);
            && After(c, w, listed, ds) == w && n in w.secrets
            && (CanGo(w, n) <==> !HasOwner(w, w.secrets[n].owner))
  {
    SettledStays(c, w, listed, ds);
    CanGoWithoutOwner(w, NameOf(ds[i], j));
    assert IsUpToDate(c, w, ds[i]);
  }
}
