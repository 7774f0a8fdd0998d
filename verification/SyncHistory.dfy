/**
 Whole histories of synchronisations, in which any calls may have failed, and what one synchronisation without failures
 restores at their end.
 */
module SyncHistory {
  import opened Wrappers
  import opened Resources
  import opened Cluster
  import opened AppErrors
  import opened Secrets
  import opened SyncPlan
  import opened SyncService
  import opened Synchronisation
  import opened SyncSecrets
  import opened SyncTheorems
  import opened SyncFixedPoint
  import D = Director
  import NR = NameResolver
  import C = Converter
  import N = Normalization
  import G = Gateway
  import A = SyncApply

  /** Which application a bundle belongs to. */
  type Owners = map<string, string>

  predicate Owns(owners: Owners, application: string, id: string) {
    NR.IsUuid(id) && id in owners && owners[id] == application
  }

  ghost predicate IsOwnCredentials(owners: Owners, application: string, n: string) {
    exists id :: Owns(owners, application, id) && n == NR.CredentialsSecretName(application, id)
  }

  ghost predicate IsOwnParameters(owners: Owners, application: string, n: string) {
    exists id :: Owns(owners, application, id) && n == NR.ParametersSecretName(application, id)
  }

  ghost predicate RefersToOwn(owners: Owners, app: Application) {
    && (forall s :: s in CredentialsSecretNames(app.spec.services) ==> IsOwnCredentials(owners, app.name, s))
    && (forall s :: s in ParametersSecretNames(app.spec.services) ==> IsOwnParameters(owners, app.name, s))
  }

  /** The Director's list keeps every bundle, by a UUID, with one application. */
  ghost predicate IsWellFormed(owners: Owners, ds: seq<D.Application>) {
    && DistinctNames(ds)
    && forall i :: 0 <= i < |ds| ==>
         && !(NR.REPEATED_PARAMS <= ds[i].name)
         && (forall j :: 0 <= j < |ds[i].bundles| ==> Owns(owners, ds[i].name, ds[i].bundles[j].id))
         && (forall j, k :: 0 <= j < k < |ds[i].bundles| ==> ds[i].bundles[j].id != ds[i].bundles[k].id)
  }

  /** Managed applications refer to secrets of their own bundles only. */
  ghost predicate Invariant(owners: Owners, w: World) {
    && Keyed(w)
    && forall n :: n in w.apps && w.apps[n].IsManaged() ==> RefersToOwn(owners, w.apps[n])
  }

  /** One synchronisation: the list it worked with, the cluster after it, and whether no call failed. */
  datatype Attempt = Attempt(ds: seq<D.Application>, after: World, sound: bool)

  ghost predicate IsAttemptFrom(c: C.Settings, w: World, listed: seq<Application>, a: Attempt) {
    && IsStart(w, listed, a.ds)
    && Keyed(a.after)
    && Moved(c, w.apps, a.after.apps, a.ds)
    && A.KeepsDirectors(w, a.after, a.ds)
    && Advances(w, a.after, a.ds)
    && a.after.apps.Keys <= w.apps.Keys + CreatedNames(listed, a.ds)
    && a.after.secrets - TouchedNames(listed, a.ds) == w.secrets - TouchedNames(listed, a.ds)
    && (a.sound ==> a.after == After(c, w, listed, a.ds))
  }

  ghost predicate IsAttempt(c: C.Settings, w: World, a: Attempt) {
    exists listed :: IsAttemptFrom(c, w, listed, a)
  }

  /** What `Apply` promises of a synchronisation makes it an attempt. */
  lemma SynchronisationIsAttempt(c: C.Settings, w: World, w': World, listed: seq<Application>, ds: seq<D.Application>,
                                 results: seq<SyncResult>, sound: bool)
    requires Keyed(w) && Keyed(w') && IsListing(listed, w.apps) && DistinctNames(ds)
    requires A.IsSynchronisation(c, w, w', listed, ds, results, sound)
    ensures IsAttempt(c, w, Attempt(ds, w', sound))
  {
    assert IsAttemptFrom(c, w, listed, Attempt(ds, w', sound));
  }

  /** The plan itself is such an attempt, whatever it starts from and whatever the list. */
  lemma PlanIsAttempt(c: C.Settings, w: World, listed: seq<Application>, ds: seq<D.Application>)
    requires IsStart(w, listed, ds)
    ensures IsAttempt(c, w, Attempt(ds, After(c, w, listed, ds), true))
  {
    hide After;
    var w' := After(c, w, listed, ds);
    AfterKeyed(c, w, listed, ds);
    forall n | n in w'.apps
      ensures (n in w.apps && w'.apps[n] == w.apps[n]) || ComesFrom(w'.apps[n], c, ds)
    {
      PlanMoves(c, w, listed, ds, n);
    }
    PlanFrame(c, w, listed, ds);
    PlanKeepsDirectors(c, w, listed, ds);
    PlanKeys(c, w, listed, ds);
    AfterAdvances(c, w, listed, ds);
    assert IsAttemptFrom(c, w, listed, Attempt(ds, w', true));
  }

  lemma PlanMoves(c: C.Settings, w: World, listed: seq<Application>, ds: seq<D.Application>, n: string)
    requires IsStart(w, listed, ds) && n in After(c, w, listed, ds).apps
    ensures var w' := After(c, w, listed, ds); (n in w.apps && w'.apps[n] == w.apps[n]) || ComesFrom(w'.apps[n], c, ds)
  {
    if i :| 0 <= i < |ds| && ds[i].name == n && IsPresent(w, listed, ds, i) {
      hide After, IsPresent, C.Convert;
      ApplicationsConverge(c, w, listed, ds, i);
    } else {
      OthersStay(c, w, listed, ds, n);
    }
  }

  /** Applications that the list has no say over stay as they are, or are deleted. */
  lemma OthersStay(c: C.Settings, w: World, listed: seq<Application>, ds: seq<D.Application>, n: string)
    requires IsStart(w, listed, ds)
    requires forall i :: 0 <= i < |ds| && ds[i].name == n ==> !IsPresent(w, listed, ds, i)
    ensures var w' := After(c, w, listed, ds); n in w'.apps ==> n in w.apps && w'.apps[n] == w.apps[n]
  {
    hide Run, CreatePlan, DeletePlan, UpdatePlan, After, C.Convert;
    var w1, w2 := AfterCreations(c, w, listed, ds), AfterDeletions(c, w, listed, ds);
    InPhases(c, w, listed, ds);
    BeforeUpdates(c, w, listed, ds);
    assert ds[..|ds|] == ds;
    if n == "" && n !in w.apps {
      AfterKeyed(c, w, listed, ds);
    } else {
      CreatePhaseKeeps(c, w, listed, ds, |ds|, n);
      UpdatePhaseKeeps(c, w2, listed, ds, |ds|, n);
    }
  }

  lemma AfterAdvances(c: C.Settings, w: World, listed: seq<Application>, ds: seq<D.Application>)
    requires IsStart(w, listed, ds)
    ensures Advances(w, After(c, w, listed, ds), ds)
  {
    PlanAdvances(c, w, listed, ds);
  }

  /** No other applications come about than those that the list creates. */
  lemma PlanKeys(c: C.Settings, w: World, listed: seq<Application>, ds: seq<D.Application>)
    requires IsStart(w, listed, ds)
    ensures After(c, w, listed, ds).apps.Keys <= w.apps.Keys + CreatedNames(listed, ds)
  {
    hide After, IsPresent, C.Convert;
    forall n | n in After(c, w, listed, ds).apps
      ensures n in w.apps || n in CreatedNames(listed, ds)
    {
      if i :| 0 <= i < |ds| && ds[i].name == n && IsPresent(w, listed, ds, i) {
        PresentIsKnown(w, listed, ds, i);
      } else {
        OthersStay(c, w, listed, ds, n);
      }
    }
  }

  lemma PresentIsKnown(w: World, listed: seq<Application>, ds: seq<D.Application>, i: nat)
    requires IsListing(listed, w.apps) && i < |ds|
    ensures ds[i].name in w.apps || ds[i].name in CreatedNames(listed, ds)
  {
    if Exists(ds[i].name, listed) {
      var a := Find(ds[i].name, listed);
      var k :| 0 <= k < |listed| && listed[k] == a;
    } else {
      assert ds[i] in ds;
    }
  }

  lemma PlanFrame(c: C.Settings, w: World, listed: seq<Application>, ds: seq<D.Application>)
    requires IsStart(w, listed, ds)
    ensures After(c, w, listed, ds).secrets - TouchedNames(listed, ds) == w.secrets - TouchedNames(listed, ds)
  {
    hide After;
    forall n | n !in TouchedNames(listed, ds)
      ensures SameSecret(w, After(c, w, listed, ds), n)
    {
      UnresolvedSecrets(c, w, listed, ds, n);
    }
  }

  lemma PlanKeepsDirectors(c: C.Settings, w: World, listed: seq<Application>, ds: seq<D.Application>)
    requires IsStart(w, listed, ds)
    ensures A.KeepsDirectors(w, After(c, w, listed, ds), ds)
  {
    forall n | n in w.apps && InDirector(n, ds)
      ensures var w' := After(c, w, listed, ds); n in w'.apps && w'.apps[n].uid == w.apps[n].uid
    {
      DirectorStays(c, w, listed, ds, n);
    }
  }

  lemma DirectorStays(c: C.Settings, w: World, listed: seq<Application>, ds: seq<D.Application>, n: string)
    requires IsStart(w, listed, ds) && n in w.apps && InDirector(n, ds)
    ensures var w' := After(c, w, listed, ds); n in w'.apps && w'.apps[n].uid == w.apps[n].uid
  {
    hide Run, CreatePlan, DeletePlan, UpdatePlan, After, C.Convert, DeletedNames;
    var w1, w2 := AfterCreations(c, w, listed, ds), AfterDeletions(c, w, listed, ds);
    InPhases(c, w, listed, ds);
    BeforeUpdates(c, w, listed, ds);
    assert ds[..|ds|] == ds;
    CreatePhaseKeeps(c, w, listed, ds, |ds|, n);
    NotDeleted(listed, ds, n);
    if Exists(n, listed) {
      var i :| 0 <= i < |ds| && ds[i].name == n;
      UpdatePhaseMerges(c, w2, listed, ds, i);
      UpdateTailApps(c, w2, listed, ds, i + 1, |ds|, n);
    } else {
      UpdatePhaseKeeps(c, w2, listed, ds, |ds|, n);
    }
  }

  lemma NotDeleted(listed: seq<Application>, ds: seq<D.Application>, n: string)
    requires InDirector(n, ds)
    ensures n !in DeletedNames(listed, ds)
  {
  }

  // ---------------------------------------------------------------- histories

  predicate HasOwner(w: World, uid: nat) {
    exists a :: a in w.apps && w.apps[a].uid == uid
  }

  /** The garbage collector of the cluster deletes secrets whose owner is gone. */
  ghost predicate IsCollected(w: World, w': World) {
    && w' == w.(secrets := w'.secrets)
    && w'.secrets.Keys <= w.secrets.Keys
    && (forall n :: n in w'.secrets ==> w'.secrets[n] == w.secrets[n])
    && (forall n :: n in w.secrets && n !in w'.secrets ==> !HasOwner(w, w.secrets[n].owner))
  }

  /** Other writers may do anything, as long as managed applications refer to secrets of their own bundles. */
  ghost predicate IsElsewhere(owners: Owners, w: World, w': World) {
    && Keyed(w')
    && forall n :: n in w'.apps && w'.apps[n].IsManaged() ==>
         (n in w.apps && w'.apps[n] == w.apps[n]) || RefersToOwn(owners, w'.apps[n])
  }

  /** What happens to the cluster between two synchronisations, or in one. */
  datatype Step = Synchronised(attempt: Attempt) | Collected(after: World) | Elsewhere(after: World)

  function WorldAfter(s: Step): World {
    if s.Synchronised? then s.attempt.after else s.after
  }

  ghost predicate IsStep(c: C.Settings, owners: Owners, w: World, s: Step) {
    match s
    case Synchronised(a) => IsWellFormed(owners, a.ds) && IsAttempt(c, w, a)
    case Collected(w') => IsCollected(w, w')
    case Elsewhere(w') => IsElsewhere(owners, w, w')
  }

  function Reached(w: World, steps: seq<Step>): World {
    if steps == [] then w else WorldAfter(steps[|steps| - 1])
  }

  ghost predicate IsHistory(c: C.Settings, owners: Owners, w: World, steps: seq<Step>) {
    steps == []
    || var front := steps[..|steps| - 1];
       IsHistory(c, owners, w, front) && IsStep(c, owners, Reached(w, front), steps[|steps| - 1])
  }

  // ---------------------------------------------------------------- names

  lemma SameNameSameBundle(owners: Owners, a: string, b: string, idA: string, idB: string, n: string)
    requires Owns(owners, a, idA) && Owns(owners, b, idB)
    requires n == NR.CredentialsSecretName(a, idA) || n == NR.ParametersSecretName(a, idA)
    requires n == NR.CredentialsSecretName(b, idB) || n == NR.ParametersSecretName(b, idB)
    ensures idA == idB && a == b
  {
    NR.SecretNameFits(a, idA);
    NR.SecretNameFits(NR.PARAMS + a, idA);
    NR.SecretNameFits(b, idB);
    NR.SecretNameFits(NR.PARAMS + b, idB);
  }

  lemma OwnSecretOf(owners: Owners, ds: seq<D.Application>, i: nat, n: string) returns (j: nat)
    requires IsWellFormed(owners, ds) && i < |ds| && n in OwnNames(ds[i])
    ensures j < |ds[i].bundles| && Owns(owners, ds[i].name, ds[i].bundles[j].id)
    ensures n == NR.CredentialsSecretName(ds[i].name, ds[i].bundles[j].id)
            || n == NR.ParametersSecretName(ds[i].name, ds[i].bundles[j].id)
  {
    var b :|
      b in ds[i].bundles
      && (n == NR.CredentialsSecretName(ds[i].name, b.id) || n == NR.ParametersSecretName(ds[i].name, b.id));
    j :| 0 <= j < |ds[i].bundles| && ds[i].bundles[j] == b;
  }

  lemma WellFormedWithin(owners: Owners, ds: seq<D.Application>, i: nat)
    requires IsWellFormed(owners, ds) && i < |ds|
    ensures DistinctWithin(ds[i])
  {
    var d := ds[i];
    forall j, k | 0 <= j < |d.bundles| && 0 <= k < |d.bundles|
      ensures j != k ==>
                NR.CredentialsSecretName(d.name, d.bundles[j].id) != NR.CredentialsSecretName(d.name, d.bundles[k].id)
      ensures j != k ==>
                NR.ParametersSecretName(d.name, d.bundles[j].id) != NR.ParametersSecretName(d.name, d.bundles[k].id)
      ensures NR.CredentialsSecretName(d.name, d.bundles[j].id) != NR.ParametersSecretName(d.name, d.bundles[k].id)
    {
      var a, b := d.bundles[j].id, d.bundles[k].id;
      NR.ResourceNamesEqual(d.name, d.name, a, b);
      NR.ResourceNamesEqual(NR.PARAMS + d.name, NR.PARAMS + d.name, a, b);
      NR.ResourceNamesEqual(d.name, NR.PARAMS + d.name, a, b);
      NR.KindsCollide(d.name, a);
    }
  }

  lemma WellFormedResolved(owners: Owners, ds: seq<D.Application>)
    requires IsWellFormed(owners, ds)
    ensures DistinctResolved(ds)
  {
    forall i | 0 <= i < |ds|
      ensures DistinctWithin(ds[i])
    {
      WellFormedWithin(owners, ds, i);
    }
    forall i, j | 0 <= i < j < |ds|
      ensures OwnNames(ds[i]) !! OwnNames(ds[j])
    {
      forall n | n in OwnNames(ds[i])
        ensures n !in OwnNames(ds[j])
      {
        if n in OwnNames(ds[j]) {
          var k := OwnSecretOf(owners, ds, i, n);
          var l := OwnSecretOf(owners, ds, j, n);
          SameNameSameBundle(owners, ds[i].name, ds[j].name, ds[i].bundles[k].id, ds[j].bundles[l].id, n);
        }
      }
    }
  }

  // ---------------------------------------------------------------- the invariant of all histories

  /** A converted application refers to the secrets of its own bundles. */
  lemma ConvertedRefersToOwn(owners: Owners, c: C.Settings, ds: seq<D.Application>, i: nat, app: Application)
    requires IsWellFormed(owners, ds) && i < |ds|
    requires Carries(app, C.Convert(c, ds[i]))
    ensures RefersToOwn(owners, app)
  {
    var d := ds[i];
    NewNamesAreOwn(c, d);
    forall s | s in CredentialsNames(d)
      ensures IsOwnCredentials(owners, d.name, s)
    {
      var b :| b in d.bundles && s == NR.CredentialsSecretName(d.name, b.id);
      var j :| 0 <= j < |d.bundles| && d.bundles[j] == b;
      assert Owns(owners, d.name, b.id);
    }
    forall s | s in ParametersNames(d)
      ensures IsOwnParameters(owners, d.name, s)
    {
      var b :| b in d.bundles && s == NR.ParametersSecretName(d.name, b.id);
      var j :| 0 <= j < |d.bundles| && d.bundles[j] == b;
      assert Owns(owners, d.name, b.id);
    }
  }

  lemma AttemptKeepsInvariant(owners: Owners, c: C.Settings, w: World, a: Attempt)
    requires Invariant(owners, w) && IsWellFormed(owners, a.ds) && IsAttempt(c, w, a)
    ensures Invariant(owners, a.after)
  {
    var listed :| IsAttemptFrom(c, w, listed, a);
    forall n | n in a.after.apps && a.after.apps[n].IsManaged()
      ensures RefersToOwn(owners, a.after.apps[n])
    {
      var app := a.after.apps[n];
      if !(n in w.apps && app == w.apps[n]) {
        var i :| 0 <= i < |a.ds| && Carries(app, C.Convert(c, a.ds[i]));
        ConvertedRefersToOwn(owners, c, a.ds, i, app);
      }
    }
  }

  lemma {:induction false} HistoryKeepsInvariant(owners: Owners, c: C.Settings, w: World, steps: seq<Step>)
    requires Invariant(owners, w) && IsHistory(c, owners, w, steps)
    ensures Invariant(owners, Reached(w, steps))
    decreases |steps|
  {
    if steps != [] {
      var front, last := steps[..|steps| - 1], steps[|steps| - 1];
      HistoryKeepsInvariant(owners, c, w, front);
      if last.Synchronised? {
        AttemptKeepsInvariant(owners, c, Reached(w, front), last.attempt);
      }
    }
  }

  // ---------------------------------------------------------------- nothing else comes about

  /** Some synchronisation of the history was asked for the secret. */
  ghost predicate WasAskedFor(steps: seq<Step>, n: string, s: Secret) {
    exists k :: 0 <= k < |steps| && steps[k].Synchronised? && IsAskedFor(steps[k].attempt.ds, n, s)
  }

  /**
   Whatever fails, synchronisations and garbage collection leave no secret that was not there before or asked for by the
   Director, and no application whose UID is neither the one it had nor a new one.
   */
  lemma {:induction false} NothingElseComesAbout(owners: Owners, c: C.Settings, w: World, steps: seq<Step>)
    requires IsHistory(c, owners, w, steps) && forall k :: 0 <= k < |steps| ==> !steps[k].Elsewhere?
    ensures var w' := Reached(w, steps);
            && w.nextUid <= w'.nextUid
            && (forall n :: n in w'.apps ==> IsUidKeptOrNew(w, w', n))
            && (forall n :: n in w'.secrets ==>
                  (n in w.secrets && w'.secrets[n] == w.secrets[n]) || WasAskedFor(steps, n, w'.secrets[n]))
    decreases |steps|
  {
    if steps != [] {
      var front, last := steps[..|steps| - 1], steps[|steps| - 1];
      assert forall k :: 0 <= k < |front| ==> front[k] == steps[k];
      NothingElseComesAbout(owners, c, w, front);
      StepAdvances(c, owners, Reached(w, front), last);
      var w1, w' := Reached(w, front), Reached(w, steps);
      forall n | n in w'.apps
        ensures IsUidKeptOrNew(w, w', n)
      {
        assert IsUidKeptOrNew(w1, w', n);
        assert n in w1.apps ==> IsUidKeptOrNew(w, w1, n);
      }
      forall n | n in w'.secrets
        ensures (n in w.secrets && w'.secrets[n] == w.secrets[n]) || WasAskedFor(steps, n, w'.secrets[n])
      {
        assert WasAskedFor(front, n, w'.secrets[n]) ==> WasAskedFor(steps, n, w'.secrets[n]);
      }
    }
  }

  lemma StepAdvances(c: C.Settings, owners: Owners, w: World, step: Step)
    requires IsStep(c, owners, w, step) && !step.Elsewhere?
    ensures var w' := WorldAfter(step);
            && w.nextUid <= w'.nextUid
            && (forall n :: n in w'.apps ==> IsUidKeptOrNew(w, w', n))
            && (forall n :: n in w'.secrets ==>
                  (n in w.secrets && w'.secrets[n] == w.secrets[n])
                  || (step.Synchronised? && IsAskedFor(step.attempt.ds, n, w'.secrets[n])))
  {
    hide IsAskedFor;
    if step.Synchronised? {
      var listed :| IsAttemptFrom(c, w, listed, step.attempt);
      assert forall n :: n in step.attempt.after.secrets ==>
                           IsSecretKeptOrAskedFor(w, step.attempt.after, step.attempt.ds, n);
    }
  }

  // ---------------------------------------------------------------- nothing is lost

  lemma OthersDoNotRefer(owners: Owners, w: World, listed: seq<Application>, ds: seq<D.Application>, i: nat, n: string,
                         a: Application)
    requires Invariant(owners, w) && IsListing(listed, w.apps) && IsWellFormed(owners, ds)
    requires i < |ds| && n in OwnNames(ds[i])
    requires a in listed && a.name != ds[i].name
    ensures n !in ReferencedNames(a)
  {
    if n in ReferencedNames(a) {
      var k :| 0 <= k < |listed| && listed[k] == a;
      assert a.name in w.apps && w.apps[a.name] == a;
      assert IsOwnCredentials(owners, a.name, n) || IsOwnParameters(owners, a.name, n);
      var id :| Owns(owners, a.name, id)
                && (n == NR.CredentialsSecretName(a.name, id) || n == NR.ParametersSecretName(a.name, id));
      var j := OwnSecretOf(owners, ds, i, n);
      SameNameSameBundle(owners, a.name, ds[i].name, id, ds[i].bundles[j].id, n);
    }
  }

  lemma OthersLoseNothing(owners: Owners, w: World, listed: seq<Application>, ds: seq<D.Application>, i: nat, n: string)
    requires Invariant(owners, w) && IsListing(listed, w.apps) && IsWellFormed(owners, ds)
    requires i < |ds| && n in OwnNames(ds[i])
    ensures !IsLost(listed, ds, i, n, false)
  {
    forall a | a in listed && a.name != ds[i].name
      ensures n !in ReferencedNames(a)
    {
      OthersDoNotRefer(owners, w, listed, ds, i, n, a);
    }
  }

  /** The old specification does not name the credentials of a bundle for request parameters. */
  lemma CredentialsNotParameters(owners: Owners, w: World, listed: seq<Application>, ds: seq<D.Application>, i: nat,
                                 j: nat)
    requires Invariant(owners, w) && IsListing(listed, w.apps) && IsWellFormed(owners, ds)
    requires i < |ds| && j < |ds[i].bundles| && Exists(ds[i].name, listed)
    ensures NR.CredentialsSecretName(ds[i].name, ds[i].bundles[j].id)
            !in ParametersSecretNames(Find(ds[i].name, listed).spec.services)
  {
    var d, a := ds[i], Find(ds[i].name, listed);
    var n := NR.CredentialsSecretName(d.name, d.bundles[j].id);
    if n in ParametersSecretNames(a.spec.services) {
      var k :| 0 <= k < |listed| && listed[k] == a;
      var id :| Owns(owners, a.name, id) && n == NR.ParametersSecretName(a.name, id);
      SameNameSameBundle(owners, d.name, d.name, d.bundles[j].id, id, n);
      NR.KindsCollide(d.name, id);
    }
  }

  /** Nothing is lost on a cluster that keeps the invariant. */
  lemma InvariantLosesNothing(owners: Owners, w: World, listed: seq<Application>, ds: seq<D.Application>)
    requires Invariant(owners, w) && IsListing(listed, w.apps) && IsWellFormed(owners, ds)
    ensures NoneLost(listed, ds)
  {
    forall i, j | 0 <= i < |ds| && 0 <= j < |ds[i].bundles|
      ensures var d, b := ds[i], ds[i].bundles[j];
              && (b.Credentials().Some? ==> !IsLost(listed, ds, i, NR.CredentialsSecretName(d.name, b.id), true))
              && (b.Parameters().Some? ==> !IsLost(listed, ds, i, NR.ParametersSecretName(d.name, b.id), false))
    {
      var d, b := ds[i], ds[i].bundles[j];
      IsOwn(d, j);
      if b.Credentials().Some? {
        OthersLoseNothing(owners, w, listed, ds, i, NR.CredentialsSecretName(d.name, b.id));
        if Exists(d.name, listed) {
          CredentialsNotParameters(owners, w, listed, ds, i, j);
        }
      }
      if b.Parameters().Some? {
        OthersLoseNothing(owners, w, listed, ds, i, NR.ParametersSecretName(d.name, b.id));
      }
    }
  }

  // ---------------------------------------------------------------- what one synchronisation without failures restores

  /** A reader of the entry gets these credentials. */
  predicate Gives(w: World, e: EntryCredentials, c: D.Credentials) {
    e.secretName in w.secrets && ReadCredentials(e, w.secrets[e.secretName].data) == Success(c)
  }

  predicate GivesParameters(w: World, name: string, p: D.RequestParameters) {
    name in w.secrets && ReadParameters(w.secrets[name].data) == Success(Some(p))
  }

  lemma StoredGives(w: World, application: string, b: D.Bundle)
    requires b.Credentials().Some? && IsComplete(b.Credentials().value) && CredentialsStored(w, application, b)
    ensures Gives(w, C.ToCredentials(application, b), b.Credentials().value)
  {
    UpToDateReadsTheSame(b.Credentials().value, w.secrets[NR.CredentialsSecretName(application, b.id)].data);
    assert C.BASIC_TYPE[0] != C.OAUTH_TYPE[0];
  }

  predicate IsManagedIn(w: World, n: string) {
    n in w.apps && w.apps[n].IsManaged()
  }

  lemma ManagedWasPresent(c: C.Settings, w: World, listed: seq<Application>, ds: seq<D.Application>, i: nat)
    requires IsStart(w, listed, ds) && i < |ds| && IsManagedIn(After(c, w, listed, ds), ds[i].name)
    ensures IsPresent(w, listed, ds, i)
  {
    var n := ds[i].name;
    if !Exists(n, listed) && n in w.apps {
      var w2 := AfterDeletions(c, w, listed, ds);
      InPhases(c, w, listed, ds);
      BeforeUpdates(c, w, listed, ds);
      assert ds[..|ds|] == ds;
      CreatePhaseKeeps(c, w, listed, ds, |ds|, n);
      UpdatePhaseKeeps(c, w2, listed, ds, |ds|, n);
    }
    AfterKeyed(c, w, listed, ds);
  }

  /**
   The bundle of `d` is served: what the application says of it is stored under the names that the application gives.
   */
  ghost predicate IsServed(c: C.Settings, w: World, d: D.Application, b: D.Bundle, heldBack: bool) {
    && d.name in w.apps && w.apps[d.name].spec.services == C.Services(c, d.name, d.bundles)
    && (b.Credentials().Some? && IsComplete(b.Credentials().value) ==>
          Gives(w, C.ToCredentials(d.name, b), b.Credentials().value))
    && (b.Parameters().Some? && !heldBack ==>
          GivesParameters(w, NR.ParametersSecretName(d.name, b.id), b.Parameters().value))
  }

  lemma SoundAttemptServes(owners: Owners, c: C.Settings, w: World, a: Attempt, i: nat, j: nat)
    requires Invariant(owners, w) && IsWellFormed(owners, a.ds) && IsAttempt(c, w, a) && a.sound
    requires i < |a.ds| && j < |a.ds[i].bundles| && IsManagedIn(a.after, a.ds[i].name)
    ensures IsServed(c, a.after, a.ds[i], a.ds[i].bundles[j],
                     !IsManagedIn(w, a.ds[i].name) && HasAmbiguous(a.ds[i].bundles))
  {
    hide After, Gives, GivesParameters, CredentialsStored, ParametersStored, IsLost, IsPresent, C.Convert, C.Services,
         HasAmbiguous, Moved;
    var listed :| IsAttemptFrom(c, w, listed, a);
    WellFormedResolved(owners, a.ds);
    InvariantLosesNothing(owners, w, listed, a.ds);
    ManagedWasPresent(c, w, listed, a.ds, i);
    AfterCarries(c, w, listed, a.ds, i);
    BundleIsGiven(c, w, listed, a.ds, i, j);
  }

  lemma AfterCarries(c: C.Settings, w: World, listed: seq<Application>, ds: seq<D.Application>, i: nat)
    requires IsStart(w, listed, ds) && i < |ds| && IsPresent(w, listed, ds, i)
    ensures var w', n := After(c, w, listed, ds), ds[i].name;
            n in w'.apps && w'.apps[n].spec.services == C.Services(c, n, ds[i].bundles)
  {
    hide After, IsPresent;
    ApplicationsConverge(c, w, listed, ds, i);
  }

  lemma BundleIsGiven(c: C.Settings, w: World, listed: seq<Application>, ds: seq<D.Application>, i: nat, j: nat)
    requires IsStart(w, listed, ds) && DistinctResolved(ds) && NoneLost(listed, ds)
    requires i < |ds| && j < |ds[i].bundles| && IsPresent(w, listed, ds, i)
    ensures var w', d, b := After(c, w, listed, ds), ds[i], ds[i].bundles[j];
            && (b.Credentials().Some? && IsComplete(b.Credentials().value) ==>
                  Gives(w', C.ToCredentials(d.name, b), b.Credentials().value))
            && (b.Parameters().Some? && !(!IsManagedIn(w, d.name) && HasAmbiguous(d.bundles)) ==>
                  GivesParameters(w', NR.ParametersSecretName(d.name, b.id), b.Parameters().value))
  {
    hide After, Gives, CredentialsStored, IsLost, IsPresent, HasAmbiguous, C.ToCredentials, IsComplete, ReadParameters,
         ParametersData;
    var d, b := ds[i], ds[i].bundles[j];
    if b.Credentials().Some? && IsComplete(b.Credentials().value) {
      CredentialsSurvive(c, w, listed, ds, i, j);
      StoredGives(After(c, w, listed, ds), d.name, b);
    }
    if b.Parameters().Some? {
      ParametersSurvive(c, w, listed, ds, i, j);
      ParametersRoundTrip(b.Parameters().value);
    }
  }

  /**
   Whatever happened before - synchronisations of which any calls failed, other writers, the garbage collector - one
   synchronisation without failures restores reference integrity: every bundle of every application that Compass manages
   is served. Only an application that is new with it and has a bundle with credentials of both kinds still waits for
   its request parameters.
   */
  lemma LastSoundAttemptServes(owners: Owners, c: C.Settings, w: World, steps: seq<Step>, a: Attempt, i: nat, j: nat)
    requires Invariant(owners, w) && IsHistory(c, owners, w, steps)
    requires IsStep(c, owners, Reached(w, steps), Synchronised(a)) && a.sound
    requires i < |a.ds| && j < |a.ds[i].bundles| && IsManagedIn(a.after, a.ds[i].name)
    ensures IsServed(c, a.after, a.ds[i], a.ds[i].bundles[j],
                     !IsManagedIn(Reached(w, steps), a.ds[i].name) && HasAmbiguous(a.ds[i].bundles))
  {
    HistoryKeepsInvariant(owners, c, w, steps);
    SoundAttemptServes(owners, c, Reached(w, steps), a, i, j);
  }

  /**
   From the Director to a request: at the end of such a history the gateway resolves the path that the entry of an API
   prints, if its normalised name is unique, to its target, and the secrets it is told to use give the Director's
   credentials and, unless they are held back, its request parameters.
   */
  lemma RequestsFindCredentials(owners: Owners, c: C.Settings, w: World, steps: seq<Step>, a: Attempt,
                                i: nat, j: nat, k: nat, path: string, r: Result<G.Definition, G.GatewayError>)
    requires Invariant(owners, w) && IsHistory(c, owners, w, steps)
    requires IsStep(c, owners, Reached(w, steps), Synchronised(a)) && a.sound
    requires i < |a.ds| && G.IsApi(a.ds[i], j, k) && IsManagedIn(a.after, a.ds[i].name) && G.HasUniqueKey(a.ds[i], j, k)
    requires '/' !in a.ds[i].name && N.NormalizeName(a.ds[i].bundles[j].apis[k].name) != ""
    requires G.IsPrinted(c, a.after.apps, a.ds[i].name, j, k, path) && G.Resolves(Some(a.after.apps), path, r)
    ensures var b := a.ds[i].bundles[j];
            && r.Success? && r.value.targetUrl == b.apis[k].targetUrl
            && (b.Credentials().None? ==> r.value.credentials.None?)
            && (b.Credentials().Some? && IsComplete(b.Credentials().value) ==>
                  r.value.credentials.Some? && Gives(a.after, r.value.credentials.value, b.Credentials().value))
            && (b.Parameters().None? ==> r.value.parametersSecretName == "")
            && (b.Parameters().Some?
                && (IsManagedIn(Reached(w, steps), a.ds[i].name) || !HasAmbiguous(a.ds[i].bundles)) ==>
                  GivesParameters(a.after, r.value.parametersSecretName, b.Parameters().value))
  {
    HistoryKeepsInvariant(owners, c, w, steps);
    AttemptKeepsInvariant(owners, c, Reached(w, steps), a);
    LastSoundAttemptServes(owners, c, w, steps, a, i, j);
    G.RoutingRoundTrip(c, a.ds[i], a.after.apps, j, k, path, r);
  }

  // ---------------------------------------------------------------- collection

  /** Some managed application refers to the secret. */
  ghost predicate IsReferenced(w: World, n: string) {
    exists m :: IsManagedIn(w, m) && n in ReferencedNames(w.apps[m])
  }

  lemma ReferencedIsListed(w: World, listed: seq<Application>, n: string)
    requires Keyed(w) && IsListing(listed, w.apps)
    ensures n in AllReferencedNames(listed) <==> IsReferenced(w, n)
  {
    if n in AllReferencedNames(listed) {
      var a :| a in listed && n in ReferencedNames(a);
      var k :| 0 <= k < |listed| && listed[k] == a;
      assert IsManagedIn(w, a.name);
    }
    if IsReferenced(w, n) {
      var m :| IsManagedIn(w, m) && n in ReferencedNames(w.apps[m]);
      var a := Find(m, listed);
      var k :| 0 <= k < |listed| && listed[k] == a;
      assert a in listed;
    }
  }

  /**
   A synchronisation without failures deletes, of the secrets it has no use for, exactly those that were referred to.
   */
  lemma SoundAttemptCollects(c: C.Settings, w: World, a: Attempt, n: string)
    requires IsAttempt(c, w, a) && a.sound && n !in ResolvedNames(a.ds)
    ensures DroppedIf(w, a.after, n, IsReferenced(w, n))
  {
    var listed :| IsAttemptFrom(c, w, listed, a);
    UnresolvedSecrets(c, w, listed, a.ds, n);
    ReferencedIsListed(w, listed, n);
  }

  /** Nobody is left to collect the secret: it is there, unreferenced, and owned by an application that is there. */
  ghost predicate IsOrphan(w: World, n: string, owner: string) {
    && n in w.secrets && !IsReferenced(w, n)
    && owner in w.apps && w.apps[owner].uid == w.secrets[n].owner
  }

  /**
   A secret that no managed application refers to any more is never collected as long as the Director has the
   application that owns it and does not resolve to the secret's name again.
   */
  lemma {:induction false} OrphansStay(owners: Owners, c: C.Settings, w: World, steps: seq<Step>, n: string,
                                       owner: string)
    requires IsHistory(c, owners, w, steps) && IsOrphan(w, n, owner)
    requires forall k :: 0 <= k < |steps| ==>
               !steps[k].Elsewhere?
               && (steps[k].Synchronised? ==>
                     InDirector(owner, steps[k].attempt.ds) && n !in ResolvedNames(steps[k].attempt.ds))
    ensures SameSecret(w, Reached(w, steps), n) && IsOrphan(Reached(w, steps), n, owner)
    decreases |steps|
  {
    if steps != [] {
      var front, last := steps[..|steps| - 1], steps[|steps| - 1];
      assert forall k :: 0 <= k < |front| ==> front[k] == steps[k];
      OrphansStay(owners, c, w, front, n, owner);
      if last.Synchronised? {
        OrphanStays(c, Reached(w, front), last.attempt, n, owner);
      } else {
        CollectorLeavesOrphans(Reached(w, front), last.after, n, owner);
      }
    }
  }

  lemma OrphanStays(c: C.Settings, w: World, a: Attempt, n: string, owner: string)
    requires IsAttempt(c, w, a) && IsOrphan(w, n, owner) && n !in ResolvedNames(a.ds) && InDirector(owner, a.ds)
    ensures SameSecret(w, a.after, n) && IsOrphan(a.after, n, owner)
  {
    var listed :| IsAttemptFrom(c, w, listed, a);
    ReferencedIsListed(w, listed, n);
    OutsideIsSame(w, a.after, TouchedNames(listed, a.ds), n);
    forall m | IsManagedIn(a.after, m)
      ensures n !in ReferencedNames(a.after.apps[m])
    {
      var app := a.after.apps[m];
      if m in w.apps && app == w.apps[m] {
        assert IsManagedIn(w, m);
      } else {
        ConvertedRefersToResolved(c, app, a.ds, n);
      }
    }
  }

  lemma CollectorLeavesOrphans(w: World, w': World, n: string, owner: string)
    requires IsCollected(w, w') && IsOrphan(w, n, owner)
    ensures SameSecret(w, w', n) && IsOrphan(w', n, owner)
  {
    assert HasOwner(w, w.secrets[n].owner);
    assert forall m :: IsManagedIn(w', m) <==> IsManagedIn(w, m);
  }

  /** The garbage collector leaves a secret in any case exactly when its owner is there. */
  lemma CollectorNeedsNoOwner(w: World, n: string)
    requires n in w.secrets
    ensures (forall w' :: IsCollected(w, w') ==> SameSecret(w, w', n)) <==> HasOwner(w, w.secrets[n].owner)
  {
    var w' := w.(secrets := w.secrets - {n});
    if !HasOwner(w, w.secrets[n].owner) {
      assert IsCollected(w, w') && !SameSecret(w, w', n);
    }
  }

  /** A synchronisation in which every call for a secret fails, and no other. */
  function WithoutSecretCalls(c: C.Settings, w: World, listed: seq<Application>, ds: seq<D.Application>): World {
    Run(w, OfApplications(Plan(c, w, listed, ds)))
  }

  /**
   Orphans come about: from every start, when every call for a secret fails and no other, a secret that the list does
   not resolve to is still there afterwards and unreferenced, although its applications named it before. It is an orphan
   when the Director keeps its owner.
   */
  lemma OrphansAppear(c: C.Settings, w: World, listed: seq<Application>, ds: seq<D.Application>, n: string)
    requires IsStart(w, listed, ds) && n in w.secrets && n !in ResolvedNames(ds)
    ensures var w' := WithoutSecretCalls(c, w, listed, ds);
            && IsAttempt(c, w, Attempt(ds, w', false))
            && w' == After(c, w, listed, ds).(secrets := w.secrets)
            && SameSecret(w, w', n) && !IsReferenced(w', n)
            && forall owner :: owner in w.apps && w.apps[owner].uid == w.secrets[n].owner && InDirector(owner, ds) ==>
                 IsOrphan(w', n, owner)
  {
    hide After, WithoutSecretCalls;
    var all, w' := After(c, w, listed, ds), WithoutSecretCalls(c, w, listed, ds);
    AfterWithoutSecretCalls(c, w, listed, ds);
    AfterKeyed(c, w, listed, ds);
    forall m | m in all.apps
      ensures (m in w.apps && all.apps[m] == w.apps[m]) || ComesFrom(all.apps[m], c, ds)
    {
      PlanMoves(c, w, listed, ds, m);
    }
    PlanKeepsDirectors(c, w, listed, ds);
    PlanKeys(c, w, listed, ds);
    AfterAdvances(c, w, listed, ds);
    SameSecretsAdvance(w, all, ds);
    assert IsAttemptFrom(c, w, listed, Attempt(ds, w', false));
    forall m | IsManagedIn(w', m)
      ensures n !in ReferencedNames(w'.apps[m])
    {
      ManagedIsConverted(c, w, listed, ds, m);
      ConvertedRefersToResolved(c, w'.apps[m], ds, n);
    }
  }

  lemma AfterWithoutSecretCalls(c: C.Settings, w: World, listed: seq<Application>, ds: seq<D.Application>)
    ensures WithoutSecretCalls(c, w, listed, ds) == After(c, w, listed, ds).(secrets := w.secrets)
  {
    hide Run, Plan;
    RunOfApplications(w, Plan(c, w, listed, ds));
  }

  lemma SameSecretsAdvance(w: World, w': World, ds: seq<D.Application>)
    requires Advances(w, w', ds)
    ensures Advances(w, w'.(secrets := w.secrets), ds)
  {
    hide IsAskedFor;
    forall n | n in w'.apps
      ensures IsUidKeptOrNew(w, w'.(secrets := w.secrets), n)
    {
      assert IsUidKeptOrNew(w, w', n);
    }
  }

  lemma ManagedIsConverted(c: C.Settings, w: World, listed: seq<Application>, ds: seq<D.Application>, m: string)
    requires IsStart(w, listed, ds) && IsManagedIn(After(c, w, listed, ds), m)
    ensures ComesFrom(After(c, w, listed, ds).apps[m], c, ds)
  {
    hide After, IsPresent, C.Convert;
    if !InDirector(m, ds) {
      OnlyDirectors(c, w, listed, ds, m);
    } else {
      var i :| 0 <= i < |ds| && ds[i].name == m;
      ManagedWasPresent(c, w, listed, ds, i);
      ApplicationsConverge(c, w, listed, ds, i);
    }
  }

  lemma OutsideIsSame(w: World, w': World, names: set<string>, n: string)
    requires w'.secrets - names == w.secrets - names && n !in names
    ensures SameSecret(w, w', n)
  {
    assert n in w.secrets <==> n in w.secrets - names;
    assert n in w'.secrets <==> n in w'.secrets - names;
    if n in w.secrets {
      assert (w.secrets - names)[n] == (w'.secrets - names)[n];
    }
  }

  lemma ConvertedRefersToResolved(c: C.Settings, app: Application, ds: seq<D.Application>, n: string)
    requires ComesFrom(app, c, ds) && n !in ResolvedNames(ds)
    ensures n !in ReferencedNames(app)
  {
    var i :| 0 <= i < |ds| && Carries(app, C.Convert(c, ds[i]));
    CarriedNamesAreOwn(c, app, ds[i]);
    assert ds[i] in ds;
    assert OwnNames(ds[i]) <= ResolvedNames(ds);
  }

  lemma CarriedNamesAreOwn(c: C.Settings, app: Application, d: D.Application)
    requires Carries(app, C.Convert(c, d))
    ensures ReferencedNames(app) <= OwnNames(d)
  {
    NewNamesAreOwn(c, d);
  }

  // ---------------------------------------------------------------- renaming

  /**
   Renaming breaks the integrity: when a bundle appears under a new application name that agrees with an old one, which
   the Director no longer has, in its first 26 characters, then the secret stored for the new application is deleted
   together with the old one. The application refers to a secret that does not exist.
   */
  lemma RenamingLosesCredentials(c: C.Settings, w: World, listed: seq<Application>, ds: seq<D.Application>, i: nat,
                                 j: nat, k: nat, oldBundles: seq<D.Bundle>, l: nat)
    requires IsStart(w, listed, ds) && DistinctResolved(ds)
    requires i < |ds| && !Exists(ds[i].name, listed) && IsCreatable(w, ds[i].name)
    requires j < |ds[i].bundles| && ds[i].bundles[j].Credentials().Some? && NR.IsUuid(ds[i].bundles[j].id)
    requires k < |listed| && listed[k].spec.services == C.Services(c, listed[k].name, oldBundles)
    requires l < |oldBundles| && oldBundles[l].id == ds[i].bundles[j].id && oldBundles[l].apis != []
    requires oldBundles[l].Credentials().Some?
    requires |ds[i].name| >= 26 && |listed[k].name| >= 26 && ds[i].name[..26] == listed[k].name[..26]
    ensures var w', b := After(c, w, listed, ds), ds[i].bundles[j];
            && ds[i].name in w'.apps
            && w'.apps[ds[i].name].spec.services == C.Services(c, ds[i].name, ds[i].bundles)
            && C.ToCredentials(ds[i].name, b).secretName !in w'.secrets
  {
    var b, n := ds[i].bundles[j], NR.CredentialsSecretName(ds[i].name, ds[i].bundles[j].id);
    SameShortName(ds[i].name, listed[k].name, b.id);
    NamedByOld(c, listed, k, oldBundles, l);
    ApplicationsConverge(c, w, listed, ds, i);
    CredentialsSurvive(c, w, listed, ds, i, j);
  }

  lemma SameShortName(a: string, b: string, id: string)
    requires NR.IsUuid(id) && |a| >= 26 && |b| >= 26 && a[..26] == b[..26]
    ensures NR.CredentialsSecretName(a, id) == NR.CredentialsSecretName(b, id)
  {
    NR.ResourceNamesEqual(a, b, id, id);
  }

  lemma NamedByOld(c: C.Settings, listed: seq<Application>, k: nat, bundles: seq<D.Bundle>, l: nat)
    requires k < |listed| && listed[k].spec.services == C.Services(c, listed[k].name, bundles)
    requires l < |bundles| && bundles[l].apis != [] && bundles[l].Credentials().Some?
    ensures NR.CredentialsSecretName(listed[k].name, bundles[l].id) in AllReferencedNames(listed)
  {
    C.NamedCredentials(c, listed[k].name, bundles);
    assert bundles[l] in bundles;
    assert listed[k] in listed;
    assert NR.CredentialsSecretName(listed[k].name, bundles[l].id) in ReferencedNames(listed[k]);
  }
}
