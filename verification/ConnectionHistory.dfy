/**
 What every history of the connection keeps: reconciliations of possibly stale versions, start-ups, users who edit the
 specification or delete things, and failures anywhere.
 */
module ConnectionHistory {
  import opened Wrappers
  import opened Connection

  datatype Step =
    | Reconciled(read: Option<Cr>, deed: Deed)
    | Started
    | Edited
    | Deleted
    | Elsewhere

  ghost predicate WasRead(w: World, read: Option<Cr>) {
    read.Some? ==> exists k :: 0 <= k < |w.versions| && w.versions[k] == read.value
  }

  /** Users edit the specification; status and certificates are left to the agent. */
  ghost predicate IsEdited(w: World, w': World) {
    && w.cr.Some? && w'.cr.Some?
    && w'.cr.value == w.cr.value.(spec := w'.cr.value.spec, version := |w.versions|)
    && w' == w.(cr := w'.cr, versions := w.versions + [w'.cr.value])
  }

  /** Time passes, secrets go or come back, the process loses its cache. */
  ghost predicate IsElsewhere(w: World, w': World) {
    w.now <= w'.now && w' == w.(now := w'.now, secret := w'.secret, authority := w'.authority, cache := w'.cache)
  }

  ghost predicate Moves(c: Settings, w: World, w': World, step: Step) {
    match step
    case Reconciled(read, deed) => WasRead(w, read) && Reconciles(c, w, read, w', deed)
    case Started => Initialises(w, w')
    case Edited => IsEdited(w, w')
    case Deleted => w' == w.(cr := None)
    case Elsewhere => IsElsewhere(w, w')
  }

  ghost predicate IsHistory(c: Settings, ws: seq<World>, steps: seq<Step>) {
    && |ws| == |steps| + 1
    && forall k :: 0 <= k < |steps| ==> Moves(c, ws[k], ws[k + 1], steps[k])
  }

  ghost predicate IsInitial(w: World) {
    w.cr.None? && w.versions == [] && w.complete == [] && w.writes == []
  }

  // ---------------------------------------------------------------- reachable states

  /**
   A state other than ConnectionFailed means that both credential secrets were stored before; the connection status is
   there.
   */
  predicate IsSound(w: World, cr: Cr) {
    cr.status.connection.Some? && (!cr.HasFailed() ==> w.complete != [])
  }

  ghost predicate AreVersions(w: World) {
    && (forall k :: 0 <= k < |w.versions| ==> w.versions[k].version == k && IsSound(w, w.versions[k]))
    && (w.cr.Some? ==> w.cr.value.version < |w.versions| && w.versions[w.cr.value.version] == w.cr.value)
  }

  /** ConnectionFailed is entered only from nothing or from itself. */
  ghost predicate AreWrites(w: World) {
    forall k :: 0 <= k < |w.writes| && w.writes[k].after.ConnectionFailed? ==>
      w.writes[k].before.None? || w.writes[k].before.value.ConnectionFailed?
  }

  ghost predicate Invariant(w: World) {
    AreVersions(w) && AreWrites(w)
  }

  /** Where only time, secrets and the cache differ, and credentials may have been added. */
  ghost predicate IsAside(w: World, w': World) {
    && w'.cr == w.cr && w'.versions == w.versions && w'.writes == w.writes
    && |w.complete| <= |w'.complete|
  }

  lemma AsideKeeps(w: World, w': World)
    requires Invariant(w) && IsAside(w, w')
    ensures Invariant(w')
  {
  }

  lemma StoringKeeps(w: World, cr: Cr)
    requires Invariant(w) && IsSound(w, cr)
    requires cr.HasFailed() ==> w.cr.None? || w.cr.value.HasFailed()
    ensures Invariant(Stored(w, cr))
  {
  }

  lemma EstablishingIsAside(w: World, cr: Cr, w': World, cr': Cr)
    requires Establishes(w, cr, w', cr')
    ensures IsAside(w, w') && IsSound(w', cr') && cr'.version == cr.version && cr'.status.sync == cr.status.sync
  {
    if !FailsToPreserve(w, w') {
      var t: int, certificate: Certificate, urls: Urls :|
        && w.now <= t <= w'.now
        && w' == Preserved(w, certificate, urls).(now := w'.now)
        && cr' == WithConnection(cr, t, certificate, urls);
      assert WithConnection(cr, t, certificate, urls).status.connection.Some?;
    }
  }

  lemma InitialisingKeeps(w: World, w': World)
    requires Invariant(w) && Initialises(w, w')
    ensures Invariant(w')
  {
    if w.cr.None? && !Fails(w, w') {
      var w1: World, cr: Cr, ok: bool :| Establishes(w, EMPTY, w1, cr) && Persists(w1, cr, w', ok, true);
      InitialWrite(w, EMPTY, w1, cr, w', ok, true);
    } else if w.cr.Some? && w.cr.value.HasFailed() && !Fails(w, w') {
      var w1: World, cr: Cr, ok: bool :| Establishes(w, w.cr.value, w1, cr) && Persists(w1, cr, w', ok, false);
      InitialWrite(w, w.cr.value, w1, cr, w', ok, false);
    } else {
      AsideKeeps(w, w');
    }
  }

  lemma InitialWrite(w: World, before: Cr, w1: World, cr: Cr, w': World, ok: bool, creating: bool)
    requires Invariant(w) && (w.cr.None? || w.cr.value.HasFailed())
    requires Establishes(w, before, w1, cr) && Persists(w1, cr, w', ok, creating)
    ensures Invariant(w')
  {
    EstablishingIsAside(w, before, w1, cr);
    AsideKeeps(w, w1);
    StoringKeeps(w1, cr);
  }

  lemma MaintainingIsAside(c: Settings, w: World, cr: Cr, w': World, cr': Cr, t: int, renewed: Option<Certificate>,
                           urls: Urls)
    requires cr.status.connection.Some? && Maintains(c, w, cr, w', cr', t, renewed, urls)
    ensures IsAside(w, w') && w.now <= w'.now && w'.failures == w.failures
    ensures w'.preserved == if renewed.Some? then w.preserved + [renewed.value] else w.preserved
    ensures w'.complete == if renewed.Some? then w.complete + [renewed.value] else w.complete
    ensures w'.cache == Refreshed(w, cr, renewed, urls).cache
    ensures w'.secret == if renewed.Some? then renewed else w.secret
    ensures w'.authority <==> renewed.Some? || w.authority
    ensures cr'.status.connection.Some? && cr'.status.state == cr.status.state && cr'.status.sync == cr.status.sync
    ensures cr'.version == cr.version && cr'.spec.resyncNow == cr.spec.resyncNow
  {
    var checked: int :|
      && w.now <= checked <= t <= w'.now
      && (renewed.Some? <==> ShouldRenew(cr, c, checked) || !w.authority)
      && w' == Refreshed(w, cr, renewed, urls).(now := w'.now)
      && cr' == Maintained(cr, t, renewed);
    MaintainedKeeps(cr, t, renewed);
    RefreshedKeeps(w, cr, renewed, urls);
  }

  lemma MaintenanceFailureKeeps(w: World, cr: Cr, w': World, deed: Deed)
    requires Invariant(w) && IsSound(w, cr) && !cr.HasFailed() && FailsMaintenance(w, cr, w', deed)
    ensures Invariant(w')
  {
    var w1: World, t: int :|
      FailsToPreserve(w, w1) && w.now <= t <= w1.now
      && Persists(w1, WithMaintenanceFailure(cr, t), w', deed.persisted, false);
    AsideKeeps(w, w1);
    StoringKeeps(w1, WithMaintenanceFailure(cr, t));
  }

  lemma SynchronisingKeeps(c: Settings, w: World, cr: Cr, w': World, deed: Deed)
    requires Invariant(w) && IsSound(w, cr) && !cr.HasFailed() && Synchronises(c, w, cr, w', deed)
    ensures Invariant(w')
  {
    var w1: World, cr1: Cr, w2: World, outcome: SyncOutcome :|
      SynchronisesVia(c, w, cr, w', deed, w1, cr1, w2, outcome);
    MaintainingIsAside(c, w, cr, w1, cr1, deed.at, deed.renewed, deed.urls);
    SyncWriteKeeps(w, w2, cr1, deed.attempt, outcome, w', deed.persisted);
  }

  lemma SyncWriteKeeps(w: World, w2: World, cr: Cr, t: int, outcome: SyncOutcome, w': World, ok: bool)
    requires Invariant(w) && IsAside(w, w2) && IsSound(w, cr) && !cr.HasFailed()
    requires Persists(w2, WithSync(cr, t, outcome), w', ok, false)
    ensures Invariant(w')
  {
    AsideKeeps(w, w2);
    if ok {
      StoringKeeps(w2, WithSync(cr, t, outcome));
    }
  }

  lemma ReconcilingKeeps(c: Settings, w: World, read: Option<Cr>, w': World, deed: Deed)
    requires Invariant(w) && WasRead(w, read) && Reconciles(c, w, read, w', deed)
    ensures Invariant(w')
  {
    if read.None? {
      var w1: World :| TimePasses(w, w1) && Initialises(w1, w');
      AsideKeeps(w, w1);
      InitialisingKeeps(w1, w');
    } else if deed.Nothing? && TimePasses(w, w') {
      AsideKeeps(w, w');
    } else {
      var cr := read.value;
      var w1: World :|
        TimePasses(w, w1) && !SkipsConnection(c, cr, w1.now)
        && if cr.HasFailed() then deed.Initialised? && Initialises(w1, w')
           else
             || FailsMaintenance(w1, cr, w', deed)
             || OnlyMaintains(c, w1, cr, w', deed)
             || Synchronises(c, w1, cr, w', deed);
      AsideKeeps(w, w1);
      if cr.HasFailed() {
        InitialisingKeeps(w1, w');
      } else if FailsMaintenance(w1, cr, w', deed) {
        MaintenanceFailureKeeps(w1, cr, w', deed);
      } else if Synchronises(c, w1, cr, w', deed) {
        SynchronisingKeeps(c, w1, cr, w', deed);
      } else {
        OnlyMaintainingIsAside(c, w1, cr, w', deed);
        AsideKeeps(w1, w');
      }
    }
  }

  lemma OnlyMaintainingIsAside(c: Settings, w: World, cr: Cr, w': World, deed: Deed)
    requires OnlyMaintains(c, w, cr, w', deed)
    ensures IsAside(w, w')
  {
    var w1: World, cr1: Cr :| OnlyMaintainsVia(c, w, cr, w', deed, w1, cr1);
    MaintainingIsAside(c, w, cr, w1, cr1, deed.at, deed.renewed, deed.urls);
  }

  lemma MoveKeeps(c: Settings, w: World, w': World, step: Step)
    requires Invariant(w) && Moves(c, w, w', step)
    ensures Invariant(w')
  {
    match step
    case Reconciled(read, deed) => ReconcilingKeeps(c, w, read, w', deed);
    case Started => InitialisingKeeps(w, w');
    case _ =>
  }

  /**
   In every version the agent ever persists the connection status is there, so that the renewal check finds its
   certificate; a state other than ConnectionFailed means that both credential secrets were stored before; and
   ConnectionFailed is entered only from no resource or from ConnectionFailed.
   */
  lemma {:induction false} ReachableStates(c: Settings, ws: seq<World>, steps: seq<Step>, k: nat)
    requires IsHistory(c, ws, steps) && IsInitial(ws[0]) && k < |ws|
    ensures forall v :: 0 <= v < |ws[k].versions| ==> IsSound(ws[k], ws[k].versions[v])
    ensures AreWrites(ws[k]) && Invariant(ws[k])
  {
    if k > 0 {
      ReachableStates(c, ws, steps, k - 1);
      assert Moves(c, ws[k - 1], ws[k - 1 + 1], steps[k - 1]);
      MoveKeeps(c, ws[k - 1], ws[k], steps[k - 1]);
    }
  }

  // ---------------------------------------------------------------- what connecting leaves

  /** The resource says that the connection was established at `t`, with the certificate and the URLs in use. */
  predicate ShowsConnected(w: World, cr: Cr, t: int) {
    && cr.status.state.Connected? && w.secret.Some? && w.authority && w.cache == Cache(w.secret, cr.spec.urls)
    && cr.status.connection.Some?
    && var connection, certificate := cr.status.connection.value, w.secret.value;
       && connection.established == t && connection.lastSync == t && connection.lastSuccess == t && !connection.hasError
       && connection.certificate == CertificateStatus(t, certificate.notBefore, certificate.notAfter)
  }

  /** The resource says that connecting failed at `t`, and is otherwise as it was `before`. */
  predicate ShowsFailure(before: Cr, cr: Cr, t: int) {
    && cr.status.state.ConnectionFailed? && cr.spec == before.spec && cr.status.sync == before.status.sync
    && cr.status.connection.Some?
    && var connection := cr.status.connection.value;
       && connection.lastSync == t && connection.hasError
       && (before.status.connection.Some? ==>
             var former := before.status.connection.value;
             && connection.certificate == former.certificate && connection.established == former.established
             && connection.renewed == former.renewed && connection.lastSuccess == former.lastSuccess)
  }

  lemma EstablishedShows(w: World, before: Cr, w': World, cr: Cr)
    requires Establishes(w, before, w', cr)
    ensures exists t: int ::
              && w.now <= t <= w'.now
              && (ShowsConnected(w', cr, t) || (ShowsFailure(before, cr, t) && w'.failures > w.failures))
    ensures cr.spec.resyncNow == before.spec.resyncNow && cr.spec.refreshNow == before.spec.refreshNow
    ensures ShowsFailure(before, cr, cr.status.connection.value.lastSync) ==> w'.cache == w.cache
  {
    if FailsToPreserve(w, w') && exists t: int :: w.now <= t <= w'.now && cr == WithFailure(before, t) {
      var t: int :| w.now <= t <= w'.now && cr == WithFailure(before, t);
      assert ShowsFailure(before, cr, t);
    } else {
      var t: int, certificate: Certificate, urls: Urls :|
        && w.now <= t <= w'.now
        && w' == Preserved(w, certificate, urls).(now := w'.now)
        && cr == WithConnection(before, t, certificate, urls);
      assert ShowsConnected(w', cr, t);
    }
  }

  /**
   Connecting anew, whether there was no resource or one whose connection failed: what is written says when it was tried
   and how it ended, and a resource that is not failed is only read, to fill the cache.
   */
  lemma InitialisingShows(w: World, w': World)
    requires Initialises(w, w')
    ensures w.cr.Some? && !w.cr.value.HasFailed() ==>
              && w'.cr == w.cr && w'.versions == w.versions
              && (w'.cache == w.cache || (w.secret.Some? && w'.cache == Cache(w.secret, w.cr.value.spec.urls)))
              && (w'.failures == w.failures && w.secret.Some? ==> w'.cache == Cache(w.secret, w.cr.value.spec.urls))
    ensures w'.versions != w.versions ==>
              && w'.cr.Some? && w'.versions == w.versions + [w'.cr.value]
              && exists t: int ::
                   && w.now <= t <= w'.now
                   && (ShowsConnected(w', w'.cr.value, t)
                       || ShowsFailure(if w.cr.Some? then w.cr.value else EMPTY, w'.cr.value, t))
    ensures w'.failures == w.failures && (w.cr.None? || w.cr.value.HasFailed()) ==>
              w'.cr.Some? && w'.cr.value.status.state.Connected?
  {
    var before := if w.cr.Some? then w.cr.value else EMPTY;
    if w.cr.None? || w.cr.value.HasFailed() {
      if !Fails(w, w') {
        var w1: World, cr: Cr, ok: bool :| Establishes(w, before, w1, cr) && Persists(w1, cr, w', ok, w.cr.None?);
        hide Establishes, Initialises;
        ConnectingShows(w, before, w1, cr, w', ok);
      }
    }
  }

  lemma ConnectingShows(w: World, before: Cr, w1: World, cr: Cr, w': World, ok: bool)
    requires Establishes(w, before, w1, cr) && Persists(w1, cr, w', ok, w.cr.None?)
    requires before == if w.cr.Some? then w.cr.value else EMPTY
    ensures w'.versions != w.versions ==>
              && w'.cr.Some? && w'.versions == w.versions + [w'.cr.value]
              && exists t: int ::
                   w.now <= t <= w'.now && (ShowsConnected(w', w'.cr.value, t) || ShowsFailure(before, w'.cr.value, t))
    ensures w'.failures == w.failures ==> w'.cr.Some? && w'.cr.value.status.state.Connected?
  {
    EstablishedShows(w, before, w1, cr);
    EstablishingIsAside(w, before, w1, cr);
    hide Establishes;
    var t: int :| && w.now <= t <= w1.now
                  && (ShowsConnected(w1, cr, t) || (ShowsFailure(before, cr, t) && w1.failures > w.failures));
    if ok {
      assert ShowsConnected(w1, cr, t) ==> ShowsConnected(w', w'.cr.value, t);
      assert ShowsFailure(before, cr, t) ==> ShowsFailure(before, w'.cr.value, t);
    }
  }

  // ---------------------------------------------------------------- rate limit

  /** Less than the minimal time has passed since `before`, in whole seconds, and nobody asked for more. */
  predicate IsTooSoon(c: Settings, cr: Cr, before: Option<int>, now: int) {
    !cr.spec.resyncNow && before.Some? && now - before.value < c.minimalTime.Floor
  }

  function LastChecked(cr: Cr): Option<int> {
    if cr.status.connection.Some? then Some(cr.status.connection.value.lastSync) else None
  }

  function LastSynchronised(cr: Cr): Option<int> {
    if cr.status.sync.Some? then Some(cr.status.sync.value.lastAttempt) else None
  }

  /**
   A reconciliation does nothing exactly when it is too soon after the last check of the connection, and a successful
   maintenance is followed by a synchronisation exactly when it is not too soon after the last one.
   */
  lemma TooSoonDecides(c: Settings, w: World, cr: Cr, w': World, deed: Deed)
    requires Reconciles(c, w, Some(cr), w', deed)
    ensures exists t: int :: w.now <= t <= w'.now && (deed.Nothing? <==> IsTooSoon(c, cr, LastChecked(cr), t))
    ensures deed.Nothing? ==> w' == w.(now := w'.now)
    ensures deed.MaintainedOnly? ==> IsTooSoon(c, cr, LastSynchronised(cr), deed.checked)
    ensures deed.Synchronised? ==> !IsTooSoon(c, cr, LastSynchronised(cr), deed.checked)
    ensures HasMaintained(deed) ==> w.now <= deed.at <= deed.checked <= w'.now
  {
    if HasMaintained(deed) {
      MaintainedInTime(c, w, cr, w', deed);
    }
    if deed.Nothing? {
      NothingIsTooSoon(c, w, cr, w', deed);
    } else {
      SomethingIsNot(c, w, cr, w', deed);
    }
  }

  lemma NothingIsTooSoon(c: Settings, w: World, cr: Cr, w': World, deed: Deed)
    requires Reconciles(c, w, Some(cr), w', deed) && deed.Nothing?
    ensures IsTooSoon(c, cr, LastChecked(cr), w'.now) && TimePasses(w, w')
  {
    hide Initialises, OnlyMaintainsVia, SynchronisesVia;
  }

  lemma SomethingIsNot(c: Settings, w: World, cr: Cr, w': World, deed: Deed)
    requires Reconciles(c, w, Some(cr), w', deed) && !deed.Nothing?
    ensures exists t: int :: w.now <= t <= w'.now && !IsTooSoon(c, cr, LastChecked(cr), t)
  {
    hide Initialises, OnlyMaintains, Synchronises, FailsMaintenance;
    var w1: World :|
      TimePasses(w, w1) && !SkipsConnection(c, cr, w1.now)
      && if cr.HasFailed() then deed.Initialised? && Initialises(w1, w')
         else
           || FailsMaintenance(w1, cr, w', deed)
           || OnlyMaintains(c, w1, cr, w', deed)
           || Synchronises(c, w1, cr, w', deed);
    assert !IsTooSoon(c, cr, LastChecked(cr), w1.now);
    assert w1.now <= w'.now by {
      if cr.HasFailed() {
        InitialisingTakesTime(w1, w');
      } else if FailsMaintenance(w1, cr, w', deed) {
        FailingTakesTime(w1, cr, w', deed);
      } else {
        SucceedingTakesTime(c, w1, cr, w', deed);
      }
    }
  }

  lemma InitialisingTakesTime(w: World, w': World)
    requires Initialises(w, w')
    ensures w.now <= w'.now
  {
  }

  lemma FailingTakesTime(w: World, cr: Cr, w': World, deed: Deed)
    requires FailsMaintenance(w, cr, w', deed)
    ensures w.now <= w'.now
  {
  }

  lemma SucceedingTakesTime(c: Settings, w: World, cr: Cr, w': World, deed: Deed)
    requires OnlyMaintains(c, w, cr, w', deed) || Synchronises(c, w, cr, w', deed)
    ensures w.now <= deed.at <= deed.checked <= w'.now
    ensures if deed.MaintainedOnly? then IsTooSoon(c, cr, LastSynchronised(cr), deed.checked)
            else deed.Synchronised? && !IsTooSoon(c, cr, LastSynchronised(cr), deed.checked)
  {
    if OnlyMaintains(c, w, cr, w', deed) {
      var w1: World, cr1: Cr :| OnlyMaintainsVia(c, w, cr, w', deed, w1, cr1);
      MaintainingIsAside(c, w, cr, w1, cr1, deed.at, deed.renewed, deed.urls);
      MaintainingInTime(c, w, cr, w1, cr1, deed.at, deed.renewed, deed.urls);
    } else {
      var w1: World, cr1: Cr, w2: World, outcome: SyncOutcome :|
        SynchronisesVia(c, w, cr, w', deed, w1, cr1, w2, outcome);
      MaintainingIsAside(c, w, cr, w1, cr1, deed.at, deed.renewed, deed.urls);
      MaintainingInTime(c, w, cr, w1, cr1, deed.at, deed.renewed, deed.urls);
    }
  }

  lemma MaintainingInTime(c: Settings, w: World, cr: Cr, w': World, cr': Cr, t: int, renewed: Option<Certificate>,
                          urls: Urls)
    requires cr.status.connection.Some? && Maintains(c, w, cr, w', cr', t, renewed, urls)
    ensures w.now <= t <= w'.now
  {
  }

  lemma MaintainedInTime(c: Settings, w: World, cr: Cr, w': World, deed: Deed)
    requires Reconciles(c, w, Some(cr), w', deed) && HasMaintained(deed)
    ensures w.now <= deed.at <= deed.checked <= w'.now
    ensures deed.MaintainedOnly? ==> IsTooSoon(c, cr, LastSynchronised(cr), deed.checked)
    ensures deed.Synchronised? ==> !IsTooSoon(c, cr, LastSynchronised(cr), deed.checked)
  {
    var w1 := MaintainedFrom(c, w, cr, w', deed);
    hide Reconciles, OnlyMaintains, Synchronises;
    SucceedingTakesTime(c, w1, cr, w', deed);
  }

  /** The last recorded attempt to synchronise applications was at `attempt`. */
  predicate IsRecorded(w: World, attempt: int) {
    w.cr.Some? && w.cr.value.status.sync.Some? && w.cr.value.status.sync.value.lastAttempt == attempt
  }

  predicate RecordsSync(step: Step) {
    step.Reconciled? && step.deed.Synchronised? && step.deed.persisted
  }

  lemma InitialisingKeepsRecord(w: World, w': World, attempt: int)
    requires Invariant(w) && Initialises(w, w') && IsRecorded(w, attempt)
    ensures IsRecorded(w', attempt)
  {
    if w.cr.value.HasFailed() && !Fails(w, w') {
      var w1: World, cr: Cr, ok: bool :| Establishes(w, w.cr.value, w1, cr) && Persists(w1, cr, w', ok, false);
      EstablishingIsAside(w, w.cr.value, w1, cr);
    }
  }

  lemma MaintenanceFailureKeepsRecord(w: World, cr: Cr, w': World, deed: Deed, attempt: int)
    requires Invariant(w) && WasRead(w, Some(cr)) && FailsMaintenance(w, cr, w', deed) && IsRecorded(w, attempt)
    ensures IsRecorded(w', attempt)
  {
    var w1: World, t: int :|
      FailsToPreserve(w, w1) && w.now <= t <= w1.now
      && Persists(w1, WithMaintenanceFailure(cr, t), w', deed.persisted, false);
    var k :| 0 <= k < |w.versions| && w.versions[k] == cr;
    assert deed.persisted ==> cr == w.cr.value;
  }

  /** An attempt that could not be written leaves the resource as it was. */
  lemma UnpersistedSyncKeepsRecord(c: Settings, w: World, cr: Cr, w': World, deed: Deed, attempt: int)
    requires Synchronises(c, w, cr, w', deed) && !deed.persisted && IsRecorded(w, attempt)
    ensures IsRecorded(w', attempt)
  {
    var w1: World, cr1: Cr, w2: World, outcome: SyncOutcome :|
      SynchronisesVia(c, w, cr, w', deed, w1, cr1, w2, outcome);
    MaintainingIsAside(c, w, cr, w1, cr1, deed.at, deed.renewed, deed.urls);
  }

  lemma MoveKeepsRecord(c: Settings, w: World, w': World, step: Step, attempt: int)
    requires Invariant(w) && Moves(c, w, w', step) && IsRecorded(w, attempt)
    requires !RecordsSync(step) && !step.Deleted?
    ensures IsRecorded(w', attempt)
  {
    if step.Started? {
      InitialisingKeepsRecord(w, w', attempt);
    } else if step.Reconciled? && step.read.None? {
      var w1: World :| TimePasses(w, w1) && Initialises(w1, w');
      AsideKeeps(w, w1);
      InitialisingKeepsRecord(w1, w', attempt);
    } else if step.Reconciled? && !(step.deed.Nothing? && TimePasses(w, w')) {
      ReconcilingKeepsRecord(c, w, step.read.value, w', step.deed, attempt);
    }
  }

  lemma ReconcilingKeepsRecord(c: Settings, w: World, cr: Cr, w': World, deed: Deed, attempt: int)
    requires Invariant(w) && WasRead(w, Some(cr)) && Reconciles(c, w, Some(cr), w', deed) && IsRecorded(w, attempt)
    requires !(deed.Nothing? && TimePasses(w, w')) && !(deed.Synchronised? && deed.persisted)
    ensures IsRecorded(w', attempt)
  {
    var w1: World :|
      TimePasses(w, w1) && !SkipsConnection(c, cr, w1.now)
      && if cr.HasFailed() then deed.Initialised? && Initialises(w1, w')
         else
           || FailsMaintenance(w1, cr, w', deed)
           || OnlyMaintains(c, w1, cr, w', deed)
           || Synchronises(c, w1, cr, w', deed);
    AsideKeeps(w, w1);
    if cr.HasFailed() {
      InitialisingKeepsRecord(w1, w', attempt);
    } else if FailsMaintenance(w1, cr, w', deed) {
      MaintenanceFailureKeepsRecord(w1, cr, w', deed, attempt);
    } else if Synchronises(c, w1, cr, w', deed) {
      UnpersistedSyncKeepsRecord(c, w1, cr, w', deed, attempt);
    } else {
      OnlyMaintainingIsAside(c, w1, cr, w', deed);
    }
  }

  /** Every exit of a synchronisation writes the time of its attempt. */
  lemma SyncIsRecorded(c: Settings, w: World, cr: Cr, w': World, deed: Deed)
    requires Synchronises(c, w, cr, w', deed) && deed.persisted
    ensures IsRecorded(w', deed.attempt)
  {
    var w1: World, cr1: Cr, w2: World, outcome: SyncOutcome :|
      SynchronisesVia(c, w, cr, w', deed, w1, cr1, w2, outcome);
    assert WithSync(cr1, deed.attempt, outcome).status.sync.Some?;
  }

  lemma SyncWaits(c: Settings, w: World, cr: Cr, w': World, deed: Deed, attempt: int)
    requires Synchronises(c, w, cr, w', deed) && !deed.forced
    requires cr.status.sync.Some? && cr.status.sync.value.lastAttempt == attempt
    ensures deed.checked - attempt >= WholeSeconds(c)
  {
    var w1: World, cr1: Cr, w2: World, outcome: SyncOutcome :|
      SynchronisesVia(c, w, cr, w', deed, w1, cr1, w2, outcome);
    MaintainingIsAside(c, w, cr, w1, cr1, deed.at, deed.renewed, deed.urls);
  }

  lemma ReconciledSyncs(c: Settings, w: World, cr: Cr, w': World, deed: Deed) returns (w1: World)
    requires Reconciles(c, w, Some(cr), w', deed) && deed.Synchronised?
    ensures Synchronises(c, w1, cr, w', deed)
  {
    w1 :| TimePasses(w, w1) && Synchronises(c, w1, cr, w', deed);
  }

  lemma MovedByReconciling(c: Settings, w: World, w': World, step: Step)
    requires Moves(c, w, w', step) && step.Reconciled?
    ensures Reconciles(c, w, step.read, w', step.deed)
  {
  }

  lemma {:induction false} RecordStays(c: Settings, ws: seq<World>, steps: seq<Step>, i: nat, k: nat)
    requires IsHistory(c, ws, steps) && IsInitial(ws[0])
    requires i < k < |ws| && RecordsSync(steps[i]) && steps[i].read.Some?
    requires forall l :: i < l < k ==> !RecordsSync(steps[l]) && !steps[l].Deleted?
    ensures IsRecorded(ws[k], steps[i].deed.attempt)
    decreases k
  {
    hide Moves, Reconciles, Invariant, Synchronises, IsRecorded, IsInitial;
    assert Moves(c, ws[k - 1], ws[k - 1 + 1], steps[k - 1]);
    if k == i + 1 {
      MovedByReconciling(c, ws[i], ws[k], steps[i]);
      var w1 := ReconciledSyncs(c, ws[i], steps[i].read.value, ws[k], steps[i].deed);
      SyncIsRecorded(c, w1, steps[i].read.value, ws[k], steps[i].deed);
    } else {
      RecordStays(c, ws, steps, i, k - 1);
      ReachableStates(c, ws, steps, k - 1);
      MoveKeepsRecord(c, ws[k - 1], ws[k], steps[k - 1], steps[i].deed.attempt);
    }
  }

  /**
   The rate limit over whole histories: a synchronisation of applications that nobody forced, and that read the resource
   as it stands, starts at least the whole seconds of the minimal time after the attempt that was recorded last,
   whatever happened in between - unless the resource was deleted.
   */
  lemma SynchronisationsAreLimited(c: Settings, ws: seq<World>, steps: seq<Step>, i: nat, j: nat)
    requires IsHistory(c, ws, steps) && IsInitial(ws[0]) && i < j < |steps|
    requires RecordsSync(steps[i]) && steps[i].read.Some?
    requires forall l :: i < l < j ==> !RecordsSync(steps[l]) && !steps[l].Deleted?
    requires steps[j].Reconciled? && steps[j].deed.Synchronised? && !steps[j].deed.forced
    requires steps[j].read.Some? && steps[j].read == ws[j].cr
    ensures steps[j].deed.checked - steps[i].deed.attempt >= WholeSeconds(c)
  {
    RecordStays(c, ws, steps, i, j);
    assert Moves(c, ws[j], ws[j + 1], steps[j]);
    var w1 := ReconciledSyncs(c, ws[j], steps[j].read.value, ws[j + 1], steps[j].deed);
    SyncWaits(c, w1, steps[j].read.value, ws[j + 1], steps[j].deed, steps[i].deed.attempt);
  }

  // ---------------------------------------------------------------- what a synchronisation leaves

  /**
   A synchronisation that is written tells by the state which of its calls failed, and by the times how far it came: the
   times of a fetch that failed are those from before, and the time of an application is there only if all went well. Of
   the specification only the request for a synchronisation goes, and only then.
   */
  lemma SyncShows(c: Settings, w: World, cr: Cr, w': World, deed: Deed)
    requires Synchronises(c, w, cr, w', deed) && deed.persisted
    ensures w.calls <= w'.calls && w'.cr.Some? && w'.cr.value.status.sync.Some?
    ensures var calls, state := w'.calls[|w.calls|..], w'.cr.value.status.state;
            && (state == SynchronizationFailed <==> calls == [Fetch(false)])
            && (state == ResourceApplicationFailed <==> calls == [Fetch(true), ApplyAll(false)])
            && (state == MetadataUpdateFailed <==> calls == [Fetch(true), ApplyAll(true), Label(false)])
            && (state == Synchronized <==> calls == [Fetch(true), ApplyAll(true), Label(true)])
            && state in {SynchronizationFailed, ResourceApplicationFailed, MetadataUpdateFailed, Synchronized}
    ensures var state, sync := w'.cr.value.status.state, w'.cr.value.status.sync.value;
            var former := if cr.status.sync.Some? then cr.status.sync.value else NO_SYNC;
            && sync.lastAttempt == deed.attempt
            && sync.lastFetch == (if state == SynchronizationFailed then former.lastFetch else deed.attempt)
            && sync.lastApplication == (if state == SynchronizationFailed then former.lastApplication
                                        else if state == Synchronized then deed.attempt else ZERO_TIME)
            && (sync.hasError <==> state != Synchronized)
    ensures w'.cr.value.spec.urls == cr.spec.urls
    ensures w'.cr.value.spec.resyncNow <==> cr.spec.resyncNow && w'.cr.value.status.state != Synchronized
    ensures deed.outcome.Done? <==> w'.cr.value.status.state == Synchronized
  {
    var w1: World, cr1: Cr, w2: World, outcome: SyncOutcome :|
      SynchronisesVia(c, w, cr, w', deed, w1, cr1, w2, outcome);
    MaintainingIsAside(c, w, cr, w1, cr1, deed.at, deed.renewed, deed.urls);
    MaintainingKeepsRest(c, w, cr, w1, cr1, deed.at, deed.renewed, deed.urls);
    assert (w1.calls + CallsOf(outcome))[|w1.calls|..] == CallsOf(outcome);
    WrittenOutcome(cr1, deed.attempt, outcome);
  }

  lemma MaintainingKeepsRest(c: Settings, w: World, cr: Cr, w': World, cr': Cr, t: int, renewed: Option<Certificate>,
                             urls: Urls)
    requires cr.status.connection.Some? && Maintains(c, w, cr, w', cr', t, renewed, urls)
    ensures w'.calls == w.calls && cr'.spec.urls == cr.spec.urls && cr'.spec.resyncNow == cr.spec.resyncNow
  {
    assert w' == Refreshed(w, cr, renewed, urls).(now := w'.now) && cr' == Maintained(cr, t, renewed);
  }

  lemma WrittenOutcome(cr: Cr, t: int, outcome: SyncOutcome)
    ensures var cr' := WithSync(cr, t, outcome);
            && cr'.status.sync.Some? && cr'.spec.urls == cr.spec.urls
            && (cr'.spec.resyncNow <==> cr.spec.resyncNow && !outcome.Done?)
            && (match outcome
                case NotFetched =>
                  var former := if cr.status.sync.Some? then cr.status.sync.value else NO_SYNC;
                  && cr'.status.state == SynchronizationFailed
                  && cr'.status.sync.value == former.(lastAttempt := t, hasError := true)
                case NotApplied =>
                  && cr'.status.state == ResourceApplicationFailed
                  && cr'.status.sync.value == SyncStatus(t, t, ZERO_TIME, true)
                case NotLabelled =>
                  && cr'.status.state == MetadataUpdateFailed
                  && cr'.status.sync.value == SyncStatus(t, t, ZERO_TIME, true)
                case Done =>
                  cr'.status.state == Synchronized && cr'.status.sync.value == SyncStatus(t, t, t, false))
  {
  }

  predicate CompletesSync(step: Step) {
    RecordsSync(step) && step.read.Some? && step.deed.outcome.Done?
  }

  lemma InitialisingKeepsRequest(w: World, w': World)
    requires w.cr.Some? && Initialises(w, w')
    ensures w'.cr.Some? && w'.cr.value.spec.resyncNow == w.cr.value.spec.resyncNow
  {
    if w.cr.value.HasFailed() && !Fails(w, w') {
      var w1: World, cr: Cr, ok: bool :| Establishes(w, w.cr.value, w1, cr) && Persists(w1, cr, w', ok, false);
      EstablishingIsAside(w, w.cr.value, w1, cr);
      EstablishingKeepsRequest(w, w.cr.value, w1, cr);
    }
  }

  lemma EstablishingKeepsRequest(w: World, cr: Cr, w': World, cr': Cr)
    requires Establishes(w, cr, w', cr')
    ensures cr'.spec.resyncNow == cr.spec.resyncNow
  {
  }

  lemma FailureKeepsRequest(w: World, cr: Cr, w': World, deed: Deed)
    requires Invariant(w) && WasRead(w, Some(cr)) && FailsMaintenance(w, cr, w', deed) && w.cr.Some?
    ensures w'.cr.Some? && w'.cr.value.spec.resyncNow == w.cr.value.spec.resyncNow
  {
    var w1: World, t: int :|
      FailsToPreserve(w, w1) && w.now <= t <= w1.now
      && Persists(w1, WithMaintenanceFailure(cr, t), w', deed.persisted, false);
    var k :| 0 <= k < |w.versions| && w.versions[k] == cr;
    assert deed.persisted ==> cr == w.cr.value;
  }

  lemma SyncKeepsRequest(c: Settings, w: World, cr: Cr, w': World, deed: Deed)
    requires Invariant(w) && WasRead(w, Some(cr)) && Synchronises(c, w, cr, w', deed) && w.cr.Some?
    ensures w'.cr.Some?
    ensures w'.cr.value.spec.resyncNow <==> w.cr.value.spec.resyncNow && !(deed.persisted && deed.outcome.Done?)
  {
    if deed.persisted {
      PersistedIsCurrent(c, w, cr, w', deed);
      SyncShows(c, w, cr, w', deed);
    } else {
      SynchronisingShows(c, w, cr, w', deed);
    }
  }

  lemma PersistedIsCurrent(c: Settings, w: World, cr: Cr, w': World, deed: Deed)
    requires Invariant(w) && WasRead(w, Some(cr)) && Synchronises(c, w, cr, w', deed) && deed.persisted
    ensures w.cr == Some(cr)
  {
    var w1: World, cr1: Cr, w2: World, outcome: SyncOutcome :|
      SynchronisesVia(c, w, cr, w', deed, w1, cr1, w2, outcome);
    MaintainingIsAside(c, w, cr, w1, cr1, deed.at, deed.renewed, deed.urls);
    var k :| 0 <= k < |w.versions| && w.versions[k] == cr;
    SyncKeepsVersion(cr1, deed.attempt, outcome);
  }

  lemma SyncKeepsVersion(cr: Cr, t: int, outcome: SyncOutcome)
    ensures WithSync(cr, t, outcome).version == cr.version
  {
  }

  /** A request for a synchronisation goes with the next one that is written and went well, and with no other step. */
  lemma MoveKeepsRequest(c: Settings, w: World, w': World, step: Step)
    requires Invariant(w) && Moves(c, w, w', step) && w.cr.Some? && !step.Edited? && !step.Deleted?
    ensures w'.cr.Some?
    ensures w'.cr.value.spec.resyncNow <==> w.cr.value.spec.resyncNow && !CompletesSync(step)
  {
    if step.Started? {
      InitialisingKeepsRequest(w, w');
    } else if step.Reconciled? && step.read.None? {
      var w1: World :| TimePasses(w, w1) && Initialises(w1, w');
      InitialisingKeepsRequest(w1, w');
    } else if step.Reconciled? && !(step.deed.Nothing? && TimePasses(w, w')) {
      ReconcilingKeepsRequest(c, w, step.read.value, w', step.deed);
    }
  }

  lemma ReconcilingKeepsRequest(c: Settings, w: World, cr: Cr, w': World, deed: Deed)
    requires Invariant(w) && WasRead(w, Some(cr)) && Reconciles(c, w, Some(cr), w', deed) && w.cr.Some?
    requires !(deed.Nothing? && TimePasses(w, w'))
    ensures w'.cr.Some?
    ensures w'.cr.value.spec.resyncNow
            <==> w.cr.value.spec.resyncNow && !(deed.Synchronised? && deed.persisted && deed.outcome.Done?)
  {
    var w1: World :|
      TimePasses(w, w1) && !SkipsConnection(c, cr, w1.now)
      && if cr.HasFailed() then deed.Initialised? && Initialises(w1, w')
         else
           || FailsMaintenance(w1, cr, w', deed)
           || OnlyMaintains(c, w1, cr, w', deed)
           || Synchronises(c, w1, cr, w', deed);
    AsideKeeps(w, w1);
    hide Initialises, FailsMaintenance, OnlyMaintains, Synchronises, Invariant, SkipsConnection;
    assert WasRead(w1, Some(cr));
    if cr.HasFailed() {
      InitialisingKeepsRequest(w1, w');
    } else if FailsMaintenance(w1, cr, w', deed) {
      FailureKeepsRequest(w1, cr, w', deed);
      FailedDeed(w1, cr, w', deed);
    } else if Synchronises(c, w1, cr, w', deed) {
      SyncKeepsRequest(c, w1, cr, w', deed);
      KindOfDeed(c, w1, cr, w', deed);
    } else {
      OnlyMaintainingIsAside(c, w1, cr, w', deed);
      KindOfDeed(c, w1, cr, w', deed);
    }
  }

  lemma FailedDeed(w: World, cr: Cr, w': World, deed: Deed)
    requires FailsMaintenance(w, cr, w', deed)
    ensures deed.MaintenanceFailed?
  {
  }

  /**
   Over whole histories: as long as no user edits the resource or deletes it, a request for a synchronisation that
   stands goes on standing exactly until one that went well is written.
   */
  lemma {:induction false} RequestStands(c: Settings, ws: seq<World>, steps: seq<Step>, i: nat, k: nat)
    requires IsHistory(c, ws, steps) && IsInitial(ws[0]) && i <= k < |ws| && ws[i].cr.Some?
    requires forall l :: i <= l < k ==> !steps[l].Edited? && !steps[l].Deleted?
    ensures ws[k].cr.Some?
    ensures ws[k].cr.value.spec.resyncNow
            <==> ws[i].cr.value.spec.resyncNow && forall l :: i <= l < k ==> !CompletesSync(steps[l])
    decreases k
  {
    hide Moves, Invariant, IsInitial, CompletesSync;
    if i < k {
      RequestStands(c, ws, steps, i, k - 1);
      ReachableStates(c, ws, steps, k - 1);
      assert Moves(c, ws[k - 1], ws[k - 1 + 1], steps[k - 1]);
      MoveKeepsRequest(c, ws[k - 1], ws[k], steps[k - 1]);
    }
  }

  /**
   So a request forces synchronisations only until one of them went well: after that no synchronisation of the
   resource as it stands is forced, until a user asks again, and the limits hold once more.
   */
  lemma ForcedUntilDone(c: Settings, ws: seq<World>, steps: seq<Step>, i: nat, j: nat)
    requires IsHistory(c, ws, steps) && IsInitial(ws[0]) && i < j < |steps|
    requires CompletesSync(steps[i]) && forall l :: i < l < j ==> !steps[l].Edited? && !steps[l].Deleted?
    requires steps[j].Reconciled? && steps[j].deed.Synchronised?
    requires steps[j].read.Some? && steps[j].read == ws[j].cr
    ensures !steps[j].deed.forced
  {
    assert Moves(c, ws[i], ws[i + 1], steps[i]) && Moves(c, ws[j], ws[j + 1], steps[j]);
    hide Moves, Reconciles, Invariant, IsInitial, Synchronises;
    ReachableStates(c, ws, steps, i);
    MovedByReconciling(c, ws[i], ws[i + 1], steps[i]);
    var w0 := ReconciledSyncs(c, ws[i], steps[i].read.value, ws[i + 1], steps[i].deed);
    SyncShows(c, w0, steps[i].read.value, ws[i + 1], steps[i].deed);
    RequestStands(c, ws, steps, i + 1, j);
    MovedByReconciling(c, ws[j], ws[j + 1], steps[j]);
    var w1 := ReconciledSyncs(c, ws[j], steps[j].read.value, ws[j + 1], steps[j].deed);
    ForcedByRequest(c, w1, steps[j].read.value, ws[j + 1], steps[j].deed);
  }

  lemma ForcedByRequest(c: Settings, w: World, cr: Cr, w': World, deed: Deed)
    requires Synchronises(c, w, cr, w', deed)
    ensures deed.forced <==> cr.spec.resyncNow
  {
  }

  // ---------------------------------------------------------------- what is lost

  /** The resource was written, and shows the maintenance at `t` with the renewed credentials, if there were any. */
  ghost predicate ShowsMaintenance(w: World, w': World, t: int, renewed: Option<Certificate>) {
    && w'.cr.Some? && w'.versions == w.versions + [w'.cr.value]
    && w'.cr.value.status.connection.Some?
    && var connection := w'.cr.value.status.connection.value;
       && connection.lastSync == t && connection.lastSuccess == t
       && (renewed.Some? ==>
             && connection.certificate == CertificateStatus(t, renewed.value.notBefore, renewed.value.notAfter)
             && connection.renewed == t && !w'.cr.value.spec.refreshNow)
  }

  predicate HasMaintained(deed: Deed) {
    deed.MaintainedOnly? || deed.Synchronised?
  }

  /**
   Every successful maintenance leaves the resource written and showing it exactly when the applications are not skipped
   and the write at the end of their synchronisation succeeds, which it does on the current version unless a call fails.
   Renewed credentials are stored in any case, so that otherwise the resource keeps speaking of the old certificate.
   */
  lemma MaintenanceIsShown(c: Settings, w: World, cr: Cr, w': World, deed: Deed)
    requires Reconciles(c, w, Some(cr), w', deed) && HasMaintained(deed)
    ensures ShowsMaintenance(w, w', deed.at, deed.renewed)
            <==> !SkipsApplications(c, cr, deed.checked) && deed.Synchronised? && deed.persisted
    ensures deed.Synchronised? <==> !SkipsApplications(c, cr, deed.checked)
    ensures IsCurrent(w, cr) && w'.failures == w.failures ==>
              (ShowsMaintenance(w, w', deed.at, deed.renewed) <==> !SkipsApplications(c, cr, deed.checked))
    ensures !ShowsMaintenance(w, w', deed.at, deed.renewed) ==> w'.cr == w.cr && w'.versions == w.versions
    ensures deed.renewed.Some? ==> w'.secret == deed.renewed && w'.preserved == w.preserved + [deed.renewed.value]
  {
    var w1 := MaintainedFrom(c, w, cr, w', deed);
    hide Reconciles, OnlyMaintains, Synchronises, SkipsApplications;
    if deed.MaintainedOnly? {
      MaintenanceIsLost(c, w1, cr, w', deed);
    } else {
      SynchronisingShows(c, w1, cr, w', deed);
    }
  }

  /**
   When the applications are skipped, a maintenance leaves no trace in the resource, although renewed credentials were
   stored, and a renewal that was asked for is asked for again at once.
   */
  lemma MaintenanceIsLost(c: Settings, w: World, cr: Cr, w': World, deed: Deed)
    requires OnlyMaintains(c, w, cr, w', deed)
    ensures w'.cr == w.cr && w'.versions == w.versions && w'.failures == w.failures
    ensures SkipsApplications(c, cr, deed.checked)
    ensures deed.renewed.Some? ==> w'.secret == deed.renewed && w'.preserved == w.preserved + [deed.renewed.value]
    ensures cr.spec.refreshNow ==> deed.renewed.Some? && forall now: int :: ShouldRenew(cr, c, now)
  {
    var w1: World, cr1: Cr :| OnlyMaintainsVia(c, w, cr, w', deed, w1, cr1);
    MaintainingIsAside(c, w, cr, w1, cr1, deed.at, deed.renewed, deed.urls);
  }

  lemma MaintainedFrom(c: Settings, w: World, cr: Cr, w': World, deed: Deed) returns (w1: World)
    requires Reconciles(c, w, Some(cr), w', deed) && HasMaintained(deed)
    ensures TimePasses(w, w1)
    ensures if deed.MaintainedOnly? then OnlyMaintains(c, w1, cr, w', deed) else Synchronises(c, w1, cr, w', deed)
  {
    hide OnlyMaintains, Synchronises, SkipsConnection;
    w1 :| TimePasses(w, w1) && (OnlyMaintains(c, w1, cr, w', deed) || Synchronises(c, w1, cr, w', deed));
    KindOfDeed(c, w1, cr, w', deed);
  }

  lemma KindOfDeed(c: Settings, w: World, cr: Cr, w': World, deed: Deed)
    ensures OnlyMaintains(c, w, cr, w', deed) ==> deed.MaintainedOnly?
    ensures Synchronises(c, w, cr, w', deed) ==> deed.Synchronised?
  {
  }

  lemma SynchronisingShows(c: Settings, w: World, cr: Cr, w': World, deed: Deed)
    requires Synchronises(c, w, cr, w', deed)
    ensures ShowsMaintenance(w, w', deed.at, deed.renewed) <==> deed.persisted
    ensures !SkipsApplications(c, cr, deed.checked)
    ensures IsCurrent(w, cr) && w'.failures == w.failures ==> deed.persisted
    ensures !deed.persisted ==> w'.cr == w.cr && w'.versions == w.versions
    ensures deed.renewed.Some? ==> w'.secret == deed.renewed && w'.preserved == w.preserved + [deed.renewed.value]
  {
    var w1: World, cr1: Cr, w2: World, outcome: SyncOutcome :|
      SynchronisesVia(c, w, cr, w', deed, w1, cr1, w2, outcome);
    MaintainingIsAside(c, w, cr, w1, cr1, deed.at, deed.renewed, deed.urls);
    MaintainingShows(c, w, cr, w1, cr1, deed.at, deed.renewed, deed.urls);
    SyncKeepsConnection(cr1, deed.attempt, outcome);
  }

  lemma MaintainingShows(c: Settings, w: World, cr: Cr, w': World, cr': Cr, t: int, renewed: Option<Certificate>,
                         urls: Urls)
    requires cr.status.connection.Some? && Maintains(c, w, cr, w', cr', t, renewed, urls)
    ensures cr'.status.connection.Some?
    ensures var connection := cr'.status.connection.value;
            && connection.lastSync == t && connection.lastSuccess == t
            && (renewed.Some? ==>
                  && connection.certificate == CertificateStatus(t, renewed.value.notBefore, renewed.value.notAfter)
                  && connection.renewed == t && !cr'.spec.refreshNow)
  {
    assert cr' == Maintained(cr, t, renewed);
    MaintainedKeeps(cr, t, renewed);
  }

  lemma SyncKeepsConnection(cr: Cr, t: int, outcome: SyncOutcome)
    ensures var cr' := WithSync(cr, t, outcome);
            cr'.status.connection == cr.status.connection && cr'.spec.refreshNow == cr.spec.refreshNow
  {
  }

  /**
   A maintenance that fails leaves credentials, authority and cache alone, or stores the client certificate alone, which
   neither the cache nor the resource then shows; the resource is written, if at all, with the certificate it had and
   with the request for a renewal still standing.
   */
  lemma FailedMaintenanceShows(w: World, cr: Cr, w': World, deed: Deed)
    requires FailsMaintenance(w, cr, w', deed) && cr.status.connection.Some?
    ensures w'.cache == w.cache && w'.authority == w.authority && w.failures < w'.failures
    ensures || (w'.preserved == w.preserved && w'.secret == w.secret)
            || (exists certificate: Certificate ::
                  w'.secret == Some(certificate) && w'.preserved == w.preserved + [certificate])
    ensures if deed.persisted
            then && w'.cr.Some? && w'.versions == w.versions + [w'.cr.value]
                 && w'.cr.value.status.state.ConnectionMaintenanceFailed? && w'.cr.value.spec == cr.spec
                 && w'.cr.value.status.connection.Some? && w'.cr.value.status.connection.value.hasError
                 && w.now <= w'.cr.value.status.connection.value.lastSync <= w'.now
                 && w'.cr.value.status.connection.value.certificate == cr.status.connection.value.certificate
            else w'.cr == w.cr && w'.versions == w.versions
  {
    var w1: World, t: int :|
      FailsToPreserve(w, w1) && w.now <= t <= w1.now
      && Persists(w1, WithMaintenanceFailure(cr, t), w', deed.persisted, false);
    if !Fails(w, w1) {
      var certificate: Certificate :| Fails(HalfPreserved(w, certificate), w1);
      assert w'.secret == Some(certificate);
    }
  }

  /**
   Only the authority's secret is looked for: while it is there, a client certificate that is missing comes back with a
   maintenance when the renewal is due at its start, and not when it is not due at its end.
   */
  lemma MissingCertificateWaits(c: Settings, w: World, cr: Cr, w': World, cr': Cr, t: int, renewed: Option<Certificate>,
                                urls: Urls)
    requires cr.status.connection.Some? && Maintains(c, w, cr, w', cr', t, renewed, urls)
    requires w.secret.None? && w.authority
    ensures ShouldRenew(cr, c, w.now) ==> w'.secret.Some?
    ensures w'.secret.Some? ==> ShouldRenew(cr, c, t)
  {
    var checked: int :|
      && w.now <= checked <= t <= w'.now
      && (renewed.Some? <==> ShouldRenew(cr, c, checked) || !w.authority)
      && w' == Refreshed(w, cr, renewed, urls).(now := w'.now)
      && cr' == Maintained(cr, t, renewed);
    RefreshedKeeps(w, cr, renewed, urls);
  }

  // A history in which new credentials are stored and the resource keeps the old certificate.

  const SETTINGS := Settings(0.0, 10.0)
  const URLS := Urls("director", "connector")
  const FIRST := Certificate(0, 1000000, 1)
  const SECOND := Certificate(200, 2000000, 2)

  function Nowhere(): World {
    World(None, [], None, false, [], [], Cache(None, NO_URLS), [], [], 100, 0)
  }

  function ConnectedCr(): Cr {
    WithConnection(EMPTY, 100, FIRST, URLS)
  }

  function ConnectedWorld(): World {
    Stored(Preserved(Nowhere(), FIRST, URLS), ConnectedCr())
  }

  function SynchronisedCr(): Cr {
    ReportedCr(ConnectedCr(), 200)
  }

  function SynchronisedWorld(): World {
    Reported(ConnectedWorld(), ConnectedCr(), URLS, 200)
  }

  /** The user asks for a renewal. */
  function RequestedCr(): Cr {
    SynchronisedCr().(spec := SynchronisedCr().spec.(refreshNow := true), version := 2)
  }

  function RequestedWorld(): World {
    SynchronisedWorld().(cr := Some(RequestedCr()), versions := SynchronisedWorld().versions + [RequestedCr()])
  }

  function RenewedWorld(): World {
    Preserved(RequestedWorld().(now := 211), SECOND, URLS)
  }

  lemma ConnectsFirst()
    ensures Initialises(Nowhere(), ConnectedWorld())
  {
    var w1 := Preserved(Nowhere(), FIRST, URLS);
    assert w1 == w1.(now := w1.now);
    assert Establishes(Nowhere(), EMPTY, w1, ConnectedCr());
    assert Persists(w1, ConnectedCr(), ConnectedWorld(), true, true);
  }

  lemma ThenSynchronises()
    ensures Reconciles(SETTINGS, ConnectedWorld(), Some(ConnectedCr()), SynchronisedWorld(), ReportedDeed(URLS, 200))
  {
    ConnectedShows();
    hide ConnectedWorld, ConnectedCr;
    Reports(ConnectedWorld(), ConnectedCr(), URLS, 200);
  }

  lemma ThenLosesTheRenewal()
    ensures Reconciles(SETTINGS, RequestedWorld(), Some(RequestedCr()), RenewedWorld(),
                       MaintainedOnly(211, Some(SECOND), URLS, 211))
  {
    var cr, deed := RequestedCr(), MaintainedOnly(211, Some(SECOND), URLS, 211);
    var w1 := RequestedWorld().(now := 211);
    assert RenewedWorld() == Refreshed(w1, cr, Some(SECOND), URLS).(now := 211);
    assert ShouldRenew(cr, SETTINGS, 211);
    assert Maintains(SETTINGS, w1, cr, RenewedWorld(), Maintained(cr, 211, Some(SECOND)), 211, Some(SECOND), URLS);
    assert OnlyMaintainsVia(SETTINGS, w1, cr, RenewedWorld(), deed, RenewedWorld(), Maintained(cr, 211, Some(SECOND)));
    assert TimePasses(RequestedWorld(), w1) && OnlyMaintains(SETTINGS, w1, cr, RenewedWorld(), deed);
  }

  const SYNCHRONISED := Reconciled(Some(ConnectedCr()), ReportedDeed(URLS, 200))
  const LOST := Reconciled(Some(RequestedCr()), MaintainedOnly(211, Some(SECOND), URLS, 211))

  lemma LossSteps()
    ensures Moves(SETTINGS, Nowhere(), ConnectedWorld(), Started)
    ensures Moves(SETTINGS, ConnectedWorld(), SynchronisedWorld(), SYNCHRONISED)
    ensures Moves(SETTINGS, SynchronisedWorld(), RequestedWorld(), Edited)
    ensures Moves(SETTINGS, RequestedWorld(), RenewedWorld(), LOST)
  {
    ConnectsFirst();
    ThenSynchronises();
    ThenLosesTheRenewal();
    hide Initialises, Reconciles;
    assert ConnectedWorld().versions[0] == ConnectedCr();
    assert RequestedWorld().versions[2] == RequestedCr();
    assert |SynchronisedWorld().versions| == 2;
  }

  lemma LossShows()
    ensures IsInitial(Nowhere()) && RenewedWorld().secret == Some(SECOND)
    ensures RenewedWorld().cr == RequestedWorld().cr && RequestedWorld().cr == Some(RequestedCr())
    ensures RequestedCr().status.connection.Some?
            && RequestedCr().status.connection.value.certificate
               == CertificateStatus(100, FIRST.notBefore, FIRST.notAfter)
  {
  }

  /** The loss is reached: the secret holds the second certificate, the resource shows the first. */
  lemma LossIsReached()
    ensures exists ws: seq<World>, steps: seq<Step> ::
              && IsHistory(SETTINGS, ws, steps) && IsInitial(ws[0]) && |steps| == 4
              && steps[3].Reconciled? && steps[3].deed == MaintainedOnly(211, Some(SECOND), URLS, 211)
              && ws[4].secret == Some(SECOND) && ws[4].cr == ws[3].cr && ws[4].cr.Some?
              && ws[4].cr.value.status.connection.Some?
              && ws[4].cr.value.status.connection.value.certificate
                 == CertificateStatus(100, FIRST.notBefore, FIRST.notAfter)
  {
    LossSteps();
    LossShows();
    hide Moves, Nowhere, ConnectedWorld, SynchronisedWorld, RequestedWorld, RenewedWorld, ConnectedCr, RequestedCr;
    var ws := [Nowhere(), ConnectedWorld(), SynchronisedWorld(), RequestedWorld(), RenewedWorld()];
    var steps := [Started, SYNCHRONISED, Edited, LOST];
    forall k | 0 <= k < |steps|
      ensures Moves(SETTINGS, ws[k], ws[k + 1], steps[k])
    {
      assert k == 0 || k == 1 || k == 2 || k == 3;
    }
    assert IsHistory(SETTINGS, ws, steps);
  }

  // ---------------------------------------------------------------- reported URLs

  /** The URLs in the cache after a successful maintenance. */
  lemma MaintenanceCaches(c: Settings, w: World, cr: Cr, w': World, deed: Deed)
    requires Reconciles(c, w, Some(cr), w', deed) && HasMaintained(deed)
    ensures w'.cache.urls == if deed.renewed.Some? || cr.spec.urls != deed.urls then deed.urls else w.cache.urls
  {
    var w1 := MaintainedFrom(c, w, cr, w', deed);
    hide Reconciles;
    if deed.MaintainedOnly? {
      var w2: World, cr1: Cr :| OnlyMaintainsVia(c, w1, cr, w', deed, w2, cr1);
      MaintainingIsAside(c, w1, cr, w2, cr1, deed.at, deed.renewed, deed.urls);
    } else {
      var w2: World, cr1: Cr, w3: World, outcome: SyncOutcome :|
        SynchronisesVia(c, w1, cr, w', deed, w2, cr1, w3, outcome);
      MaintainingIsAside(c, w1, cr, w2, cr1, deed.at, deed.renewed, deed.urls);
    }
  }

  predicate Maintaining(step: Step) {
    step.Reconciled? && step.read.Some? && HasMaintained(step.deed)
  }

  /**
   In every history: after a maintenance the cache has the URLs that were reported exactly when the credentials were
   renewed, or the URLs differ from those of the resource, or the cache had them before.
   */
  lemma CachedUrls(c: Settings, ws: seq<World>, steps: seq<Step>, k: nat)
    requires IsHistory(c, ws, steps) && k < |steps| && Maintaining(steps[k])
    ensures var deed := steps[k].deed;
            ws[k + 1].cache.urls == deed.urls
            <==> deed.renewed.Some? || steps[k].read.value.spec.urls != deed.urls || ws[k].cache.urls == deed.urls
  {
    assert Moves(c, ws[k], ws[k + 1], steps[k]);
    MaintenanceCaches(c, ws[k], steps[k].read.value, ws[k + 1], steps[k].deed);
  }

  /**
   Users write, time is too short, a maintenance fails, or it is told the URLs of the resource and renews nothing: none
   of this reaches the URLs in the cache.
   */
  predicate LeavesUrls(step: Step) {
    || step.Edited? || step.Deleted?
    || (step.Reconciled? && step.read.Some?
        && (step.deed.Nothing? || step.deed.MaintenanceFailed?
            || (HasMaintained(step.deed) && step.deed.renewed.None? && step.deed.urls == step.read.value.spec.urls)))
  }

  lemma FailureKeepsCache(c: Settings, w: World, cr: Cr, w': World, deed: Deed)
    requires Reconciles(c, w, Some(cr), w', deed) && (deed.Nothing? || deed.MaintenanceFailed?)
    ensures w'.cache == w.cache
  {
    hide SkipsConnection;
    if !TimePasses(w, w') {
      var w1: World :| TimePasses(w, w1) && FailsMaintenance(w1, cr, w', deed);
    }
  }

  lemma UrlsStay(c: Settings, w: World, w': World, step: Step)
    requires Moves(c, w, w', step) && LeavesUrls(step)
    ensures w'.cache.urls == w.cache.urls
  {
    hide Reconciles;
    if step.Reconciled? {
      if HasMaintained(step.deed) {
        MaintenanceCaches(c, w, step.read.value, w', step.deed);
      } else {
        FailureKeepsCache(c, w, step.read.value, w', step.deed);
      }
    }
  }

  /**
   URLs that change and change back are missed: once a maintenance cached URLs other than those of the resource, these
   stay in the cache however often the URLs of the resource are reported again.
   */
  lemma {:induction false} RevertedUrlsAreMissed(c: Settings, ws: seq<World>, steps: seq<Step>, i: nat, k: nat)
    requires IsHistory(c, ws, steps) && i < k < |ws|
    requires Maintaining(steps[i]) && steps[i].deed.urls != steps[i].read.value.spec.urls
    requires forall l :: i < l < k ==> LeavesUrls(steps[l])
    ensures ws[k].cache.urls == steps[i].deed.urls
    decreases k
  {
    hide Moves, LeavesUrls;
    if k == i + 1 {
      CachedUrls(c, ws, steps, i);
    } else {
      RevertedUrlsAreMissed(c, ws, steps, i, k - 1);
      assert Moves(c, ws[k - 1], ws[k - 1 + 1], steps[k - 1]);
      UrlsStay(c, ws[k - 1], ws[k], steps[k - 1]);
    }
  }

  // A history in which the URLs change and change back.

  const OTHER := Urls("elsewhere", "connector")

  function ReportedDeed(urls: Urls, t: int): Deed {
    Deed.Synchronised(t, None, urls, t, t + 5, Done, false, true)
  }

  function ReportedCr(cr: Cr, t: int): Cr
    requires cr.status.connection.Some?
  {
    WithSync(Maintained(cr, t, None), t + 5, Done)
  }

  /** After a reconciliation at `t` to which `urls` are reported. */
  function Reported(w: World, cr: Cr, urls: Urls, t: int): World
    requires cr.status.connection.Some?
  {
    Stored(Refreshed(w, cr, None, urls).(now := t + 5, calls := w.calls + CallsOf(Done)), ReportedCr(cr, t))
  }

  lemma Reports(w: World, cr: Cr, urls: Urls, t: int)
    requires w.cr == Some(cr) && w.authority && w.now <= t && cr.status.connection.Some? && !cr.HasFailed()
    requires !cr.spec.resyncNow && !ShouldRenew(cr, SETTINGS, t) && !SkipsConnection(SETTINGS, cr, t)
    requires !SkipsApplications(SETTINGS, cr, t)
    ensures Reconciles(SETTINGS, w, Some(cr), Reported(w, cr, urls, t), ReportedDeed(urls, t))
  {
    hide ShouldRenew;
    var deed, cr1 := ReportedDeed(urls, t), Maintained(cr, t, None);
    var w1, w2 := w.(now := t), Refreshed(w, cr, None, urls).(now := t);
    assert w2 == Refreshed(w1, cr, None, urls).(now := t);
    assert Maintains(SETTINGS, w1, cr, w2, cr1, t, None, urls);
    var w3 := w2.(now := t + 5, calls := w2.calls + CallsOf(Done));
    assert SynchronisesVia(SETTINGS, w1, cr, Reported(w, cr, urls, t), deed, w2, cr1, w3, Done);
    assert TimePasses(w, w1) && Synchronises(SETTINGS, w1, cr, Reported(w, cr, urls, t), deed);
  }

  function ChangedWorld(): World {
    Reported(ConnectedWorld(), ConnectedCr(), OTHER, 200)
  }

  function ChangedCr(): Cr {
    ReportedCr(ConnectedCr(), 200).(version := 1)
  }

  function ChangedBackWorld(): World {
    Reported(ChangedWorld(), ChangedCr(), URLS, 300)
  }

  const CHANGED := Reconciled(Some(ConnectedCr()), ReportedDeed(OTHER, 200))
  const CHANGED_BACK := Reconciled(Some(ChangedCr()), ReportedDeed(URLS, 300))

  lemma ConnectedShows()
    ensures var w := ConnectedWorld(); var cr := ConnectedCr();
            && w.cr == Some(cr) && w.authority && w.now == 100 && w.versions == [cr] && w.cache.urls == URLS
            && cr.version == 0 && !cr.HasFailed() && cr.spec == Spec(URLS, false, false) && cr.status.sync.None?
            && cr.status.connection == Some(Certified(Established(100), 100, FIRST))
  {
  }

  lemma ChangedShows()
    ensures var w := ChangedWorld(); var cr := ChangedCr();
            && w.cr == Some(cr) && w.authority && w.now == 205 && w.versions == [ConnectedCr(), cr]
            && w.cache.urls == OTHER
            && !cr.HasFailed() && cr.spec == Spec(URLS, false, false)
            && cr.status.sync == Some(SyncStatus(205, 205, 205, false))
            && cr.status.connection.Some? && cr.status.connection.value.lastSync == 200
            && cr.status.connection.value.certificate == CertificateStatus(100, FIRST.notBefore, FIRST.notAfter)
  {
    ConnectedShows();
    hide ConnectedWorld, ConnectedCr;
  }

  lemma ReversalSteps()
    ensures Moves(SETTINGS, ConnectedWorld(), ChangedWorld(), CHANGED)
    ensures Moves(SETTINGS, ChangedWorld(), ChangedBackWorld(), CHANGED_BACK)
  {
    hide Reconciles, Reported, ConnectedWorld, ConnectedCr;
    ConnectedShows();
    Reports(ConnectedWorld(), ConnectedCr(), OTHER, 200);
    assert ConnectedWorld().versions[0] == ConnectedCr();
    hide ChangedCr;
    ChangedShows();
    Reports(ChangedWorld(), ChangedCr(), URLS, 300);
    assert ChangedWorld().versions[1] == ChangedCr();
  }

  lemma ReversalBegins()
    ensures Moves(SETTINGS, Nowhere(), ConnectedWorld(), Started)
  {
    hide Initialises, Nowhere, ConnectedWorld;
    ConnectsFirst();
  }

  lemma ReversalShows()
    ensures var w := ChangedBackWorld();
            IsInitial(Nowhere()) && w.cr.Some? && w.cr.value.spec.urls == URLS && w.cache.urls == OTHER
  {
    ChangedShows();
    hide ChangedWorld, ChangedCr;
  }

  /** The reversal is reached: resource and report agree on the URLs, and the cache has others. */
  lemma ReversalIsReached()
    ensures exists ws: seq<World>, steps: seq<Step> ::
              && IsHistory(SETTINGS, ws, steps) && IsInitial(ws[0]) && |steps| == 3
              && Maintaining(steps[2]) && ws[3].cr.Some?
              && ws[3].cr.value.spec.urls == steps[2].deed.urls && ws[3].cache.urls != steps[2].deed.urls
  {
    hide Moves, Nowhere, ConnectedWorld, ChangedWorld, ChangedBackWorld, ConnectedCr, ChangedCr;
    ReversalBegins();
    ReversalSteps();
    ReversalShows();
    var ws := [Nowhere(), ConnectedWorld(), ChangedWorld(), ChangedBackWorld()];
    var steps := [Started, CHANGED, CHANGED_BACK];
    forall k | 0 <= k < |steps|
      ensures Moves(SETTINGS, ws[k], ws[k + 1], steps[k])
    {
      assert k == 0 || k == 1 || k == 2;
    }
    assert IsHistory(SETTINGS, ws, steps);
  }

  // ---------------------------------------------------------------- renewal in time

  /** The last part of the validity, in which the certificate is renewed. */
  function RenewalWindow(c: Settings, notBefore: int, notAfter: int): real {
    var share := (notAfter - notBefore) as real * c.threshold;
    if share < 2.0 * c.minimalTime then 2.0 * c.minimalTime else share
  }

  lemma DueInWindow(c: Settings, notBefore: int, notAfter: int, now: int)
    ensures IsDue(c, notBefore, notAfter, now) <==> (notAfter - now) as real < RenewalWindow(c, notBefore, notAfter)
  {
  }

  /** Checks that start while the certificate is valid, are at most `gap` apart, and go on past its end. */
  ghost predicate IsSchedule(times: seq<int>, notBefore: int, notAfter: int, gap: int) {
    && |times| > 0 && notBefore <= times[0] < notAfter <= times[|times| - 1]
    && forall k :: 0 <= k < |times| - 1 ==> times[k] < times[k + 1] <= times[k] + gap
  }

  /** Some check finds the renewal due while the certificate is still valid. */
  ghost predicate RenewsInTime(c: Settings, times: seq<int>, notBefore: int, notAfter: int) {
    exists k :: 0 <= k < |times| && times[k] < notAfter && IsDue(c, notBefore, notAfter, times[k])
  }

  /** The last check before the end. */
  lemma {:induction false} LastBefore(times: seq<int>, notBefore: int, notAfter: int, gap: int, from: nat)
    returns (k: nat)
    requires IsSchedule(times, notBefore, notAfter, gap) && from < |times| && times[from] < notAfter
    ensures from <= k < |times| - 1 && times[k] < notAfter <= times[k + 1]
    decreases |times| - from
  {
    assert from < |times| - 1;
    if times[from + 1] < notAfter {
      k := LastBefore(times, notBefore, notAfter, gap, from + 1);
    } else {
      k := from;
    }
  }

  lemma EarlierIsNotDue(c: Settings, times: seq<int>, notBefore: int, notAfter: int, gap: int)
    requires gap as real < RenewalWindow(c, notBefore, notAfter)
    requires IsSchedule(times, notBefore, notAfter, gap)
    ensures RenewsInTime(c, times, notBefore, notAfter)
  {
    var k := LastBefore(times, notBefore, notAfter, gap, 0);
    assert notAfter - times[k] <= gap;
    DueInWindow(c, notBefore, notAfter, times[k]);
  }

  /**
   A certificate is renewed before it ends under every schedule with gaps of at most `gap` exactly when the gap is
   shorter than the renewal window, or the window is longer than the whole validity. Gaps shorter than twice the minimal
   time are therefore enough, for every threshold and every validity.
   */
  lemma RenewalDeadline(c: Settings, notBefore: int, notAfter: int, gap: int)
    requires notBefore < notAfter && gap > 0
    ensures (forall times: seq<int> ::
               IsSchedule(times, notBefore, notAfter, gap) ==> RenewsInTime(c, times, notBefore, notAfter))
            <==> gap as real < RenewalWindow(c, notBefore, notAfter)
                 || (notAfter - notBefore) as real < RenewalWindow(c, notBefore, notAfter)
    ensures gap as real < 2.0 * c.minimalTime ==> gap as real < RenewalWindow(c, notBefore, notAfter)
  {
    var window := RenewalWindow(c, notBefore, notAfter);
    if gap as real < window {
      forall times: seq<int> | IsSchedule(times, notBefore, notAfter, gap)
        ensures RenewsInTime(c, times, notBefore, notAfter)
      {
        EarlierIsNotDue(c, times, notBefore, notAfter, gap);
      }
    } else if (notAfter - notBefore) as real < window {
      forall times: seq<int> | IsSchedule(times, notBefore, notAfter, gap)
        ensures RenewsInTime(c, times, notBefore, notAfter)
      {
        DueInWindow(c, notBefore, notAfter, times[0]);
      }
    } else {
      MissedSchedule(c, notBefore, notAfter, gap);
    }
  }

  /** The longest gap that fits, right before the end. */
  lemma MissedSchedule(c: Settings, notBefore: int, notAfter: int, gap: int)
    requires notBefore < notAfter && gap > 0
    requires gap as real >= RenewalWindow(c, notBefore, notAfter)
    requires (notAfter - notBefore) as real >= RenewalWindow(c, notBefore, notAfter)
    ensures exists times: seq<int> ::
              IsSchedule(times, notBefore, notAfter, gap) && !RenewsInTime(c, times, notBefore, notAfter)
  {
    var start := if gap < notAfter - notBefore then notAfter - gap else notBefore;
    var times := [start, notAfter];
    DueInWindow(c, notBefore, notAfter, start);
    assert !RenewsInTime(c, times, notBefore, notAfter);
    assert IsSchedule(times, notBefore, notAfter, gap);
  }
}
