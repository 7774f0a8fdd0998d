/**
 The connection of the agent to Compass
 (components/compass-runtime-agent/internal/compassconnection and pkg/apis/compass/v1alpha1/types.go). Times are whole
 Unix seconds, as the code compares them and as the API server keeps them.
 */
module Connection {
  import opened Wrappers

  const ZERO_TIME := -62135596800

  datatype State =
    | Connected | ConnectionFailed | ConnectionMaintenanceFailed | SynchronizationFailed | ResourceApplicationFailed
    | MetadataUpdateFailed | Synchronized

  datatype Urls = Urls(director: string, connector: string)

  const NO_URLS := Urls("", "")

  datatype Spec = Spec(urls: Urls, resyncNow: bool, refreshNow: bool)

  datatype Certificate = Certificate(notBefore: int, notAfter: int, serial: int)

  datatype CertificateStatus = CertificateStatus(acquired: int, notBefore: int, notAfter: int)

  const NO_CERTIFICATE := CertificateStatus(ZERO_TIME, ZERO_TIME, ZERO_TIME)

  datatype ConnectionStatus = ConnectionStatus(
    established: int,
    renewed: int,
    lastSync: int,
    lastSuccess: int,
    certificate: CertificateStatus,
    hasError: bool
  )

  const NO_CONNECTION := ConnectionStatus(ZERO_TIME, ZERO_TIME, ZERO_TIME, ZERO_TIME, NO_CERTIFICATE, false)

  datatype SyncStatus = SyncStatus(lastAttempt: int, lastFetch: int, lastApplication: int, hasError: bool)

  const NO_SYNC := SyncStatus(ZERO_TIME, ZERO_TIME, ZERO_TIME, false)

  datatype Status = Status(state: State, connection: Option<ConnectionStatus>, sync: Option<SyncStatus>)

  /** The resource, as a value. */
  datatype Cr = Cr(spec: Spec, status: Status, version: nat) {
    predicate HasFailed() {
      status.state.ConnectionFailed?
    }
  }

  datatype Settings = Settings(threshold: real, minimalTime: real)

  /** The minimal time as the guards use it, cut to whole seconds. */
  function WholeSeconds(c: Settings): int {
    c.minimalTime.Floor
  }

  function Certified(s: ConnectionStatus, acquired: int, certificate: Certificate): ConnectionStatus {
    s.(certificate := CertificateStatus(acquired, certificate.notBefore, certificate.notAfter))
  }

  predicate ShouldRenew(cr: Cr, c: Settings, now: int)
    requires cr.status.connection.Some?
  {
    var certificate := cr.status.connection.value.certificate;
    cr.spec.refreshNow || IsDue(c, certificate.notBefore, certificate.notAfter, now)
  }

  predicate IsDue(c: Settings, notBefore: int, notAfter: int, now: int) {
    var timeLeft := (notAfter - now) as real;
    timeLeft < (notAfter - notBefore) as real * c.threshold || timeLeft < 2.0 * c.minimalTime
  }

  // ---------------------------------------------------------------- the world

  datatype Cache = Cache(certificate: Option<Certificate>, urls: Urls)

  /** A call of a synchronisation: fetching the configuration, applying it, and labelling the runtime. */
  datatype Call = Fetch(ok: bool) | ApplyAll(ok: bool) | Label(ok: bool)

  /** A write to the resource: its state before, if it existed, and after. */
  datatype Write = Write(before: Option<State>, after: State)

  /**
   The credentials are kept in two secrets, the client certificate in `secret` and those of the authority, of which
   only the presence matters. `versions` are all versions of the resource there ever were, `preserved` all client
   certificates ever stored, `complete` those of which the authority's were stored with them, `calls` the calls of all
   synchronisations; `failures` counts the calls that failed for a reason of their own.
   */
  datatype World = World(
    cr: Option<Cr>,
    versions: seq<Cr>,
    secret: Option<Certificate>,
    authority: bool,
    preserved: seq<Certificate>,
    complete: seq<Certificate>,
    cache: Cache,
    writes: seq<Write>,
    calls: seq<Call>,
    now: int,
    failures: nat
  )

  function Stored(w: World, cr: Cr): World {
    var i := cr.(version := |w.versions|);
    w.(cr := Some(i), versions := w.versions + [i],
       writes := w.writes + [Write(if w.cr.Some? then Some(w.cr.value.status.state) else None, cr.status.state)])
  }

  predicate IsCurrent(w: World, cr: Cr) {
    w.cr.Some? && w.cr.value.version == cr.version
  }

  /** The client certificate is stored, the secret of the authority not yet. */
  function HalfPreserved(w: World, certificate: Certificate): World {
    w.(secret := Some(certificate), preserved := w.preserved + [certificate])
  }

  function FullyPreserved(w: World, certificate: Certificate): World {
    HalfPreserved(w, certificate).(authority := true, complete := w.complete + [certificate])
  }

  function Preserved(w: World, certificate: Certificate, urls: Urls): World {
    FullyPreserved(w, certificate).(cache := Cache(Some(certificate), urls))
  }

  predicate TimePasses(w: World, w': World) {
    w.now <= w'.now && w' == w.(now := w'.now)
  }

  /** Some call failed, which had no effect. */
  predicate Fails(w: World, w': World) {
    w.now <= w'.now && w.failures < w'.failures && w' == w.(now := w'.now, failures := w'.failures)
  }

  /** Some call failed, possibly the one that stores the second of the two secrets. */
  ghost predicate FailsToPreserve(w: World, w': World) {
    Fails(w, w') || exists certificate: Certificate :: Fails(HalfPreserved(w, certificate), w')
  }

  lemma LaterFailure(w: World, w1: World, w': World)
    requires TimePasses(w, w1) && FailsToPreserve(w1, w')
    ensures FailsToPreserve(w, w')
  {
    if !Fails(w1, w') {
      var certificate: Certificate :| Fails(HalfPreserved(w1, certificate), w');
      assert Fails(HalfPreserved(w, certificate), w');
    }
  }

  // ---------------------------------------------------------------- connecting

  /** The resource after an attempt to connect that failed at `t`. */
  function WithFailure(cr: Cr, t: int): Cr {
    var connection := if cr.status.connection.Some? then cr.status.connection.value else NO_CONNECTION;
    cr.(status :=
          cr.status.(state := ConnectionFailed, connection := Some(connection.(lastSync := t, hasError := true))))
  }

  function Established(t: int): ConnectionStatus {
    NO_CONNECTION.(established := t, lastSync := t, lastSuccess := t)
  }

  /** The resource after a connection that was established at `t`. */
  function WithConnection(cr: Cr, t: int, certificate: Certificate, urls: Urls): Cr {
    cr.(spec := cr.spec.(urls := urls),
        status := cr.status.(state := Connected,
                             connection := Some(Certified(Established(t), t, certificate))))
  }

  ghost predicate Establishes(w: World, cr: Cr, w': World, cr': Cr) {
    || (FailsToPreserve(w, w') && exists t: int :: w.now <= t <= w'.now && cr' == WithFailure(cr, t))
    || (exists t: int, certificate: Certificate, urls: Urls ::
          && w.now <= t <= w'.now
          && w' == Preserved(w, certificate, urls).(now := w'.now)
          && cr' == WithConnection(cr, t, certificate, urls))
  }

  const EMPTY := Cr(Spec(NO_URLS, false, false), Status(Connected, None, None), 0)

  /** A resource is created where there is none and updated on the version it came from. */
  predicate IsWritable(w: World, cr: Cr, creating: bool) {
    if creating then w.cr.None? else IsCurrent(w, cr)
  }

  ghost predicate Persists(w: World, cr: Cr, w': World, ok: bool, creating: bool) {
    if ok then IsWritable(w, cr, creating) && w' == Stored(w, cr)
    else w' == w.(failures := w.failures + 1) || (w' == w && !IsWritable(w, cr, creating))
  }

  ghost predicate Initialises(w: World, w': World) {
    || Fails(w, w')
    || (w.cr.None? && exists w1: World, cr: Cr, ok: bool ::
          Establishes(w, EMPTY, w1, cr) && Persists(w1, cr, w', ok, true))
    || (w.cr.Some? && !w.cr.value.HasFailed()
        && w' == if w.secret.Some? then w.(cache := Cache(w.secret, w.cr.value.spec.urls)) else w)
    || (w.cr.Some? && w.cr.value.HasFailed()
        && exists w1: World, cr: Cr, ok: bool ::
             Establishes(w, w.cr.value, w1, cr) && Persists(w1, cr, w', ok, false))
  }

  // ---------------------------------------------------------------- maintaining

  /** The resource after a successful maintenance at `t`, with renewed credentials if there are any. */
  function Maintained(cr: Cr, t: int, renewed: Option<Certificate>): Cr
    requires cr.status.connection.Some?
  {
    var connection := cr.status.connection.value.(lastSync := t, lastSuccess := t);
    match renewed
    case None => cr.(status := cr.status.(connection := Some(connection)))
    case Some(certificate) =>
      cr.(spec := cr.spec.(refreshNow := false),
          status := cr.status.(connection := Some(Certified(connection.(renewed := t), t, certificate))))
  }

  /** What a successful maintenance leaves in the cache. */
  function Refreshed(w: World, cr: Cr, renewed: Option<Certificate>, urls: Urls): World {
    var w1 := if renewed.Some? then Preserved(w, renewed.value, urls) else w;
    if cr.spec.urls != urls then w1.(cache := w1.cache.(urls := urls)) else w1
  }

  lemma MaintainedKeeps(cr: Cr, t: int, renewed: Option<Certificate>)
    requires cr.status.connection.Some?
    ensures var cr' := Maintained(cr, t, renewed);
            && cr'.status.connection.Some? && cr'.status.connection.value.lastSync == t
            && cr'.status.state == cr.status.state && cr'.status.sync == cr.status.sync
            && cr'.version == cr.version && cr'.spec.resyncNow == cr.spec.resyncNow
  {
  }

  lemma RefreshedKeeps(w: World, cr: Cr, renewed: Option<Certificate>, urls: Urls)
    ensures var w' := Refreshed(w, cr, renewed, urls);
            && w'.cr == w.cr && w'.versions == w.versions && w'.writes == w.writes && w'.now == w.now
            && w'.failures == w.failures
            && w'.preserved == (if renewed.Some? then w.preserved + [renewed.value] else w.preserved)
            && w'.complete == (if renewed.Some? then w.complete + [renewed.value] else w.complete)
            && w'.secret == (if renewed.Some? then renewed else w.secret)
            && w'.authority == (renewed.Some? || w.authority)
  {
  }

  /** Credentials are renewed exactly when they are due or the authority's are missing, which alone are looked for. */
  ghost predicate Maintains(c: Settings, w: World, cr: Cr, w': World, cr': Cr, t: int, renewed: Option<Certificate>,
                            urls: Urls)
    requires cr.status.connection.Some?
  {
    exists checked: int ::
      && w.now <= checked <= t <= w'.now
      && (renewed.Some? <==> ShouldRenew(cr, c, checked) || !w.authority)
      && w' == Refreshed(w, cr, renewed, urls).(now := w'.now)
      && cr' == Maintained(cr, t, renewed)
  }

  function WithMaintenanceFailure(cr: Cr, t: int): Cr {
    var connection := if cr.status.connection.Some? then cr.status.connection.value else NO_CONNECTION;
    cr.(status := cr.status.(state := ConnectionMaintenanceFailed,
                             connection := Some(connection.(lastSync := t, hasError := true))))
  }

  // ---------------------------------------------------------------- synchronising

  datatype SyncOutcome = NotFetched | NotApplied | NotLabelled | Done

  /** The calls are made one after the other up to the first that fails. */
  function CallsOf(outcome: SyncOutcome): seq<Call> {
    match outcome
    case NotFetched => [Fetch(false)]
    case NotApplied => [Fetch(true), ApplyAll(false)]
    case NotLabelled => [Fetch(true), ApplyAll(true), Label(false)]
    case Done => [Fetch(true), ApplyAll(true), Label(true)]
  }

  ghost predicate Calls(w: World, w': World, outcome: SyncOutcome) {
    && w.now <= w'.now
    && (if outcome.Done? then w'.failures == w.failures else w'.failures > w.failures)
    && w' == w.(now := w'.now, failures := w'.failures, calls := w.calls + CallsOf(outcome))
  }

  function WithSync(cr: Cr, t: int, outcome: SyncOutcome): Cr {
    match outcome
    case NotFetched =>
      var sync := if cr.status.sync.Some? then cr.status.sync.value else NO_SYNC;
      cr.(status := cr.status.(state := SynchronizationFailed, sync := Some(sync.(lastAttempt := t, hasError := true))))
    case NotApplied =>
      cr.(status := cr.status.(state := ResourceApplicationFailed, sync := Some(SyncStatus(t, t, ZERO_TIME, true))))
    case NotLabelled =>
      cr.(status := cr.status.(state := MetadataUpdateFailed, sync := Some(SyncStatus(t, t, ZERO_TIME, true))))
    case Done =>
      cr.(spec := cr.spec.(resyncNow := false),
          status := cr.status.(state := Synchronized, sync := Some(SyncStatus(t, t, t, false))))
  }

  // ---------------------------------------------------------------- one reconciliation

  predicate SkipsConnection(c: Settings, cr: Cr, now: int) {
    !cr.spec.resyncNow && cr.status.connection.Some? && now - cr.status.connection.value.lastSync < WholeSeconds(c)
  }

  predicate SkipsApplications(c: Settings, cr: Cr, now: int) {
    !cr.spec.resyncNow && cr.status.sync.Some? && now - cr.status.sync.value.lastAttempt < WholeSeconds(c)
  }

  /**
   What a reconciliation did: a successful maintenance at `at`, to which Compass reported `urls`, and whether the
   applications, looked at when it was `checked`, were synchronised.
   */
  datatype Deed =
    | Nothing
    | Initialised
    | MaintenanceFailed(persisted: bool)
    | MaintainedOnly(at: int, renewed: Option<Certificate>, urls: Urls, checked: int)
    | Synchronised(at: int, renewed: Option<Certificate>, urls: Urls, checked: int, attempt: int,
                   outcome: SyncOutcome, forced: bool, persisted: bool)

  ghost predicate FailsMaintenance(w: World, cr: Cr, w': World, deed: Deed) {
    && deed.MaintenanceFailed?
    && exists w1: World, t: int ::
         FailsToPreserve(w, w1) && w.now <= t <= w1.now
         && Persists(w1, WithMaintenanceFailure(cr, t), w', deed.persisted, false)
  }

  /** The maintained resource is not written when the applications are skipped. */
  ghost predicate OnlyMaintains(c: Settings, w: World, cr: Cr, w': World, deed: Deed) {
    && deed.MaintainedOnly? && cr.status.connection.Some?
    && exists w1: World, cr1: Cr :: OnlyMaintainsVia(c, w, cr, w', deed, w1, cr1)
  }

  ghost predicate OnlyMaintainsVia(c: Settings, w: World, cr: Cr, w': World, deed: Deed, w1: World, cr1: Cr)
    requires deed.MaintainedOnly? && cr.status.connection.Some?
  {
    && Maintains(c, w, cr, w1, cr1, deed.at, deed.renewed, deed.urls)
    && TimePasses(w1, w') && deed.checked == w'.now && SkipsApplications(c, cr1, deed.checked)
  }

  /** Through the maintained resource `cr1` and the outcome of the attempt. */
  ghost predicate SynchronisesVia(c: Settings, w: World, cr: Cr, w': World, deed: Deed,
                                  w1: World, cr1: Cr, w2: World, outcome: SyncOutcome)
    requires deed.Synchronised? && cr.status.connection.Some?
  {
    && Maintains(c, w, cr, w1, cr1, deed.at, deed.renewed, deed.urls)
    && w1.now <= deed.checked <= deed.attempt <= w2.now
    && Calls(w1, w2, outcome) && deed.outcome == outcome
    && !SkipsApplications(c, cr1, deed.checked)
    && deed.forced == cr.spec.resyncNow
    && Persists(w2, WithSync(cr1, deed.attempt, outcome), w', deed.persisted, false)
  }

  ghost predicate Synchronises(c: Settings, w: World, cr: Cr, w': World, deed: Deed) {
    && deed.Synchronised? && cr.status.connection.Some?
    && exists w1: World, cr1: Cr, w2: World, outcome: SyncOutcome ::
         SynchronisesVia(c, w, cr, w', deed, w1, cr1, w2, outcome)
  }

  /** One reconciliation that read the version `read` of the resource, or found none. */
  ghost predicate Reconciles(c: Settings, w: World, read: Option<Cr>, w': World, deed: Deed) {
    match read
    case None => deed.Initialised? && exists w1: World :: TimePasses(w, w1) && Initialises(w1, w')
    case Some(cr) =>
      || (deed.Nothing? && TimePasses(w, w') && SkipsConnection(c, cr, w'.now))
      || (exists w1: World ::
            && TimePasses(w, w1) && !SkipsConnection(c, cr, w1.now)
            && if cr.HasFailed() then deed.Initialised? && Initialises(w1, w')
               else
                 || FailsMaintenance(w1, cr, w', deed)
                 || OnlyMaintains(c, w1, cr, w', deed)
                 || Synchronises(c, w1, cr, w', deed))
  }
}
