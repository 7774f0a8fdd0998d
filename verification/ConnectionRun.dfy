/** The supervisor and the controller of the connection, which change the resource they hold step by step. */
module ConnectionRun {
  import opened Wrappers
  import opened Connection

  /** The resource as a reconciliation holds it in memory. */
  class CompassConnection {
    var spec: Spec
    var status: Status
    const version: nat

    constructor (cr: Cr)
      ensures Value() == cr
    {
      spec := cr.spec;
      status := cr.status;
      version := cr.version;
    }

    function Value(): Cr
      reads this
    {
      Cr(spec, status, version)
    }

    function ConnectionOrNew(): ConnectionStatus
      reads this
    {
      if status.connection.Some? then status.connection.value else NO_CONNECTION
    }

    /** Reads the certificate's validity from the status, which has to be there. */
    method ShouldRenewCertificate(c: Settings, now: int) returns (renew: bool)
      requires status.connection.Some?
      ensures renew == ShouldRenew(Value(), c, now)
    {
      if spec.refreshNow {
        return true;
      }
      var certificate := status.connection.value.certificate;
      var validity := certificate.notAfter - certificate.notBefore;
      var timeLeft := (certificate.notAfter - now) as real;
      renew := timeLeft < validity as real * c.threshold || timeLeft < 2.0 * c.minimalTime;
    }

    method SetCertificateStatus(acquired: int, certificate: Certificate)
      modifies this`status
      ensures status == old(status).(connection := Some(Certified(old(ConnectionOrNew()), acquired, certificate)))
    {
      status := status.(connection := Some(Certified(ConnectionOrNew(), acquired, certificate)));
    }

    method SetConnectionFailed(t: int)
      modifies this`status
      ensures Value() == WithFailure(old(Value()), t)
    {
      status := status.(state := ConnectionFailed);
      status := status.(connection := Some(ConnectionOrNew().(lastSync := t, hasError := true)));
    }

    method SetMaintenanceFailed(t: int)
      modifies this`status
      ensures Value() == WithMaintenanceFailure(old(Value()), t)
    {
      status := status.(state := ConnectionMaintenanceFailed);
      status := status.(connection := Some(ConnectionOrNew().(lastSync := t, hasError := true)));
    }
  }

  class Agent {
    const settings: Settings
    var world: World

    constructor (settings: Settings, world: World)
      ensures this.settings == settings && this.world == world
    {
      this.settings := settings;
      this.world := world;
    }

    method Now() returns (t: int)
      modifies this
      ensures TimePasses(old(world), world) && t == world.now
    {
      var passed: int := *;
      if passed > 0 {
        world := world.(now := world.now + passed);
      }
      t := world.now;
    }

    method Down() returns (down: bool)
      modifies this
      ensures world == if down then old(world).(failures := old(world).failures + 1) else old(world)
    {
      down := *;
      if down {
        world := world.(failures := world.failures + 1);
      }
    }

    /** A call of a synchronisation, which is noted with whether it succeeded. */
    method MakeCall(call: bool -> Call) returns (ok: bool)
      modifies this
      ensures world == old(world).(failures := if ok then old(world).failures else old(world).failures + 1,
                                   calls := old(world).calls + [call(ok)])
    {
      var down := Down();
      ok := !down;
      world := world.(calls := world.calls + [call(ok)]);
    }

    /** Writes the resource back, which may fail, and does unless it still is the version that was read. */
    method UpdateConnection(connection: CompassConnection) returns (ok: bool)
      modifies this
      ensures Persists(old(world), connection.Value(), world, ok, false)
    {
      var down := Down();
      ok := !down && world.cr.Some? && world.cr.value.version == connection.version;
      if ok {
        world := Stored(world, connection.Value());
      }
    }

    method CreateConnection(connection: CompassConnection) returns (ok: bool)
      modifies this
      ensures Persists(old(world), connection.Value(), world, ok, true)
    {
      var down := Down();
      ok := !down && world.cr.None?;
      if ok {
        world := Stored(world, connection.Value());
      }
    }

    method UpdateConnectionData(certificate: Certificate, urls: Urls)
      modifies this
      ensures world == old(world).(cache := Cache(Some(certificate), urls))
    {
      world := world.(cache := Cache(Some(certificate), urls));
    }

    // -------------------------------------------------------------- connecting

    /** Stores the client certificate, then the certificates of the authority. */
    method PreserveCredentials(certificate: Certificate) returns (ok: bool)
      modifies this
      ensures if ok then world == FullyPreserved(old(world), certificate)
              else FailsToPreserve(old(world), world)
    {
      var down := Down();
      if down {
        return false;
      }
      world := HalfPreserved(world, certificate);
      down := Down();
      if down {
        assert Fails(HalfPreserved(old(world), certificate), world);
        return false;
      }
      world := world.(authority := true, complete := world.complete + [certificate]);
      ok := true;
    }

    method EstablishConnection(connection: CompassConnection)
      modifies this, connection
      ensures Establishes(old(world), old(connection.Value()), world, connection.Value())
    {
      var unreachable := Down();
      var t := Now();
      if unreachable {
        connection.SetConnectionFailed(t);
        return;
      }
      var certificate: Certificate := *;
      var urls: Urls := *;
      var preserved := PreserveCredentials(certificate);
      if !preserved {
        var failed := Now();
        connection.SetConnectionFailed(failed);
        return;
      }
      connection.status := connection.status.(state := Connected, connection := Some(Established(t)));
      connection.SetCertificateStatus(t, certificate);
      connection.spec := connection.spec.(urls := urls);
      UpdateConnectionData(certificate, urls);
      assert world == Preserved(old(world), certificate, urls).(now := world.now);
      assert connection.Value() == WithConnection(old(connection.Value()), t, certificate, urls);
    }

    method InitializeCompassConnection()
      modifies this
      ensures Initialises(old(world), world)
    {
      var down := Down();
      if down {
        return;
      }
      if world.cr.None? {
        var connection := new CompassConnection(EMPTY);
        EstablishConnection(connection);
        ghost var w1 := world;
        var ok := CreateConnection(connection);
        assert Establishes(old(world), EMPTY, w1, connection.Value())
               && Persists(w1, connection.Value(), world, ok, true);
        return;
      }
      if !world.cr.value.HasFailed() {
        var unreadable := Down();
        if !unreadable && world.secret.Some? {
          UpdateConnectionData(world.secret.value, world.cr.value.spec.urls);
        }
        return;
      }
      var connection := new CompassConnection(world.cr.value);
      EstablishConnection(connection);
      ghost var w1 := world;
      var ok := UpdateConnection(connection);
      assert Establishes(old(world), old(world).cr.value, w1, connection.Value())
             && Persists(w1, connection.Value(), world, ok, false);
    }

    // -------------------------------------------------------------- maintaining

    /** Asks Compass, renews the credentials if they are due or the authority's are missing, and notes the time. */
    method TryMaintain(connection: CompassConnection)
      returns (ok: bool, ghost at: int, ghost renewed: Option<Certificate>, ghost reported: Urls)
      requires connection.status.connection.Some?
      modifies this, connection
      ensures if ok then
                Maintains(settings, old(world), old(connection.Value()), world, connection.Value(), at, renewed,
                          reported)
              else FailsToPreserve(old(world), world) && connection.Value() == old(connection.Value())
    {
      at, renewed, reported := world.now, None, NO_URLS;
      var checked := Now();
      var shouldRenew := connection.ShouldRenewCertificate(settings, checked);
      var down := Down();
      if down {
        return false, at, None, reported;
      }
      var credentialsExist := world.authority;
      var unreachable := Down();
      if unreachable {
        return false, at, None, reported;
      }
      var urls: Urls := *;
      var certificate: Certificate := *;
      var t := Now();
      at, reported := t, urls;
      if shouldRenew || !credentialsExist {
        ghost var w1 := world;
        var preserved := PreserveCredentials(certificate);
        if !preserved {
          LaterFailure(old(world), w1, world);
          return false, at, None, reported;
        }
        renewed := Some(certificate);
        connection.SetCertificateStatus(t, certificate);
        connection.spec := connection.spec.(refreshNow := false);
        connection.status := connection.status.(connection := Some(connection.status.connection.value.(renewed := t)));
        UpdateConnectionData(certificate, urls);
      }
      if connection.spec.urls != urls {
        world := world.(cache := world.cache.(urls := urls));
      }
      connection.status := connection.status.(
        connection := Some(connection.status.connection.value.(lastSync := t, lastSuccess := t)));
      assert connection.Value() == Maintained(old(connection.Value()), t, renewed);
      assert world == Refreshed(old(world), old(connection.Value()), renewed, urls).(now := world.now);
      ok := true;
    }

    method MaintainCompassConnection(connection: CompassConnection)
      returns (ok: bool, ghost at: int, ghost renewed: Option<Certificate>, ghost reported: Urls, ghost deed: Deed)
      requires connection.status.connection.Some?
      modifies this, connection
      ensures ok ==>
                Maintains(settings, old(world), old(connection.Value()), world, connection.Value(), at, renewed,
                          reported)
      ensures !ok ==> FailsMaintenance(old(world), old(connection.Value()), world, deed)
    {
      deed := Nothing;
      ok, at, renewed, reported := TryMaintain(connection);
      if !ok {
        var t := Now();
        ghost var w1 := world;
        connection.SetMaintenanceFailed(t);
        var persisted := UpdateConnection(connection);
        deed := MaintenanceFailed(persisted);
        assert Persists(w1, WithMaintenanceFailure(old(connection.Value()), t), world, persisted, false);
      }
    }

    // -------------------------------------------------------------- synchronising

    /** Whatever goes wrong, the attempt is noted and written back. */
    method SynchronizeWithCompass(connection: CompassConnection)
      returns (ghost attempt: int, ghost outcome: SyncOutcome, ghost w1: World, persisted: bool)
      modifies this, connection
      ensures Calls(old(world), w1, outcome)
      ensures old(world).now <= attempt <= w1.now
      ensures connection.Value() == WithSync(old(connection.Value()), attempt, outcome)
      ensures Persists(w1, connection.Value(), world, persisted, false)
    {
      var fetched := MakeCall(ok => Fetch(ok));
      var applied, labelled := false, false;
      if fetched {
        applied := MakeCall(ok => ApplyAll(ok));
        if applied {
          labelled := MakeCall(ok => Label(ok));
        }
      }
      var t := Now();
      attempt := t;
      if !fetched {
        outcome := NotFetched;
        connection.status := connection.status.(state := SynchronizationFailed);
        if connection.status.sync.None? {
          connection.status := connection.status.(sync := Some(NO_SYNC));
        }
        connection.status := connection.status.(
          sync := Some(connection.status.sync.value.(lastAttempt := t, hasError := true)));
      } else if !applied {
        outcome := NotApplied;
        connection.status :=
          connection.status.(state := ResourceApplicationFailed, sync := Some(SyncStatus(t, t, ZERO_TIME, true)));
      } else if !labelled {
        outcome := NotLabelled;
        connection.status :=
          connection.status.(state := MetadataUpdateFailed, sync := Some(SyncStatus(t, t, ZERO_TIME, true)));
      } else {
        outcome := Done;
        connection.status := connection.status.(state := Synchronized, sync := Some(SyncStatus(t, t, t, false)));
        connection.spec := connection.spec.(resyncNow := false);
      }
      w1 := world;
      persisted := UpdateConnection(connection);
    }

    // -------------------------------------------------------------- the controller

    method SkipConnectionSync(connection: CompassConnection) returns (skip: bool)
      modifies this
      ensures TimePasses(old(world), world) && skip == SkipsConnection(settings, connection.Value(), world.now)
    {
      var now := Now();
      if connection.spec.resyncNow || connection.status.connection.None? {
        return false;
      }
      skip := now - connection.status.connection.value.lastSync < settings.minimalTime.Floor;
    }

    method SkipApplicationSync(connection: CompassConnection) returns (skip: bool)
      modifies this
      ensures TimePasses(old(world), world) && skip == SkipsApplications(settings, connection.Value(), world.now)
    {
      var now := Now();
      if connection.spec.resyncNow || connection.status.sync.None? {
        return false;
      }
      skip := now - connection.status.sync.value.lastAttempt < settings.minimalTime.Floor;
    }

    /** One reconciliation of the version that was read, which may be stale, or of none. */
    method Reconcile(read: Option<Cr>) returns (ghost deed: Deed)
      requires read.Some? && !read.value.HasFailed() ==> read.value.status.connection.Some?
      modifies this
      ensures Reconciles(settings, old(world), read, world, deed)
    {
      deed := Nothing;
      if read.None? {
        InitializeCompassConnection();
        deed := Initialised;
        assert TimePasses(old(world), old(world));
        return;
      }
      var connection := new CompassConnection(read.value);
      var skip := SkipConnectionSync(connection);
      if skip {
        return;
      }
      ghost var w1 := world;
      if connection.Value().HasFailed() {
        InitializeCompassConnection();
        deed := Initialised;
        return;
      }
      var ok, at, renewed, reported, failed := MaintainCompassConnection(connection);
      if !ok {
        deed := failed;
        return;
      }
      ghost var w2 := world;
      ghost var cr1 := connection.Value();
      skip := SkipApplicationSync(connection);
      if skip {
        deed := MaintainedOnly(at, renewed, reported, world.now);
        assert OnlyMaintainsVia(settings, w1, read.value, world, deed, w2, cr1);
        assert OnlyMaintains(settings, w1, read.value, world, deed);
        return;
      }
      ghost var start := world.now;
      var attempt, outcome, w3, persisted := SynchronizeWithCompass(connection);
      deed := Synchronised(at, renewed, reported, start, attempt, outcome, read.value.spec.resyncNow, persisted);
      assert Persists(w3, WithSync(cr1, attempt, outcome), world, persisted, false);
      assert SynchronisesVia(settings, w1, read.value, world, deed, w2, cr1, w3, outcome);
      assert Synchronises(settings, w1, read.value, world, deed);
    }
  }
}
