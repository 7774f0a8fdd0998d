/**
 The part of the Kubernetes API server that the agent works with: Application resources and secrets by name. A call may
 fail at any time for a reason of its own; such a call has no effect and is counted.
 */
module Cluster {
  import opened Wrappers
  import opened Resources
  import D = Director

  datatype SecretValue = Text(text: string) | Json(fields: D.Fields)

  type SecretData = map<string, SecretValue>

  /** A secret with its labels and the UID of the application that owns it. */
  datatype Secret = Secret(application: string, bundleId: string, owner: nat, data: SecretData)

  datatype ApiError = NotFound | AlreadyExists | Unavailable

  datatype World = World(apps: map<string, Application>, secrets: map<string, Secret>, nextUid: nat)

  /** Objects are stored under their own names, which are never empty. */
  ghost predicate Keyed(w: World) {
    forall n <- w.apps :: n != "" && w.apps[n].name == n
  }

  function WithCreated(w: World, app: Application): World {
    w.(apps := w.apps[app.name := app.(uid := w.nextUid)], nextUid := w.nextUid + 1)
  }

  function WithApplication(w: World, app: Application): World {
    w.(apps := w.apps[app.name := app])
  }

  function WithoutApplication(w: World, name: string): World {
    w.(apps := w.apps - {name})
  }

  function WithSecret(w: World, name: string, s: Secret): World {
    w.(secrets := w.secrets[name := s])
  }

  function WithoutSecrets(w: World, names: set<string>): World {
    w.(secrets := w.secrets - names)
  }

  /** `items` holds every application once. */
  ghost predicate Lists(items: seq<Application>, apps: map<string, Application>) {
    && (forall i :: 0 <= i < |items| ==> items[i].name in apps && apps[items[i].name] == items[i])
    && (forall n :: n in apps ==> exists i :: 0 <= i < |items| && items[i].name == n)
    && (forall i, j :: 0 <= i < j < |items| ==> items[i].name != items[j].name)
  }

  class ApiServer {
    var apps: map<string, Application>
    var secrets: map<string, Secret>
    var nextUid: nat
    var failures: nat

    ghost function State(): World
      reads this
    {
      World(apps, secrets, nextUid)
    }

    ghost predicate Valid()
      reads this
    {
      Keyed(State())
    }

    method Fails() returns (down: bool)
      modifies this`failures
      ensures failures == if down then old(failures) + 1 else old(failures)
    {
      down := *;
      if down {
        failures := failures + 1;
      }
    }

    /** All applications, in any order. */
    method ListApplications() returns (r: Result<seq<Application>, ApiError>)
      requires Valid()
      modifies this`failures
      ensures failures == if r.Failure? then old(failures) + 1 else old(failures)
      ensures r.Success? ==> Lists(r.value, apps)
    {
      var down := Fails();
      if down {
        return Failure(Unavailable);
      }
      var rest := apps.Keys;
      var items: seq<Application> := [];
      while rest != {}
        invariant rest <= apps.Keys && failures == old(failures)
        invariant forall i :: 0 <= i < |items| ==>
          items[i].name in apps && items[i].name !in rest && apps[items[i].name] == items[i]
        invariant forall n :: n in apps && n !in rest ==> exists i :: 0 <= i < |items| && items[i].name == n
        invariant forall i, j :: 0 <= i < j < |items| ==> items[i].name != items[j].name
      {
        var n :| n in rest;
        ghost var before := items;
        items := items + [apps[n]];
        rest := rest - {n};
        forall m | m in apps && m !in rest
          ensures exists i :: 0 <= i < |items| && items[i].name == m
        {
          if m == n {
            assert items[|before|].name == m;
          } else {
            var i :| 0 <= i < |before| && before[i].name == m;
            assert items[i].name == m;
          }
        }
      }
      r := Success(items);
    }

    method GetApplication(name: string) returns (r: Result<Application, ApiError>)
      modifies this`failures
      ensures failures == if r.Failure? && r.error.Unavailable? then old(failures) + 1 else old(failures)
      ensures r.Success? ==> name in apps && r.value == apps[name]
      ensures r.Failure? && r.error.NotFound? ==> name !in apps
      ensures r.Failure? ==> !r.error.AlreadyExists?
    {
      var down := Fails();
      if down {
        r := Failure(Unavailable);
      } else if name !in apps {
        r := Failure(NotFound);
      } else {
        r := Success(apps[name]);
      }
    }

    method CreateApplication(app: Application) returns (r: Result<Application, ApiError>)
      requires Valid()
      modifies this`apps, this`nextUid, this`failures
      ensures Valid() && failures >= old(failures)
      ensures r.Success? ==> app.name != "" && app.name !in old(apps)
      ensures State() == if r.Success? then WithCreated(old(State()), app) else old(State())
      ensures failures == old(failures) ==> (r.Success? <==> app.name != "" && app.name !in old(apps))
    {
      var down := Fails();
      if down || app.name == "" {
        r := Failure(Unavailable);
      } else if app.name in apps {
        r := Failure(AlreadyExists);
      } else {
        apps := apps[app.name := app.(uid := nextUid)];
        r := Success(apps[app.name]);
        nextUid := nextUid + 1;
      }
    }

    /** A request without a name is refused by the client. */
    method UpdateApplication(app: Application) returns (r: Result<Application, ApiError>)
      requires Valid()
      modifies this`apps, this`failures
      ensures Valid() && failures >= old(failures)
      ensures r.Success? ==> app.name != "" && app.name in old(apps) && r.value == app
      ensures State() == if r.Success? then WithApplication(old(State()), app) else old(State())
      ensures failures == old(failures) ==> (r.Success? <==> app.name != "" && app.name in old(apps))
    {
      var down := Fails();
      if down || app.name == "" {
        r := Failure(Unavailable);
      } else if app.name !in apps {
        r := Failure(NotFound);
      } else {
        apps := apps[app.name := app];
        r := Success(app);
      }
    }

    method DeleteApplication(name: string) returns (r: Result<(), ApiError>)
      requires Valid()
      modifies this`apps, this`failures
      ensures Valid() && failures >= old(failures)
      ensures r.Success? ==> name in old(apps)
      ensures State() == if r.Success? then WithoutApplication(old(State()), name) else old(State())
      ensures failures == old(failures) ==> (r.Success? <==> name in old(apps))
    {
      var down := Fails();
      if down {
        r := Failure(Unavailable);
      } else if name !in apps {
        r := Failure(NotFound);
      } else {
        apps := apps - {name};
        r := Success(());
      }
    }

    method GetSecret(name: string) returns (r: Result<Secret, ApiError>)
      modifies this`failures
      ensures failures == if r.Failure? && r.error.Unavailable? then old(failures) + 1 else old(failures)
      ensures r.Success? ==> name in secrets && r.value == secrets[name]
      ensures r.Failure? && r.error.NotFound? ==> name !in secrets
      ensures r.Failure? ==> !r.error.AlreadyExists?
    {
      var down := Fails();
      if down {
        r := Failure(Unavailable);
      } else if name !in secrets {
        r := Failure(NotFound);
      } else {
        r := Success(secrets[name]);
      }
    }

    method CreateSecret(name: string, s: Secret) returns (r: Result<(), ApiError>)
      modifies this`secrets, this`failures
      ensures failures >= old(failures)
      ensures r.Success? ==> name !in old(secrets)
      ensures State() == if r.Success? then WithSecret(old(State()), name, s) else old(State())
      ensures failures == old(failures) ==> (r.Success? <==> name !in old(secrets))
    {
      var down := Fails();
      if down {
        r := Failure(Unavailable);
      } else if name in secrets {
        r := Failure(AlreadyExists);
      } else {
        secrets := secrets[name := s];
        r := Success(());
      }
    }

    method UpdateSecret(name: string, s: Secret) returns (r: Result<(), ApiError>)
      modifies this`secrets, this`failures
      ensures failures >= old(failures)
      ensures r.Success? ==> name in old(secrets)
      ensures r.Failure? && r.error.NotFound? ==> name !in old(secrets)
      ensures State() == if r.Success? then WithSecret(old(State()), name, s) else old(State())
      ensures failures == old(failures) ==> r == if name in old(secrets) then Success(()) else Failure(NotFound)
    {
      var down := Fails();
      if down {
        r := Failure(Unavailable);
      } else if name !in secrets {
        r := Failure(NotFound);
      } else {
        secrets := secrets[name := s];
        r := Success(());
      }
    }

    method DeleteSecret(name: string) returns (r: Result<(), ApiError>)
      modifies this`secrets, this`failures
      ensures failures == if r.Failure? && r.error.Unavailable? then old(failures) + 1 else old(failures)
      ensures r.Failure? ==> !r.error.AlreadyExists?
      ensures r.Failure? && r.error.NotFound? ==> name !in old(secrets)
      ensures State() == if r.Success? then WithoutSecrets(old(State()), {name}) else old(State())
      ensures failures == old(failures) ==> r == if name in old(secrets) then Success(()) else Failure(NotFound)
    {
      var down := Fails();
      if down {
        r := Failure(Unavailable);
      } else if name !in secrets {
        r := Failure(NotFound);
      } else {
        secrets := secrets - {name};
        r := Success(());
      }
    }
  }
}
