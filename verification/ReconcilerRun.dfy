/** The state functions and the loop that drives them (pkg/reconciler/fsm.go). */
module ReconcilerRun {
  import opened Wrappers
  import opened Reconciler
  import M = Manifests
  import V = Verification

  /** A point of a run: the cluster, the state function that is next, if any, and the memory of the run. */
  datatype Config = Config(world: World, fn: Option<Fn>, memory: Memory)

  ghost predicate Goes(c: Config, c': Config, next: Next) {
    && c.fn.Some?
    && Transition(c.fn.value, c.world, c.memory, c'.world, c'.memory, next)
    && c'.fn == if next.Goto? then Some(next.fn) else None
  }

  ghost predicate IsStep(c: Config, c': Config) {
    exists next: Next :: Goes(c, c', next) && next.Goto?
  }

  /** The run ends, with a state function that stops it or because its context is done. */
  ghost predicate IsEnd(c: Config, c': Config, result: Option<Outcome>, err: Option<RunError>) {
    || Goes(c, c', Stop(result, err))
    || (c.fn.Some? && c' == c.(fn := None) && result == None && err == Some(Cancelled))
  }

  function Start(w: World, read: Instance): Config {
    Config(w.(run := w.run + 1), Some(TakeSnapshot), Memory(read, [], "", [Read(read)]))
  }

  ghost predicate AreSteps(trace: seq<Config>) {
    forall k :: 0 <= k < |trace| - 1 ==> IsStep(trace[k], trace[k + 1])
  }

  /** `trace` is a whole run from `w` on the version `read` with this outcome. */
  ghost predicate IsRun(w: World, read: Instance, trace: seq<Config>, result: Option<Outcome>, err: Option<RunError>) {
    && |trace| >= 2
    && trace[0] == Start(w, read)
    && AreSteps(trace[..|trace| - 1])
    && IsEnd(trace[|trace| - 2], trace[|trace| - 1], result, err)
  }

  /** Policies are being removed: `rest` are still to be tried, and deleting `stuck` failed. */
  ghost predicate AreBeingRemoved(w: World, w': World, rest: set<string>, stuck: set<string>) {
    && rest !! stuck && rest + stuck <= w.policies
    && w' == w.(policies := rest + stuck, failures := w.failures + |stuck|)
  }

  lemma OneMoreRemoved(w: World, w': World, rest: set<string>, stuck: set<string>, name: string)
    requires AreBeingRemoved(w, w', rest, stuck) && name in rest
    ensures AreBeingRemoved(w, w'.(policies := w'.policies - {name}), rest - {name}, stuck)
    ensures AreBeingRemoved(w, w'.(failures := w'.failures + 1), rest - {name}, stuck + {name})
  {
    assert rest + stuck - {name} == (rest - {name}) + stuck;
    assert rest + stuck == (rest - {name}) + (stuck + {name});
  }

  /** Dependencies are being released: `rest` are still to be tried, and updating `stuck` failed. */
  ghost predicate AreBeingReleased(w: World, w': World, carriers: set<string>, rest: set<string>, stuck: set<string>) {
    && rest !! stuck && rest + stuck <= carriers <= w.deps.Keys
    && w' == w.(deps := WithoutHook(w.deps, carriers - rest - stuck), failures := w.failures + |stuck|)
  }

  lemma OneMoreReleased(w: World, w': World, carriers: set<string>, rest: set<string>, stuck: set<string>, name: string)
    requires AreBeingReleased(w, w', carriers, rest, stuck) && name in rest
    ensures name in w'.deps
    ensures AreBeingReleased(w, w'.(deps := w'.deps[name := w'.deps[name] - {HOOK}]), carriers, rest - {name}, stuck)
    ensures AreBeingReleased(w, w'.(failures := w'.failures + 1), carriers, rest - {name}, stuck + {name})
  {
    var released := carriers - rest - stuck;
    assert carriers - (rest - {name}) - stuck == released + {name};
    assert carriers - (rest - {name}) - (stuck + {name}) == released;
    HookTakenOff(w.deps, released, name);
  }

  lemma HookTakenOff(deps: Dependencies, released: set<string>, name: string)
    requires name in deps
    ensures var now := WithoutHook(deps, released);
            now[name := now[name] - {HOOK}] == WithoutHook(deps, released + {name})
  {
    var now, later := WithoutHook(deps, released), WithoutHook(deps, released + {name});
    var next := now[name := now[name] - {HOOK}];
    assert next.Keys == later.Keys by {
      assert now.Keys == deps.Keys && later.Keys == deps.Keys;
    }
    forall k | k in deps
      ensures next[k] == later[k]
    {
    }
  }

  lemma NothingRemoved(w: World)
    ensures AreBeingRemoved(w, w, w.policies, {})
  {
    assert w.policies + {} == w.policies;
  }

  lemma AllTried(w: World, w': World, stuck: set<string>)
    requires AreBeingRemoved(w, w', {}, stuck)
    ensures w' == w.(policies := stuck, failures := w.failures + |stuck|) && stuck <= w.policies
  {
    assert {} + stuck == stuck;
  }

  lemma NothingReleased(w: World, carriers: set<string>)
    requires carriers <= Carriers(w.deps)
    ensures AreBeingReleased(w, w, carriers, carriers, {})
  {
    assert carriers - carriers - {} == {};
    assert WithoutHook(w.deps, {}) == w.deps;
  }

  lemma AllReleased(w: World, w': World, carriers: set<string>, stuck: set<string>)
    requires AreBeingReleased(w, w', carriers, {}, stuck)
    ensures w' == w.(deps := WithoutHook(w.deps, carriers - stuck), failures := w.failures + |stuck|)
    ensures carriers - (carriers - stuck) == stuck
  {
    assert carriers - {} - stuck == carriers - stuck;
  }

  class Fsm {
    const manifests: M.SharedManifests
    var world: World
    var fn: Option<Fn>
    var memory: Memory

    ghost predicate Valid()
      reads this, manifests
    {
      world.slices == manifests.State()
    }

    constructor (manifests: M.SharedManifests, w: World, i: Instance)
      requires w.slices == manifests.State()
      ensures Valid() && this.manifests == manifests && world == w && fn.None?
    {
      this.manifests := manifests;
      world := w;
      fn := None;
      memory := Memory(i, [], "", []);
    }

    ghost function Here(): Config
      reads this
    {
      Config(world, fn, memory)
    }

    method Fails() returns (down: bool)
      modifies this`world
      ensures world == if down then old(world).(failures := old(world).failures + 1) else old(world)
    {
      down := *;
      if down {
        world := world.(failures := world.failures + 1);
      }
    }

    method SetStatus(phase: Phase, reason: Reason)
      modifies this`memory
      ensures memory == WithStatus(old(memory), phase, reason)
    {
      memory := memory.(instance := memory.instance.(status := Some(Status(phase, reason))));
    }

    method Note(e: Event)
      modifies this`memory
      ensures memory == old(memory).(log := old(memory).log + [e])
    {
      memory := memory.(log := memory.log + [e]);
    }

    // -------------------------------------------------------------- state functions

    method RunCheckDependencies() returns (next: Next)
      modifies this`world, this`memory
      ensures ChecksDependencies(old(world), old(memory), world, memory, next)
    {
      var down := Fails();
      if down {
        SetStatus(Error, ApplyObjError);
        return StopWithError(ApiFailure);
      }
      var served := CheckDeps(world.crds);
      if !served {
        SetStatus(Error, ApplyObjError);
        return Goto(UpdateStatus(Some(RequeueAfter(10)), None));
      }
      if world.acknowledged {
        return Goto(Initialize);
      }
      next := Goto(RegisterDependencyWatch);
    }

    /** Watches the dependencies one by one and stops at the first error. */
    method RunRegisterDependencyWatch() returns (next: Next)
      requires Valid()
      modifies this`world, this`memory
      ensures RegistersWatch(old(world), old(memory), world, memory, next)
    {
      assert world.slices.deps[..0] == [];
      assert world.watched + [] == world.watched;
      for k := 0 to |manifests.deps|
        invariant world == old(world).(watched := old(world).watched + old(world).slices.deps[..k])
                  && memory == old(memory)
      {
        var down := Fails();
        if down {
          SetStatus(Error, ApplyObjError);
          return StopWithError(WatchFailure);
        }
        world := world.(watched := world.watched + [manifests.deps[k]]);
        assert old(world).slices.deps[..k + 1] == old(world).slices.deps[..k] + [manifests.deps[k]];
      }
      assert world.slices.deps[..|manifests.deps|] == world.slices.deps;
      world := world.(acknowledged := true);
      next := StopWithRequeue();
    }

    /** Updates the resource with another finalizer, if nobody wrote it since it was read. */
    method WriteFinalizer(finalizer: bool) returns (err: Option<RunError>)
      modifies this`world, this`memory
      ensures err.None? ==>
                exists i: Instance :: WritesFinalizer(old(world), old(memory).instance, world, i, finalizer)
                                      && memory == old(memory).(instance := i)
      ensures err.Some? ==>
                && memory == old(memory).(instance := old(memory).instance.(finalizer := finalizer))
                && ((err.value.ApiFailure? && world == old(world).(failures := old(world).failures + 1))
                    || (err.value.Conflict? && world == old(world) && !IsCurrent(world, memory.instance)))
    {
      var down := Fails();
      if down || !IsCurrent(world, memory.instance) {
        memory := memory.(instance := memory.instance.(finalizer := finalizer));
        return Some(if down then ApiFailure else Conflict);
      }
      var i := world.instance.value.(finalizer := finalizer, version := |world.versions|);
      world := WithInstance(world, i);
      memory := memory.(instance := i);
      assert WritesFinalizer(old(world), old(memory).instance, world, i, finalizer);
      err := None;
    }

    method RunInitialize() returns (next: Next)
      modifies this`world, this`memory
      ensures Initializes(old(world), old(memory), world, memory, next)
    {
      if !memory.instance.deleting && !memory.instance.finalizer {
        var err := WriteFinalizer(true);
        if err.Some? {
          return StopWithError(err.value);
        }
        SetStatus(Processing, Initialized);
        return StopWithRequeue();
      }
      if memory.instance.deleting && !memory.instance.finalizer {
        return Stop(None, None);
      }
      if memory.instance.deleting {
        return Goto(DeleteResources);
      }
      next := Goto(DetectDomain);
    }

    method RunDetectDomain() returns (next: Next)
      modifies this`world, this`memory
      ensures DetectsDomain(old(world), old(memory), world, memory, next)
    {
      if memory.instance.spec.domainName != "" || memory.domainName != "" {
        return Goto(Update);
      }
      var down := Fails();
      if down || !world.shootInfo.WithDomain? {
        return StopWithError(DomainNotDetected);
      }
      memory := memory.(domainName := world.shootInfo.domain);
      next := Goto(Update);
    }

    /** Rewrites the shared manifests. */
    method RunUpdate() returns (next: Next)
      requires Valid()
      modifies this`world, this`memory, manifests
      ensures Valid() && Updates(old(world), old(memory), world, memory, next)
    {
      var down := Fails();
      if down {
        return StopWithError(ApiFailure);
      }
      var configuration := if world.configured then M.Present else M.Missing;
      var err := manifests.Update(memory.instance.spec, memory.domainName, configuration);
      world := world.(slices := M.Slices(manifests.objs, manifests.deps));
      if err.Some? {
        return StopWithError(ManifestError(err.value));
      }
      next := Goto(Apply);
    }

    method RunApply() returns (next: Next)
      requires Valid()
      modifies this`world, this`memory
      ensures Applies(old(world), old(memory), world, memory, next)
    {
      var objects := manifests.objs + manifests.deps;
      var isError := false;
      var succeeded: seq<bool> := [];
      var observed: seq<V.Observed> := [];
      for k := 0 to |objects|
        invariant world == old(world).(failures := world.failures) && memory == old(memory)
        invariant |succeeded| == |observed| == k
        invariant forall j :: 0 <= j < k ==> observed[j].id == V.IdentityOf(objects[j])
        invariant isError == !AllTrue(succeeded)
        invariant if isError then world.failures > old(world).failures else world.failures == old(world).failures
      {
        var down := Fails();
        if down {
          isError := true;
        }
        var body: V.Body := *;
        observed := observed + [V.Observed(V.IdentityOf(objects[k]), body)];
        ghost var before := succeeded;
        succeeded := succeeded + [!down];
        assert down ==> !succeeded[k];
        assert forall j :: 0 <= j < k ==> succeeded[j] == before[j];
      }
      assert objects == Objects(world.slices);
      memory := memory.(observed := memory.observed + observed);
      Note(Applied(world.slices, succeeded, observed));
      if isError {
        SetStatus(Error, ApplyObjError);
        return StopWithError(InstallationFailed);
      }
      next := Goto(ReconcileOptionalObjects);
    }

    method RunReconcileOptionalObjects() returns (next: Next)
      modifies this`world, this`memory
      ensures ReconcilesOptional(old(world), old(memory), world, memory, next)
    {
      var failed;
      if memory.instance.networkPolicies {
        failed := ApplyPolicies();
      } else {
        failed := RemovePolicies();
      }
      if failed {
        SetStatus(Error, OptionalManifestsErr);
        return StopWithError(InstallationFailed);
      }
      next := Goto(Verify);
    }

    /** Stops at the first error. */
    method ApplyPolicies() returns (failed: bool)
      modifies this`world
      ensures world == old(world).(policies := world.policies, failures := world.failures)
      ensures AppliesPolicies(old(world), world)
      ensures failed <==> world.failures > old(world).failures
    {
      for k := 0 to |world.optional|
        invariant world == old(world).(policies := world.policies)
        invariant world.policies == old(world).policies + NamesOf(old(world).optional[..k])
      {
        var down := Fails();
        if down {
          return true;
        }
        assert old(world).optional[..k + 1] == old(world).optional[..k] + [old(world).optional[k]];
        world := world.(policies := world.policies + {world.optional[k]});
      }
      assert world.optional[..|world.optional|] == world.optional;
      failed := false;
    }

    /** Lists the managed policies and deletes each, going on after errors. */
    method RemovePolicies() returns (failed: bool)
      modifies this`world
      ensures world == old(world).(policies := world.policies, failures := world.failures)
      ensures RemovesPolicies(old(world), world)
      ensures failed <==> world.failures > old(world).failures
    {
      var down := Fails();
      if down {
        return true;
      }
      ghost var stuck;
      failed, stuck := RemoveAll(world.policies);
      AllTried(old(world), world, stuck);
    }

    method RemoveAll(policies: set<string>) returns (failed: bool, ghost stuck: set<string>)
      requires policies == world.policies
      modifies this`world
      ensures AreBeingRemoved(old(world), world, {}, stuck)
      ensures failed <==> stuck != {}
    {
      var rest := policies;
      failed, stuck := false, {};
      NothingRemoved(world);
      hide AreBeingRemoved;
      while rest != {}
        invariant AreBeingRemoved(old(world), world, rest, stuck)
        invariant failed <==> stuck != {}
      {
        var name :| name in rest;
        OneMoreRemoved(old(world), world, rest, stuck, name);
        var down := Fails();
        if down {
          failed := true;
          stuck := stuck + {name};
        } else {
          world := world.(policies := world.policies - {name});
        }
        rest := rest - {name};
      }
    }

    method RunVerify() returns (next: Next)
      modifies this`memory
      ensures Verifies(world, old(memory), world, memory, next)
    {
      var verdict := V.Verify(memory.observed);
      if verdict.Failure? {
        SetStatus(Error, VerificationErr);
        return StopWithError(VerificationFailed);
      }
      Note(Verdict(verdict.value));
      if !verdict.value {
        SetStatus(Processing, Verifying);
        return Goto(UpdateStatus(None, None));
      }
      if memory.instance.status.Some? && memory.instance.status.value.phase.Ready? {
        return Goto(UpdateStatus(Some(RequeueAfter(120)), None));
      }
      SetStatus(Ready, Verified);
      next := Goto(UpdateStatus(Some(RequeueAfter(120)), None));
    }

    /** The dependencies that carry the hook. */
    method FindCarriers() returns (carriers: set<string>)
      ensures carriers == Carriers(world.deps)
    {
      carriers := {};
      var rest := world.deps.Keys;
      while rest != {}
        invariant rest <= world.deps.Keys
        invariant carriers == set k | k in world.deps && k !in rest && HOOK in world.deps[k]
      {
        var name :| name in rest;
        if HOOK in world.deps[name] {
          carriers := carriers + {name};
        }
        rest := rest - {name};
      }
    }

    /** Takes the hook off each, going on after errors: each that keeps it cost one failed call. */
    method ReleaseAll(carriers: set<string>) returns (isError: bool, ghost released: set<string>)
      requires carriers <= Carriers(world.deps)
      modifies this`world
      ensures released <= carriers
      ensures world == old(world).(deps := WithoutHook(old(world).deps, released), failures := world.failures)
      ensures world.failures == old(world).failures + |carriers - released|
      ensures isError <==> released != carriers
    {
      ghost var stuck;
      NothingReleased(world, carriers);
      isError, stuck := ReleaseEach(carriers);
      released := carriers - stuck;
      AllReleased(old(world), world, carriers, stuck);
    }

    method ReleaseEach(carriers: set<string>) returns (isError: bool, ghost stuck: set<string>)
      requires AreBeingReleased(world, world, carriers, carriers, {})
      modifies this`world
      ensures AreBeingReleased(old(world), world, carriers, {}, stuck)
      ensures isError <==> stuck != {}
    {
      hide AreBeingReleased;
      var rest := carriers;
      isError, stuck := false, {};
      while rest != {}
        invariant AreBeingReleased(old(world), world, carriers, rest, stuck)
        invariant isError <==> stuck != {}
      {
        var name :| name in rest;
        OneMoreReleased(old(world), world, carriers, rest, stuck, name);
        var down := ReleaseOne(name);
        rest := rest - {name};
        if down {
          isError := true;
          stuck := stuck + {name};
        }
      }
    }

    method ReleaseOne(name: string) returns (down: bool)
      requires name in world.deps
      modifies this`world
      ensures world == if down then old(world).(failures := old(world).failures + 1)
                       else old(world).(deps := old(world).deps[name := old(world).deps[name] - {HOOK}])
    {
      down := Fails();
      if !down {
        world := world.(deps := world.deps[name := world.deps[name] - {HOOK}]);
      }
    }

    method RunDeleteResources() returns (next: Next)
      modifies this`world, this`memory
      ensures DeletesResources(old(world), old(memory), world, memory, next)
    {
      if !IsDeletionReason(memory.instance.status) {
        SetStatus(Deleting, Deletion);
        return StopWithRequeue();
      }
      var down := Fails();
      if down {
        SetStatus(Error, DeletionErr);
        return StopWithError(ApiFailure);
      }
      var carriers := FindCarriers();
      Note(Listed(carriers));
      if carriers == {} {
        return Goto(CascadeDeletion);
      }
      var isError, released := ReleaseAll(carriers);
      if !isError {
        return StopWithRequeue();
      }
      SetStatus(Error, DeletionErr);
      next := StopWithError(DeletionFailed);
    }

    /** Each deletion overwrites the error of the one before. */
    method RunCascadeDeletion() returns (next: Next)
      requires Valid()
      modifies this`world, this`memory
      ensures Cascades(old(world), old(memory), world, memory, next)
    {
      var err: Option<RunError> := None;
      var attempts: seq<Attempt> := [];
      for k := 0 to |manifests.objs| + |manifests.deps|
        invariant world == old(world).(failures := world.failures) && memory == old(memory)
        invariant |attempts| == k
        invariant err == if k > 0 && attempts[k - 1].Failed? then Some(ApiFailure) else None
        invariant if HasFailed(attempts) then world.failures > old(world).failures
                  else world.failures == old(world).failures
      {
        var down := Fails();
        var there := *;
        var attempt := if down then Failed else if there then Done else NotThere;
        ghost var before := attempts;
        attempts := attempts + [attempt];
        assert attempts[k] == attempt && forall j :: 0 <= j < k ==> attempts[j] == before[j];
        assert HasFailed(attempts) <==> HasFailed(before) || down;
        err := if down then Some(ApiFailure) else None;
      }
      Note(DeletesTried(world.slices, attempts));
      if err.Some? {
        SetStatus(Error, DeletionErr);
        return StopWithError(err.value);
      }
      next := Goto(RemoveFinalizer);
    }

    method RunRemoveFinalizer() returns (next: Next)
      modifies this`world, this`memory
      ensures RemovesFinalizer(old(world), old(memory), world, memory, next)
    {
      var err := WriteFinalizer(false);
      if err.Some? {
        if err.value.Conflict? && world.instance.None? {
          return Stop(None, None);
        }
        return Stop(Some(Requeue), err);
      }
      ghost var w1 := world;
      world := world.(journal := world.journal + [FinalizerRemoved(world.run, memory.log)]);
      assert WritesFinalizer(old(world), old(memory).instance, w1, memory.instance, false);
      next := Stop(None, None);
    }

    method RunUpdateStatus(result: Option<Outcome>, err: Option<RunError>) returns (next: Next)
      modifies this`world, this`memory
      ensures UpdatesStatus(old(world), old(memory), world, memory, next, result, err)
    {
      var down := Fails();
      if down || !IsCurrent(world, memory.instance) {
        var updateErr := if down then ApiFailure else Conflict;
        return Stop(None, if err.None? then Some(updateErr) else err);
      }
      var i := world.instance.value.(status := memory.instance.status, version := |world.versions|);
      world := WithInstance(world, i).(journal := world.journal + [StatusWritten(world.run, i.status, memory.log)]);
      memory := memory.(instance := i);
      next := Goto(EmitEvent(result, err));
    }

    method Execute(f: Fn) returns (next: Next)
      requires Valid()
      modifies this`world, this`memory, manifests
      ensures Valid() && Transition(f, old(world), old(memory), world, memory, next)
    {
      match f
      case TakeSnapshot => next := Goto(CheckDependencies);
      case CheckDependencies => next := RunCheckDependencies();
      case RegisterDependencyWatch => next := RunRegisterDependencyWatch();
      case Initialize => next := RunInitialize();
      case DetectDomain => next := RunDetectDomain();
      case Update => next := RunUpdate();
      case Apply => next := RunApply();
      case ReconcileOptionalObjects => next := RunReconcileOptionalObjects();
      case Verify => next := RunVerify();
      case DeleteResources => next := RunDeleteResources();
      case CascadeDeletion => next := RunCascadeDeletion();
      case RemoveFinalizer => next := RunRemoveFinalizer();
      case UpdateStatus(result, err) => next := RunUpdateStatus(result, err);
      case EmitEvent(result, err) => next := Stop(result, err);
    }

    /**
     One reconciliation of the version `v`: at most ten state functions, whatever the API answers. The context is done
     after `deadline` of them, if ever; only then is the run cancelled.
     */
    method Run(v: Instance, deadline: Option<nat>)
      returns (result: Option<Outcome>, err: Option<RunError>, ghost trace: seq<Config>)
      requires Valid()
      modifies this, manifests
      ensures Valid() && fn.None?
      ensures IsRun(old(world), v, trace, result, err) && trace[|trace| - 1] == Here()
      ensures |trace| - 1 <= 10
      ensures deadline.Some? ==> |trace| - 2 <= deadline.value
      ensures deadline != Some(|trace| - 2) ==> Goes(trace[|trace| - 2], trace[|trace| - 1], Stop(result, err))
      ensures deadline == Some(|trace| - 2) ==>
                err == Some(Cancelled) && trace[|trace| - 1].world == trace[|trace| - 2].world
    {
      fn := Some(TakeSnapshot);
      memory := Memory(v, [], "", [Read(v)]);
      world := world.(run := world.run + 1);
      trace := [Here()];
      var executed := 0;
      while true
        invariant Valid() && fn.Some?
        invariant |trace| > 0 && trace[0] == Start(old(world), v) && trace[|trace| - 1] == Here()
        invariant AreSteps(trace) && executed == |trace| - 1
        invariant |trace| + Rank(fn.value) <= 11
        invariant deadline.Some? ==> |trace| - 1 <= deadline.value
        decreases Rank(fn.value)
      {
        assert (trace + [Here()])[..|trace|] == trace;
        ghost var before := trace;
        if deadline == Some(executed) {
          fn := None;
          trace := trace + [Here()];
          return None, Some(Cancelled), trace;
        }
        ghost var here := Here();
        ghost var f := fn.value;
        var next := Execute(fn.value);
        executed := executed + 1;
        if next.Stop? {
          fn := None;
          trace := trace + [Here()];
          assert trace[..|trace| - 1] == before;
          assert Goes(here, Here(), next);
          return next.result, next.err, trace;
        }
        RankDecreases(f, here.world, here.memory, world, memory, next);
        fn := Some(next.fn);
        assert Goes(here, Here(), next);
        trace := trace + [Here()];
      }
    }
  }
}
