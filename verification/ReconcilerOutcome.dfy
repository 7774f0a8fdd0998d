/**
 What a run does to the cluster and to the status, told by its trace: from the version it read and the cluster it found,
 and without the relations of the state functions.
 */
module ReconcilerOutcome {
  import opened Wrappers
  import opened Reconciler
  import opened ReconcilerRun
  import M = Manifests
  import V = Verification

  // ---------------------------------------------------------------- along a run

  /** The state functions before the status is chosen; they hold the version that was read. */
  predicate IsWorking(fn: Fn) {
    !fn.UpdateStatus? && !fn.EmitEvent?
  }

  /** The domain that the manifests are for: that of the specification, or else that of the cluster. */
  predicate IsDomainOf(w: World, read: Instance, domain: string) {
    if read.spec.domainName != "" then domain == read.spec.domainName
    else w.shootInfo.WithDomain? && domain == w.shootInfo.domain
  }

  ghost predicate AreWritten(w: World, slices: M.Slices, read: Instance) {
    exists domain: string ::
      IsDomainOf(w, read, domain) && M.Says(slices, read.spec, domain, if w.configured then 1 else 0)
  }

  /** What a run has at a state function, from the world `w` and the version `read` it started with. */
  ghost predicate IsOnWay(w: World, read: Instance, c: Config) {
    && c.world.optional == w.optional && c.world.shootInfo == w.shootInfo && c.world.configured == w.configured
    && (c.fn.Some? && IsWorking(c.fn.value) ==> c.memory.instance == read)
    && (c.fn == Some(DetectDomain) || c.fn == Some(Update) ==> !read.deleting && read.finalizer)
    && (c.fn.Some? && !c.fn.value.Update? && IsWorking(c.fn.value) && !IsInstalling(c.fn.value) ==>
          c.memory.domainName == "")
    && (c.fn == Some(Update) ==>
          if read.spec.domainName != "" then c.memory.domainName == ""
          else w.shootInfo.WithDomain? && c.memory.domainName == w.shootInfo.domain)
    && (c.fn.Some? && IsInstalling(c.fn.value) ==> AreWritten(w, c.world.slices, read))
  }

  lemma UpdateWrites(w: World, read: Instance, c: Config, c': Config, next: Next)
    requires IsOnWay(w, read, c) && c.fn == Some(Update) && Goes(c, c', next)
    ensures IsOnWay(w, read, c')
  {
    hide M.Pass, M.Says;
    var t := TargetOf(c.world, c.memory);
    var pass := M.Pass(t, c.world.slices, |M.STAGES|);
    if next == Goto(Apply) && pass.1.None? {
      M.PassSays(t, c.world.slices);
      TargetSays(c.memory.domainName, read, pass.0, if w.configured then 1 else 0);
      assert IsDomainOf(w, read, t.spec.domainName);
      assert AreWritten(w, pass.0, read);
    }
  }

  lemma TargetSays(detected: string, read: Instance, m: M.Slices, replicas: nat)
    requires M.Says(m, M.ApplyDefaults(read.spec, detected), M.ApplyDefaults(read.spec, detected).domainName, replicas)
    ensures M.Says(m, read.spec, M.ApplyDefaults(read.spec, detected).domainName, replicas)
  {
    hide M.SaysOfAgent, M.SaysOfHosts, M.IsComponent, M.HasArg, M.HasEnv;
  }

  predicate IsBeginning(fn: Fn) {
    fn.TakeSnapshot? || fn.CheckDependencies? || fn.RegisterDependencyWatch? || fn.Initialize? || fn.DetectDomain?
  }

  predicate IsInstalling(fn: Fn) {
    fn.Apply? || fn.ReconcileOptionalObjects? || fn.Verify?
  }

  predicate IsDeleting(fn: Fn) {
    fn.DeleteResources? || fn.CascadeDeletion? || fn.RemoveFinalizer?
  }

  predicate IsEnding(fn: Fn) {
    fn.UpdateStatus? || fn.EmitEvent?
  }

  lemma StaysBeginning(w: World, read: Instance, c: Config, c': Config, next: Next)
    requires IsOnWay(w, read, c)
    requires c.fn.Some? && IsBeginning(c.fn.value) && Goes(c, c', next)
    ensures IsOnWay(w, read, c')
  {
    hide Updates, Applies, ReconcilesOptional, Verifies, DeletesResources, Cascades, RemovesFinalizer, UpdatesStatus,
         EmitsEvent, M.Pass, M.Says, AreWritten, AppliesPolicies, RemovesPolicies, WithoutHook, AreServed, AreOf,
         AllTrue;
  }

  lemma StaysInstalling(w: World, read: Instance, c: Config, c': Config, next: Next)
    requires IsOnWay(w, read, c)
    requires c.fn.Some? && IsInstalling(c.fn.value) && Goes(c, c', next)
    ensures IsOnWay(w, read, c')
  {
    hide TakesSnapshot, ChecksDependencies, RegistersWatch, Initializes, DetectsDomain, Updates, DeletesResources,
         Cascades, RemovesFinalizer, UpdatesStatus, EmitsEvent, M.Pass, M.Says, AreWritten, AppliesPolicies,
         RemovesPolicies, WithoutHook, AreServed, AreOf, AllTrue;
  }

  lemma StaysDeleting(w: World, read: Instance, c: Config, c': Config, next: Next)
    requires IsOnWay(w, read, c)
    requires c.fn.Some? && IsDeleting(c.fn.value) && Goes(c, c', next)
    ensures IsOnWay(w, read, c')
  {
    hide TakesSnapshot, ChecksDependencies, RegistersWatch, Initializes, DetectsDomain, Updates, Applies,
         ReconcilesOptional, Verifies, UpdatesStatus, EmitsEvent, M.Pass, M.Says, AreWritten, AppliesPolicies,
         RemovesPolicies, WithoutHook, AreServed, AreOf, AllTrue, Carriers, HasFailed, WithStatus, IsDomainOf,
         IsDeletionReason;
  }

  lemma StaysEnding(w: World, read: Instance, c: Config, c': Config, next: Next)
    requires IsOnWay(w, read, c)
    requires c.fn.Some? && IsEnding(c.fn.value) && Goes(c, c', next)
    ensures IsOnWay(w, read, c')
  {
    hide TakesSnapshot, ChecksDependencies, RegistersWatch, Initializes, DetectsDomain, Updates, Applies,
         ReconcilesOptional, Verifies, DeletesResources, Cascades, RemovesFinalizer, M.Pass, M.Says, AreWritten,
         AppliesPolicies, RemovesPolicies, WithoutHook, AreServed, AreOf, AllTrue;
  }

  lemma OtherStepsStay(w: World, read: Instance, c: Config, c': Config, next: Next)
    requires IsOnWay(w, read, c) && c.fn.Some? && !c.fn.value.Update? && Goes(c, c', next)
    ensures IsOnWay(w, read, c')
  {
    hide IsOnWay, Goes;
    var fn := c.fn.value;
    if IsBeginning(fn) {
      StaysBeginning(w, read, c, c', next);
    } else if IsInstalling(fn) {
      StaysInstalling(w, read, c, c', next);
    } else if IsDeleting(fn) {
      StaysDeleting(w, read, c, c', next);
    } else {
      StaysEnding(w, read, c, c', next);
    }
  }

  lemma StepStaysOnWay(w: World, read: Instance, c: Config, c': Config)
    requires IsOnWay(w, read, c) && IsStep(c, c')
    ensures IsOnWay(w, read, c')
  {
    hide IsOnWay, Transition;
    var next: Next :| Goes(c, c', next) && next.Goto?;
    if c.fn == Some(Update) {
      UpdateWrites(w, read, c, c', next);
    } else {
      OtherStepsStay(w, read, c, c', next);
    }
  }

  lemma StartsOnWay(w: World, read: Instance)
    ensures IsOnWay(w, read, Start(w, read))
  {
  }

  lemma {:induction false} RunStaysOnWay(w: World, read: Instance, trace: seq<Config>, k: nat)
    requires |trace| > 0 && trace[0] == Start(w, read) && AreSteps(trace) && k < |trace|
    ensures IsOnWay(w, read, trace[k])
  {
    hide IsOnWay, IsStep;
    if k == 0 {
      StartsOnWay(w, read);
    } else {
      RunStaysOnWay(w, read, trace, k - 1);
      assert IsStep(trace[k - 1], trace[k - 1 + 1]);
      StepStaysOnWay(w, read, trace[k - 1], trace[k]);
    }
  }

  /** The transition that a run made at a point before its end. */
  lemma PointOfRun(w: World, read: Instance, trace: seq<Config>, result: Option<Outcome>, err: Option<RunError>, k: nat)
    requires IsRun(w, read, trace, result, err) && k < |trace| - 2
    ensures IsOnWay(w, read, trace[k]) && IsOnWay(w, read, trace[k + 1])
    ensures exists next: Next :: Goes(trace[k], trace[k + 1], next) && next.Goto?
  {
    hide IsOnWay, Transition;
    var steps := trace[..|trace| - 1];
    RunStaysOnWay(w, read, steps, k);
    RunStaysOnWay(w, read, steps, k + 1);
    assert IsStep(steps[k], steps[k + 1]);
  }

  // ---------------------------------------------------------------- what is applied

  /**
   Objects are applied only after the manifests say, word for word, what the version that was read asks, with its own
   domain or, if it has none, that of the cluster, and with an agent that runs exactly when it is configured.
   */
  lemma AppliedManifests(w: World, read: Instance, trace: seq<Config>, result: Option<Outcome>, err: Option<RunError>,
                         k: nat)
    requires IsRun(w, read, trace, result, err) && k < |trace| - 2 && trace[k].fn == Some(Apply)
    ensures exists domain: string ::
              && IsDomainOf(w, read, domain)
              && M.Says(trace[k].world.slices, read.spec, domain, if w.configured then 1 else 0)
  {
    PointOfRun(w, read, trace, result, err, k);
    hide M.Says;
  }

  /** No state function but one changes the optional policies. */
  lemma OnlyOneChangesPolicies(c: Config, c': Config, next: Next)
    requires Goes(c, c', next) && !c.fn.value.ReconcileOptionalObjects?
    ensures c'.world.policies == c.world.policies
  {
    hide M.Pass, WithoutHook, AreServed, AreOf, AllTrue;
  }

  /**
   Where a run goes on from the optional objects, every policy of the module is there if the version that was read
   enables them, beside those that were there before, and none is left otherwise. Where it stops there, it has only
   added optional policies, or only removed policies.
   */
  lemma PoliciesFollow(w: World, read: Instance, trace: seq<Config>, result: Option<Outcome>, err: Option<RunError>,
                       k: nat)
    requires IsRun(w, read, trace, result, err) && k < |trace| - 2 && trace[k].fn == Some(ReconcileOptionalObjects)
    ensures var before, after := trace[k].world.policies, trace[k + 1].world.policies;
            && (trace[k + 1].fn == Some(Verify) ==>
                  if read.networkPolicies then forall n :: n in after <==> n in before || n in w.optional
                  else after == {})
            && (trace[k + 1].fn != Some(Verify) ==>
                  if read.networkPolicies then
                    forall n :: (n in before ==> n in after) && (n in after ==> n in before || n in w.optional)
                  else after <= before)
  {
    PointOfRun(w, read, trace, result, err, k);
    var next: Next :| Goes(trace[k], trace[k + 1], next) && next.Goto?;
    PoliciesOfStep(w, read, trace[k], trace[k + 1], next);
  }

  lemma PoliciesOfStep(w: World, read: Instance, c: Config, c': Config, next: Next)
    requires IsOnWay(w, read, c) && c.fn == Some(ReconcileOptionalObjects) && Goes(c, c', next)
    ensures c'.fn == Some(Verify) ==>
              if read.networkPolicies then
                forall n :: n in c'.world.policies <==> n in c.world.policies || n in w.optional
              else c'.world.policies == {}
    ensures c'.fn != Some(Verify) ==>
              if read.networkPolicies then
                forall n :: && (n in c.world.policies ==> n in c'.world.policies)
                            && (n in c'.world.policies ==> n in c.world.policies || n in w.optional)
              else c'.world.policies <= c.world.policies
  {
    hide AreWritten, M.Says;
  }

  /** No finalizer of a gateway or a virtual service ever goes but the deletion hook, and no state function adds one. */
  lemma OnlyTheHookGoes(c: Config, c': Config, next: Next)
    requires Goes(c, c', next)
    ensures c'.world.deps.Keys == c.world.deps.Keys
    ensures forall d :: d in c.world.deps ==>
              && c'.world.deps[d] <= c.world.deps[d]
              && c.world.deps[d] - c'.world.deps[d] <= {"application-connector-manager.kyma-project.io/deletion-hook"}
              && (!c.fn.value.DeleteResources? ==> c'.world.deps[d] == c.world.deps[d])
  {
    if c.fn.value.DeleteResources? {
      HookGoes(c.world, c.memory, c'.world, c'.memory, next);
      hide Goes;
    } else {
      OthersKeepDependencies(c, c', next);
    }
  }

  lemma OthersKeepDependencies(c: Config, c': Config, next: Next)
    requires Goes(c, c', next) && !c.fn.value.DeleteResources?
    ensures c'.world.deps == c.world.deps
  {
    hide M.Pass, AreServed, AreOf, AllTrue, AppliesPolicies, RemovesPolicies, DeletesResources, WithStatus;
  }

  lemma HookGoes(w: World, s: Memory, w': World, s': Memory, next: Next)
    requires DeletesResources(w, s, w', s', next)
    ensures w'.deps == w.deps || exists released: set<string> :: w'.deps == WithoutHook(w.deps, released)
  {
    hide WithoutHook, Carriers;
  }

  // ---------------------------------------------------------------- the status

  /**
   What a run chooses to report, at the state function that chooses the status. An error in the manifests or in
   detecting the domain leaves the status as it was.
   */
  ghost predicate TellsOutcome(read: Instance, c: Config) {
    match c.fn
    case Some(UpdateStatus(result, Some(e))) =>
      && result.None?
      && (match e
          case VerificationFailed => c.memory.instance.status == Some(Status(Error, VerificationErr))
          case WatchFailure => c.memory.instance.status == Some(Status(Error, ApplyObjError))
          case InstallationFailed =>
            c.memory.instance.status in {Some(Status(Error, ApplyObjError)), Some(Status(Error, OptionalManifestsErr))}
          case DeletionFailed => c.memory.instance.status == Some(Status(Error, DeletionErr))
          case DomainNotDetected => c.memory.instance.status == read.status
          case ManifestError(_) => c.memory.instance.status == read.status
          case ApiFailure =>
            c.memory.instance.status
            in {read.status, Some(Status(Error, ApplyObjError)), Some(Status(Error, DeletionErr))}
          case Conflict => c.memory.instance.status == read.status
          case _ => false)
    case Some(UpdateStatus(None, None)) => c.memory.instance.status == Some(Status(Processing, Verifying))
    case Some(UpdateStatus(Some(Requeue), None)) =>
      c.memory.instance.status in {read.status, Some(Status(Processing, Initialized)), Some(Status(Deleting, Deletion))}
    case Some(UpdateStatus(Some(RequeueAfter(seconds)), None)) =>
      if seconds == 10 then c.memory.instance.status == Some(Status(Error, ApplyObjError))
      else
        && seconds == 120 && c.memory.instance.status.Some? && c.memory.instance.status.value.phase.Ready?
        && (c.memory.instance.status == read.status || c.memory.instance.status == Some(Status(Ready, Verified)))
    case _ => true
  }

  lemma StatusTellsOutcome(w: World, read: Instance, trace: seq<Config>, result: Option<Outcome>, err: Option<RunError>,
                           k: nat)
    requires IsRun(w, read, trace, result, err) && k < |trace| - 1
    ensures TellsOutcome(read, trace[k])
  {
    if k == 0 {
      return;
    }
    PointOfRun(w, read, trace, result, err, k - 1);
    var next: Next :| Goes(trace[k - 1], trace[k], next) && next.Goto?;
    ChosenStatus(w, read, trace[k - 1], trace[k], next);
  }

  lemma TellsBeginning(w: World, read: Instance, c: Config, c': Config, next: Next)
    requires IsOnWay(w, read, c)
    requires c.fn.Some? && IsBeginning(c.fn.value) && Goes(c, c', next) && next.Goto?
    ensures TellsOutcome(read, c')
  {
    hide Updates, Applies, ReconcilesOptional, Verifies, DeletesResources, Cascades, RemovesFinalizer, UpdatesStatus,
         EmitsEvent, M.Pass, M.Says, AreWritten, AppliesPolicies, RemovesPolicies, WithoutHook, AreServed, AreOf,
         AllTrue, Carriers;
  }

  lemma TellsInstalling(w: World, read: Instance, c: Config, c': Config, next: Next)
    requires IsOnWay(w, read, c)
    requires c.fn.Some? && IsInstalling(c.fn.value) && Goes(c, c', next) && next.Goto?
    ensures TellsOutcome(read, c')
  {
    hide TakesSnapshot, ChecksDependencies, RegistersWatch, Initializes, DetectsDomain, Updates, DeletesResources,
         Cascades, RemovesFinalizer, UpdatesStatus, EmitsEvent, M.Pass, M.Says, AreWritten, AppliesPolicies,
         RemovesPolicies, WithoutHook, AreServed, AreOf, AllTrue, Carriers;
  }

  lemma TellsDeleting(w: World, read: Instance, c: Config, c': Config, next: Next)
    requires IsOnWay(w, read, c)
    requires c.fn.Some? && IsDeleting(c.fn.value) && Goes(c, c', next) && next.Goto?
    ensures TellsOutcome(read, c')
  {
    hide TakesSnapshot, ChecksDependencies, RegistersWatch, Initializes, DetectsDomain, Updates, Applies,
         ReconcilesOptional, Verifies, UpdatesStatus, EmitsEvent, M.Pass, M.Says, AreWritten, AppliesPolicies,
         RemovesPolicies, WithoutHook, AreServed, AreOf, AllTrue, Carriers;
  }

  lemma TellsEnding(w: World, read: Instance, c: Config, c': Config, next: Next)
    requires IsOnWay(w, read, c)
    requires c.fn.Some? && IsEnding(c.fn.value) && Goes(c, c', next) && next.Goto?
    ensures TellsOutcome(read, c')
  {
    hide TakesSnapshot, ChecksDependencies, RegistersWatch, Initializes, DetectsDomain, Updates, Applies,
         ReconcilesOptional, Verifies, DeletesResources, Cascades, RemovesFinalizer, M.Pass, M.Says, AreWritten,
         AppliesPolicies, RemovesPolicies, WithoutHook, AreServed, AreOf, AllTrue, Carriers;
  }

  lemma TellsUpdate(w: World, read: Instance, c: Config, c': Config, next: Next)
    requires IsOnWay(w, read, c) && c.fn == Some(Update) && Goes(c, c', next) && next.Goto?
    ensures TellsOutcome(read, c')
  {
    hide M.Pass, M.Says, AreWritten;
  }

  lemma ChosenStatus(w: World, read: Instance, c: Config, c': Config, next: Next)
    requires IsOnWay(w, read, c) && Goes(c, c', next) && next.Goto?
    ensures TellsOutcome(read, c')
  {
    hide IsOnWay, Transition, TellsOutcome;
    var fn := c.fn.value;
    if IsBeginning(fn) {
      TellsBeginning(w, read, c, c', next);
    } else if IsInstalling(fn) {
      TellsInstalling(w, read, c, c', next);
    } else if IsDeleting(fn) {
      TellsDeleting(w, read, c, c', next);
    } else if fn.Update? {
      TellsUpdate(w, read, c, c', next);
    } else {
      TellsEnding(w, read, c, c', next);
    }
  }

  // ---------------------------------------------------------------- where a run turns

  /**
   The version that was read decides: one without the finalizer that is not being deleted gets it, one with it is
   installed or deleted, and for one that is being deleted without it nothing is left to do.
   */
  lemma ReadDecides(w: World, read: Instance, trace: seq<Config>, result: Option<Outcome>, err: Option<RunError>,
                    k: nat)
    requires IsRun(w, read, trace, result, err) && k < |trace| - 1 && trace[k].fn == Some(Initialize)
    requires !(k == |trace| - 2 && err == Some(Cancelled))
    ensures match (read.deleting, read.finalizer)
            case (false, true) => trace[k + 1].fn == Some(DetectDomain)
            case (true, true) => trace[k + 1].fn == Some(DeleteResources)
            case (true, false) =>
              && k == |trace| - 2 && result.None? && err.None? && trace[k + 1].world == trace[k].world
            case (false, false) =>
              if trace[k + 1].fn == Some(UpdateStatus(Some(Requeue), None)) then
                && trace[k + 1].world.instance.Some? && trace[k + 1].world.instance.value.finalizer
                && trace[k + 1].memory.instance.status == Some(Status(Processing, Initialized))
              else trace[k + 1].world.instance == trace[k].world.instance
  {
    RunStaysOnWay(w, read, trace[..|trace| - 1], k);
    assert trace[..|trace| - 1][k] == trace[k];
    if k < |trace| - 2 {
      PointOfRun(w, read, trace, result, err, k);
    }
    hide IsOnWay, AreWritten;
    assert IsOnWay(w, read, trace[k]);
    assert trace[k].memory.instance == read by { HoldsRead(w, read, trace[k]); }
  }

  lemma HoldsRead(w: World, read: Instance, c: Config)
    requires IsOnWay(w, read, c) && c.fn.Some? && IsWorking(c.fn.value)
    ensures c.memory.instance == read
  {
  }

  /** What the API server answered decides: the run reports an error, waits for the next event, or is ready. */
  lemma VerdictDecides(w: World, read: Instance, trace: seq<Config>, result: Option<Outcome>, err: Option<RunError>,
                       k: nat)
    requires IsRun(w, read, trace, result, err) && k < |trace| - 2 && trace[k].fn == Some(Verify)
    ensures trace[k + 1].fn
            == Some(if !V.AllConvertible(trace[k].memory.observed) then UpdateStatus(None, Some(VerificationFailed))
                    else if !V.IsInventoryReady(trace[k].memory.observed) then UpdateStatus(None, None)
                    else UpdateStatus(Some(RequeueAfter(120)), None))
  {
    PointOfRun(w, read, trace, result, err, k);
    hide IsOnWay, V.AllConvertible, V.IsInventoryReady;
  }

  /**
   The last step of a deletion: a resource that is gone is no error, the version that was read loses its finalizer, and
   otherwise the run comes back with an error and leaves the resource as it is.
   */
  lemma RemovalDecides(c: Config, c': Config, next: Next)
    requires Goes(c, c', next) && c.fn == Some(RemoveFinalizer) && c'.world.failures == c.world.failures
    ensures if c.world.instance.None? then next == Stop(None, None) && c'.world == c.world
            else if c.world.instance.value.version == c.memory.instance.version then
              && next == Stop(None, None) && c'.world.instance.Some?
              && c'.world.instance.value.version == |c.world.versions|
              && c'.world.instance.value
                 == c.world.instance.value.(finalizer := false, version := |c.world.versions|)
            else next.Stop? && next.result == Some(Requeue) && next.err.Some? && c'.world == c.world
  {
  }

  /** The dependencies count as watched only when a watch was registered for each of them. */
  lemma AcknowledgedMeansWatched(c: Config, c': Config, next: Next)
    requires Goes(c, c', next) && c'.world.acknowledged && !c.world.acknowledged
    ensures c.fn == Some(RegisterDependencyWatch) && forall o <- c.world.slices.deps :: o in c'.world.watched
  {
    hide M.Pass, AreServed, AreOf, AllTrue, AppliesPolicies, RemovesPolicies, WithoutHook, WithStatus, Carriers;
  }
}
