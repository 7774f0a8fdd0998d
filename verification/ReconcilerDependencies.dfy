/** What happens while Istio is not served (pkg/reconciler/check_dependencies.go): deletion waits for it, too. */
module ReconcilerDependencies {
  import opened Wrappers
  import opened Reconciler
  import opened ReconcilerRun
  import opened ReconcilerSafety
  import opened ReconcilerProgress
  import M = Manifests

  // ---------------------------------------------------------------- whole behaviours

  /** No run is under way, or the one that is has not passed the check of the dependencies, or is about to end. */
  predicate IsBeforeCheck(fn: Option<Fn>) {
    fn.Some? ==>
      fn.value.TakeSnapshot? || fn.value.CheckDependencies? || fn.value.UpdateStatus? || fn.value.EmitEvent?
  }

  predicate HasFinalizer(w: World) {
    w.instance.Some? && w.instance.value.finalizer
  }

  /** Only writes of the status were added. */
  ghost predicate OnlyStatusAdded(before: seq<Entry>, after: seq<Entry>) {
    before <= after && forall k :: |before| <= k < |after| ==> after[k].StatusWritten?
  }

  lemma UnservedStep(shipped: M.Slices, c: Config, c': Config)
    requires Moves(shipped, c, c') && !AreServed(c.world.crds) && IsBeforeCheck(c.fn) && HasFinalizer(c.world)
    ensures IsBeforeCheck(c'.fn) && HasFinalizer(c'.world)
    ensures OnlyStatusAdded(c.world.journal, c'.world.journal)
  {
    hide AreServed;
    if next: Next :| Goes(c, c', next) {
      UnservedTransition(c, c', next);
    }
  }

  lemma UnservedTransition(c: Config, c': Config, next: Next)
    requires Goes(c, c', next) && !AreServed(c.world.crds) && IsBeforeCheck(c.fn) && HasFinalizer(c.world)
    ensures IsBeforeCheck(c'.fn) && HasFinalizer(c'.world)
    ensures OnlyStatusAdded(c.world.journal, c'.world.journal)
  {
    hide AreServed, RegistersWatch, Initializes, DetectsDomain, Updates, Applies, ReconcilesOptional, Verifies,
         DeletesResources, Cascades, RemovesFinalizer;
  }

  /**
   While Istio is not served the finalizer stays, whatever users, failures and restarts do: from any point at which no
   run is past the check of the dependencies, nothing but the status is written.
   */
  lemma {:induction false} UnservedKeepsFinalizer(shipped: M.Slices, cs: seq<Config>, i: nat, k: nat)
    requires IsBehaviour(shipped, cs) && i <= k < |cs|
    requires forall m :: i <= m < k ==> !AreServed(cs[m].world.crds)
    requires IsBeforeCheck(cs[i].fn) && HasFinalizer(cs[i].world)
    ensures IsBeforeCheck(cs[k].fn) && HasFinalizer(cs[k].world)
    ensures OnlyStatusAdded(cs[i].world.journal, cs[k].world.journal)
    decreases k
  {
    hide Moves, AreServed, HasFinalizer, IsBeforeCheck, IsInitial;
    if i < k {
      UnservedKeepsFinalizer(shipped, cs, i, k - 1);
      assert Moves(shipped, cs[k - 1], cs[k - 1 + 1]);
      UnservedStep(shipped, cs[k - 1], cs[k]);
    }
  }

  // ---------------------------------------------------------------- one run

  const WAITING := Some(Status(Error, ApplyObjError))

  /** The resource after the run: only its status has changed. */
  function Waiting(w: World): Instance
    requires w.instance.Some?
  {
    w.instance.value.(status := WAITING, version := |w.versions|)
  }

  /** A point of a run on the current version that finds no Istio. */
  ghost predicate IsWaiting(w0: World, c: Config)
    requires w0.instance.Some?
  {
    c.fn.Some? ==>
      var begun := c.world == w0.(run := w0.run + 1);
      match c.fn.value
      case TakeSnapshot => begun && c.memory.instance == w0.instance.value
      case CheckDependencies => begun && c.memory.instance == w0.instance.value
      case UpdateStatus(result, err) =>
        begun && c.memory.instance == w0.instance.value.(status := WAITING)
        && result == Some(RequeueAfter(10)) && err.None?
      case EmitEvent(result, err) =>
        && c.world.instance == Some(Waiting(w0)) && c.world.deps == w0.deps
        && c.world.acknowledged == w0.acknowledged
        && result == Some(RequeueAfter(10)) && err.None?
      case _ => false
  }

  lemma WaitingStep(w0: World, c: Config, c': Config, next: Next)
    requires w0.instance.Some? && !AreServed(w0.crds) && IsWaiting(w0, c)
    requires Goes(c, c', next) && c'.world.failures == c.world.failures
    ensures IsWaiting(w0, c')
    ensures next.Stop? ==> next == Stop(Some(RequeueAfter(10)), None)
                           && c'.world.instance == Some(Waiting(w0)) && c'.world.deps == w0.deps
                           && c'.world.acknowledged == w0.acknowledged
  {
    hide AreServed, RegistersWatch, Initializes, DetectsDomain, Updates, Applies, ReconcilesOptional, Verifies,
         DeletesResources, Cascades, RemovesFinalizer;
  }

  lemma {:induction false} PrefixWaits(w0: World, trace: seq<Config>, k: nat)
    requires w0.instance.Some? && !AreServed(w0.crds) && |trace| > 0 && trace[0] == Start(w0, w0.instance.value)
    requires AreSteps(trace) && k < |trace| && trace[|trace| - 1].world.failures == w0.failures
    ensures IsWaiting(w0, trace[k]) && trace[k].world.failures == w0.failures
  {
    hide AreServed, Transition, IsWaiting;
    FailuresAlong(trace, k);
    if k == 0 {
      assert IsWaiting(w0, trace[0]) by { StartWaits(w0); }
    } else {
      PrefixWaits(w0, trace, k - 1);
      assert IsStep(trace[k - 1], trace[k - 1 + 1]);
      var next: Next :| Goes(trace[k - 1], trace[k], next) && next.Goto?;
      WaitingStep(w0, trace[k - 1], trace[k], next);
    }
  }

  lemma StartWaits(w0: World)
    requires w0.instance.Some?
    ensures IsWaiting(w0, Start(w0, w0.instance.value))
  {
  }

  /** An undisturbed run without Istio comes back after ten seconds, and changes nothing but the status. */
  lemma UnservedRunWaits(w: World, w': World, trace: seq<Config>, result: Option<Outcome>, err: Option<RunError>)
    requires IsUndisturbed(w, w', trace, result, err) && !AreServed(w.crds)
    ensures result == Some(RequeueAfter(10)) && err == None
    ensures w'.instance == Some(Waiting(w)) && w'.deps == w.deps && w'.acknowledged == w.acknowledged
  {
    hide AreServed, Transition, IsWaiting;
    var n := |trace|;
    var steps := trace[..n - 1];
    assert steps[n - 2] == trace[n - 2];
    var c, c' := trace[n - 2], trace[n - 1];
    assert Goes(c, c', Stop(result, err));
    FailuresOnlyGrow(c.fn.value, c.world, c.memory, c'.world, c'.memory, Stop(result, err));
    FailuresAlong(steps, n - 2);
    PrefixWaits(w, steps, n - 2);
    WaitingStep(w, c, c', Stop(result, err));
  }

  /**
   An undisturbed run of a deletion does one of the things left to do exactly when Istio is served. Otherwise it sets
   the deletion back when the condition was persisted, which the status without Istio overwrites.
   */
  lemma DeletionNeedsIstio(w: World, w': World)
    requires HasFinalizer(w) && w.instance.value.deleting && FollowsUndisturbed(w, w')
    ensures w'.instance.Some?
    ensures AreServed(w.crds) ==>
              if Remaining(w) == 1 then !HasFinalizer(w') else HasFinalizer(w') && Remaining(w') == Remaining(w) - 1
    ensures !AreServed(w.crds) ==>
              && HasFinalizer(w') && w'.instance.value.deleting
              && Remaining(w') == Remaining(w) + (if IsDeletionReason(w.instance.value.status) then 1 else 0)
  {
    hide AreServed, IsUndisturbed;
    if AreServed(w.crds) {
      NextIsOneLess(w, w');
    } else {
      var trace: seq<Config>, result: Option<Outcome>, err: Option<RunError> :|
        IsUndisturbed(w, w', trace, result, err);
      UnservedRunWaits(w, w', trace, result, err);
    }
  }
}
