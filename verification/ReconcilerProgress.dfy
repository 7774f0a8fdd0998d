/** What a run hands over to its caller, and how many runs a deletion takes. */
module ReconcilerProgress {
  import opened Wrappers
  import opened Reconciler
  import opened ReconcilerRun

  // ---------------------------------------------------------------- hand-over

  /** The status of the memory was persisted. */
  ghost predicate PersistsStatus(c: Config, c': Config) {
    && c'.world.instance.Some? && c'.world.instance.value.status == c.memory.instance.status
    && c'.world.journal == c.world.journal + [StatusWritten(c.world.run, c.memory.instance.status, c.memory.log)]
  }

  /** Only a status that was persisted leads to the event, with the same result and error. */
  lemma EventFollowsStatus(c: Config, c': Config, next: Next, result: Option<Outcome>, err: Option<RunError>)
    requires Goes(c, c', next) && next == Goto(EmitEvent(result, err))
    ensures c.fn == Some(UpdateStatus(result, err)) && PersistsStatus(c, c')
  {
    OnlyStatusEmits(c.fn.value, c.world, c.memory, c'.world, c'.memory, next);
  }

  lemma OnlyStatusEmits(fn: Fn, w: World, s: Memory, w': World, s': Memory, next: Next)
    requires Transition(fn, w, s, w', s', next) && next.Goto? && next.fn.EmitEvent?
    ensures fn.UpdateStatus?
  {
  }

  /** How a run can end. */
  datatype Ending = WithStatus | WithoutStatus | WithoutWork | WithoutFinalizer | ByCancellation

  /** Four state functions can stop a run, each in its own way. */
  lemma WhoStops(c: Config, c': Config, result: Option<Outcome>, err: Option<RunError>)
    requires Goes(c, c', Stop(result, err))
    ensures match c.fn.value
            case UpdateStatus(_, chosen) =>
              && result == None && c'.world.instance == c.world.instance
              && (if chosen.Some? then err == chosen else err == Some(ApiFailure) || err == Some(Conflict))
            case Initialize => result == None && err == None && c'.world == c.world
            case RemoveFinalizer =>
              && (err.None? ==> result == None && (c'.world.instance.None? || !c'.world.instance.value.finalizer))
              && (err.Some? ==> result == Some(Requeue) && c'.world.instance == c.world.instance)
            case EmitEvent(chosen, error) => chosen == result && error == err && c'.world == c.world
            case _ => false
  {
  }

  /**
   A run hands over what its last state function chose. With the status persisted the caller gets exactly the chosen
   result and error; if that write failed, no result, and the error that was chosen before wins over that of the write.
   */
  lemma HandOver(w: World, read: Instance, trace: seq<Config>, result: Option<Outcome>, err: Option<RunError>)
    returns (e: Ending)
    requires IsRun(w, read, trace, result, err)
    ensures var n := |trace|;
            match e
            case WithStatus =>
              && n >= 3 && trace[n - 3].fn == Some(UpdateStatus(result, err))
              && PersistsStatus(trace[n - 3], trace[n - 2])
              && trace[n - 1].world == trace[n - 2].world
            case WithoutStatus =>
              && trace[n - 2].fn.Some? && trace[n - 2].fn.value.UpdateStatus?
              && result == None && err.Some?
              && (trace[n - 2].fn.value.err.Some? ==> err == trace[n - 2].fn.value.err)
              && (trace[n - 2].fn.value.err.None? ==> err == Some(ApiFailure) || err == Some(Conflict))
              && trace[n - 1].world.instance == trace[n - 2].world.instance
            case WithoutWork =>
              trace[n - 2].fn == Some(Initialize) && result == None && err == None
              && trace[n - 1].world == trace[n - 2].world
            case WithoutFinalizer =>
              && trace[n - 2].fn == Some(RemoveFinalizer)
              && (err.None? ==> result == None
                                && (trace[n - 1].world.instance.None? || !trace[n - 1].world.instance.value.finalizer))
              && (err.Some? ==> result == Some(Requeue) && trace[n - 1].world.instance == trace[n - 2].world.instance)
            case ByCancellation =>
              result == None && err == Some(Cancelled)
  {
    hide Transition, UpdatesStatus, Initializes, RemovesFinalizer;
    var n := |trace|;
    var c, c' := trace[n - 2], trace[n - 1];
    if c' == c.(fn := None) && result == None && err == Some(Cancelled) {
      e := ByCancellation;
    } else {
      assert Goes(c, c', Stop(result, err));
      WhoStops(c, c', result, err);
      match c.fn.value
      case UpdateStatus(_, _) => e := WithoutStatus;
      case Initialize => e := WithoutWork;
      case RemoveFinalizer => e := WithoutFinalizer;
      case EmitEvent(_, _) =>
        e := WithStatus;
        var steps := trace[..n - 1];
        assert steps[n - 3] == trace[n - 3] && steps[n - 2] == c;
        assert IsStep(steps[n - 3], steps[n - 3 + 1]);
        var next: Next :| Goes(trace[n - 3], c, next) && next.Goto?;
        EventFollowsStatus(trace[n - 3], c, next, result, err);
    }
  }

  // ---------------------------------------------------------------- deletion

  /** Marked for deletion, still with the finalizer, and Istio is there. */
  ghost predicate IsDeletable(w: World) {
    && w.instance.Some? && w.instance.value.deleting && w.instance.value.finalizer
    && AreServed(w.crds)
  }

  /** The runs that a deletion still takes when nothing goes wrong: one for each thing that is left to do. */
  function Remaining(w: World): (n: nat)
    requires w.instance.Some?
    ensures 1 <= n <= 4
  {
    (if w.acknowledged then 0 else 1)
    + (if IsDeletionReason(w.instance.value.status) then 0 else 1)
    + (if Carriers(w.deps) == {} then 0 else 1)
    + 1
  }

  /** A point of a run that deletes, where no call failed so far. */
  ghost predicate IsUnderWay(w0: World, c: Config)
    requires IsDeletable(w0)
  {
    c.fn.Some? ==>
      var w, i := c.world, c.memory.instance;
      var begun := w == w0.(run := w0.run + 1) && i == w0.instance.value;
      match c.fn.value
      case TakeSnapshot => begun
      case CheckDependencies => begun
      case RegisterDependencyWatch => begun && !w.acknowledged
      case Initialize => begun && w.acknowledged
      case DeleteResources => begun && w.acknowledged
      case CascadeDeletion => begun && w.acknowledged && IsDeletionReason(i.status) && Carriers(w.deps) == {}
      case RemoveFinalizer => begun && w.acknowledged && IsDeletionReason(i.status) && Carriers(w.deps) == {}
      case UpdateStatus(result, err) =>
        && err.None? && result == Some(Requeue) && IsDeletable(w) && w.instance == w0.instance
        && i == w.instance.value.(status := i.status)
        && Remaining(w.(instance := Some(i))) == Remaining(w0) - 1
      case EmitEvent(result, err) =>
        err.None? && result == Some(Requeue) && IsDeletable(w) && Remaining(w) == Remaining(w0) - 1
      case _ => false
  }

  /** A run that deletes is over: one thing less is left to do, or nothing. */
  ghost predicate IsOneLess(w0: World, w: World, result: Option<Outcome>, err: Option<RunError>)
    requires IsDeletable(w0)
  {
    && err.None?
    && if Remaining(w0) == 1 then result == None && w.instance.Some? && !w.instance.value.finalizer
       else result == Some(Requeue) && IsDeletable(w) && Remaining(w) == Remaining(w0) - 1
  }

  lemma FailuresOnlyGrow(fn: Fn, w: World, s: Memory, w': World, s': Memory, next: Next)
    requires Transition(fn, w, s, w', s', next)
    ensures w'.failures >= w.failures
  {
  }

  lemma AllReleased(deps: Dependencies)
    ensures Carriers(WithoutHook(deps, Carriers(deps))) == {}
  {
  }

  lemma DeleteStepProgresses(w0: World, c: Config, c': Config, next: Next)
    requires IsDeletable(w0) && IsUnderWay(w0, c) && c.fn == Some(DeleteResources)
    requires Goes(c, c', next) && c'.world.failures == c.world.failures
    ensures IsUnderWay(w0, c') && next.Goto?
  {
    hide AppliesPolicies, RemovesPolicies, WithoutHook;
    AllReleased(w0.deps);
  }

  lemma StatusStepProgresses(w0: World, c: Config, c': Config, next: Next)
    requires IsDeletable(w0) && IsUnderWay(w0, c) && c.fn.Some? && c.fn.value.UpdateStatus?
    requires Goes(c, c', next) && c'.world.failures == c.world.failures
    ensures IsUnderWay(w0, c') && next.Goto?
  {
  }

  lemma RemovalProgresses(w0: World, c: Config, c': Config, next: Next)
    requires IsDeletable(w0) && IsUnderWay(w0, c) && c.fn == Some(RemoveFinalizer)
    requires Goes(c, c', next) && c'.world.failures == c.world.failures
    ensures next.Stop? && IsOneLess(w0, c'.world, next.result, next.err)
  {
  }

  lemma CheckStepProgresses(w0: World, c: Config, c': Config, next: Next)
    requires IsDeletable(w0) && IsUnderWay(w0, c) && c.fn == Some(CheckDependencies)
    requires Goes(c, c', next) && c'.world.failures == c.world.failures
    ensures IsUnderWay(w0, c') && next.Goto?
  {
  }

  lemma InitializeStepProgresses(w0: World, c: Config, c': Config, next: Next)
    requires IsDeletable(w0) && IsUnderWay(w0, c) && c.fn == Some(Initialize)
    requires Goes(c, c', next) && c'.world.failures == c.world.failures
    ensures IsUnderWay(w0, c') && next.Goto?
  {
  }

  lemma RegisterStepProgresses(w0: World, c: Config, c': Config, next: Next)
    requires IsDeletable(w0) && IsUnderWay(w0, c) && c.fn == Some(RegisterDependencyWatch)
    requires Goes(c, c', next) && c'.world.failures == c.world.failures
    ensures IsUnderWay(w0, c') && next.Goto?
  {
  }

  lemma CascadeStepProgresses(w0: World, c: Config, c': Config, next: Next)
    requires IsDeletable(w0) && IsUnderWay(w0, c) && c.fn == Some(CascadeDeletion)
    requires Goes(c, c', next) && c'.world.failures == c.world.failures
    ensures IsUnderWay(w0, c') && next.Goto?
  {
  }

  lemma LastStepProgresses(w0: World, c: Config, c': Config, next: Next)
    requires IsDeletable(w0) && IsUnderWay(w0, c) && c.fn.Some? && (c.fn.value.TakeSnapshot? || c.fn.value.EmitEvent?)
    requires Goes(c, c', next) && c'.world.failures == c.world.failures
    ensures IsUnderWay(w0, c')
    ensures next.Stop? ==> IsOneLess(w0, c'.world, next.result, next.err)
  {
  }

  lemma StepProgresses(w0: World, c: Config, c': Config, next: Next)
    requires IsDeletable(w0) && IsUnderWay(w0, c)
    requires Goes(c, c', next) && c'.world.failures == c.world.failures
    ensures IsUnderWay(w0, c')
    ensures next.Stop? ==> IsOneLess(w0, c'.world, next.result, next.err)
  {
    IsDeletingFn(w0, c);
    hide Transition, IsUnderWay, IsOneLess, IsDeletable;
    match c.fn.value
    case TakeSnapshot => LastStepProgresses(w0, c, c', next);
    case CheckDependencies => CheckStepProgresses(w0, c, c', next);
    case RegisterDependencyWatch => RegisterStepProgresses(w0, c, c', next);
    case Initialize => InitializeStepProgresses(w0, c, c', next);
    case DeleteResources => DeleteStepProgresses(w0, c, c', next);
    case CascadeDeletion => CascadeStepProgresses(w0, c, c', next);
    case RemoveFinalizer => RemovalEnds(w0, c, c', next);
    case UpdateStatus(_, _) => StatusStepProgresses(w0, c, c', next);
    case EmitEvent(_, _) => LastStepProgresses(w0, c, c', next);
  }

  lemma RemovalEnds(w0: World, c: Config, c': Config, next: Next)
    requires IsDeletable(w0) && IsUnderWay(w0, c) && c.fn == Some(RemoveFinalizer)
    requires Goes(c, c', next) && c'.world.failures == c.world.failures
    ensures IsUnderWay(w0, c') && next.Stop? && IsOneLess(w0, c'.world, next.result, next.err)
  {
    RemovalProgresses(w0, c, c', next);
  }

  lemma IsDeletingFn(w0: World, c: Config)
    requires IsDeletable(w0) && IsUnderWay(w0, c) && c.fn.Some?
    ensures var fn := c.fn.value;
            || fn.TakeSnapshot? || fn.CheckDependencies? || fn.RegisterDependencyWatch? || fn.Initialize?
            || fn.DeleteResources? || fn.CascadeDeletion? || fn.RemoveFinalizer? || fn.UpdateStatus? || fn.EmitEvent?
  {
  }

  lemma {:induction false} PrefixProgresses(w0: World, trace: seq<Config>, k: nat)
    requires IsDeletable(w0) && |trace| > 0 && trace[0] == Start(w0, w0.instance.value)
    requires AreSteps(trace) && k < |trace| && trace[|trace| - 1].world.failures == w0.failures
    ensures IsUnderWay(w0, trace[k]) && trace[k].world.failures == w0.failures
  {
    FailuresAlong(trace, k);
    if k > 0 {
      PrefixProgresses(w0, trace, k - 1);
      assert IsStep(trace[k - 1], trace[k - 1 + 1]);
      var next: Next :| Goes(trace[k - 1], trace[k], next) && next.Goto?;
      FailuresOnlyGrow(trace[k - 1].fn.value, trace[k - 1].world, trace[k - 1].memory, trace[k].world, trace[k].memory,
                       next);
      StepProgresses(w0, trace[k - 1], trace[k], next);
    }
  }

  lemma {:induction false} FailuresAlong(trace: seq<Config>, k: nat)
    requires AreSteps(trace) && k < |trace|
    ensures trace[0].world.failures <= trace[k].world.failures <= trace[|trace| - 1].world.failures
    decreases |trace| - k
  {
    hide IsStep;
    FailuresFrom(trace, 0, k);
    FailuresFrom(trace, k, |trace| - 1);
  }

  lemma {:induction false} FailuresFrom(trace: seq<Config>, j: nat, k: nat)
    requires AreSteps(trace) && j <= k < |trace|
    ensures trace[j].world.failures <= trace[k].world.failures
    decreases k
  {
    hide IsStep;
    if j < k {
      FailuresFrom(trace, j, k - 1);
      assert IsStep(trace[k - 1], trace[k - 1 + 1]);
      StepFailures(trace[k - 1], trace[k]);
    }
  }

  lemma StepFailures(c: Config, c': Config)
    requires IsStep(c, c')
    ensures c.world.failures <= c'.world.failures
  {
    var next: Next :| Goes(c, c', next) && next.Goto?;
    FailuresOnlyGrow(c.fn.value, c.world, c.memory, c'.world, c'.memory, next);
  }

  /** A run on the current version in which no call failed and nobody else wrote. */
  ghost predicate IsUndisturbed(w: World, w': World, trace: seq<Config>, result: Option<Outcome>,
                                err: Option<RunError>) {
    && w.instance.Some? && IsRun(w, w.instance.value, trace, result, err)
    && w' == trace[|trace| - 1].world && w'.failures == w.failures && err != Some(Cancelled)
  }

  /**
   Every undisturbed run does exactly one of the things that are left to do, and the last one removes the finalizer.
   */
  lemma RunProgresses(w: World, w': World, trace: seq<Config>, result: Option<Outcome>, err: Option<RunError>)
    requires IsDeletable(w) && IsUndisturbed(w, w', trace, result, err)
    ensures IsOneLess(w, w', result, err)
  {
    var n := |trace|;
    var steps := trace[..n - 1];
    assert steps[n - 2] == trace[n - 2];
    var c, c' := trace[n - 2], trace[n - 1];
    assert Goes(c, c', Stop(result, err));
    FailuresOnlyGrow(c.fn.value, c.world, c.memory, c'.world, c'.memory, Stop(result, err));
    FailuresAlong(steps, n - 2);
    PrefixProgresses(w, steps, n - 2);
    StepProgresses(w, c, c', Stop(result, err));
  }

  ghost predicate FollowsUndisturbed(w: World, w': World) {
    exists trace: seq<Config>, result: Option<Outcome>, err: Option<RunError> ::
      IsUndisturbed(w, w', trace, result, err)
  }

  ghost predicate AreUndisturbed(ws: seq<World>) {
    forall k :: 0 <= k < |ws| - 1 ==> FollowsUndisturbed(ws[k], ws[k + 1])
  }

  lemma {:induction false} OneLessEach(ws: seq<World>, k: nat)
    requires |ws| > 0 && IsDeletable(ws[0]) && AreUndisturbed(ws) && k < |ws| && k < Remaining(ws[0])
    ensures IsDeletable(ws[k]) && Remaining(ws[k]) == Remaining(ws[0]) - k
  {
    if k > 0 {
      OneLessEach(ws, k - 1);
      NextIsOneLess(ws[k - 1], ws[k]);
    }
  }

  lemma NextIsOneLess(w: World, w': World)
    requires IsDeletable(w) && FollowsUndisturbed(w, w')
    ensures if Remaining(w) == 1 then w'.instance.Some? && !w'.instance.value.finalizer
            else IsDeletable(w') && Remaining(w') == Remaining(w) - 1
  {
    var trace: seq<Config>, result: Option<Outcome>, err: Option<RunError> :| IsUndisturbed(w, w', trace, result, err);
    RunProgresses(w, w', trace, result, err);
  }

  /**
   Deletion takes exactly as many undisturbed runs as there are things left to do, which is at most four: registering
   the watches, persisting the condition, releasing the dependencies, deleting.
   */
  lemma DeletionIsBounded(ws: seq<World>)
    requires |ws| > 0 && IsDeletable(ws[0]) && AreUndisturbed(ws) && |ws| == Remaining(ws[0]) + 1
    ensures |ws| <= 5
    ensures forall k :: 0 <= k < |ws| - 1 ==> ws[k].instance.Some? && ws[k].instance.value.finalizer
    ensures ws[|ws| - 1].instance.Some? && !ws[|ws| - 1].instance.value.finalizer
  {
    forall k | 0 <= k < |ws| - 1
      ensures ws[k].instance.Some? && ws[k].instance.value.finalizer
    {
      OneLessEach(ws, k);
    }
    var last := |ws| - 2;
    OneLessEach(ws, last);
    assert FollowsUndisturbed(ws[last], ws[last + 1]);
    NextIsOneLess(ws[last], ws[last + 1]);
  }

  /** With fewer runs than things are left to do, the finalizer is still there. */
  lemma FewerRunsAreNotEnough(ws: seq<World>)
    requires |ws| > 0 && IsDeletable(ws[0]) && AreUndisturbed(ws) && |ws| <= Remaining(ws[0])
    ensures ws[|ws| - 1].instance.Some? && ws[|ws| - 1].instance.value.finalizer
  {
    OneLessEach(ws, |ws| - 1);
  }

  /**
   In a fresh process that has just seen the deletion, however many undisturbed runs there are: up to three leave the
   finalizer where it is, and the fourth removes it.
   */
  lemma FourRunsAreNeeded(ws: seq<World>)
    requires 0 < |ws| <= 5 && IsDeletable(ws[0]) && AreUndisturbed(ws)
    requires !ws[0].acknowledged && !IsDeletionReason(ws[0].instance.value.status) && Carriers(ws[0].deps) != {}
    ensures ws[|ws| - 1].instance.Some?
    ensures ws[|ws| - 1].instance.value.finalizer <==> |ws| < 5
  {
    if |ws| < 5 {
      FewerRunsAreNotEnough(ws);
    } else {
      DeletionIsBounded(ws);
    }
  }

  // ---------------------------------------------------------------- the error that is forgotten

  /** The finalizer can go although the deletion of an object failed, exactly when there are at least two objects. */
  lemma FailureCanBeForgotten(w: World, s: Memory)
    ensures (exists w': World, s': Memory ::
               && Cascades(w, s, w', s', Goto(RemoveFinalizer))
               && |s'.log| > 0 && s'.log[|s'.log| - 1].DeletesTried? && HasFailed(s'.log[|s'.log| - 1].attempts))
            <==> ObjectCount(w.slices) >= 2
  {
    if ObjectCount(w.slices) >= 2 {
      var n := ObjectCount(w.slices);
      var attempts := seq(n, k requires 0 <= k < n => if k == 0 then Failed else Done);
      var s' := s.(log := s.log + [DeletesTried(w.slices, attempts)]);
      var w' := w.(failures := w.failures + 1);
      assert attempts[0].Failed? && attempts[n - 1] == Done;
      assert HasFailed(attempts);
      assert Cascades(w, s, w', s', Goto(RemoveFinalizer));
      assert s'.log[|s'.log| - 1] == DeletesTried(w.slices, attempts);
    }
  }
}
