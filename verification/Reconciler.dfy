/**
 The state machine of the application connector manager (pkg/reconciler): the cluster as it sees it, the memory of one
 run, and what each state function may do. Any call may fail; a failed call has no effect and is counted.
 */
module Reconciler {
  import opened Wrappers
  import M = Manifests
  import V = Verification

  // ---------------------------------------------------------------- the resource

  datatype Phase = Processing | Ready | Error | Deleting

  datatype Reason =
    | Initialized | Verifying | Verified | ApplyObjError | VerificationErr | OptionalManifestsErr | Deletion
    | DeletionErr

  /** The state of the resource and the reason of its Installed condition, which are always written together. */
  datatype Status = Status(phase: Phase, reason: Reason)

  datatype Instance = Instance(
    spec: M.Spec,
    networkPolicies: bool,
    deleting: bool,
    finalizer: bool,
    status: Option<Status>,
    version: nat
  )

  predicate IsDeletionReason(status: Option<Status>) {
    status.Some? && (status.value.reason.Deletion? || status.value.reason.DeletionErr?)
  }

  // ---------------------------------------------------------------- dependencies

  datatype CrdVersion = CrdVersion(name: string, served: bool)

  datatype Crd = Crd(group: string, kind: string, versions: seq<CrdVersion>)

  const ISTIO_GROUP := "networking.istio.io"
  const ISTIO_VERSION := "v1beta1"
  const DEPENDENCY_KINDS := ["VirtualService", "Gateway"]

  predicate ServesVersion(crd: Crd) {
    exists v <- crd.versions :: v.served && v.name == ISTIO_VERSION
  }

  predicate IsDependency(crd: Crd) {
    crd.group == ISTIO_GROUP && crd.kind in DEPENDENCY_KINDS && ServesVersion(crd)
  }

  function CountDependencies(crds: seq<Crd>): nat {
    if crds == [] then 0
    else CountDependencies(crds[..|crds| - 1]) + (if IsDependency(crds[|crds| - 1]) then 1 else 0)
  }

  /** The code counts the matching definitions; it does not look which they are. */
  predicate AreServed(crds: seq<Crd>) {
    CountDependencies(crds) == |DEPENDENCY_KINDS|
  }

  method CheckDeps(crds: seq<Crd>) returns (served: bool)
    ensures served == AreServed(crds)
  {
    var count := 0;
    for i := 0 to |crds|
      invariant count == CountDependencies(crds[..i])
    {
      assert crds[..i + 1][..i] == crds[..i];
      if IsDependency(crds[i]) {
        count := count + 1;
      }
    }
    assert crds[..|crds|] == crds;
    served := count == |DEPENDENCY_KINDS|;
  }

  ghost predicate AreDistinct(crds: seq<Crd>) {
    forall i, j :: 0 <= i < j < |crds| ==> (crds[i].group, crds[i].kind) != (crds[j].group, crds[j].kind)
  }

  ghost predicate ServesKind(crds: seq<Crd>, kind: string) {
    exists i :: 0 <= i < |crds| && IsDependency(crds[i]) && crds[i].kind == kind
  }

  /** The cluster serves Istio's kind in the version that the module needs. */
  predicate IsKindServed(crds: seq<Crd>, kind: string) {
    exists crd <- crds ::
      crd.group == "networking.istio.io" && crd.kind == kind && CrdVersion("v1beta1", true) in crd.versions
  }

  lemma ServesInWords(crds: seq<Crd>, kind: string)
    requires kind == "VirtualService" || kind == "Gateway"
    ensures ServesKind(crds, kind) <==> IsKindServed(crds, kind)
  {
    if ServesKind(crds, kind) {
      var i :| 0 <= i < |crds| && IsDependency(crds[i]) && crds[i].kind == kind;
      var v :| v in crds[i].versions && v.served && v.name == ISTIO_VERSION;
      assert v == CrdVersion("v1beta1", true) && crds[i] in crds;
    }
    if IsKindServed(crds, kind) {
      var crd :| crd in crds && crd.group == "networking.istio.io" && crd.kind == kind
                 && CrdVersion("v1beta1", true) in crd.versions;
      var i :| 0 <= i < |crds| && crds[i] == crd;
      assert ServesVersion(crd);
      assert DEPENDENCY_KINDS[0] == "VirtualService" && DEPENDENCY_KINDS[1] == "Gateway";
    }
  }

  lemma {:induction false} CountIsKinds(crds: seq<Crd>)
    requires AreDistinct(crds)
    ensures CountDependencies(crds) == (if ServesKind(crds, "VirtualService") then 1 else 0)
                                       + (if ServesKind(crds, "Gateway") then 1 else 0)
  {
    if crds != [] {
      var front, last := crds[..|crds| - 1], crds[|crds| - 1];
      CountIsKinds(front);
      assert |"VirtualService"| != |"Gateway"|;
      forall kind | ServesKind(crds, kind)
        ensures ServesKind(front, kind) || (IsDependency(last) && last.kind == kind)
      {
        var i :| 0 <= i < |crds| && IsDependency(crds[i]) && crds[i].kind == kind;
        if i < |front| {
          assert front[i] == crds[i];
        }
      }
      forall kind | ServesKind(front, kind)
        ensures ServesKind(crds, kind) && !(IsDependency(last) && last.kind == kind)
      {
        var i :| 0 <= i < |front| && IsDependency(front[i]) && front[i].kind == kind;
        assert crds[i] == front[i];
      }
      if IsDependency(last) {
        assert ServesKind(crds, last.kind);
      }
    }
  }

  /** With one definition per kind the count is right: both Istio kinds are served in the expected version. */
  lemma ServedMeansBoth(crds: seq<Crd>)
    requires AreDistinct(crds)
    ensures AreServed(crds) <==> IsKindServed(crds, "VirtualService") && IsKindServed(crds, "Gateway")
  {
    CountIsKinds(crds);
    ServesInWords(crds, "VirtualService");
    ServesInWords(crds, "Gateway");
  }

  // ---------------------------------------------------------------- the world

  const HOOK := "application-connector-manager.kyma-project.io/deletion-hook"

  /** Gateways and virtual services of the namespace with their finalizers. */
  type Dependencies = map<string, set<string>>

  function Carriers(deps: Dependencies): set<string> {
    set k | k in deps && HOOK in deps[k]
  }

  function WithoutHook(deps: Dependencies, names: set<string>): Dependencies {
    map k | k in deps :: if k in names then deps[k] - {HOOK} else deps[k]
  }

  datatype ConfigMap = Absent | WithoutDomain | WithDomain(domain: string)

  datatype Attempt = Done | NotThere | Failed

  /** What one run did so far. */
  datatype Event =
    | Read(instance: Instance)
    | Applied(slices: M.Slices, succeeded: seq<bool>, observed: seq<V.Observed>)
    | Verdict(ready: bool)
    | Listed(carriers: set<string>)
    | DeletesTried(slices: M.Slices, attempts: seq<Attempt>)

  /** Writes to the resource, each with the run and what the run had done before. */
  datatype Entry =
    | StatusWritten(run: nat, status: Option<Status>, log: seq<Event>)
    | FinalizerRemoved(run: nat, log: seq<Event>)

  /** `versions` are all versions of the resource there ever were; reads may be stale. */
  datatype World = World(
    instance: Option<Instance>,
    versions: seq<Instance>,
    deps: Dependencies,
    crds: seq<Crd>,
    configured: bool,
    shootInfo: ConfigMap,
    policies: set<string>,
    optional: seq<string>,
    watched: seq<M.Object>,
    acknowledged: bool,
    slices: M.Slices,
    run: nat,
    journal: seq<Entry>,
    failures: nat
  )

  function WithInstance(w: World, i: Instance): World {
    w.(instance := Some(i), versions := w.versions + [i])
  }

  /** Writes succeed on the version that was read. */
  predicate IsCurrent(w: World, i: Instance) {
    w.instance.Some? && w.instance.value.version == i.version
  }

  function ObjectCount(m: M.Slices): nat {
    |m.objs| + |m.deps|
  }

  function Objects(m: M.Slices): seq<M.Object> {
    m.objs + m.deps
  }

  // ---------------------------------------------------------------- the state machine

  datatype RunError =
    | ApiFailure | Conflict | IstioNotFound | WatchFailure | DomainNotDetected | ManifestError(error: M.UpdateError)
    | InstallationFailed | VerificationFailed | DeletionFailed | Cancelled

  datatype Outcome = Requeue | RequeueAfter(seconds: nat)

  datatype Fn =
    | TakeSnapshot
    | CheckDependencies
    | RegisterDependencyWatch
    | Initialize
    | DetectDomain
    | Update
    | Apply
    | ReconcileOptionalObjects
    | Verify
    | DeleteResources
    | CascadeDeletion
    | RemoveFinalizer
    | UpdateStatus(result: Option<Outcome>, err: Option<RunError>)
    | EmitEvent(result: Option<Outcome>, err: Option<RunError>)

  /** The memory of a run. */
  datatype Memory = Memory(instance: Instance, observed: seq<V.Observed>, domainName: string, log: seq<Event>)

  /** A state function names the next one, or stops the run with its result. */
  datatype Next = Goto(fn: Fn) | Stop(result: Option<Outcome>, err: Option<RunError>)

  function WithStatus(s: Memory, phase: Phase, reason: Reason): Memory {
    s.(instance := s.instance.(status := Some(Status(phase, reason))))
  }

  function StopWithError(e: RunError): Next {
    Goto(UpdateStatus(None, Some(e)))
  }

  function StopWithRequeue(): Next {
    Goto(UpdateStatus(Some(Requeue), None))
  }

  // ---------------------------------------------------------------- what each state function may do

  ghost predicate TakesSnapshot(w: World, s: Memory, w': World, s': Memory, next: Next) {
    w' == w && s' == s && next == Goto(CheckDependencies)
  }

  ghost predicate ChecksDependencies(w: World, s: Memory, w': World, s': Memory, next: Next) {
    || (w' == w.(failures := w.failures + 1) && s' == WithStatus(s, Error, ApplyObjError)
        && next == StopWithError(ApiFailure))
    || (w' == w && !AreServed(w.crds) && s' == WithStatus(s, Error, ApplyObjError)
        && next == Goto(UpdateStatus(Some(RequeueAfter(10)), None)))
    || (w' == w && AreServed(w.crds) && s' == s
        && next == Goto(if w.acknowledged then Initialize else RegisterDependencyWatch))
  }

  /** Dependencies are watched one by one up to the first error; watches stay, also when registered again. */
  ghost predicate RegistersWatch(w: World, s: Memory, w': World, s': Memory, next: Next) {
    || (exists k :: 0 <= k < |w.slices.deps|
          && w' == w.(watched := w.watched + w.slices.deps[..k], failures := w.failures + 1)
          && s' == WithStatus(s, Error, ApplyObjError) && next == StopWithError(WatchFailure))
    || (w' == w.(watched := w.watched + w.slices.deps, acknowledged := true) && s' == s && next == StopWithRequeue())
  }

  /** An update of the resource with another finalizer: on success the memory holds the new version. */
  ghost predicate WritesFinalizer(w: World, i: Instance, w': World, i': Instance, finalizer: bool) {
    && IsCurrent(w, i)
    && i' == w.instance.value.(finalizer := finalizer, version := |w.versions|)
    && w' == WithInstance(w, i')
  }

  ghost predicate Initializes(w: World, s: Memory, w': World, s': Memory, next: Next) {
    if !s.instance.deleting && !s.instance.finalizer then
      || ((w' == w.(failures := w.failures + 1) || (w' == w && !IsCurrent(w, s.instance)))
          && s' == s.(instance := s.instance.(finalizer := true))
          && (next == StopWithError(ApiFailure) || next == StopWithError(Conflict)))
      || (next == StopWithRequeue()
          && exists i: Instance :: WritesFinalizer(w, s.instance, w', i, true)
                                   && s' == WithStatus(s.(instance := i), Processing, Initialized))
    else
      && w' == w && s' == s
      && next == if !s.instance.deleting then Goto(DetectDomain)
                 else if s.instance.finalizer then Goto(DeleteResources)
                 else Stop(None, None)
  }

  ghost predicate DetectsDomain(w: World, s: Memory, w': World, s': Memory, next: Next) {
    if s.instance.spec.domainName != "" || s.domainName != "" then w' == w && s' == s && next == Goto(Update)
    else
      || (w' == w.(failures := w.failures + 1) && s' == s && next == StopWithError(DomainNotDetected))
      || (w' == w && !w.shootInfo.WithDomain? && s' == s && next == StopWithError(DomainNotDetected))
      || (w' == w && w.shootInfo.WithDomain? && s' == s.(domainName := w.shootInfo.domain) && next == Goto(Update))
  }

  function TargetOf(w: World, s: Memory): M.Target {
    M.Target(M.ApplyDefaults(s.instance.spec, s.domainName), if w.configured then 1 else 0)
  }

  ghost predicate Updates(w: World, s: Memory, w': World, s': Memory, next: Next) {
    || (w' == w.(failures := w.failures + 1) && s' == s && next == StopWithError(ApiFailure))
    || (s' == s
        && var pass := M.Pass(TargetOf(w, s), w.slices, |M.STAGES|);
           w' == w.(slices := pass.0)
           && next == if pass.1.None? then Goto(Apply) else StopWithError(ManifestError(pass.1.value)))
  }

  ghost predicate AreOf(observed: seq<V.Observed>, m: M.Slices) {
    && |observed| == ObjectCount(m)
    && forall k :: 0 <= k < |observed| ==> observed[k].id == V.IdentityOf(Objects(m)[k])
  }

  predicate AllTrue(bs: seq<bool>) {
    forall k :: 0 <= k < |bs| ==> bs[k]
  }

  /** Every object is patched, also after an error. */
  ghost predicate Applies(w: World, s: Memory, w': World, s': Memory, next: Next) {
    && w' == w.(failures := w'.failures)
    && exists succeeded: seq<bool>, observed: seq<V.Observed> ::
         var after := s.(observed := s.observed + observed, log := s.log + [Applied(w.slices, succeeded, observed)]);
         && |succeeded| == ObjectCount(w.slices) && AreOf(observed, w.slices)
         && (if AllTrue(succeeded) then w'.failures == w.failures else w'.failures > w.failures)
         && s' == (if AllTrue(succeeded) then after else WithStatus(after, Error, ApplyObjError))
         && next == (if AllTrue(succeeded) then Goto(ReconcileOptionalObjects) else StopWithError(InstallationFailed))
  }

  function NamesOf(names: seq<string>): set<string> {
    set n | n in names
  }

  /** Policies are applied in order up to the first error, or all removed; each that stays cost one failed call. */
  ghost predicate ReconcilesOptional(w: World, s: Memory, w': World, s': Memory, next: Next) {
    && w' == w.(failures := w'.failures, policies := w'.policies)
    && (if s.instance.networkPolicies then AppliesPolicies(w, w') else RemovesPolicies(w, w'))
    && (if w'.failures == w.failures then s' == s && next == Goto(Verify)
        else s' == WithStatus(s, Error, OptionalManifestsErr) && next == StopWithError(InstallationFailed))
  }

  ghost predicate AppliesPolicies(w: World, w': World) {
    || (w'.failures == w.failures && w'.policies == w.policies + NamesOf(w.optional))
    || (w'.failures == w.failures + 1
        && exists k :: 0 <= k < |w.optional| && w'.policies == w.policies + NamesOf(w.optional[..k]))
  }

  ghost predicate RemovesPolicies(w: World, w': World) {
    || (w'.failures == w.failures + 1 && w'.policies == w.policies)
    || (w'.policies <= w.policies && w'.failures == w.failures + |w'.policies|)
  }

  ghost predicate Verifies(w: World, s: Memory, w': World, s': Memory, next: Next) {
    && w' == w
    && if !V.AllConvertible(s.observed) then
         s' == WithStatus(s, Error, VerificationErr) && next == StopWithError(VerificationFailed)
       else if !V.IsInventoryReady(s.observed) then
         s' == WithStatus(s.(log := s.log + [Verdict(false)]), Processing, Verifying)
         && next == Goto(UpdateStatus(None, None))
       else
         var after := s.(log := s.log + [Verdict(true)]);
         && s' == (if s.instance.status.Some? && s.instance.status.value.phase.Ready? then after
                   else WithStatus(after, Ready, Verified))
         && next == Goto(UpdateStatus(Some(RequeueAfter(120)), None))
  }

  ghost predicate DeletesResources(w: World, s: Memory, w': World, s': Memory, next: Next) {
    if !IsDeletionReason(s.instance.status) then
      w' == w && s' == WithStatus(s, Deleting, Deletion) && next == StopWithRequeue()
    else
      || (w' == w.(failures := w.failures + 1) && s' == WithStatus(s, Error, DeletionErr)
          && next == StopWithError(ApiFailure))
      || ReleasesDependencies(w, s, w', s', next)
  }

  /** The hook is taken off every dependency that carries it; each that keeps it cost one failed call. */
  ghost predicate ReleasesDependencies(w: World, s: Memory, w': World, s': Memory, next: Next) {
    var after := s.(log := s.log + [Listed(Carriers(w.deps))]);
    if Carriers(w.deps) == {} then w' == w && s' == after && next == Goto(CascadeDeletion)
    else
      exists released: set<string> ::
        && released <= Carriers(w.deps)
        && w' == w.(deps := WithoutHook(w.deps, released), failures := w'.failures)
        && w'.failures == w.failures + |Carriers(w.deps) - released|
        && if released == Carriers(w.deps) then s' == after && next == StopWithRequeue()
           else s' == WithStatus(after, Error, DeletionErr) && next == StopWithError(DeletionFailed)
  }

  predicate HasFailed(attempts: seq<Attempt>) {
    exists k :: 0 <= k < |attempts| && attempts[k].Failed?
  }

  /** Every object is tried; of the errors only that of the last object counts. */
  ghost predicate Cascades(w: World, s: Memory, w': World, s': Memory, next: Next) {
    && w' == w.(failures := w'.failures)
    && exists attempts: seq<Attempt> ::
         var after := s.(log := s.log + [DeletesTried(w.slices, attempts)]);
         var failed := |attempts| > 0 && attempts[|attempts| - 1].Failed?;
         && |attempts| == ObjectCount(w.slices)
         && (if HasFailed(attempts) then w'.failures > w.failures else w'.failures == w.failures)
         && s' == (if failed then WithStatus(after, Error, DeletionErr) else after)
         && next == (if failed then StopWithError(ApiFailure) else Goto(RemoveFinalizer))
  }

  ghost predicate RemovesFinalizer(w: World, s: Memory, w': World, s': Memory, next: Next) {
    || (w' == w && w.instance.None? && next == Stop(None, None))
    || ((w' == w.(failures := w.failures + 1) || (w' == w && w.instance.Some? && !IsCurrent(w, s.instance)))
        && (next == Stop(Some(Requeue), Some(ApiFailure)) || next == Stop(Some(Requeue), Some(Conflict))))
    || (next == Stop(None, None)
        && exists w1: World, i: Instance ::
             WritesFinalizer(w, s.instance, w1, i, false)
             && w' == w1.(journal := w.journal + [FinalizerRemoved(w.run, s.log)]))
  }

  ghost predicate UpdatesStatus(w: World, s: Memory, w': World, s': Memory, next: Next, result: Option<Outcome>,
                                err: Option<RunError>) {
    || (IsCurrent(w, s.instance)
        && var i := w.instance.value.(status := s.instance.status, version := |w.versions|);
           && w' == WithInstance(w, i).(journal := w.journal + [StatusWritten(w.run, i.status, s.log)])
           && s' == s.(instance := i)
           && next == Goto(EmitEvent(result, err)))
    || ((w' == w.(failures := w.failures + 1) || (w' == w && !IsCurrent(w, s.instance)))
        && s' == s
        && (next == Stop(None, if err.None? then Some(ApiFailure) else err)
            || next == Stop(None, if err.None? then Some(Conflict) else err)))
  }

  ghost predicate EmitsEvent(w: World, s: Memory, w': World, s': Memory, next: Next, result: Option<Outcome>,
                             err: Option<RunError>) {
    w' == w && s' == s && next == Stop(result, err)
  }

  ghost predicate Transition(fn: Fn, w: World, s: Memory, w': World, s': Memory, next: Next) {
    match fn
    case TakeSnapshot => TakesSnapshot(w, s, w', s', next)
    case CheckDependencies => ChecksDependencies(w, s, w', s', next)
    case RegisterDependencyWatch => RegistersWatch(w, s, w', s', next)
    case Initialize => Initializes(w, s, w', s', next)
    case DetectDomain => DetectsDomain(w, s, w', s', next)
    case Update => Updates(w, s, w', s', next)
    case Apply => Applies(w, s, w', s', next)
    case ReconcileOptionalObjects => ReconcilesOptional(w, s, w', s', next)
    case Verify => Verifies(w, s, w', s', next)
    case DeleteResources => DeletesResources(w, s, w', s', next)
    case CascadeDeletion => Cascades(w, s, w', s', next)
    case RemoveFinalizer => RemovesFinalizer(w, s, w', s', next)
    case UpdateStatus(result, err) => UpdatesStatus(w, s, w', s', next, result, err)
    case EmitEvent(result, err) => EmitsEvent(w, s, w', s', next, result, err)
  }

  /** How many state functions a run can still execute, from this one on. */
  function Rank(fn: Fn): nat {
    match fn
    case TakeSnapshot => 10
    case CheckDependencies => 9
    case Initialize => 8
    case DetectDomain => 7
    case Update => 6
    case Apply => 5
    case ReconcileOptionalObjects => 4
    case Verify => 3
    case RegisterDependencyWatch => 3
    case DeleteResources => 7
    case CascadeDeletion => 6
    case RemoveFinalizer => 1
    case UpdateStatus(_, _) => 2
    case EmitEvent(_, _) => 1
  }

  /** Every transition goes down in rank, whatever the API answers. */
  lemma RankDecreases(fn: Fn, w: World, s: Memory, w': World, s': Memory, next: Next)
    requires Transition(fn, w, s, w', s', next) && next.Goto?
    ensures 0 < Rank(next.fn) < Rank(fn)
  {
    hide AppliesPolicies, RemovesPolicies, M.Pass, AreOf, AllTrue, HasFailed, WithStatus, WithoutHook, Carriers;
  }
}
