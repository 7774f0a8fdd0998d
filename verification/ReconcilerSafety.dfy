/**
 What holds at every point of every behaviour of the state machine: any number of runs, reads of stale versions, API
 failures, cancelled runs, restarts, and users who change everything but status and finalizers at any moment.
 */
module ReconcilerSafety {
  import opened Wrappers
  import opened Reconciler
  import opened ReconcilerRun
  import M = Manifests
  import V = Verification

  // ---------------------------------------------------------------- behaviours

  /** Users create the resource, edit its specification or mark it for deletion; the API server collects it. */
  ghost predicate ChangesInstance(w: World, w': World) {
    || (w'.instance == w.instance && w'.versions == w.versions)
    || (w.instance.Some? && w.instance.value.deleting && !w.instance.value.finalizer
        && w'.instance.None? && w'.versions == w.versions)
    || (w'.instance.Some? && w'.versions == w.versions + [w'.instance.value]
        && w'.instance.value.version == |w.versions|
        && var i := w'.instance.value;
           if w.instance.Some? then
             && i.status == w.instance.value.status && i.finalizer == w.instance.value.finalizer
             && (w.instance.value.deleting ==> i.deleting)
           else i.status.None? && !i.finalizer && !i.deleting)
  }

  ghost predicate IsEnvironment(w: World, w': World) {
    && w' == w.(instance := w'.instance, versions := w'.versions, deps := w'.deps, crds := w'.crds,
                configured := w'.configured, shootInfo := w'.shootInfo, policies := w'.policies)
    && ChangesInstance(w, w')
  }

  ghost predicate Begins(c: Config, c': Config) {
    c.fn.None? && exists k :: 0 <= k < |c.world.versions| && c' == Start(c.world, c.world.versions[k])
  }

  ghost predicate IsCancelled(c: Config, c': Config) {
    c' == c.(fn := None)
  }

  /** A new process starts with the manifests as they were shipped and without watches. */
  ghost predicate Restarts(shipped: M.Slices, c: Config, c': Config) {
    c'.fn.None? && c'.world == c.world.(watched := [], acknowledged := false, slices := shipped)
  }

  ghost predicate Moves(shipped: M.Slices, c: Config, c': Config) {
    || (exists next: Next :: Goes(c, c', next))
    || Begins(c, c')
    || IsCancelled(c, c')
    || Restarts(shipped, c, c')
    || (c'.fn == c.fn && c'.memory == c.memory && IsEnvironment(c.world, c'.world))
  }

  ghost predicate IsInitial(shipped: M.Slices, c: Config) {
    && c.fn.None? && c.world.instance.None? && c.world.versions == [] && c.world.journal == [] && c.world.run == 0
    && c.world.slices == shipped && !c.world.acknowledged
  }

  ghost predicate IsBehaviour(shipped: M.Slices, cs: seq<Config>) {
    && |cs| > 0 && IsInitial(shipped, cs[0])
    && forall k :: 0 <= k < |cs| - 1 ==> Moves(shipped, cs[k], cs[k + 1])
  }

  // ---------------------------------------------------------------- the invariant

  const DELETING := Some(Status(Deleting, Deletion))

  /** An earlier run persisted the Deletion condition. */
  ghost predicate IsRecorded(journal: seq<Entry>, run: nat) {
    exists j :: 0 <= j < |journal| && journal[j].StatusWritten? && journal[j].status == DELETING && journal[j].run < run
  }

  /** The manifests say what the specification, with a detected domain if it has none, asks of every stage. */
  ghost predicate IsRewrittenFor(m: M.Slices, r: Instance) {
    exists domain: string, replicas: nat ::
      && (r.spec.domainName != "" ==> domain == "") && replicas <= 1
      && forall j ::
           0 <= j < |M.STAGES| ==> M.Meets(M.STAGES[j], M.Target(M.ApplyDefaults(r.spec, domain), replicas), m)
  }

  /** The run read a resource that carries the finalizer and is not being deleted, and applied every object for it. */
  ghost predicate IsInstallation(log: seq<Event>) {
    && |log| >= 2 && log[0].Read? && log[1].Applied?
    && !log[0].instance.deleting && log[0].instance.finalizer
    && AllTrue(log[1].succeeded) && |log[1].succeeded| == ObjectCount(log[1].slices)
    && AreOf(log[1].observed, log[1].slices)
    && IsRewrittenFor(log[1].slices, log[0].instance)
  }

  ghost predicate IsVerifiedInstallation(log: seq<Event>) {
    && IsInstallation(log) && |log| == 3 && log[2] == Verdict(true)
    && V.AllConvertible(log[1].observed) && V.IsInventoryReady(log[1].observed)
  }

  ghost predicate IsStatusJustified(status: Option<Status>, log: seq<Event>) {
    && |log| > 0 && log[0].Read?
    && var r := log[0].instance;
       status != r.status ==>
         && status.Some?
         && (status.value.phase.Ready? ==> IsVerifiedInstallation(log))
         && (IsDeletionReason(status) ==>
               r.deleting && r.finalizer && (status == DELETING || IsDeletionReason(r.status)))
  }

  /** The last of the attempts, if there was any, deleted its object or found it gone. */
  predicate EndsWell(attempts: seq<Attempt>) {
    |attempts| > 0 ==> !attempts[|attempts| - 1].Failed?
  }

  /** Everything the run did before it removed the finalizer. */
  ghost predicate IsDeletionLog(log: seq<Event>) {
    && |log| == 3 && log[0].Read? && log[1] == Listed({}) && log[2].DeletesTried?
    && log[0].instance.deleting && log[0].instance.finalizer && IsDeletionReason(log[0].instance.status)
    && |log[2].attempts| == ObjectCount(log[2].slices) && EndsWell(log[2].attempts)
  }

  ghost predicate IsJustified(journal: seq<Entry>, k: nat)
    requires k < |journal|
  {
    match journal[k]
    case StatusWritten(run, status, log) => IsStatusJustified(status, log)
    case FinalizerRemoved(run, log) => IsDeletionLog(log) && IsRecorded(journal[..k], run)
  }

  ghost predicate HasRead(s: Memory) {
    |s.log| > 0 && s.log[0].Read?
  }

  ghost predicate HasOnlyRead(s: Memory) {
    s.log == [Read(s.instance)] && s.observed == []
  }

  /** What a run has behind it when it comes to a state function. */
  ghost predicate IsAt(w: World, fn: Fn, s: Memory) {
    && HasRead(s)
    && var r := s.log[0].instance;
       && r.version < |w.versions| && w.versions[r.version] == r
       && (IsDeletionReason(r.status) ==> IsRecorded(w.journal, w.run))
       && match fn
          case TakeSnapshot => HasOnlyRead(s) && s.domainName == ""
          case CheckDependencies => HasOnlyRead(s) && s.domainName == ""
          case RegisterDependencyWatch => HasOnlyRead(s) && s.domainName == ""
          case Initialize => HasOnlyRead(s) && s.domainName == ""
          case DetectDomain => HasOnlyRead(s) && s.domainName == "" && !r.deleting && r.finalizer
          case Update => HasOnlyRead(s) && !r.deleting && r.finalizer
                         && (r.spec.domainName != "" ==> s.domainName == "")
          case Apply => HasOnlyRead(s) && !r.deleting && r.finalizer && IsRewrittenFor(w.slices, r)
          case ReconcileOptionalObjects => s.instance == r && IsInstallation(s.log) && |s.log| == 2
                                           && s.observed == s.log[1].observed
          case Verify => s.instance == r && IsInstallation(s.log) && |s.log| == 2 && s.observed == s.log[1].observed
          case DeleteResources => HasOnlyRead(s) && r.deleting && r.finalizer
          case CascadeDeletion => s.instance == r && s.log == [Read(r), Listed({})]
                                  && r.deleting && r.finalizer && IsDeletionReason(r.status)
          case RemoveFinalizer => s.instance == r && IsDeletionLog(s.log)
          case UpdateStatus(_, _) => IsStatusJustified(s.instance.status, s.log)
          case EmitEvent(_, _) => true
  }

  ghost predicate AreVersions(w: World) {
    && (forall k :: 0 <= k < |w.versions| ==> w.versions[k].version == k)
    && (w.instance.Some? ==>
          w.instance.value.version < |w.versions| && w.versions[w.instance.value.version] == w.instance.value)
  }

  ghost predicate IsJournal(w: World) {
    && (forall k :: 0 <= k < |w.journal| ==> w.journal[k].run <= w.run && IsJustified(w.journal, k))
    && (forall k ::
          0 <= k < |w.versions| && IsDeletionReason(w.versions[k].status) ==> IsRecorded(w.journal, w.run + 1))
  }

  ghost predicate Invariant(c: Config) {
    && AreVersions(c.world) && IsJournal(c.world)
    && (c.fn.Some? ==> IsAt(c.world, c.fn.value, c.memory))
  }

  // ---------------------------------------------------------------- it is kept by every step

  lemma RecordedGrows(journal: seq<Entry>, e: Entry, run: nat, later: nat)
    requires IsRecorded(journal, run) && run <= later
    ensures IsRecorded(journal + [e], later) && IsRecorded(journal, later)
  {
    var j :| 0 <= j < |journal| && journal[j].StatusWritten? && journal[j].status == DELETING && journal[j].run < run;
    assert (journal + [e])[j] == journal[j];
  }

  /** One more justified entry. */
  lemma JournalGrows(journal: seq<Entry>, e: Entry, run: nat)
    requires forall k :: 0 <= k < |journal| ==> journal[k].run <= run && IsJustified(journal, k)
    requires e.run <= run
    requires match e
             case StatusWritten(_, status, log) => IsStatusJustified(status, log)
             case FinalizerRemoved(r, log) => IsDeletionLog(log) && IsRecorded(journal, r)
    ensures forall k :: 0 <= k < |journal + [e]| ==> (journal + [e])[k].run <= run && IsJustified(journal + [e], k)
  {
    forall k | 0 <= k < |journal + [e]|
      ensures (journal + [e])[k].run <= run && IsJustified(journal + [e], k)
    {
      if k < |journal| {
        assert (journal + [e])[..k] == journal[..k];
      } else {
        assert (journal + [e])[..k] == journal;
      }
    }
  }

  /** A new version whose status was there before, or is recorded. */
  lemma VersionsGrow(w: World, i: Instance)
    requires AreVersions(w) && i.version == |w.versions|
    ensures AreVersions(WithInstance(w, i))
    ensures forall k :: 0 <= k < |w.versions| ==> (w.versions + [i])[k] == w.versions[k]
  {
  }

  lemma ManifestsAreRewritten(w: World, s: Memory)
    requires M.Pass(TargetOf(w, s), w.slices, |M.STAGES|).1.None?
    requires s.instance.spec.domainName != "" ==> s.domainName == ""
    ensures IsRewrittenFor(M.Pass(TargetOf(w, s), w.slices, |M.STAGES|).0, s.instance)
  {
    var replicas := if w.configured then 1 else 0;
    var m := M.Pass(TargetOf(w, s), w.slices, |M.STAGES|).0;
    forall j | 0 <= j < |M.STAGES|
      ensures M.Meets(M.STAGES[j], M.Target(M.ApplyDefaults(s.instance.spec, s.domainName), replicas), m)
    {
      M.PassMeets(TargetOf(w, s), w.slices, j);
    }
  }

  predicate WritesNothing(w: World, w': World) {
    w'.instance == w.instance && w'.versions == w.versions && w'.journal == w.journal && w'.run == w.run
  }

  predicate WritesResource(fn: Fn) {
    fn.Initialize? || fn.RemoveFinalizer? || fn.UpdateStatus?
  }

  lemma OthersWriteNothing(fn: Fn, w: World, s: Memory, w': World, s': Memory, next: Next)
    requires Transition(fn, w, s, w', s', next) && !WritesResource(fn)
    ensures WritesNothing(w, w')
  {
  }

  lemma CheckStep(w: World, s: Memory, w': World, s': Memory, next: Next)
    requires ChecksDependencies(w, s, w', s', next) && IsAt(w, CheckDependencies, s)
    ensures next.Goto? ==> IsAt(w', next.fn, s')
  {
  }

  lemma RegisterStep(w: World, s: Memory, w': World, s': Memory, next: Next)
    requires RegistersWatch(w, s, w', s', next) && IsAt(w, RegisterDependencyWatch, s)
    ensures next.Goto? ==> IsAt(w', next.fn, s')
  {
  }

  lemma DetectStep(w: World, s: Memory, w': World, s': Memory, next: Next)
    requires DetectsDomain(w, s, w', s', next) && IsAt(w, DetectDomain, s)
    ensures next.Goto? ==> IsAt(w', next.fn, s')
  {
  }

  lemma UpdateStep(w: World, s: Memory, w': World, s': Memory, next: Next)
    requires Updates(w, s, w', s', next) && IsAt(w, Update, s)
    ensures next.Goto? ==> IsAt(w', next.fn, s')
  {
    if next == Goto(Apply) {
      ManifestsAreRewritten(w, s);
    }
  }

  lemma ApplyStep(w: World, s: Memory, w': World, s': Memory, next: Next)
    requires Applies(w, s, w', s', next) && IsAt(w, Apply, s)
    ensures next.Goto? ==> IsAt(w', next.fn, s')
  {
  }

  lemma OptionalStep(w: World, s: Memory, w': World, s': Memory, next: Next)
    requires ReconcilesOptional(w, s, w', s', next) && IsAt(w, ReconcileOptionalObjects, s)
    ensures next.Goto? ==> IsAt(w', next.fn, s')
  {
    hide AppliesPolicies, RemovesPolicies, IsRewrittenFor;
  }

  lemma VerifyStep(w: World, s: Memory, w': World, s': Memory, next: Next)
    requires Verifies(w, s, w', s', next) && IsAt(w, Verify, s)
    ensures next.Goto? ==> IsAt(w', next.fn, s')
  {
  }

  lemma DeleteStep(w: World, s: Memory, w': World, s': Memory, next: Next)
    requires DeletesResources(w, s, w', s', next) && IsAt(w, DeleteResources, s)
    ensures next.Goto? ==> IsAt(w', next.fn, s')
  {
    hide WithoutHook, IsInstallation, IsRewrittenFor, IsVerifiedInstallation, IsRecorded;
    if IsDeletionReason(s.instance.status) && ReleasesDependencies(w, s, w', s', next) {
      ReleaseStep(w, s, w', s', next);
    } else {
      hide ReleasesDependencies;
    }
  }

  lemma ReleaseStep(w: World, s: Memory, w': World, s': Memory, next: Next)
    requires ReleasesDependencies(w, s, w', s', next) && IsAt(w, DeleteResources, s)
             && IsDeletionReason(s.instance.status)
    ensures next.Goto? ==> IsAt(w', next.fn, s')
  {
    hide WithoutHook, IsInstallation, IsRewrittenFor, IsVerifiedInstallation, IsRecorded;
    if Carriers(w.deps) != {} {
      hide Carriers;
      SomeReleased(w, s, w', s', next);
    }
  }

  lemma SomeReleased(w: World, s: Memory, w': World, s': Memory, next: Next)
    requires ReleasesDependencies(w, s, w', s', next) && Carriers(w.deps) != {}
    ensures WritesNothing(w, w')
    ensures var after := s.(log := s.log + [Listed(Carriers(w.deps))]);
            (s' == after && next == StopWithRequeue())
            || (s' == WithStatus(after, Error, DeletionErr) && next == StopWithError(DeletionFailed))
  {
  }

  lemma CascadeStep(w: World, s: Memory, w': World, s': Memory, next: Next)
    requires Cascades(w, s, w', s', next) && IsAt(w, CascadeDeletion, s)
    ensures next.Goto? ==> IsAt(w', next.fn, s')
  {
  }

  /** Steps that write nothing to the resource come to places with behind them what these ask for. */
  lemma QuietStep(fn: Fn, w: World, s: Memory, w': World, s': Memory, next: Next)
    requires Transition(fn, w, s, w', s', next) && IsAt(w, fn, s) && !WritesResource(fn)
    ensures next.Goto? ==> IsAt(w', next.fn, s')
  {
    match fn
    case TakeSnapshot =>
    case CheckDependencies => CheckStep(w, s, w', s', next);
    case RegisterDependencyWatch => RegisterStep(w, s, w', s', next);
    case DetectDomain => DetectStep(w, s, w', s', next);
    case Update => UpdateStep(w, s, w', s', next);
    case Apply => ApplyStep(w, s, w', s', next);
    case ReconcileOptionalObjects => OptionalStep(w, s, w', s', next);
    case Verify => VerifyStep(w, s, w', s', next);
    case DeleteResources => DeleteStep(w, s, w', s', next);
    case CascadeDeletion => CascadeStep(w, s, w', s', next);
    case EmitEvent(_, _) =>
  }

  lemma InitializeStep(w: World, s: Memory, w': World, s': Memory, next: Next)
    requires Initializes(w, s, w', s', next) && IsAt(w, Initialize, s) && AreVersions(w) && IsJournal(w)
    ensures AreVersions(w') && IsJournal(w')
    ensures next.Goto? ==> IsAt(w', next.fn, s')
  {
    hide IsRewrittenFor, IsInstallation, IsDeletionLog, IsVerifiedInstallation;
    if w' != w && w' != w.(failures := w.failures + 1) {
      var i: Instance :|
        WritesFinalizer(w, s.instance, w', i, true) && s' == WithStatus(s.(instance := i), Processing, Initialized);
      VersionsGrow(w, i);
    }
  }

  lemma RemovalStep(w: World, s: Memory, w': World, s': Memory, next: Next)
    requires RemovesFinalizer(w, s, w', s', next) && IsAt(w, RemoveFinalizer, s) && AreVersions(w) && IsJournal(w)
    ensures AreVersions(w') && IsJournal(w') && next.Stop?
  {
    hide IsRewrittenFor, IsInstallation, IsStatusJustified, HasOnlyRead, IsJustified, IsRecorded, EndsWell;
    if w' != w && w' != w.(failures := w.failures + 1) {
      var w1: World, i: Instance :| WritesFinalizer(w, s.instance, w1, i, false)
                                    && w' == w1.(journal := w.journal + [FinalizerRemoved(w.run, s.log)]);
      VersionsGrow(w, i);
      JournalGrows(w.journal, FinalizerRemoved(w.run, s.log), w.run);
      RecordedStays(w, w', FinalizerRemoved(w.run, s.log));
    }
  }

  /** A version that shows a deletion was preceded by a record of it. */
  lemma RecordedStays(w: World, w': World, e: Entry)
    requires IsJournal(w) && w'.journal == w.journal + [e] && w'.run == w.run
    requires |w'.versions| == |w.versions| + 1 && w'.versions[..|w.versions|] == w.versions
    requires var status := w'.versions[|w.versions|].status;
             IsDeletionReason(status) ==>
               || (exists k :: 0 <= k < |w.versions| && w.versions[k].status == status)
               || (e.StatusWritten? && e.status == DELETING && e.run <= w.run)
               || IsRecorded(w.journal, w.run)
    ensures forall k ::
              0 <= k < |w'.versions| && IsDeletionReason(w'.versions[k].status) ==> IsRecorded(w'.journal, w'.run + 1)
  {
    forall k | 0 <= k < |w'.versions| && IsDeletionReason(w'.versions[k].status)
      ensures IsRecorded(w'.journal, w'.run + 1)
    {
      assert k < |w.versions| ==> w'.versions[..|w.versions|][k] == w.versions[k];
      if IsRecorded(w.journal, w.run) {
        RecordedGrows(w.journal, e, w.run, w.run + 1);
      } else if IsRecorded(w.journal, w.run + 1) {
        RecordedGrows(w.journal, e, w.run + 1, w.run + 1);
      } else {
        assert w'.journal[|w.journal|] == e;
      }
    }
  }

  lemma StatusStep(w: World, s: Memory, w': World, s': Memory, next: Next, result: Option<Outcome>,
                   err: Option<RunError>)
    requires UpdatesStatus(w, s, w', s', next, result, err) && IsAt(w, UpdateStatus(result, err), s)
    requires AreVersions(w) && IsJournal(w)
    ensures AreVersions(w') && IsJournal(w')
    ensures next.Goto? ==> IsAt(w', next.fn, s')
  {
    hide IsInstallation, IsVerifiedInstallation, IsDeletionLog, HasOnlyRead, IsJustified, IsRecorded;
    if w' != w && w' != w.(failures := w.failures + 1) {
      var i := w.instance.value.(status := s.instance.status, version := |w.versions|);
      var e := StatusWritten(w.run, i.status, s.log);
      VersionsGrow(w, i);
      JournalGrows(w.journal, e, w.run);
      RecordedStays(w, w', e);
      if IsRecorded(w.journal, w.run) {
        RecordedGrows(w.journal, e, w.run, w.run);
      }
    }
  }

  lemma TransitionKeeps(c: Config, c': Config, next: Next)
    requires Invariant(c) && Goes(c, c', next)
    ensures Invariant(c')
  {
    var w, s, w', s' := c.world, c.memory, c'.world, c'.memory;
    if c.fn.value.Initialize? {
      InitializeStep(w, s, w', s', next);
    } else if c.fn.value.RemoveFinalizer? {
      RemovalStep(w, s, w', s', next);
    } else if c.fn.value.UpdateStatus? {
      StatusStep(w, s, w', s', next, c.fn.value.result, c.fn.value.err);
    } else {
      QuietStep(c.fn.value, w, s, w', s', next);
      OthersWriteNothing(c.fn.value, w, s, w', s', next);
      NothingWritten(w, w');
    }
  }

  lemma NothingWritten(w: World, w': World)
    requires WritesNothing(w, w') && AreVersions(w) && IsJournal(w)
    ensures AreVersions(w') && IsJournal(w')
  {
  }

  lemma BeginKeeps(c: Config, c': Config)
    requires Invariant(c) && Begins(c, c')
    ensures Invariant(c')
  {
    forall k | 0 <= k < |c.world.versions| && IsDeletionReason(c.world.versions[k].status)
      ensures IsRecorded(c.world.journal, c'.world.run) && IsRecorded(c.world.journal, c'.world.run + 1)
    {
      var j :| 0 <= j < |c.world.journal| && c.world.journal[j].StatusWritten? && c.world.journal[j].status == DELETING
               && c.world.journal[j].run < c.world.run + 1;
    }
  }

  lemma EnvironmentKeeps(c: Config, c': Config)
    requires Invariant(c) && c'.fn == c.fn && c'.memory == c.memory && IsEnvironment(c.world, c'.world)
    ensures Invariant(c')
  {
    if c'.world.versions != c.world.versions {
      var i := c'.world.instance.value;
      assert forall k :: 0 <= k < |c.world.versions| ==> c'.world.versions[k] == c.world.versions[k];
      assert c'.world.versions[|c.world.versions|] == i;
      if c.world.instance.Some? {
        assert i.status == c.world.versions[c.world.instance.value.version].status;
      }
    }
  }

  lemma MoveKeeps(shipped: M.Slices, c: Config, c': Config)
    requires Invariant(c) && Moves(shipped, c, c')
    ensures Invariant(c')
  {
    if next: Next :| Goes(c, c', next) {
      TransitionKeeps(c, c', next);
    } else if Begins(c, c') {
      BeginKeeps(c, c');
    } else if c'.fn == c.fn && c'.memory == c.memory && IsEnvironment(c.world, c'.world) {
      EnvironmentKeeps(c, c');
    }
  }

  lemma {:induction false} EveryBehaviourKeeps(shipped: M.Slices, cs: seq<Config>)
    requires IsBehaviour(shipped, cs)
    ensures Invariant(cs[|cs| - 1])
    decreases |cs|
  {
    if |cs| > 1 {
      EveryBehaviourKeeps(shipped, cs[..|cs| - 1]);
      MoveKeeps(shipped, cs[|cs| - 2], cs[|cs| - 1]);
    }
  }

  // ---------------------------------------------------------------- what follows

  /**
   Deletion is safe: whenever the resource of a behaviour loses the finalizer, then in one run that read this very
   version as marked for deletion, saw no gateway and no virtual service with the hook and tried to delete every object,
   the last with success - and an earlier run had persisted the Deletion condition. With the finalizer on it the
   resource never goes away.
   */
  lemma DeletionIsSafe(shipped: M.Slices, cs: seq<Config>, c: Config)
    requires IsBehaviour(shipped, cs) && Moves(shipped, cs[|cs| - 1], c)
    requires var w := cs[|cs| - 1].world; w.instance.Some? && w.instance.value.finalizer
    requires !(c.world.instance.Some? && c.world.instance.value.finalizer)
    ensures var w, s := cs[|cs| - 1].world, cs[|cs| - 1].memory;
            && c.world.instance.Some? && c.world.instance.value.deleting
            && c.world.journal == w.journal + [FinalizerRemoved(w.run, s.log)]
            && IsDeletionLog(s.log) && s.log[0].instance == w.instance.value
            && |s.log[2].attempts| == |s.log[2].slices.objs| + |s.log[2].slices.deps|
            && IsRecorded(w.journal, w.run)
  {
    var last := cs[|cs| - 1];
    EveryBehaviourKeeps(shipped, cs);
    assert exists next: Next :: Goes(last, c, next);
    var next: Next :| Goes(last, c, next);
    if !WritesResource(last.fn.value) {
      OthersWriteNothing(last.fn.value, last.world, last.memory, c.world, c.memory, next);
    }
    OnlyRemovalRemoves(last.fn.value, last.world, last.memory, c.world, c.memory, next);
  }

  lemma OnlyRemovalRemoves(fn: Fn, w: World, s: Memory, w': World, s': Memory, next: Next)
    requires Transition(fn, w, s, w', s', next) && WritesResource(fn)
    requires w.instance.Some? && w.instance.value.finalizer && !(w'.instance.Some? && w'.instance.value.finalizer)
    ensures fn.RemoveFinalizer? && IsCurrent(w, s.instance)
    ensures w'.instance.Some? && w'.instance.value.deleting == w.instance.value.deleting
    ensures w'.journal == w.journal + [FinalizerRemoved(w.run, s.log)]
  {
  }

  /** The same of every removal in the journal, at any later point. */
  lemma EveryRemovalIsJustified(shipped: M.Slices, cs: seq<Config>, k: nat)
    requires IsBehaviour(shipped, cs)
    requires var journal := cs[|cs| - 1].world.journal; k < |journal| && journal[k].FinalizerRemoved?
    ensures var journal := cs[|cs| - 1].world.journal;
            IsDeletionLog(journal[k].log) && IsRecorded(journal[..k], journal[k].run)
  {
    EveryBehaviourKeeps(shipped, cs);
  }

  /**
   Nobody is patched behind a deletion: where a run is about to apply the objects, it read a version that carries the
   finalizer and is not being deleted, and the manifests say what that version asks for.
   */
  lemma ApplyingIsSafe(shipped: M.Slices, cs: seq<Config>)
    requires IsBehaviour(shipped, cs) && cs[|cs| - 1].fn == Some(Apply)
    ensures var w, s := cs[|cs| - 1].world, cs[|cs| - 1].memory;
            && HasRead(s) && !s.log[0].instance.deleting && s.log[0].instance.finalizer
            && IsRewrittenFor(w.slices, s.log[0].instance)
  {
    EveryBehaviourKeeps(shipped, cs);
  }

  /** The answer is about this object. */
  predicate AnswersTo(o: M.Object, id: V.Identity) {
    && id.name == o.name && id.namespace == o.namespace
    && (o.Deployment? ==> id.apiVersion == "apps/v1" && id.kind == "Deployment")
    && (o.IstioGateway? ==> id.kind == "Gateway") && (o.IstioVirtualService? ==> id.kind == "VirtualService")
    && (o.Other? ==> id.apiVersion == o.apiVersion && id.kind == o.kind)
  }

  /** There is one answer for each component and then one for each dependency. */
  predicate AnswerToAll(m: M.Slices, observed: seq<V.Observed>) {
    && |observed| == |m.objs| + |m.deps|
    && (forall j :: 0 <= j < |m.objs| ==> AnswersTo(m.objs[j], observed[j].id))
    && (forall j :: 0 <= j < |m.deps| ==> AnswersTo(m.deps[j], observed[|m.objs| + j].id))
  }

  lemma AllAreAnswered(m: M.Slices, observed: seq<V.Observed>)
    requires AreOf(observed, m)
    ensures AnswerToAll(m, observed)
  {
    assert forall j :: 0 <= j < |m.deps| ==> Objects(m)[|m.objs| + j] == m.deps[j];
  }

  /**
   A run turns the status to Ready only when it patched every object without an error and found every deployment and
   every service among them looking ready, provided that no two objects share a key.
   */
  lemma ReadyMeansInstalled(shipped: M.Slices, cs: seq<Config>, k: nat)
    requires IsBehaviour(shipped, cs)
    requires var journal := cs[|cs| - 1].world.journal;
             && k < |journal| && journal[k].StatusWritten?
             && journal[k].status.Some? && journal[k].status.value.phase.Ready?
    ensures var log := cs[|cs| - 1].world.journal[k].log;
            && |log| > 0 && log[0].Read?
            && (log[0].instance.status != cs[|cs| - 1].world.journal[k].status ==>
                  && IsVerifiedInstallation(log)
                  && AnswerToAll(log[1].slices, log[1].observed)
                  && (V.AreKeysDistinct(log[1].observed) ==>
                        forall j :: 0 <= j < |log[1].observed| ==> V.LooksReady(log[1].observed[j])))
  {
    EveryBehaviourKeeps(shipped, cs);
    var journal := cs[|cs| - 1].world.journal;
    assert IsJustified(journal, k);
    var log := journal[k].log;
    hide AreOf, AnswerToAll, V.AreKeysDistinct, V.LooksReady, V.IsInventoryReady, V.AllConvertible;
    if log[0].instance.status != journal[k].status {
      AllAreAnswered(log[1].slices, log[1].observed);
      if V.AreKeysDistinct(log[1].observed) {
        V.ReadyMeansAll(log[1].observed);
      }
    }
  }
}
