/**
 Rewriting the shared manifests to a specification before they are applied
 (pkg/reconciler/update_objects.go, pkg/reconciler/manage_compass_rt_agent.go, pkg/unstructured/predicate.go).
 */
module Manifests {
  import opened Wrappers
  import opened Upsert

  datatype EnvVar = EnvVar(name: string, value: string, source: string)

  datatype Container = Container(name: string, image: string, args: seq<string>, env: seq<EnvVar>)

  datatype Server = Server(port: nat, hosts: seq<string>)

  datatype Object =
    | Deployment(namespace: string, name: string, replicas: Option<nat>, containers: seq<Container>)
    | IstioGateway(namespace: string, name: string, servers: seq<Server>)
    | IstioVirtualService(namespace: string, name: string, hosts: seq<string>, gateways: seq<string>)
    | Other(apiVersion: string, kind: string, namespace: string, name: string)

  datatype UpdateError = ObjectNotFound | ContainerNotFound | Unreadable

  /** The specification of the ApplicationConnector; timeouts are the printed seconds. */
  datatype Spec = Spec(
    domainName: string,
    requestTimeout: string,
    proxyTimeout: string,
    gatewayLogLevel: string,
    validatorLogLevel: string,
    validatorLogFormat: string
  )

  /** What was read of the agent's configuration secret. */
  datatype Configuration = Present | Missing | Failed

  /** What the manifests are rewritten to: the specification with the detected domain, and the agent's replicas. */
  datatype Target = Target(spec: Spec, replicas: nat)

  function ApplyDefaults(spec: Spec, detectedDomain: string): Spec {
    if detectedDomain != "" then spec.(domainName := detectedDomain) else spec
  }

  const EVENTS_URL := "APP_RUNTIME_EVENTS_URL"
  const CONSOLE_URL := "APP_RUNTIME_CONSOLE_URL"
  const LOG_LEVEL := "APP_LOG_LEVEL"
  const LOG_FORMAT := "APP_LOG_FORMAT"
  const REQUEST_TIMEOUT_ARG := "--requestTimeout"
  const PROXY_TIMEOUT_ARG := "--proxyTimeout"
  const LOG_LEVEL_ARG := "--logLevel"

  // ---------------------------------------------------------------- environment and arguments

  function NamedEnv(name: string): EnvVar -> bool {
    (e: EnvVar) => e.name == name
  }

  function SetEnv(env: seq<EnvVar>, name: string, value: string): seq<EnvVar> {
    Put(env, NamedEnv(name), EnvVar(name, value, ""))
  }

  method EnvVarUpdate(env: seq<EnvVar>, name: string, value: string) returns (r: seq<EnvVar>)
    ensures r == SetEnv(env, name, value)
    ensures FirstIs(r, NamedEnv(name), EnvVar(name, value, ""))
  {
    PutIsFirst(env, NamedEnv(name), EnvVar(name, value, ""));
    var i := FindIndex(env, NamedEnv(name));
    r := if i == |env| then env + [EnvVar(name, value, "")] else env[i := EnvVar(name, value, "")];
  }

  /** An argument is found by its key as a prefix. */
  function KeyedArg(key: string): string -> bool {
    (arg: string) => key <= arg
  }

  function Arg(key: string, value: string): string {
    key + "=" + value
  }

  function SetArg(args: seq<string>, key: string, value: string): seq<string> {
    Put(args, KeyedArg(key), Arg(key, value))
  }

  method ArgValueUpdate(args: seq<string>, key: string, value: string) returns (r: seq<string>)
    ensures r == SetArg(args, key, value)
    ensures FirstIs(r, KeyedArg(key), Arg(key, value))
  {
    PutIsFirst(args, KeyedArg(key), Arg(key, value));
    var i := FindIndex(args, KeyedArg(key));
    r := if i == |args| then args + [Arg(key, value)] else args[i := Arg(key, value)];
  }

  // ---------------------------------------------------------------- the five updates

  datatype Stage = Agent | Gateway | Validator | Gateways | VirtualServices

  const STAGES := [Agent, Gateway, Validator, Gateways, VirtualServices]

  predicate OnDeployment(stage: Stage) {
    stage.Agent? || stage.Gateway? || stage.Validator?
  }

  /** The deployment of a stage, and its container of the same name. */
  function ComponentName(stage: Stage): string
    requires OnDeployment(stage)
  {
    match stage
    case Agent => "compass-runtime-agent"
    case Gateway => "central-application-gateway"
    case Validator => "central-application-connectivity-validator"
  }

  function NamedDeployment(name: string): Object -> bool {
    (o: Object) => o.Deployment? && o.name == name
  }

  function NamedContainer(name: string): Container -> bool {
    (c: Container) => c.name == name
  }

  function UpdateContainer(stage: Stage, t: Target, c: Container): Container
    requires OnDeployment(stage)
  {
    match stage
    case Agent =>
      c.(env := SetEnv(SetEnv(c.env, EVENTS_URL, "https://gateway." + t.spec.domainName),
                       CONSOLE_URL, "https://console." + t.spec.domainName))
    case Gateway =>
      c.(args := SetArg(SetArg(SetArg(c.args, REQUEST_TIMEOUT_ARG, t.spec.requestTimeout),
                               PROXY_TIMEOUT_ARG, t.spec.proxyTimeout),
                        LOG_LEVEL_ARG, t.spec.gatewayLogLevel))
    case Validator =>
      c.(env := SetEnv(SetEnv(c.env, LOG_LEVEL, t.spec.validatorLogLevel), LOG_FORMAT, t.spec.validatorLogFormat))
  }

  predicate HasContainer(stage: Stage, o: Object)
    requires OnDeployment(stage)
  {
    o.Deployment? && Has(o.containers, NamedContainer(ComponentName(stage)))
  }

  function UpdateDeployment(stage: Stage, t: Target, o: Object): Object
    requires OnDeployment(stage) && HasContainer(stage, o)
  {
    var j := IndexOf(o.containers, NamedContainer(ComponentName(stage)));
    o.(containers := o.containers[j := UpdateContainer(stage, t, o.containers[j])],
       replicas := if stage.Agent? then Some(t.replicas) else o.replicas)
  }

  function GatewayHosts(t: Target): seq<string> {
    ["gateway." + t.spec.domainName]
  }

  function UpdateHosts(stage: Stage, t: Target, o: Object): Object {
    if stage.Gateways? && o.IstioGateway? then
      o.(servers := seq(|o.servers|, i requires 0 <= i < |o.servers| => o.servers[i].(hosts := GatewayHosts(t))))
    else if stage.VirtualServices? && o.IstioVirtualService? then o.(hosts := GatewayHosts(t))
    else o
  }

  /** The components and their dependencies, two slices that all reconciliations share. */
  datatype Slices = Slices(objs: seq<Object>, deps: seq<Object>)

  predicate IsTarget(stage: Stage, o: Object) {
    if stage.Gateways? then o.IstioGateway? else o.IstioVirtualService?
  }

  /** Whether a stage fails depends on which objects and containers there are. */
  function ErrorOf(stage: Stage, m: Slices): Option<UpdateError> {
    if OnDeployment(stage) then
      var i := IndexOf(m.objs, NamedDeployment(ComponentName(stage)));
      if i == |m.objs| then Some(ObjectNotFound)
      else if !HasContainer(stage, m.objs[i]) then Some(ContainerNotFound)
      else None
    else if forall k :: 0 <= k < |m.deps| ==> !IsTarget(stage, m.deps[k]) then Some(ObjectNotFound)
    else None
  }

  function Step(stage: Stage, t: Target, m: Slices): Slices {
    if ErrorOf(stage, m).Some? then m
    else if OnDeployment(stage) then
      var i := IndexOf(m.objs, NamedDeployment(ComponentName(stage)));
      m.(objs := m.objs[i := UpdateDeployment(stage, t, m.objs[i])])
    else
      m.(deps := seq(|m.deps|, k requires 0 <= k < |m.deps| => UpdateHosts(stage, t, m.deps[k])))
  }

  /** The first `n` stages, of which none is run after one that failed. */
  function Pass(t: Target, m: Slices, n: nat): (Slices, Option<UpdateError>)
    requires n <= |STAGES|
  {
    if n == 0 then (m, None)
    else
      var (before, error) := Pass(t, m, n - 1);
      if error.Some? then (before, error) else (Step(STAGES[n - 1], t, before), ErrorOf(STAGES[n - 1], before))
  }

  // ---------------------------------------------------------------- one component

  lemma KeysExclude()
    ensures forall e: EnvVar :: !(NamedEnv(EVENTS_URL)(e) && NamedEnv(CONSOLE_URL)(e))
    ensures forall e: EnvVar :: !(NamedEnv(LOG_LEVEL)(e) && NamedEnv(LOG_FORMAT)(e))
    ensures forall a: string :: !(KeyedArg(REQUEST_TIMEOUT_ARG)(a) && KeyedArg(PROXY_TIMEOUT_ARG)(a))
    ensures forall a: string :: !(KeyedArg(REQUEST_TIMEOUT_ARG)(a) && KeyedArg(LOG_LEVEL_ARG)(a))
    ensures forall a: string :: !(KeyedArg(PROXY_TIMEOUT_ARG)(a) && KeyedArg(LOG_LEVEL_ARG)(a))
  {
    assert |EVENTS_URL| != |CONSOLE_URL| && |LOG_LEVEL| != |LOG_FORMAT|;
    assert REQUEST_TIMEOUT_ARG[2] == 'r' && PROXY_TIMEOUT_ARG[2] == 'p' && LOG_LEVEL_ARG[2] == 'l';
  }

  lemma TwoEnvs(env: seq<EnvVar>, n1: string, n2: string, a1: string, a2: string, b1: string, b2: string)
    requires n1 != n2
    ensures SetEnv(SetEnv(SetEnv(SetEnv(env, n1, a1), n2, a2), n1, b1), n2, b2) == SetEnv(SetEnv(env, n1, b1), n2, b2)
  {
    var m1, m2 := NamedEnv(n1), NamedEnv(n2);
    var x1, x2, y1, y2 := EnvVar(n1, a1, ""), EnvVar(n2, a2, ""), EnvVar(n1, b1, ""), EnvVar(n2, b2, "");
    PutIsFirst(env, m1, x1);
    PutsCommute(Put(env, m1, x1), m1, m2, y1, x2);
    PutOverwrites(env, m1, x1, y1);
    PutOverwrites(Put(env, m1, y1), m2, x2, y2);
  }

  /** Three puts for keys that exclude each other, done twice: only the second values are left. */
  lemma ThreeArgs(s: seq<string>, k1: string, k2: string, k3: string, a1: string, a2: string, a3: string,
                  b1: string, b2: string, b3: string)
    requires forall t: string :: !(KeyedArg(k1)(t) && KeyedArg(k2)(t))
    requires forall t: string :: !(KeyedArg(k1)(t) && KeyedArg(k3)(t))
    requires forall t: string :: !(KeyedArg(k2)(t) && KeyedArg(k3)(t))
    ensures SetArg(SetArg(SetArg(SetArg(SetArg(SetArg(s, k1, a1), k2, a2), k3, a3), k1, b1), k2, b2), k3, b3)
            == SetArg(SetArg(SetArg(s, k1, b1), k2, b2), k3, b3)
  {
    var m1, m2, m3 := KeyedArg(k1), KeyedArg(k2), KeyedArg(k3);
    var x1, x2, x3, y1, y2, y3 := Arg(k1, a1), Arg(k2, a2), Arg(k3, a3), Arg(k1, b1), Arg(k2, b2), Arg(k3, b3);
    assert m1(x1) && m1(y1) && m2(x2) && m2(y2) && m3(x3) && m3(y3);
    var s1 := Put(s, m1, x1);
    var s2 := Put(s1, m2, x2);
    var z1 := Put(s, m1, y1);
    PutIsFirst(s, m1, x1);
    PutKeeps(s1, m1, m2, x1, x2);
    PutsCommute(s2, m1, m3, y1, x3);
    PutsCommute(s1, m1, m2, y1, x2);
    PutOverwrites(s, m1, x1, y1);
    assert Put(Put(s2, m3, x3), m1, y1) == Put(Put(z1, m2, x2), m3, x3);
    PutIsFirst(z1, m2, x2);
    PutsCommute(Put(z1, m2, x2), m2, m3, y2, x3);
    PutOverwrites(z1, m2, x2, y2);
    PutOverwrites(Put(z1, m2, y2), m3, x3, y3);
  }

  lemma ContainerForgets(stage: Stage, a: Target, b: Target, c: Container)
    requires OnDeployment(stage)
    ensures UpdateContainer(stage, b, UpdateContainer(stage, a, c)) == UpdateContainer(stage, b, c)
  {
    KeysExclude();
    match stage
    case Agent =>
      assert |EVENTS_URL| != |CONSOLE_URL|;
      TwoEnvs(c.env, EVENTS_URL, CONSOLE_URL,
              "https://gateway." + a.spec.domainName, "https://console." + a.spec.domainName,
              "https://gateway." + b.spec.domainName, "https://console." + b.spec.domainName);
    case Gateway =>
      ThreeArgs(c.args, REQUEST_TIMEOUT_ARG, PROXY_TIMEOUT_ARG, LOG_LEVEL_ARG,
                a.spec.requestTimeout, a.spec.proxyTimeout, a.spec.gatewayLogLevel,
                b.spec.requestTimeout, b.spec.proxyTimeout, b.spec.gatewayLogLevel);
    case Validator =>
      assert |LOG_LEVEL| != |LOG_FORMAT|;
      TwoEnvs(c.env, LOG_LEVEL, LOG_FORMAT, a.spec.validatorLogLevel, a.spec.validatorLogFormat,
              b.spec.validatorLogLevel, b.spec.validatorLogFormat);
  }

  lemma DeploymentKeepsShape(stage: Stage, t: Target, o: Object, name: string)
    requires OnDeployment(stage) && HasContainer(stage, o)
    ensures var o' := UpdateDeployment(stage, t, o);
            && o'.Deployment? && o'.name == o.name
            && |o'.containers| == |o.containers|
            && IndexOf(o'.containers, NamedContainer(name)) == IndexOf(o.containers, NamedContainer(name))
  {
    var j := IndexOf(o.containers, NamedContainer(ComponentName(stage)));
    ReplaceKeepsIndex(o.containers, j, UpdateContainer(stage, t, o.containers[j]), NamedContainer(name));
  }

  lemma DeploymentForgets(stage: Stage, a: Target, b: Target, o: Object)
    requires OnDeployment(stage) && HasContainer(stage, o)
    ensures HasContainer(stage, UpdateDeployment(stage, a, o))
    ensures UpdateDeployment(stage, b, UpdateDeployment(stage, a, o)) == UpdateDeployment(stage, b, o)
  {
    DeploymentKeepsShape(stage, a, o, ComponentName(stage));
    var j := IndexOf(o.containers, NamedContainer(ComponentName(stage)));
    ContainerForgets(stage, a, b, o.containers[j]);
    ReplaceTwice(o.containers, j, UpdateContainer(stage, a, o.containers[j]),
                 UpdateContainer(stage, b, o.containers[j]));
  }

  lemma ReplaceTwice<T>(s: seq<T>, i: nat, x: T, y: T)
    requires i < |s|
    ensures s[i := x][i := y] == s[i := y]
  {
  }

  // ---------------------------------------------------------------- stages

  lemma ComponentsDiffer(s: Stage, t: Stage)
    requires OnDeployment(s) && OnDeployment(t) && s != t
    ensures ComponentName(s) != ComponentName(t)
  {
    assert |ComponentName(Agent)| == 21 && |ComponentName(Gateway)| == 27 && |ComponentName(Validator)| == 42;
  }

  lemma DeploymentStepKeepsShape(s: Stage, t: Target, m: Slices, o: Stage)
    requires OnDeployment(s) && OnDeployment(o) && ErrorOf(s, m).None?
    ensures IndexOf(Step(s, t, m).objs, NamedDeployment(ComponentName(o)))
            == IndexOf(m.objs, NamedDeployment(ComponentName(o)))
    ensures ErrorOf(o, Step(s, t, m)) == ErrorOf(o, m)
  {
    var i := IndexOf(m.objs, NamedDeployment(ComponentName(s)));
    var x := UpdateDeployment(s, t, m.objs[i]);
    DeploymentKeepsShape(s, t, m.objs[i], ComponentName(o));
    ReplaceKeepsIndex(m.objs, i, x, NamedDeployment(ComponentName(o)));
  }

  lemma HostsKeepKind(s: Stage, t: Target, o: Object, other: Stage)
    ensures IsTarget(other, UpdateHosts(s, t, o)) <==> IsTarget(other, o)
  {
  }

  lemma HostsStepKeepsShape(s: Stage, t: Target, m: Slices, o: Stage)
    requires !OnDeployment(s) && ErrorOf(s, m).None?
    ensures ErrorOf(o, Step(s, t, m)) == ErrorOf(o, m)
  {
    forall k | 0 <= k < |m.deps|
      ensures IsTarget(o, Step(s, t, m).deps[k]) <==> IsTarget(o, m.deps[k])
    {
      HostsKeepKind(s, t, m.deps[k], o);
    }
  }

  /** A stage changes no name and no kind, so that every stage finds what it found before. */
  lemma StepKeepsShape(s: Stage, t: Target, m: Slices, o: Stage)
    ensures ErrorOf(o, Step(s, t, m)) == ErrorOf(o, m)
    ensures OnDeployment(o) ==> var name := NamedDeployment(ComponentName(o));
              IndexOf(Step(s, t, m).objs, name) == IndexOf(m.objs, name)
  {
    if ErrorOf(s, m).None? {
      if !OnDeployment(s) {
        HostsStepKeepsShape(s, t, m, o);
      } else if OnDeployment(o) {
        DeploymentStepKeepsShape(s, t, m, o);
      }
    }
  }

  lemma HostsForget(s: Stage, a: Target, b: Target, m: Slices)
    requires !OnDeployment(s) && ErrorOf(s, m).None? && ErrorOf(s, Step(s, a, m)).None?
    ensures Step(s, b, Step(s, a, m)) == Step(s, b, m)
  {
    forall k | 0 <= k < |m.deps|
      ensures UpdateHosts(s, b, UpdateHosts(s, a, m.deps[k])) == UpdateHosts(s, b, m.deps[k])
    {
    }
  }

  lemma ComponentForgets(s: Stage, a: Target, b: Target, m: Slices)
    requires OnDeployment(s) && ErrorOf(s, m).None?
    ensures Step(s, b, Step(s, a, m)) == Step(s, b, m)
  {
    hide Step, ErrorOf, UpdateDeployment, HasContainer, IndexOf, ComponentName;
    StepKeepsShape(s, a, m, s);
    var i := IndexOf(m.objs, NamedDeployment(ComponentName(s)));
    DeploymentStep(s, a, m);
    DeploymentStep(s, b, m);
    DeploymentStep(s, b, Step(s, a, m));
    DeploymentForgets(s, a, b, m.objs[i]);
  }

  lemma StepForgets(s: Stage, a: Target, b: Target, m: Slices)
    ensures Step(s, b, Step(s, a, m)) == Step(s, b, m)
  {
    StepKeepsShape(s, a, m, s);
    if ErrorOf(s, m).None? {
      hide ErrorOf, UpdateDeployment, UpdateHosts;
      if OnDeployment(s) {
        ComponentForgets(s, a, b, m);
      } else {
        HostsForget(s, a, b, m);
      }
    }
  }

  lemma DeploymentStep(s: Stage, t: Target, m: Slices)
    requires OnDeployment(s) && ErrorOf(s, m).None?
    ensures var i := IndexOf(m.objs, NamedDeployment(ComponentName(s)));
            && i < |m.objs| && HasContainer(s, m.objs[i])
            && Step(s, t, m) == m.(objs := m.objs[i := UpdateDeployment(s, t, m.objs[i])])
  {
  }

  lemma DeploymentStepsCommute(s: Stage, o: Stage, a: Target, b: Target, m: Slices)
    requires s != o && OnDeployment(s) && OnDeployment(o) && ErrorOf(s, m).None? && ErrorOf(o, m).None?
    ensures Step(s, b, Step(o, a, m)) == Step(o, a, Step(s, b, m))
  {
    hide Step, ErrorOf, UpdateDeployment, HasContainer, IndexOf, ComponentName;
    StepKeepsShape(o, a, m, s);
    StepKeepsShape(s, b, m, o);
    ComponentsDiffer(s, o);
    DeploymentStep(s, b, m);
    DeploymentStep(o, a, m);
    DeploymentStep(s, b, Step(o, a, m));
    DeploymentStep(o, a, Step(s, b, m));
    var i, j := IndexOf(m.objs, NamedDeployment(ComponentName(s))), IndexOf(m.objs, NamedDeployment(ComponentName(o)));
    assert i != j;
    TwoPlaces(m.objs, i, j, UpdateDeployment(s, b, m.objs[i]), UpdateDeployment(o, a, m.objs[j]));
  }

  lemma TwoPlaces<T>(s: seq<T>, i: nat, j: nat, x: T, y: T)
    requires i < |s| && j < |s| && i != j
    ensures s[j := y][i := x] == s[i := x][j := y]
  {
  }

  lemma HostsStepsCommute(s: Stage, o: Stage, a: Target, b: Target, m: Slices)
    requires s != o && !OnDeployment(s) && !OnDeployment(o) && ErrorOf(s, m).None? && ErrorOf(o, m).None?
    ensures Step(s, b, Step(o, a, m)) == Step(o, a, Step(s, b, m))
  {
    StepKeepsShape(o, a, m, s);
    StepKeepsShape(s, b, m, o);
    forall k | 0 <= k < |m.deps|
      ensures UpdateHosts(s, b, UpdateHosts(o, a, m.deps[k])) == UpdateHosts(o, a, UpdateHosts(s, b, m.deps[k]))
    {
    }
  }

  lemma StepsCommute(s: Stage, o: Stage, a: Target, b: Target, m: Slices)
    requires s != o
    ensures Step(s, b, Step(o, a, m)) == Step(o, a, Step(s, b, m))
  {
    StepKeepsShape(o, a, m, s);
    StepKeepsShape(s, b, m, o);
    if ErrorOf(s, m).Some? || ErrorOf(o, m).Some? {
      hide UpdateDeployment, UpdateHosts;
    } else if OnDeployment(s) && OnDeployment(o) {
      DeploymentStepsCommute(s, o, a, b, m);
    } else if !OnDeployment(s) && !OnDeployment(o) {
      HostsStepsCommute(s, o, a, b, m);
    } else {
      hide UpdateDeployment, UpdateHosts;
    }
  }

  // ---------------------------------------------------------------- passes

  function Steps(t: Target, m: Slices, lo: nat, k: nat): Slices
    requires lo <= k <= |STAGES|
    decreases k
  {
    if lo == k then m else Step(STAGES[k - 1], t, Steps(t, m, lo, k - 1))
  }

  lemma {:induction false} StepsKeepErrors(t: Target, m: Slices, lo: nat, k: nat, o: Stage)
    requires lo <= k <= |STAGES|
    ensures ErrorOf(o, Steps(t, m, lo, k)) == ErrorOf(o, m)
    decreases k
  {
    if lo < k {
      StepsKeepErrors(t, m, lo, k - 1, o);
      StepKeepsShape(STAGES[k - 1], t, Steps(t, m, lo, k - 1), o);
    }
  }

  lemma {:induction false} StepThroughRest(j: nat, b: Target, a: Target, m: Slices, lo: nat, k: nat)
    requires j < lo <= k <= |STAGES|
    ensures Step(STAGES[j], b, Steps(a, m, lo, k)) == Steps(a, Step(STAGES[j], b, m), lo, k)
    decreases k
  {
    if lo < k {
      assert STAGES[j] != STAGES[k - 1];
      StepThroughRest(j, b, a, m, lo, k - 1);
      StepsCommute(STAGES[j], STAGES[k - 1], a, b, Steps(a, m, lo, k - 1));
    }
  }

  lemma {:induction false} StepsFromFirst(t: Target, m: Slices, lo: nat, k: nat)
    requires lo < k <= |STAGES|
    ensures Steps(t, m, lo, k) == Steps(t, Step(STAGES[lo], t, m), lo + 1, k)
    decreases k
  {
    if lo + 1 < k {
      StepsFromFirst(t, m, lo, k - 1);
    } else {
      assert Steps(t, m, lo, lo) == m;
    }
  }

  /** Stages redone for `b` pass through what the later stages did for `a`, and wipe out the earlier ones. */
  lemma {:induction false} StepsForget(a: Target, b: Target, m: Slices, j: nat, k: nat)
    requires j <= k <= |STAGES|
    ensures Steps(b, Steps(a, m, 0, k), 0, j) == Steps(a, Steps(b, m, 0, j), j, k)
    decreases j
  {
    if j > 0 {
      var stage, y := STAGES[j - 1], Steps(b, m, 0, j - 1);
      StepsForget(a, b, m, j - 1, k);
      StepsFromFirst(a, y, j - 1, k);
      StepThroughRest(j - 1, b, a, Step(stage, a, y), j, k);
      StepForgets(stage, a, b, y);
    }
  }

  /** How many of the first `n` stages succeed. */
  function Succeeding(m: Slices, n: nat): (g: nat)
    requires n <= |STAGES|
    ensures g <= n && (g < n ==> ErrorOf(STAGES[g], m).Some?)
  {
    if n == 0 then 0
    else
      var g := Succeeding(m, n - 1);
      if g < n - 1 || ErrorOf(STAGES[n - 1], m).Some? then g else n
  }

  lemma {:induction false} PassIsSteps(t: Target, m: Slices, n: nat)
    requires n <= |STAGES|
    ensures var g := Succeeding(m, n);
            Pass(t, m, n) == (Steps(t, m, 0, g), if g == n then None else ErrorOf(STAGES[g], m))
  {
    if n > 0 {
      PassIsSteps(t, m, n - 1);
      StepsKeepErrors(t, m, 0, Succeeding(m, n - 1), STAGES[n - 1]);
    }
  }

  lemma {:induction false} SameShapeSucceeds(m: Slices, m': Slices, n: nat)
    requires n <= |STAGES| && forall o :: ErrorOf(o, m') == ErrorOf(o, m)
    ensures Succeeding(m', n) == Succeeding(m, n)
  {
    if n > 0 {
      SameShapeSucceeds(m, m', n - 1);
    }
  }

  /**
   The shared manifests have no memory: rewriting them for one target and then for another gives the same manifests and
   the same error as the second target alone, also when the passes stop half-way.
   */
  lemma HistoryIndependence(a: Target, b: Target, m: Slices)
    ensures Pass(b, Pass(a, m, |STAGES|).0, |STAGES|) == Pass(b, m, |STAGES|)
  {
    var n := |STAGES|;
    var g := Succeeding(m, n);
    var m' := Pass(a, m, n).0;
    PassIsSteps(a, m, n);
    PassIsSteps(b, m, n);
    forall o
      ensures ErrorOf(o, m') == ErrorOf(o, m)
    {
      StepsKeepErrors(a, m, 0, g, o);
    }
    SameShapeSucceeds(m, m', n);
    PassIsSteps(b, m', n);
    StepsForget(a, b, m, g, g);
  }

  /** Reconciliations in a row, each with the target it could read, if it could. */
  function Passes(targets: seq<Option<Target>>, m: Slices): Slices {
    if targets == [] then m
    else
      var before := Passes(targets[..|targets| - 1], m);
      match targets[|targets| - 1]
      case None => before
      case Some(t) => Pass(t, before, |STAGES|).0
  }

  function LastTarget(targets: seq<Option<Target>>): Option<Target> {
    if targets == [] then None
    else if targets[|targets| - 1].Some? then targets[|targets| - 1]
    else LastTarget(targets[..|targets| - 1])
  }

  /** Only the last target that was read shows. */
  lemma {:induction false} OnlyTheLastTargetShows(targets: seq<Option<Target>>, m: Slices)
    ensures Passes(targets, m) == match LastTarget(targets) case None => m case Some(t) => Pass(t, m, |STAGES|).0
  {
    if targets != [] {
      var front := targets[..|targets| - 1];
      OnlyTheLastTargetShows(front, m);
      if targets[|targets| - 1].Some? && LastTarget(front).Some? {
        HistoryIndependence(LastTarget(front).value, targets[|targets| - 1].value, m);
      }
    }
  }

  // ---------------------------------------------------------------- what a successful pass establishes

  predicate ContainerMeets(stage: Stage, t: Target, c: Container)
    requires OnDeployment(stage)
  {
    match stage
    case Agent =>
      && FirstIs(c.env, NamedEnv(EVENTS_URL), EnvVar(EVENTS_URL, "https://gateway." + t.spec.domainName, ""))
      && FirstIs(c.env, NamedEnv(CONSOLE_URL), EnvVar(CONSOLE_URL, "https://console." + t.spec.domainName, ""))
    case Gateway =>
      && FirstIs(c.args, KeyedArg(REQUEST_TIMEOUT_ARG), Arg(REQUEST_TIMEOUT_ARG, t.spec.requestTimeout))
      && FirstIs(c.args, KeyedArg(PROXY_TIMEOUT_ARG), Arg(PROXY_TIMEOUT_ARG, t.spec.proxyTimeout))
      && FirstIs(c.args, KeyedArg(LOG_LEVEL_ARG), Arg(LOG_LEVEL_ARG, t.spec.gatewayLogLevel))
    case Validator =>
      && FirstIs(c.env, NamedEnv(LOG_LEVEL), EnvVar(LOG_LEVEL, t.spec.validatorLogLevel, ""))
      && FirstIs(c.env, NamedEnv(LOG_FORMAT), EnvVar(LOG_FORMAT, t.spec.validatorLogFormat, ""))
  }

  /** The manifests say what the target asks of one stage. */
  predicate Meets(stage: Stage, t: Target, m: Slices) {
    if OnDeployment(stage) then
      var i := IndexOf(m.objs, NamedDeployment(ComponentName(stage)));
      i < |m.objs| && HasContainer(stage, m.objs[i])
      && (stage.Agent? ==> m.objs[i].replicas == Some(t.replicas))
      && ContainerMeets(stage, t,
                        m.objs[i].containers[IndexOf(m.objs[i].containers, NamedContainer(ComponentName(stage)))])
    else
      forall k :: 0 <= k < |m.deps| ==>
        && (stage.Gateways? && m.deps[k].IstioGateway? ==>
              forall s :: 0 <= s < |m.deps[k].servers| ==> m.deps[k].servers[s].hosts == GatewayHosts(t))
        && (stage.VirtualServices? && m.deps[k].IstioVirtualService? ==> m.deps[k].hosts == GatewayHosts(t))
  }

  lemma FirstStays<T>(s: seq<T>, a: T -> bool, b: T -> bool, x: T, y: T)
    requires FirstIs(s, a, x) && Exclusive(a, b, x, y) && forall t :: t in s ==> !(a(t) && b(t))
    ensures FirstIs(Put(s, b, y), a, x)
  {
    PutKeeps(s, a, b, x, y);
    assert s[IndexOf(s, a)] in s;
  }

  lemma UpdatedContainerMeets(stage: Stage, t: Target, c: Container)
    requires OnDeployment(stage)
    ensures ContainerMeets(stage, t, UpdateContainer(stage, t, c))
  {
    KeysExclude();
    match stage
    case Agent =>
      assert |EVENTS_URL| != |CONSOLE_URL|;
      TwoEnvsAreFirst(c.env, EVENTS_URL, "https://gateway." + t.spec.domainName, CONSOLE_URL,
                      "https://console." + t.spec.domainName);
    case Gateway =>
      ThreeArgsAreFirst(c.args, t);
    case Validator =>
      assert |LOG_LEVEL| != |LOG_FORMAT|;
      TwoEnvsAreFirst(c.env, LOG_LEVEL, t.spec.validatorLogLevel, LOG_FORMAT, t.spec.validatorLogFormat);
  }

  lemma TwoEnvsAreFirst(env: seq<EnvVar>, n1: string, v1: string, n2: string, v2: string)
    requires n1 != n2
    ensures var r := SetEnv(SetEnv(env, n1, v1), n2, v2);
            FirstIs(r, NamedEnv(n1), EnvVar(n1, v1, "")) && FirstIs(r, NamedEnv(n2), EnvVar(n2, v2, ""))
  {
    PutIsFirst(env, NamedEnv(n1), EnvVar(n1, v1, ""));
    PutIsFirst(SetEnv(env, n1, v1), NamedEnv(n2), EnvVar(n2, v2, ""));
    FirstStays(SetEnv(env, n1, v1), NamedEnv(n1), NamedEnv(n2), EnvVar(n1, v1, ""), EnvVar(n2, v2, ""));
  }

  lemma ThreeArgsAreFirst(args: seq<string>, t: Target)
    ensures var r := SetArg(SetArg(SetArg(args, REQUEST_TIMEOUT_ARG, t.spec.requestTimeout),
                                   PROXY_TIMEOUT_ARG, t.spec.proxyTimeout),
                            LOG_LEVEL_ARG, t.spec.gatewayLogLevel);
            && FirstIs(r, KeyedArg(REQUEST_TIMEOUT_ARG), Arg(REQUEST_TIMEOUT_ARG, t.spec.requestTimeout))
            && FirstIs(r, KeyedArg(PROXY_TIMEOUT_ARG), Arg(PROXY_TIMEOUT_ARG, t.spec.proxyTimeout))
            && FirstIs(r, KeyedArg(LOG_LEVEL_ARG), Arg(LOG_LEVEL_ARG, t.spec.gatewayLogLevel))
  {
    KeysExclude();
    var m1, m2, m3 := KeyedArg(REQUEST_TIMEOUT_ARG), KeyedArg(PROXY_TIMEOUT_ARG), KeyedArg(LOG_LEVEL_ARG);
    var x1, x2, x3 := Arg(REQUEST_TIMEOUT_ARG, t.spec.requestTimeout), Arg(PROXY_TIMEOUT_ARG, t.spec.proxyTimeout),
                      Arg(LOG_LEVEL_ARG, t.spec.gatewayLogLevel);
    assert m1(x1) && m2(x2) && m3(x3);
    PutIsFirst(args, m1, x1);
    var s1 := Put(args, m1, x1);
    PutIsFirst(s1, m2, x2);
    FirstStays(s1, m1, m2, x1, x2);
    var s2 := Put(s1, m2, x2);
    PutIsFirst(s2, m3, x3);
    FirstStays(s2, m1, m3, x1, x3);
    FirstStays(s2, m2, m3, x2, x3);
  }

  lemma StepMeets(stage: Stage, t: Target, m: Slices)
    requires ErrorOf(stage, m).None?
    ensures Meets(stage, t, Step(stage, t, m))
  {
    StepKeepsShape(stage, t, m, stage);
    if OnDeployment(stage) {
      var o := m.objs[IndexOf(m.objs, NamedDeployment(ComponentName(stage)))];
      DeploymentKeepsShape(stage, t, o, ComponentName(stage));
      UpdatedContainerMeets(stage, t, o.containers[IndexOf(o.containers, NamedContainer(ComponentName(stage)))]);
    }
  }

  /** Once a pass succeeded, every stage is met; no later stage undoes an earlier one. */
  lemma PassMeets(t: Target, m: Slices, j: nat)
    requires j < |STAGES| && Pass(t, m, |STAGES|).1.None?
    ensures Meets(STAGES[j], t, Pass(t, m, |STAGES|).0)
  {
    var n, stage := |STAGES|, STAGES[j];
    PassIsSteps(t, m, n);
    var y := Steps(t, m, 0, j);
    AllSucceed(m, n, j);
    StepsKeepErrors(t, m, 0, n, stage);
    StepsSplit(t, m, j, n);
    StepsFromFirst(t, y, j, n);
    StepThroughRest(j, t, t, Step(stage, t, y), j + 1, n);
    StepForgets(stage, t, t, y);
    StepMeets(stage, t, Steps(t, m, 0, n));
  }

  lemma {:induction false} AllSucceed(m: Slices, n: nat, j: nat)
    requires j < n <= |STAGES| && Succeeding(m, n) == n
    ensures ErrorOf(STAGES[j], m).None?
  {
    if j < n - 1 {
      AllSucceed(m, n - 1, j);
    }
  }

  lemma {:induction false} StepsSplit(t: Target, m: Slices, j: nat, k: nat)
    requires j <= k <= |STAGES|
    ensures Steps(t, m, 0, k) == Steps(t, Steps(t, m, 0, j), j, k)
    decreases k
  {
    if j < k {
      StepsSplit(t, m, j, k - 1);
    }
  }

  // ---------------------------------------------------------------- the same, in the words of the manifests

  /** Of the variables of that name the first has the value. */
  predicate HasEnv(env: seq<EnvVar>, name: string, value: string) {
    exists i :: 0 <= i < |env| && env[i] == EnvVar(name, value, "") && forall j :: 0 <= j < i ==> env[j].name != name
  }

  /** Of the arguments that start with the key the first gives it the value. */
  predicate HasArg(args: seq<string>, key: string, value: string) {
    exists i :: 0 <= i < |args| && args[i] == key + "=" + value && forall j :: 0 <= j < i ==> !(key <= args[j])
  }

  /** The first deployment of that name, and its first container of the same name. */
  predicate IsComponent(m: Slices, name: string, o: Object, c: Container) {
    && (exists i :: 0 <= i < |m.objs| && m.objs[i] == o
                    && forall j :: 0 <= j < i ==> !(m.objs[j].Deployment? && m.objs[j].name == name))
    && o.Deployment? && o.name == name
    && (exists k :: 0 <= k < |o.containers| && o.containers[k] == c
                    && forall j :: 0 <= j < k ==> o.containers[j].name != name)
    && c.name == name
  }

  ghost predicate SaysOfAgent(m: Slices, domain: string, replicas: nat) {
    exists o: Object, c: Container ::
      && IsComponent(m, "compass-runtime-agent", o, c) && o.replicas == Some(replicas)
      && HasEnv(c.env, "APP_RUNTIME_EVENTS_URL", "https://" + "gateway." + domain)
      && HasEnv(c.env, "APP_RUNTIME_CONSOLE_URL", "https://" + "console." + domain)
  }

  ghost predicate SaysOfGateway(m: Slices, spec: Spec) {
    exists o: Object, c: Container ::
      && IsComponent(m, "central-application-gateway", o, c)
      && HasArg(c.args, "--requestTimeout", spec.requestTimeout)
      && HasArg(c.args, "--proxyTimeout", spec.proxyTimeout)
      && HasArg(c.args, "--logLevel", spec.gatewayLogLevel)
  }

  ghost predicate SaysOfValidator(m: Slices, spec: Spec) {
    exists o: Object, c: Container ::
      && IsComponent(m, "central-application-connectivity-validator", o, c)
      && HasEnv(c.env, "APP_LOG_LEVEL", spec.validatorLogLevel)
      && HasEnv(c.env, "APP_LOG_FORMAT", spec.validatorLogFormat)
  }

  /** Every server of every gateway and every virtual service has exactly the one host, the gateway of the domain. */
  predicate SaysOfHosts(m: Slices, domain: string) {
    && (forall k, s :: 0 <= k < |m.deps| && m.deps[k].IstioGateway? && 0 <= s < |m.deps[k].servers| ==>
          m.deps[k].servers[s].hosts == ["gateway." + domain])
    && (forall k :: 0 <= k < |m.deps| && m.deps[k].IstioVirtualService? ==> m.deps[k].hosts == ["gateway." + domain])
  }

  /** What the manifests say to the components, spelled out. */
  ghost predicate Says(m: Slices, spec: Spec, domain: string, replicas: nat) {
    && SaysOfAgent(m, domain, replicas) && SaysOfGateway(m, spec) && SaysOfValidator(m, spec)
    && SaysOfHosts(m, domain)
  }

  lemma FirstEnv(env: seq<EnvVar>, name: string, value: string)
    requires FirstIs(env, NamedEnv(name), EnvVar(name, value, ""))
    ensures HasEnv(env, name, value)
  {
    IsIndexOf(env, NamedEnv(name), IndexOf(env, NamedEnv(name)));
  }

  lemma FirstArg(args: seq<string>, key: string, value: string)
    requires FirstIs(args, KeyedArg(key), Arg(key, value))
    ensures HasArg(args, key, value)
  {
    IsIndexOf(args, KeyedArg(key), IndexOf(args, KeyedArg(key)));
  }

  lemma NamedComponent(stage: Stage, m: Slices, t: Target)
    requires OnDeployment(stage) && Meets(stage, t, m)
    ensures exists o: Object, c: Container ::
              && IsComponent(m, ComponentName(stage), o, c) && ContainerMeets(stage, t, c)
              && (stage.Agent? ==> o.Deployment? && o.replicas == Some(t.replicas))
  {
    hide ContainerMeets;
    var name := ComponentName(stage);
    var i := IndexOf(m.objs, NamedDeployment(name));
    var o := m.objs[i];
    var k := IndexOf(o.containers, NamedContainer(name));
    var c := o.containers[k];
    assert forall j :: 0 <= j < i ==> !NamedDeployment(name)(m.objs[j]);
    assert forall j :: 0 <= j < k ==> !NamedContainer(name)(o.containers[j]);
    assert IsComponent(m, name, o, c);
  }

  lemma MetSaysOfComponents(m: Slices, t: Target)
    requires Meets(Agent, t, m) && Meets(Gateway, t, m) && Meets(Validator, t, m)
    ensures SaysOfAgent(m, t.spec.domainName, t.replicas)
    ensures SaysOfGateway(m, t.spec) && SaysOfValidator(m, t.spec)
  {
    hide Meets, IsComponent, HasEnv, HasArg, FirstIs, NamedEnv, KeyedArg;
    NamedComponent(Agent, m, t);
    var o, c :| IsComponent(m, "compass-runtime-agent", o, c) && ContainerMeets(Agent, t, c)
                && o.Deployment? && o.replicas == Some(t.replicas);
    var d := t.spec.domainName;
    FirstEnv(c.env, EVENTS_URL, "https://gateway." + d);
    FirstEnv(c.env, CONSOLE_URL, "https://console." + d);
    assert "https://" + "gateway." + d == "https://gateway." + d;
    assert "https://" + "console." + d == "https://console." + d;
    NamedComponent(Gateway, m, t);
    o, c :| IsComponent(m, "central-application-gateway", o, c) && ContainerMeets(Gateway, t, c);
    FirstArg(c.args, REQUEST_TIMEOUT_ARG, t.spec.requestTimeout);
    FirstArg(c.args, PROXY_TIMEOUT_ARG, t.spec.proxyTimeout);
    FirstArg(c.args, LOG_LEVEL_ARG, t.spec.gatewayLogLevel);
    NamedComponent(Validator, m, t);
    o, c :| IsComponent(m, "central-application-connectivity-validator", o, c) && ContainerMeets(Validator, t, c);
    FirstEnv(c.env, LOG_LEVEL, t.spec.validatorLogLevel);
    FirstEnv(c.env, LOG_FORMAT, t.spec.validatorLogFormat);
  }

  lemma MetSaysOfHosts(m: Slices, t: Target)
    requires Meets(Gateways, t, m) && Meets(VirtualServices, t, m)
    ensures SaysOfHosts(m, t.spec.domainName)
  {
  }

  /**
   After a successful pass the manifests say, word for word, what the specification and the domain ask: the host of
   every gateway and virtual service, the URLs and replicas of the agent, the arguments of the gateway, and the
   variables of the validator.
   */
  lemma PassSays(t: Target, m: Slices)
    requires Pass(t, m, |STAGES|).1.None?
    ensures Says(Pass(t, m, |STAGES|).0, t.spec, t.spec.domainName, t.replicas)
  {
    hide Pass, Meets, SaysOfHosts;
    PassMeets(t, m, 0);
    PassMeets(t, m, 1);
    PassMeets(t, m, 2);
    PassMeets(t, m, 3);
    PassMeets(t, m, 4);
    MetSaysOfComponents(Pass(t, m, |STAGES|).0, t);
    MetSaysOfHosts(Pass(t, m, |STAGES|).0, t);
  }

  // ---------------------------------------------------------------- what a pass leaves alone

  /** Everything but the three components and the hosts of gateways and virtual services stays as it is. */
  ghost predicate LeavesOthers(m: Slices, m': Slices) {
    && |m'.objs| == |m.objs| && |m'.deps| == |m.deps|
    && (forall k ::
          0 <= k < |m.objs| && (forall s: Stage :: OnDeployment(s) ==> !NamedDeployment(ComponentName(s))(m.objs[k]))
          ==> m'.objs[k] == m.objs[k])
    && (forall k :: 0 <= k < |m.deps| && !m.deps[k].IstioGateway? && !m.deps[k].IstioVirtualService?
                    ==> m'.deps[k] == m.deps[k])
    && (forall k :: 0 <= k < |m.deps| ==> m'.deps[k].name == m.deps[k].name
                                          && (m'.deps[k].IstioGateway? <==> m.deps[k].IstioGateway?)
                                          && (m'.deps[k].IstioVirtualService? <==> m.deps[k].IstioVirtualService?))
  }

  lemma StepLeavesOthers(stage: Stage, t: Target, m: Slices)
    ensures LeavesOthers(m, Step(stage, t, m))
  {
  }

  lemma {:induction false} PassLeavesOthers(t: Target, m: Slices, n: nat)
    requires n <= |STAGES|
    ensures LeavesOthers(m, Pass(t, m, n).0)
  {
    if n > 0 {
      PassLeavesOthers(t, m, n - 1);
      StepLeavesOthers(STAGES[n - 1], t, Pass(t, m, n - 1).0);
    }
  }

  /** The variables and arguments that passes manage. */
  predicate IsManagedEnv(e: EnvVar) {
    e.name in ["APP_RUNTIME_EVENTS_URL", "APP_RUNTIME_CONSOLE_URL", "APP_LOG_LEVEL", "APP_LOG_FORMAT"]
  }

  predicate IsManagedArg(arg: string) {
    "--requestTimeout" <= arg || "--proxyTimeout" <= arg || "--logLevel" <= arg
  }

  /** Elements that are not managed stay where they are, and only managed ones are added. */
  ghost predicate KeepsUnmanaged<T(!new)>(s: seq<T>, s': seq<T>, managed: T -> bool) {
    && |s| <= |s'|
    && (forall i :: 0 <= i < |s| ==> s'[i] == s[i] || (managed(s[i]) && managed(s'[i])))
    && (forall i :: |s| <= i < |s'| ==> managed(s'[i]))
  }

  ghost predicate KeepsContainer(c: Container, c': Container) {
    && c'.name == c.name && c'.image == c.image
    && KeepsUnmanaged(c.env, c'.env, (e: EnvVar) => IsManagedEnv(e))
    && KeepsUnmanaged(c.args, c'.args, (a: string) => IsManagedArg(a))
  }

  ghost predicate KeepsObject(o: Object, o': Object) {
    match o
    case Deployment(namespace, name, replicas, containers) =>
      && o'.Deployment? && o'.namespace == namespace && o'.name == name
      && (name != "compass-runtime-agent" ==> o'.replicas == replicas)
      && |o'.containers| == |containers|
      && (forall k :: 0 <= k < |containers| ==> KeepsContainer(containers[k], o'.containers[k]))
    case IstioGateway(namespace, name, servers) =>
      && o'.IstioGateway? && o'.namespace == namespace && o'.name == name
      && |o'.servers| == |servers|
      && (forall k :: 0 <= k < |servers| ==> o'.servers[k].port == servers[k].port)
    case IstioVirtualService(namespace, name, _, gateways) =>
      o'.IstioVirtualService? && o'.namespace == namespace && o'.name == name && o'.gateways == gateways
    case Other(_, _, _, _) => o' == o
  }

  ghost predicate KeepsRest(m: Slices, m': Slices) {
    && |m'.objs| == |m.objs| && |m'.deps| == |m.deps|
    && (forall k :: 0 <= k < |m.objs| ==> KeepsObject(m.objs[k], m'.objs[k]))
    && (forall k :: 0 <= k < |m.deps| ==> KeepsObject(m.deps[k], m'.deps[k]))
  }

  lemma PutKeepsUnmanaged<T(!new)>(s: seq<T>, s': seq<T>, matches: T -> bool, x: T, managed: T -> bool)
    requires KeepsUnmanaged(s, s', managed) && managed(x) && forall y :: matches(y) ==> managed(y)
    ensures KeepsUnmanaged(s, Put(s', matches, x), managed)
  {
  }

  lemma UpdateKeepsContainer(stage: Stage, t: Target, c: Container)
    requires OnDeployment(stage)
    ensures KeepsContainer(c, UpdateContainer(stage, t, c))
  {
    hide Put;
    var env, arg := (e: EnvVar) => IsManagedEnv(e), (a: string) => IsManagedArg(a);
    match stage
    case Agent =>
      PutKeepsUnmanaged(c.env, c.env, NamedEnv(EVENTS_URL),
                        EnvVar(EVENTS_URL, "https://gateway." + t.spec.domainName, ""), env);
      PutKeepsUnmanaged(c.env, SetEnv(c.env, EVENTS_URL, "https://gateway." + t.spec.domainName),
                        NamedEnv(CONSOLE_URL), EnvVar(CONSOLE_URL, "https://console." + t.spec.domainName, ""), env);
    case Gateway =>
      var args := SetArg(c.args, REQUEST_TIMEOUT_ARG, t.spec.requestTimeout);
      PutKeepsUnmanaged(c.args, c.args, KeyedArg(REQUEST_TIMEOUT_ARG), Arg(REQUEST_TIMEOUT_ARG, t.spec.requestTimeout),
                        arg);
      PutKeepsUnmanaged(c.args, args, KeyedArg(PROXY_TIMEOUT_ARG), Arg(PROXY_TIMEOUT_ARG, t.spec.proxyTimeout), arg);
      PutKeepsUnmanaged(c.args, SetArg(args, PROXY_TIMEOUT_ARG, t.spec.proxyTimeout), KeyedArg(LOG_LEVEL_ARG),
                        Arg(LOG_LEVEL_ARG, t.spec.gatewayLogLevel), arg);
    case Validator =>
      PutKeepsUnmanaged(c.env, c.env, NamedEnv(LOG_LEVEL), EnvVar(LOG_LEVEL, t.spec.validatorLogLevel, ""), env);
      PutKeepsUnmanaged(c.env, SetEnv(c.env, LOG_LEVEL, t.spec.validatorLogLevel), NamedEnv(LOG_FORMAT),
                        EnvVar(LOG_FORMAT, t.spec.validatorLogFormat, ""), env);
  }

  lemma ObjectKeepsItself(o: Object)
    ensures KeepsObject(o, o)
  {
  }

  lemma UpdateKeepsObject(stage: Stage, t: Target, o: Object)
    requires OnDeployment(stage) && HasContainer(stage, o) && o.name == ComponentName(stage)
    ensures KeepsObject(o, UpdateDeployment(stage, t, o))
  {
    hide KeepsContainer, UpdateContainer;
    var j := IndexOf(o.containers, NamedContainer(ComponentName(stage)));
    UpdateKeepsContainer(stage, t, o.containers[j]);
    forall k | 0 <= k < |o.containers|
      ensures KeepsContainer(o.containers[k], o.containers[k])
    {
      assert KeepsContainer(o.containers[k], o.containers[k]) by { ContainerKeepsItself(o.containers[k]); }
    }
  }

  lemma ContainerKeepsItself(c: Container)
    ensures KeepsContainer(c, c)
  {
  }

  lemma StepKeepsRest(stage: Stage, t: Target, m: Slices)
    ensures KeepsRest(m, Step(stage, t, m))
  {
    forall o: Object
      ensures KeepsObject(o, o)
    {
      ObjectKeepsItself(o);
    }
    if OnDeployment(stage) && ErrorOf(stage, m).None? {
      hide KeepsObject, UpdateDeployment;
      UpdateKeepsObject(stage, t, m.objs[IndexOf(m.objs, NamedDeployment(ComponentName(stage)))]);
    }
  }

  lemma KeptTwice(o: Object, o': Object, o'': Object)
    requires KeepsObject(o, o') && KeepsObject(o', o'')
    ensures KeepsObject(o, o'')
  {
    if o.Deployment? {
      forall k | 0 <= k < |o.containers|
        ensures KeepsContainer(o.containers[k], o''.containers[k])
      {
        assert KeepsContainer(o.containers[k], o'.containers[k]) && KeepsContainer(o'.containers[k], o''.containers[k]);
      }
    }
  }

  /** Within the components, too, a pass touches nothing but the variables, arguments, replicas and hosts it manages. */
  lemma {:induction false} PassKeepsRest(t: Target, m: Slices, n: nat)
    requires n <= |STAGES|
    ensures KeepsRest(m, Pass(t, m, n).0)
  {
    hide KeepsObject, Step, ErrorOf;
    if n == 0 {
      forall o: Object
        ensures KeepsObject(o, o)
      {
        ObjectKeepsItself(o);
      }
    } else {
      PassKeepsRest(t, m, n - 1);
      var m1 := Pass(t, m, n - 1).0;
      StepKeepsRest(STAGES[n - 1], t, m1);
      var m2 := Step(STAGES[n - 1], t, m1);
      forall k | 0 <= k < |m.objs|
        ensures KeepsObject(m.objs[k], m2.objs[k])
      {
        KeptTwice(m.objs[k], m1.objs[k], m2.objs[k]);
      }
      forall k | 0 <= k < |m.deps|
        ensures KeepsObject(m.deps[k], m2.deps[k])
      {
        KeptTwice(m.deps[k], m1.deps[k], m2.deps[k]);
      }
    }
  }

  // ---------------------------------------------------------------- the shared slices

  class SharedManifests {
    var objs: seq<Object>
    var deps: seq<Object>

    function State(): Slices
      reads this
    {
      Slices(objs, deps)
    }

    method UpdateComponent(stage: Stage, t: Target) returns (err: Option<UpdateError>)
      requires OnDeployment(stage)
      modifies this`objs
      ensures err == ErrorOf(stage, old(State())) && State() == Step(stage, t, old(State()))
    {
      var i := FindIndex(objs, NamedDeployment(ComponentName(stage)));
      if i == |objs| {
        return Some(ObjectNotFound);
      }
      var o := objs[i];
      var j := FindIndex(o.containers, NamedContainer(ComponentName(stage)));
      if j == |o.containers| {
        return Some(ContainerNotFound);
      }
      var c := o.containers[j];
      var replicas := o.replicas;
      match stage {
        case Agent =>
          var env := EnvVarUpdate(c.env, EVENTS_URL, "https://gateway." + t.spec.domainName);
          env := EnvVarUpdate(env, CONSOLE_URL, "https://console." + t.spec.domainName);
          c := c.(env := env);
          replicas := Some(t.replicas);
        case Gateway =>
          var args := ArgValueUpdate(c.args, REQUEST_TIMEOUT_ARG, t.spec.requestTimeout);
          args := ArgValueUpdate(args, PROXY_TIMEOUT_ARG, t.spec.proxyTimeout);
          args := ArgValueUpdate(args, LOG_LEVEL_ARG, t.spec.gatewayLogLevel);
          c := c.(args := args);
        case Validator =>
          var env := EnvVarUpdate(c.env, LOG_LEVEL, t.spec.validatorLogLevel);
          env := EnvVarUpdate(env, LOG_FORMAT, t.spec.validatorLogFormat);
          c := c.(env := env);
      }
      objs := objs[i := o.(containers := o.containers[j := c], replicas := replicas)];
      err := None;
    }

    /** The positions of the gateways or the virtual services. */
    method FindAll(stage: Stage) returns (found: seq<nat>)
      ensures forall k :: 0 <= k < |found| ==> found[k] < |deps| && IsTarget(stage, deps[found[k]])
      ensures forall i :: 0 <= i < |deps| && IsTarget(stage, deps[i]) ==> i in found
      ensures forall k, l :: 0 <= k < l < |found| ==> found[k] < found[l]
    {
      found := [];
      for i := 0 to |deps|
        invariant forall k :: 0 <= k < |found| ==> found[k] < i && IsTarget(stage, deps[found[k]])
        invariant forall j :: 0 <= j < i && IsTarget(stage, deps[j]) ==> j in found
        invariant forall k, l :: 0 <= k < l < |found| ==> found[k] < found[l]
      {
        if IsTarget(stage, deps[i]) {
          found := found + [i];
        }
      }
    }

    method UpdateServers(o: Object, t: Target) returns (r: Object)
      requires o.IstioGateway?
      ensures r == UpdateHosts(Gateways, t, o)
    {
      var servers := o.servers;
      for i := 0 to |servers|
        invariant |servers| == |o.servers|
        invariant forall k :: 0 <= k < |servers| ==>
          servers[k] == if k < i then o.servers[k].(hosts := GatewayHosts(t)) else o.servers[k]
      {
        servers := servers[i := servers[i].(hosts := GatewayHosts(t))];
      }
      r := o.(servers := servers);
      assert servers == seq(|o.servers|, i requires 0 <= i < |o.servers| => o.servers[i].(hosts := GatewayHosts(t)));
    }

    method UpdateAllHosts(stage: Stage, t: Target) returns (err: Option<UpdateError>)
      requires !OnDeployment(stage)
      modifies this`deps
      ensures err == ErrorOf(stage, old(State())) && State() == Step(stage, t, old(State()))
    {
      var found := FindAll(stage);
      if |found| == 0 {
        return Some(ObjectNotFound);
      }
      for k := 0 to |found|
        invariant |deps| == |old(deps)|
        invariant forall i :: 0 <= i < |deps| ==>
          deps[i] == if i in found[..k] then UpdateHosts(stage, t, old(deps)[i]) else old(deps)[i]
      {
        assert found[..k + 1] == found[..k] + [found[k]];
        assert deps[found[k]] == old(deps)[found[k]];
        var o;
        if stage.Gateways? {
          o := UpdateServers(deps[found[k]], t);
        } else {
          o := deps[found[k]].(hosts := GatewayHosts(t));
        }
        deps := deps[found[k] := o];
      }
      assert IsTarget(stage, old(deps)[found[0]]);
      assert found[..|found|] == found;
      assert forall i :: 0 <= i < |deps| ==> deps[i] == UpdateHosts(stage, t, old(deps)[i]);
      err := None;
    }

    method RunStage(stage: Stage, t: Target) returns (err: Option<UpdateError>)
      modifies this
      ensures err == ErrorOf(stage, old(State())) && State() == Step(stage, t, old(State()))
    {
      hide Step, ErrorOf;
      if OnDeployment(stage) {
        err := UpdateComponent(stage, t);
      } else {
        err := UpdateAllHosts(stage, t);
      }
    }

    /** Without having read the agent's configuration nothing is rewritten. */
    method Update(spec: Spec, detectedDomain: string, configuration: Configuration) returns (err: Option<UpdateError>)
      modifies this
      ensures configuration.Failed? ==> err == Some(Unreadable) && State() == old(State())
      ensures !configuration.Failed? ==>
                (State(), err)
                == Pass(Target(ApplyDefaults(spec, detectedDomain), if configuration.Missing? then 0 else 1),
                        old(State()), |STAGES|)
    {
      if configuration.Failed? {
        return Some(Unreadable);
      }
      var t := Target(ApplyDefaults(spec, detectedDomain), if configuration.Missing? then 0 else 1);
      hide Pass, Step, ErrorOf;
      PassBegins(t, State());
      for n := 0 to |STAGES|
        invariant Pass(t, old(State()), n) == (State(), None)
      {
        err := RunStage(STAGES[n], t);
        PassGoesOn(t, old(State()), n);
        if err.Some? {
          PassStops(t, old(State()), n + 1, |STAGES|);
          return;
        }
      }
      err := None;
    }
  }

  lemma PassBegins(t: Target, m: Slices)
    ensures Pass(t, m, 0) == (m, None)
  {
  }

  lemma PassGoesOn(t: Target, m: Slices, n: nat)
    requires n < |STAGES| && Pass(t, m, n).1.None?
    ensures Pass(t, m, n + 1) == (Step(STAGES[n], t, Pass(t, m, n).0), ErrorOf(STAGES[n], Pass(t, m, n).0))
  {
  }

  lemma {:induction false} PassStops(t: Target, m: Slices, k: nat, n: nat)
    requires k <= n <= |STAGES| && Pass(t, m, k).1.Some?
    ensures Pass(t, m, n) == Pass(t, m, k)
  {
    if k < n {
      PassStops(t, m, k, n - 1);
    }
  }
}
