/** Which of the applied components are ready (pkg/reconciler/verify.go, pkg/reconciler/inventory.go). */
module Verification {
  import opened Wrappers
  import M = Manifests
  import T = Text

  datatype Identity = Identity(apiVersion: string, kind: string, namespace: string, name: string)

  function IdentityOf(o: M.Object): Identity {
    match o
    case Deployment(namespace, name, _, _) => Identity("apps/v1", "Deployment", namespace, name)
    case IstioGateway(namespace, name, _) => Identity("networking.istio.io/v1beta1", "Gateway", namespace, name)
    case IstioVirtualService(namespace, name, _, _) =>
      Identity("networking.istio.io/v1beta1", "VirtualService", namespace, name)
    case Other(apiVersion, kind, namespace, name) => Identity(apiVersion, kind, namespace, name)
  }

  datatype StatusCondition = StatusCondition(kind: string, status: string)

  /** What the API server answered to the patch of an object, as far as the validators look at it. */
  datatype Body =
    | Malformed
    | Conditions(conditions: seq<StatusCondition>)
    | ServiceBody(clusterIp: string, isLoadBalancer: bool, externalIps: seq<string>, hasIngress: bool)

  datatype Observed = Observed(id: Identity, body: Body)

  predicate IsDeploymentKind(id: Identity) {
    id.kind == "Deployment" && id.apiVersion == "apps/v1"
  }

  predicate IsServiceKind(id: Identity) {
    id.kind == "Service" && id.apiVersion == "v1"
  }

  /** The group alone is compared with the whole API version. */
  predicate IsCrdKind(id: Identity) {
    id.kind == "CustomResourceDefinition" && id.apiVersion == "apiextensions.k8s.io"
  }

  predicate IsValidated(id: Identity) {
    IsDeploymentKind(id) || IsServiceKind(id) || IsCrdKind(id)
  }

  predicate IsAvailable(c: StatusCondition) {
    c.kind == "Available" && c.status == "True"
  }

  predicate IsEstablished(c: StatusCondition) {
    (c.kind == "Established" && c.status == "True") || (c.kind == "NamesAccepted" && c.status == "False")
  }

  /** What a ready object looks like. A body that does not fit the kind cannot be converted. */
  predicate IsConvertible(o: Observed) {
    if IsServiceKind(o.id) then o.body.ServiceBody? else o.body.Conditions?
  }

  ghost predicate IsReady(o: Observed)
    requires IsValidated(o.id) && IsConvertible(o)
  {
    if IsServiceKind(o.id) then
      o.body.clusterIp != "" && (o.body.isLoadBalancer ==> o.body.externalIps != [] || o.body.hasIngress)
    else if IsDeploymentKind(o.id) then exists k :: 0 <= k < |o.body.conditions| && IsAvailable(o.body.conditions[k])
    else exists k :: 0 <= k < |o.body.conditions| && IsEstablished(o.body.conditions[k])
  }

  method ValidateConditions(conditions: seq<StatusCondition>, good: StatusCondition -> bool) returns (ready: bool)
    ensures ready <==> exists k :: 0 <= k < |conditions| && good(conditions[k])
  {
    for i := 0 to |conditions|
      invariant forall k :: 0 <= k < i ==> !good(conditions[k])
    {
      if good(conditions[i]) {
        return true;
      }
    }
    ready := false;
  }

  method Validate(o: Observed) returns (r: Result<bool, ()>)
    requires IsValidated(o.id)
    ensures r.Success? <==> IsConvertible(o)
    ensures r.Success? ==> (r.value <==> IsReady(o))
  {
    if !IsConvertible(o) {
      return Failure(());
    }
    if IsServiceKind(o.id) {
      if o.body.clusterIp == "" {
        return Success(false);
      }
      if !o.body.isLoadBalancer || |o.body.externalIps| > 0 {
        return Success(true);
      }
      return Success(o.body.hasIngress);
    }
    var ready;
    if IsDeploymentKind(o.id) {
      ready := ValidateConditions(o.body.conditions, c => IsAvailable(c));
    } else {
      ready := ValidateConditions(o.body.conditions, c => IsEstablished(c));
    }
    r := Success(ready);
  }

  function Key(id: Identity): string {
    id.namespace + "/" + id.kind + "/" + id.name
  }

  /** No later object overwrites the entry of object `k`. */
  ghost predicate IsLastOfKey(observed: seq<Observed>, k: nat)
    requires k < |observed|
  {
    forall l :: k < l < |observed| && IsValidated(observed[l].id) ==> Key(observed[l].id) != Key(observed[k].id)
  }

  /** Every object that is validated can be converted. */
  ghost predicate AllConvertible(observed: seq<Observed>) {
    forall k :: 0 <= k < |observed| && IsValidated(observed[k].id) ==> IsConvertible(observed[k])
  }

  /** The inventory is ready: of the objects with one key, the last one is. */
  ghost predicate IsInventoryReady(observed: seq<Observed>)
    requires AllConvertible(observed)
  {
    forall k :: 0 <= k < |observed| && IsValidated(observed[k].id) && IsLastOfKey(observed, k) ==> IsReady(observed[k])
  }

  /** The map that the loop fills says of each key whether its last object is ready. */
  ghost predicate IsInventory(inventory: map<string, bool>, observed: seq<Observed>)
    requires AllConvertible(observed)
  {
    && (forall key :: key in inventory ==>
          exists k :: 0 <= k < |observed| && IsValidated(observed[k].id) && Key(observed[k].id) == key)
    && (forall k :: 0 <= k < |observed| && IsValidated(observed[k].id) ==> Key(observed[k].id) in inventory)
    && (forall k :: 0 <= k < |observed| && IsValidated(observed[k].id) && IsLastOfKey(observed, k) ==>
          inventory[Key(observed[k].id)] == IsReady(observed[k]))
  }

  lemma PrefixLast(observed: seq<Observed>, i: nat, k: nat)
    requires k < i < |observed| && IsLastOfKey(observed[..i + 1], k)
    ensures IsLastOfKey(observed[..i], k)
    ensures IsValidated(observed[i].id) ==> Key(observed[i].id) != Key(observed[k].id)
  {
    assert observed[..i + 1][i] == observed[i] && observed[..i + 1][k] == observed[k];
    assert forall l :: 0 <= l < i ==> observed[..i + 1][l] == observed[..i][l];
  }

  lemma InventoryGrows(inventory: map<string, bool>, observed: seq<Observed>, i: nat)
    requires i < |observed| && AllConvertible(observed[..i]) && IsInventory(inventory, observed[..i])
    requires IsValidated(observed[i].id) ==> IsConvertible(observed[i])
    ensures AllConvertible(observed[..i + 1])
    ensures IsInventory(if IsValidated(observed[i].id) then inventory[Key(observed[i].id) := IsReady(observed[i])]
                        else inventory, observed[..i + 1])
  {
    hide Key, IsReady, IsConvertible, IsValidated;
    var more := observed[..i + 1];
    var grown :=
      if IsValidated(observed[i].id) then inventory[Key(observed[i].id) := IsReady(observed[i])] else inventory;
    assert more[i] == observed[i] && forall l :: 0 <= l < i ==> more[l] == observed[..i][l];
    forall key | key in grown
      ensures exists k :: 0 <= k < |more| && IsValidated(more[k].id) && Key(more[k].id) == key
    {
      if key in inventory {
        var k :| 0 <= k < i && IsValidated(observed[..i][k].id) && Key(observed[..i][k].id) == key;
        assert more[k] == observed[..i][k];
      } else {
        assert Key(more[i].id) == key;
      }
    }
    forall k | 0 <= k < |more| && IsValidated(more[k].id) && IsLastOfKey(more, k)
      ensures grown[Key(more[k].id)] == IsReady(more[k])
    {
      if k < i {
        PrefixLast(observed, i, k);
      }
    }
  }

  /** The last validated object of a key, from object `k` on. */
  lemma LastOfKey(observed: seq<Observed>, k: nat) returns (l: nat)
    requires k < |observed| && IsValidated(observed[k].id)
    ensures k <= l < |observed| && IsValidated(observed[l].id) && Key(observed[l].id) == Key(observed[k].id)
    ensures IsLastOfKey(observed, l)
    decreases |observed| - k
  {
    if IsLastOfKey(observed, k) {
      l := k;
    } else {
      var m :| k < m < |observed| && IsValidated(observed[m].id) && Key(observed[m].id) == Key(observed[k].id);
      l := LastOfKey(observed, m);
    }
  }

  method Verify(observed: seq<Observed>) returns (r: Result<bool, ()>)
    ensures r.Success? <==> AllConvertible(observed)
    ensures r.Success? ==> (r.value <==> IsInventoryReady(observed))
  {
    var inventory: map<string, bool> := map[];
    for i := 0 to |observed|
      invariant AllConvertible(observed[..i]) && IsInventory(inventory, observed[..i])
    {
      InventoryStep(inventory, observed, i);
      if IsValidated(observed[i].id) {
        var valid := Validate(observed[i]);
        if valid.Failure? {
          return Failure(());
        }
        inventory := inventory[Key(observed[i].id) := valid.value];
      }
    }
    assert observed[..|observed|] == observed;
    var ready := IsMapReady(inventory);
    InventoryDecides(inventory, observed, ready);
    r := Success(ready);
  }

  lemma InventoryStep(inventory: map<string, bool>, observed: seq<Observed>, i: nat)
    requires i < |observed| && AllConvertible(observed[..i]) && IsInventory(inventory, observed[..i])
    ensures if IsValidated(observed[i].id) && !IsConvertible(observed[i]) then !AllConvertible(observed)
            else
              && AllConvertible(observed[..i + 1])
              && IsInventory(if IsValidated(observed[i].id) then inventory[Key(observed[i].id) := IsReady(observed[i])]
                             else inventory, observed[..i + 1])
  {
    if !(IsValidated(observed[i].id) && !IsConvertible(observed[i])) {
      InventoryGrows(inventory, observed, i);
    }
  }

  method IsMapReady(inventory: map<string, bool>) returns (ready: bool)
    ensures ready <==> forall key :: key in inventory ==> inventory[key]
  {
    var rest := inventory.Keys;
    while rest != {}
      invariant rest <= inventory.Keys
      invariant forall key :: key in inventory && key !in rest ==> inventory[key]
    {
      var key :| key in rest;
      if !inventory[key] {
        return false;
      }
      rest := rest - {key};
    }
    ready := true;
  }

  lemma InventoryDecides(inventory: map<string, bool>, observed: seq<Observed>, ready: bool)
    requires AllConvertible(observed) && IsInventory(inventory, observed)
    requires ready <==> forall key :: key in inventory ==> inventory[key]
    ensures ready <==> IsInventoryReady(observed)
  {
    if !ready {
      var key :| key in inventory && !inventory[key];
      var k :| 0 <= k < |observed| && IsValidated(observed[k].id) && Key(observed[k].id) == key;
      var l := LastOfKey(observed, k);
      assert !IsReady(observed[l]);
    }
  }

  ghost predicate AreKeysDistinct(observed: seq<Observed>) {
    forall k, l :: 0 <= k < l < |observed| ==> Key(observed[k].id) != Key(observed[l].id)
  }

  /** Keys tell objects apart by namespace, kind and name, and not by the version of their API. */
  lemma KeysTellApart(a: Identity, b: Identity)
    requires '/' !in a.namespace && '/' !in a.kind && '/' !in a.name
    requires '/' !in b.namespace && '/' !in b.kind && '/' !in b.name
    ensures Key(a) == Key(b) <==> a.namespace == b.namespace && a.kind == b.kind && a.name == b.name
  {
    PartsOfKey(a);
    PartsOfKey(b);
    if Key(a) == Key(b) {
      assert [a.namespace, a.kind, a.name] == [b.namespace, b.kind, b.name];
      assert [a.namespace, a.kind, a.name][1] == [b.namespace, b.kind, b.name][1];
      assert [a.namespace, a.kind, a.name][2] == [b.namespace, b.kind, b.name][2];
    }
  }

  lemma PartsOfKey(id: Identity)
    requires '/' !in id.namespace && '/' !in id.kind && '/' !in id.name
    ensures T.Split(Key(id), '/') == [id.namespace, id.kind, id.name]
  {
    hide T.Split;
    var rest := id.kind + ['/'] + id.name;
    T.SplitOfConcat(id.kind, id.name, '/');
    T.SplitOfConcat(id.namespace, rest, '/');
    T.SplitPart(id.namespace, '/');
    T.SplitPart(id.kind, '/');
    T.SplitPart(id.name, '/');
    assert Key(id) == id.namespace + ['/'] + rest;
  }

  /** What the API server says of a deployment, service or definition that is ready. */
  ghost predicate LooksReady(o: Observed) {
    && (o.id.apiVersion == "apps/v1" && o.id.kind == "Deployment" ==>
          o.body.Conditions? && StatusCondition("Available", "True") in o.body.conditions)
    && (o.id.apiVersion == "v1" && o.id.kind == "Service" ==>
          && o.body.ServiceBody? && o.body.clusterIp != ""
          && (!o.body.isLoadBalancer || o.body.hasIngress || |o.body.externalIps| > 0))
    && (o.id.apiVersion == "apiextensions.k8s.io" && o.id.kind == "CustomResourceDefinition" ==>
          && o.body.Conditions?
          && (StatusCondition("Established", "True") in o.body.conditions
              || StatusCondition("NamesAccepted", "False") in o.body.conditions))
  }

  lemma ReadyInWords(o: Observed)
    requires IsValidated(o.id) ==> IsConvertible(o)
    ensures LooksReady(o) <==> (IsValidated(o.id) ==> IsReady(o))
  {
    if IsDeploymentKind(o.id) {
      AvailableInWords(o.body.conditions);
    } else if IsCrdKind(o.id) {
      EstablishedInWords(o.body.conditions);
    }
  }

  lemma AvailableInWords(conditions: seq<StatusCondition>)
    ensures StatusCondition("Available", "True") in conditions
            <==> exists k :: 0 <= k < |conditions| && IsAvailable(conditions[k])
  {
  }

  lemma EstablishedInWords(conditions: seq<StatusCondition>)
    ensures StatusCondition("Established", "True") in conditions
            || StatusCondition("NamesAccepted", "False") in conditions
            <==> exists k :: 0 <= k < |conditions| && IsEstablished(conditions[k])
  {
  }

  /** With distinct keys a ready inventory means that every deployment and every service looks ready. */
  lemma ReadyMeansAll(observed: seq<Observed>)
    requires AllConvertible(observed) && AreKeysDistinct(observed)
    ensures IsInventoryReady(observed) <==> forall k :: 0 <= k < |observed| ==> LooksReady(observed[k])
  {
    hide LooksReady, IsReady, IsConvertible, IsValidated;
    forall k | 0 <= k < |observed|
      ensures LooksReady(observed[k]) <==> (IsValidated(observed[k].id) ==> IsReady(observed[k]))
    {
      ReadyInWords(observed[k]);
    }
    if IsInventoryReady(observed) {
      forall k | 0 <= k < |observed| && IsValidated(observed[k].id)
        ensures IsReady(observed[k])
      {
        assert IsLastOfKey(observed, k);
      }
    }
  }

  /** Without them an object that is not ready hides behind a later one of the same key. */
  lemma DuplicateHides(a: Observed, b: Observed)
    requires IsValidated(a.id) && IsConvertible(a) && IsValidated(b.id) && IsConvertible(b)
    requires Key(a.id) == Key(b.id) && !IsReady(a) && IsReady(b)
    ensures AllConvertible([a, b]) && IsInventoryReady([a, b])
  {
    assert [a, b][1] == b;
    assert !IsLastOfKey([a, b], 0);
  }

  /** No object of a versioned group is ever taken for a custom resource definition. */
  lemma DefinitionsAreSkipped(id: Identity)
    requires '/' in id.apiVersion
    ensures !IsCrdKind(id)
  {
    assert '/' !in "apiextensions.k8s.io";
  }
}
