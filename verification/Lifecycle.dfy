/**
 The data-product lifecycle: the registry's row list (service/registry.py), the
 adaptor containers of the podman and Kubernetes backends (service/podman_ops.py,
 service/k8s_ops.py) and the routes that change both (ui/app.py). Requests are
 served one at a time; a request may also be cut short by a crash after any of
 its steps.
 */
module Lifecycle {
  import opened Wrappers
  import opened Seqs

  datatype Pathway = File | Topic

  datatype Mode = Automatic | Manual

  datatype Row = Row(productType: string, pathway: Pathway, isActive: bool, mode: Mode)

  function ContainerName(r: Row): string {
    "dpn-producer-" + (if r.pathway == File then "file" else "topic") + "-" + r.productType
  }

  lemma ContainerNameInjective(a: Row, b: Row)
    requires ContainerName(a) == ContainerName(b)
    ensures a.pathway == b.pathway && a.productType == b.productType
  {
    var m, n := ContainerName(a), ContainerName(b);
    assert m[13] == (if a.pathway == File then 'f' else 't');
    assert n[13] == (if b.pathway == File then 'f' else 't');
    var k := if a.pathway == File then 18 else 19;
    assert a.productType == m[k..] == n[k..] == b.productType;
  }

  /** The index of the first row of that product type, or |rows|. */
  function IndexOf(rows: seq<Row>, productType: string): (i: nat)
    ensures i <= |rows|
    ensures i < |rows| ==> rows[i].productType == productType
    ensures forall j :: 0 <= j < i ==> rows[j].productType != productType
  {
    if rows == [] then 0
    else if rows[0].productType == productType then 0
    else 1 + IndexOf(rows[1..], productType)
  }

  predicate Has(rows: seq<Row>, productType: string) {
    IndexOf(rows, productType) < |rows|
  }

  function Others(productType: string): Row -> bool {
    (r: Row) => r.productType != productType
  }

  function WithActive(rows: seq<Row>, productType: string, active: bool): seq<Row> {
    var i := IndexOf(rows, productType);
    if i < |rows| then rows[i := rows[i].(isActive := active)] else rows
  }

  function WithMode(rows: seq<Row>, productType: string, mode: Mode): seq<Row> {
    var i := IndexOf(rows, productType);
    if i < |rows| then rows[i := rows[i].(mode := mode)] else rows
  }

  lemma UpdatedRow(rows: seq<Row>, p: string, mode: Mode)
    requires Has(rows, p)
    ensures var i := IndexOf(rows, p);
      IndexOf(WithMode(rows, p, mode), p) == i && WithMode(rows, p, mode)[i] == rows[i].(mode := mode)
  {
  }

  /** service/registry.py: the row list, rewritten as a whole by each change. */
  class Registry {
    var rows: seq<Row>

    constructor ()
      ensures rows == []
    {
      rows := [];
    }

    method GetProduct(productType: string) returns (found: Option<Row>)
      ensures found == if Has(rows, productType) then Some(rows[IndexOf(rows, productType)]) else None
    {
      for i := 0 to |rows|
        invariant forall j :: 0 <= j < i ==> rows[j].productType != productType
      {
        if rows[i].productType == productType {
          return Some(rows[i]);
        }
      }
      found := None;
    }

    method CreateProduct(r: Row) returns (created: bool)
      modifies this
      ensures created == !Has(old(rows), r.productType)
      ensures rows == if created then old(rows) + [r] else old(rows)
    {
      var present := GetProduct(r.productType);
      created := present.None?;
      if created {
        rows := rows + [r];
      }
    }

    method SetActive(productType: string, active: bool) returns (found: Option<Row>)
      modifies this
      ensures rows == WithActive(old(rows), productType, active)
      ensures found == if Has(rows, productType) then Some(rows[IndexOf(rows, productType)]) else None
    {
      for i := 0 to |rows|
        invariant rows == old(rows) && forall j :: 0 <= j < i ==> rows[j].productType != productType
      {
        if rows[i].productType == productType {
          rows := rows[i := rows[i].(isActive := active)];
          return Some(rows[i]);
        }
      }
      found := None;
    }

    method SetExecutionMode(productType: string, mode: Mode) returns (found: Option<Row>)
      modifies this
      ensures rows == WithMode(old(rows), productType, mode)
      ensures found == if Has(rows, productType) then Some(rows[IndexOf(rows, productType)]) else None
    {
      for i := 0 to |rows|
        invariant rows == old(rows) && forall j :: 0 <= j < i ==> rows[j].productType != productType
      {
        if rows[i].productType == productType {
          rows := rows[i := rows[i].(mode := mode)];
          return Some(rows[i]);
        }
      }
      found := None;
    }

    method DeleteProduct(productType: string) returns (found: bool)
      modifies this
      ensures found == Has(old(rows), productType)
      ensures rows == Select(old(rows), Others(productType))
    {
      var remaining := Select(rows, Others(productType));
      SelectShrinks(rows, productType);
      found := |remaining| != |rows|;
      if found {
        rows := remaining;
      }
    }
  }

  lemma {:induction false} SelectShrinks(rows: seq<Row>, productType: string)
    ensures if Has(rows, productType) then |Select(rows, Others(productType))| < |rows|
            else Select(rows, Others(productType)) == rows
  {
    if rows != [] {
      SelectShrinks(rows[1..], productType);
    }
  }

  // ---- Requests as sequences of steps ----

  datatype Backend = Podman | Kubernetes

  /** The registry and, by container name, the EXECUTION_MODE each adaptor runs with. */
  datatype System = System(rows: seq<Row>, containers: map<string, Mode>)

  datatype Action =
    | AddRow(row: Row)
    | DropRow(productType: string)
    | MarkActive(productType: string, active: bool)
    | MarkMode(productType: string, mode: Mode)
    | Launch(row: Row)
    | Remove(row: Row)

  /** podman leaves a container that exists alone; Kubernetes patches it. */
  function Act(backend: Backend, s: System, a: Action): System {
    match a
    case AddRow(r) => s.(rows := s.rows + [r])
    case DropRow(p) => s.(rows := Select(s.rows, Others(p)))
    case MarkActive(p, active) => s.(rows := WithActive(s.rows, p, active))
    case MarkMode(p, mode) => s.(rows := WithMode(s.rows, p, mode))
    case Launch(r) =>
      if backend == Podman && ContainerName(r) in s.containers then s
      else s.(containers := s.containers[ContainerName(r) := r.mode])
    case Remove(r) => s.(containers := s.containers - {ContainerName(r)})
  }

  function ActAll(backend: Backend, s: System, steps: seq<Action>): System
    decreases |steps|
  {
    if steps == [] then s else ActAll(backend, Act(backend, s, steps[0]), steps[1..])
  }

  lemma ActOne(backend: Backend, s: System, a: Action)
    ensures ActAll(backend, s, [a]) == Act(backend, s, a)
  {
    assert [a][1..] == [];
  }

  lemma ActTwo(backend: Backend, s: System, a: Action, b: Action)
    ensures ActAll(backend, s, [a, b]) == Act(backend, Act(backend, s, a), b)
  {
    assert [a, b][1..] == [b];
    ActOne(backend, Act(backend, s, a), b);
  }

  lemma ActThree(backend: Backend, s: System, a: Action, b: Action, c: Action)
    ensures ActAll(backend, s, [a, b, c]) == Act(backend, Act(backend, Act(backend, s, a), b), c)
  {
    assert [a, b, c][1..] == [b, c];
    ActTwo(backend, Act(backend, s, a), b, c);
  }

  datatype Request =
    | Create(row: Row)
    | Start(productType: string)
    | Stop(productType: string)
    | SetMode(productType: string, mode: Mode)
    | Delete(productType: string)

  function Name(q: Request): string {
    if q.Create? then q.row.productType else q.productType
  }

  /** The steps a route takes, in its order; none for an unknown product or a duplicate. */
  function Plan(backend: Backend, rows: seq<Row>, q: Request): seq<Action> {
    if q.Create? then
      if Has(rows, q.row.productType) then [] else [AddRow(q.row), Launch(q.row)]
    else if !Has(rows, q.productType) then []
    else
      var r := rows[IndexOf(rows, q.productType)];
      match q
      case Start(p) => [Launch(r), MarkActive(p, true)]
      case Stop(p) => [Remove(r), MarkActive(p, false)]
      case Delete(p) => [Remove(r), DropRow(p)]
      case SetMode(p, mode) =>
        var updated := r.(mode := mode);
        if !r.isActive then [MarkMode(p, mode)]
        else if backend == Podman then [MarkMode(p, mode), Remove(updated), Launch(updated)]
        else [MarkMode(p, mode), Launch(updated)]
  }

  function Serve(backend: Backend, s: System, q: Request): System {
    ActAll(backend, s, Plan(backend, s.rows, q))
  }

  /**
   A mode change rewrites the row and, for an active product, leaves its container in the new mode on both
   runtimes.
   */
  lemma SetModeEffect(backend: Backend, s: System, p: string, mode: Mode)
    requires Has(s.rows, p)
    ensures var r := s.rows[IndexOf(s.rows, p)];
      Serve(backend, s, SetMode(p, mode)) == System(
        WithMode(s.rows, p, mode), if r.isActive then s.containers[ContainerName(r) := mode] else s.containers)
  {
    var r := s.rows[IndexOf(s.rows, p)];
    var mark, updated := MarkMode(p, mode), r.(mode := mode);
    if !r.isActive {
      ActOne(backend, s, mark);
    } else if backend == Podman {
      ActThree(backend, s, mark, Remove(updated), Launch(updated));
      Replaced(s.containers, ContainerName(r), mode);
    } else {
      ActTwo(backend, s, mark, Launch(updated));
    }
  }

  lemma Replaced(containers: map<string, Mode>, n: string, mode: Mode)
    ensures (containers - {n})[n := mode] == containers[n := mode]
  {
  }

  lemma DeleteEffect(backend: Backend, s: System, p: string)
    requires Has(s.rows, p)
    ensures var r := s.rows[IndexOf(s.rows, p)];
      Serve(backend, s, Delete(p)) == System(Select(s.rows, Others(p)), s.containers - {ContainerName(r)})
  {
    ActTwo(backend, s, Remove(s.rows[IndexOf(s.rows, p)]), DropRow(p));
  }

  /** The routes, on the registry object and the runtime's containers. */
  class ControlPlane {
    const backend: Backend
    const registry: Registry
    var containers: map<string, Mode>

    constructor (backend: Backend, registry: Registry)
      ensures this.backend == backend && this.registry == registry && containers == map[]
    {
      this.backend, this.registry, containers := backend, registry, map[];
    }

    function State(): System
      reads this, registry
    {
      System(registry.rows, containers)
    }

    method RuntimeLaunch(r: Row)
      modifies this
      ensures containers == Act(backend, old(State()), Launch(r)).containers
    {
      if backend == Kubernetes || ContainerName(r) !in containers {
        containers := containers[ContainerName(r) := r.mode];
      }
    }

    method RuntimeStop(r: Row)
      modifies this
      ensures containers == Act(backend, old(State()), Remove(r)).containers
    {
      if ContainerName(r) in containers {
        containers := containers - {ContainerName(r)};
      }
    }

    method RuntimeSetExecutionMode(r: Row)
      modifies this
      ensures containers == old(containers)[ContainerName(r) := r.mode]
    {
      if backend == Podman {
        RuntimeStop(r);
      }
      RuntimeLaunch(r);
    }

    /** confirm_data_product, once its name checks have passed. */
    method Confirm(r: Row) returns (accepted: bool)
      modifies this, registry
      ensures accepted == !Has(old(registry.rows), r.productType)
      ensures State() == Serve(backend, old(State()), Create(r))
    {
      ActTwo(backend, State(), AddRow(r), Launch(r));
      accepted := registry.CreateProduct(r);
      if accepted {
        RuntimeLaunch(r);
      }
    }

    method StopProduct(p: string) returns (known: bool)
      modifies this, registry
      ensures known == Has(old(registry.rows), p)
      ensures State() == Serve(backend, old(State()), Stop(p))
    {
      var product := registry.GetProduct(p);
      known := product.Some?;
      if known {
        ActTwo(backend, State(), Remove(product.value), MarkActive(p, false));
        RuntimeStop(product.value);
        var _ := registry.SetActive(p, false);
      }
    }

    method StartProduct(p: string) returns (known: bool)
      modifies this, registry
      ensures known == Has(old(registry.rows), p)
      ensures State() == Serve(backend, old(State()), Start(p))
    {
      var product := registry.GetProduct(p);
      known := product.Some?;
      if known {
        ActTwo(backend, State(), Launch(product.value), MarkActive(p, true));
        RuntimeLaunch(product.value);
        var _ := registry.SetActive(p, true);
      }
    }

    /** pause_data_product with Manual, resume_data_product with Automatic. */
    method PauseOrResume(p: string, mode: Mode) returns (known: bool)
      modifies this, registry
      ensures known == Has(old(registry.rows), p)
      ensures State() == Serve(backend, old(State()), SetMode(p, mode))
    {
      var product := registry.GetProduct(p);
      known := product.Some?;
      if known {
        SetModeEffect(backend, State(), p, mode);
        UpdatedRow(registry.rows, p, mode);
        var updated := registry.SetExecutionMode(p, mode);
        if product.value.isActive && updated.Some? {
          RuntimeSetExecutionMode(updated.value);
        }
      }
    }

    method DeleteProduct(p: string) returns (known: bool)
      modifies this, registry
      ensures known == Has(old(registry.rows), p)
      ensures State() == Serve(backend, old(State()), Delete(p))
    {
      var product := registry.GetProduct(p);
      known := product.Some?;
      if known {
        ghost var before := State();
        DeleteEffect(backend, before, p);
        RuntimeStop(product.value);
        assert State() == System(before.rows, before.containers - {ContainerName(product.value)});
        var _ := registry.DeleteProduct(p);
      }
    }

    /** run_data_product_once: the container to exec in, or None for a 404 or 409. */
    method RunNow(p: string) returns (target: Option<string>)
      ensures target == RunTarget(registry.rows, p)
    {
      var product := registry.GetProduct(p);
      if product.None? || !product.value.isActive || product.value.mode != Manual {
        return None;
      }
      target := Some(ContainerName(product.value));
    }
  }

  function RunTarget(rows: seq<Row>, p: string): Option<string> {
    if !Has(rows, p) then None
    else
      var r := rows[IndexOf(rows, p)];
      if r.isActive && r.mode == Manual then Some(ContainerName(r)) else None
  }

  /** Run Now is accepted exactly when the product's first row is active and manual, and names that row's container. */
  lemma RunTargetExactly(rows: seq<Row>, p: string, target: string)
    ensures RunTarget(rows, p) == Some(target) <==>
      exists i :: 0 <= i < |rows| && IsFirst(rows, p, i) && rows[i].isActive && rows[i].mode == Manual
                  && target == ContainerName(rows[i])
  {
    if Has(rows, p) {
      assert IsFirst(rows, p, IndexOf(rows, p));
    }
  }

  predicate IsFirst(rows: seq<Row>, p: string, i: nat)
    requires i < |rows|
  {
    rows[i].productType == p && forall j :: 0 <= j < i ==> rows[j].productType != p
  }

  // ---- The invariant of completed requests ----

  ghost predicate UniqueTypes(rows: seq<Row>) {
    forall i, j :: 0 <= i < j < |rows| ==> rows[i].productType != rows[j].productType
  }

  /** A container runs exactly for each active row, in that row's mode. */
  ghost predicate InStep(s: System) {
    && UniqueTypes(s.rows)
    && (forall r :: r in s.rows && r.isActive ==>
          ContainerName(r) in s.containers && s.containers[ContainerName(r)] == r.mode)
    && (forall r :: r in s.rows && !r.isActive ==> ContainerName(r) !in s.containers)
    && NoOrphans(s)
  }

  ghost predicate HasRow(rows: seq<Row>, name: string) {
    exists i :: 0 <= i < |rows| && ContainerName(rows[i]) == name
  }

  ghost predicate NoOrphans(s: System) {
    forall n :: n in s.containers ==> HasRow(s.rows, n)
  }

  lemma RowsApart(rows: seq<Row>, i: nat, j: nat)
    requires UniqueTypes(rows) && i < |rows| && j < |rows| && ContainerName(rows[i]) == ContainerName(rows[j])
    ensures i == j
  {
    ContainerNameInjective(rows[i], rows[j]);
  }

  /** Row i of an in-step system, before and after a change of row and container of product p. */
  ghost predicate RowInStep(s: System, i: nat)
    requires i < |s.rows|
  {
    var n := ContainerName(s.rows[i]);
    if s.rows[i].isActive then n in s.containers && s.containers[n] == s.rows[i].mode else n !in s.containers
  }

  lemma InStepByRow(s: System)
    ensures InStep(s) <==> UniqueTypes(s.rows) && (forall i :: 0 <= i < |s.rows| ==> RowInStep(s, i)) && NoOrphans(s)
  {
    if InStep(s) {
      forall i | 0 <= i < |s.rows| ensures RowInStep(s, i) {
        assert s.rows[i] in s.rows;
      }
    }
    if forall i :: 0 <= i < |s.rows| ==> RowInStep(s, i) {
      forall r | r in s.rows
        ensures if r.isActive then ContainerName(r) in s.containers && s.containers[ContainerName(r)] == r.mode
                else ContainerName(r) !in s.containers
      {
        var i :| 0 <= i < |s.rows| && s.rows[i] == r;
        assert RowInStep(s, i);
      }
    }
  }

  lemma SameElsewhere(a: map<string, Mode>, b: map<string, Mode>, changed: string, n: string)
    requires a - {changed} == b - {changed} && n != changed
    ensures n in a <==> n in b
    ensures n in a ==> a[n] == b[n]
  {
    assert n in a <==> n in a - {changed};
    assert n in b <==> n in b - {changed};
    if n in a {
      assert a[n] == (a - {changed})[n];
    }
  }

  /** Changing one row's flags together with its own container keeps every other row in step. */
  lemma ChangeOneRow(s: System, i: nat, r: Row, containers: map<string, Mode>)
    requires InStep(s) && i < |s.rows|
    requires r.productType == s.rows[i].productType && r.pathway == s.rows[i].pathway
    requires containers - {ContainerName(r)} == s.containers - {ContainerName(r)}
    requires if r.isActive then ContainerName(r) in containers && containers[ContainerName(r)] == r.mode
             else ContainerName(r) !in containers
    ensures InStep(System(s.rows[i := r], containers))
  {
    var s' := System(s.rows[i := r], containers);
    InStepByRow(s);
    forall n | n != ContainerName(r)
      ensures n in containers <==> n in s.containers
      ensures n in containers ==> containers[n] == s.containers[n]
    {
      SameElsewhere(containers, s.containers, ContainerName(r), n);
    }
    forall j | 0 <= j < |s'.rows| ensures RowInStep(s', j) {
      if j != i {
        if ContainerName(s.rows[j]) == ContainerName(s.rows[i]) {
          RowsApart(s.rows, i, j);
        }
        assert RowInStep(s, j);
      }
    }
    forall n | n in containers ensures HasRow(s'.rows, n) {
      if n == ContainerName(r) {
        assert ContainerName(s'.rows[i]) == n;
      } else {
        assert HasRow(s.rows, n);
        var j :| 0 <= j < |s.rows| && ContainerName(s.rows[j]) == n;
        assert ContainerName(s'.rows[j]) == n;
      }
    }
    InStepByRow(s');
  }

  lemma AddOneRow(s: System, r: Row, containers: map<string, Mode>)
    requires InStep(s) && !Has(s.rows, r.productType) && r.isActive
    requires containers == s.containers[ContainerName(r) := r.mode]
    ensures InStep(System(s.rows + [r], containers))
  {
    var s' := System(s.rows + [r], containers);
    InStepByRow(s);
    forall j | 0 <= j < |s'.rows| ensures RowInStep(s', j) {
      if j < |s.rows| {
        assert RowInStep(s, j);
        if ContainerName(s.rows[j]) == ContainerName(r) {
          ContainerNameInjective(s.rows[j], r);
        }
      }
    }
    forall n | n in containers ensures HasRow(s'.rows, n) {
      if n == ContainerName(r) {
        assert ContainerName(s'.rows[|s.rows|]) == n;
      } else {
        assert HasRow(s.rows, n);
        var j :| 0 <= j < |s.rows| && ContainerName(s.rows[j]) == n;
        assert ContainerName(s'.rows[j]) == n;
      }
    }
    InStepByRow(s');
  }

  lemma {:induction false} OthersKeepsRest(rows: seq<Row>, i: nat)
    requires UniqueTypes(rows) && i < |rows|
    ensures Select(rows, Others(rows[i].productType)) == rows[..i] + rows[i + 1..]
  {
    var a, r, b := rows[..i], rows[i], rows[i + 1..];
    var p := Others(r.productType);
    assert rows == a + ([r] + b);
    SelectConcat(a, [r] + b, p);
    SelectFront(r, b, p);
    SelectAll(a, p);
    SelectAll(b, p);
  }

  lemma DropLeavesOthersInStep(s: System, i: nat, j: nat)
    requires InStep(s) && i < |s.rows| && j < |s.rows| && i != j
    ensures RowInStep(System(s.rows, s.containers - {ContainerName(s.rows[i])}), j)
  {
    InStepByRow(s);
    assert RowInStep(s, j);
    if ContainerName(s.rows[j]) == ContainerName(s.rows[i]) {
      RowsApart(s.rows, i, j);
    }
  }

  lemma DropLeavesRowFor(rows: seq<Row>, i: nat, n: string)
    requires i < |rows| && HasRow(rows, n) && n != ContainerName(rows[i])
    ensures HasRow(rows[..i] + rows[i + 1..], n)
  {
    var k :| 0 <= k < |rows| && ContainerName(rows[k]) == n;
    assert (rows[..i] + rows[i + 1..])[if k < i then k else k - 1] == rows[k];
  }

  lemma DropKeepsUnique(rows: seq<Row>, i: nat)
    requires UniqueTypes(rows) && i < |rows|
    ensures UniqueTypes(rows[..i] + rows[i + 1..])
  {
  }

  lemma DropOneRow(s: System, i: nat)
    requires InStep(s) && i < |s.rows|
    ensures InStep(System(s.rows[..i] + s.rows[i + 1..], s.containers - {ContainerName(s.rows[i])}))
  {
    var s' := System(s.rows[..i] + s.rows[i + 1..], s.containers - {ContainerName(s.rows[i])});
    DropKeepsUnique(s.rows, i);
    forall j | 0 <= j < |s'.rows| ensures RowInStep(s', j) {
      var k := if j < i then j else j + 1;
      assert s'.rows[j] == s.rows[k];
      DropLeavesOthersInStep(s, i, k);
    }
    forall n | n in s'.containers ensures HasRow(s'.rows, n) {
      DropLeavesRowFor(s.rows, i, n);
    }
    InStepByRow(s');
  }

  /** What a completed request makes of an in-step system, the same on both backends. */
  function Served(s: System, q: Request): System {
    var i := IndexOf(s.rows, Name(q));
    if q.Create? then
      if i < |s.rows| then s else System(s.rows + [q.row], s.containers[ContainerName(q.row) := q.row.mode])
    else if i == |s.rows| then s
    else
      var r := s.rows[i];
      var n := ContainerName(r);
      match q
      case Start(_) => System(s.rows[i := r.(isActive := true)], s.containers[n := r.mode])
      case Stop(_) => System(s.rows[i := r.(isActive := false)], s.containers - {n})
      case Delete(_) => System(s.rows[..i] + s.rows[i + 1..], s.containers - {n})
      case SetMode(_, mode) =>
        System(s.rows[i := r.(mode := mode)], if r.isActive then s.containers[n := mode] else s.containers)
  }

  lemma NewNameIsFree(s: System, r: Row)
    requires InStep(s) && !Has(s.rows, r.productType)
    ensures ContainerName(r) !in s.containers
  {
    if ContainerName(r) in s.containers {
      assert HasRow(s.rows, ContainerName(r));
      var j :| 0 <= j < |s.rows| && ContainerName(s.rows[j]) == ContainerName(r);
      ContainerNameInjective(s.rows[j], r);
    }
  }

  lemma ServeCreate(backend: Backend, s: System, r: Row)
    requires InStep(s) && r.isActive
    ensures Serve(backend, s, Create(r)) == Served(s, Create(r))
  {
    if !Has(s.rows, r.productType) {
      NewNameIsFree(s, r);
      ActTwo(backend, s, AddRow(r), Launch(r));
    }
  }

  /** What Start makes of any state: on Kubernetes the row's mode, on podman the mode that was running, if any. */
  lemma StartEffect(backend: Backend, s: System, p: string)
    requires Has(s.rows, p)
    ensures var i := IndexOf(s.rows, p);
      var r, n := s.rows[i], ContainerName(s.rows[i]);
      Serve(backend, s, Start(p)) == System(
        s.rows[i := r.(isActive := true)],
        s.containers[n := if backend == Podman && n in s.containers then s.containers[n] else r.mode])
  {
    var r := s.rows[IndexOf(s.rows, p)];
    var n := ContainerName(r);
    ActTwo(backend, s, Launch(r), MarkActive(p, true));
    var launched := Act(backend, s, Launch(r));
    assert launched.rows == s.rows;
    if n in s.containers {
      assert s.containers[n := s.containers[n]] == s.containers;
    }
  }

  lemma ServeStart(backend: Backend, s: System, p: string)
    requires InStep(s) && Has(s.rows, p)
    ensures Serve(backend, s, Start(p)) == Served(s, Start(p))
  {
    StartEffect(backend, s, p);
    InStepByRow(s);
    assert RowInStep(s, IndexOf(s.rows, p));
  }

  lemma ServeStop(backend: Backend, s: System, p: string)
    requires Has(s.rows, p)
    ensures Serve(backend, s, Stop(p)) == Served(s, Stop(p))
  {
    ActTwo(backend, s, Remove(s.rows[IndexOf(s.rows, p)]), MarkActive(p, false));
  }

  lemma ServeDelete(backend: Backend, s: System, p: string)
    requires UniqueTypes(s.rows) && Has(s.rows, p)
    ensures Serve(backend, s, Delete(p)) == Served(s, Delete(p))
  {
    DeleteEffect(backend, s, p);
    OthersKeepsRest(s.rows, IndexOf(s.rows, p));
  }

  lemma ServeSetMode(backend: Backend, s: System, p: string, mode: Mode)
    requires Has(s.rows, p)
    ensures Serve(backend, s, SetMode(p, mode)) == Served(s, SetMode(p, mode))
  {
    SetModeEffect(backend, s, p, mode);
  }

  /** New products start active, as the model's default says. */
  predicate Proper(q: Request) {
    q.Create? ==> q.row.isActive
  }

  /** On an in-step system podman's recreate-or-keep and Kubernetes' create-or-patch do the same. */
  lemma BackendsAgree(backend: Backend, s: System, q: Request)
    requires InStep(s) && Proper(q)
    ensures Serve(backend, s, q) == Served(s, q)
  {
    if q.Create? {
      ServeCreate(backend, s, q.row);
    } else if Has(s.rows, q.productType) {
      match q
      case Start(p) => ServeStart(backend, s, p);
      case Stop(p) => ServeStop(backend, s, p);
      case Delete(p) => ServeDelete(backend, s, p);
      case SetMode(p, mode) => ServeSetMode(backend, s, p, mode);
    }
  }

  /** Every completed request keeps rows and containers in step. */
  lemma ServeKeepsStep(backend: Backend, s: System, q: Request)
    requires InStep(s) && Proper(q)
    ensures InStep(Serve(backend, s, q))
  {
    BackendsAgree(backend, s, q);
    var i := IndexOf(s.rows, Name(q));
    if q.Create? {
      if i == |s.rows| {
        AddOneRow(s, q.row, Served(s, q).containers);
      }
    } else if i < |s.rows| {
      if q.Delete? {
        DropOneRow(s, i);
      } else {
        ServedChangesOneRow(s, q);
      }
    }
  }

  lemma ServedChangesOneRow(s: System, q: Request)
    requires InStep(s) && (q.Start? || q.Stop? || q.SetMode?) && Has(s.rows, q.productType)
    ensures InStep(Served(s, q))
  {
    var i := IndexOf(s.rows, q.productType);
    var r, n := s.rows[i], ContainerName(s.rows[i]);
    InStepByRow(s);
    assert RowInStep(s, i);
    match q
    case Start(_) => ChangeOneRow(s, i, r.(isActive := true), s.containers[n := r.mode]);
    case Stop(_) => ChangeOneRow(s, i, r.(isActive := false), s.containers - {n});
    case SetMode(_, mode) =>
      ChangeOneRow(s, i, r.(mode := mode), if r.isActive then s.containers[n := mode] else s.containers);
  }

  function ServeAll(backend: Backend, s: System, qs: seq<Request>): System {
    if qs == [] then s else Serve(backend, ServeAll(backend, s, qs[..|qs| - 1]), qs[|qs| - 1])
  }

  /**
   After any completed requests: product types are unique, a container exists
   exactly for each active row and runs in its mode, both backends reach the same
   state, and an accepted Run Now finds a container in manual mode.
   */
  lemma {:induction false} LifecycleStaysInStep(backend: Backend, qs: seq<Request>, p: string)
    requires forall q :: q in qs ==> Proper(q)
    ensures var s := ServeAll(backend, System([], map[]), qs);
      && InStep(s)
      && s == ServeAll(Podman, System([], map[]), qs)
      && (RunTarget(s.rows, p).Some? ==>
            RunTarget(s.rows, p).value in s.containers && s.containers[RunTarget(s.rows, p).value] == Manual)
  {
    if qs != [] {
      assert qs[|qs| - 1] in qs;
      LifecycleStaysInStep(backend, qs[..|qs| - 1], p);
      var before := ServeAll(backend, System([], map[]), qs[..|qs| - 1]);
      ServeKeepsStep(backend, before, qs[|qs| - 1]);
      BackendsAgree(backend, before, qs[|qs| - 1]);
      BackendsAgree(Podman, before, qs[|qs| - 1]);
    }
    var s := ServeAll(backend, System([], map[]), qs);
    if RunTarget(s.rows, p).Some? {
      InStepByRow(s);
      assert RowInStep(s, IndexOf(s.rows, p));
    }
  }

  // ---- Crashes between a request's steps ----

  datatype Attempt = Attempt(request: Request, steps: nat)

  /** A request cut short after its first `steps` steps. */
  function Interrupted(backend: Backend, s: System, a: Attempt): System {
    var plan := Plan(backend, s.rows, a.request);
    ActAll(backend, s, plan[..if a.steps <= |plan| then a.steps else |plan|])
  }

  function AttemptAll(backend: Backend, s: System, attempts: seq<Attempt>): System {
    if attempts == [] then s
    else Interrupted(backend, AttemptAll(backend, s, attempts[..|attempts| - 1]), attempts[|attempts| - 1])
  }

  ghost predicate Owned(s: System) {
    UniqueTypes(s.rows) && NoOrphans(s)
  }

  lemma FlagsKeepOwned(s: System, i: nat, r: Row)
    requires Owned(s) && i < |s.rows| && r.productType == s.rows[i].productType && r.pathway == s.rows[i].pathway
    ensures Owned(s.(rows := s.rows[i := r]))
  {
    forall n | n in s.containers ensures HasRow(s.rows[i := r], n) {
      assert HasRow(s.rows, n);
      var j :| 0 <= j < |s.rows| && ContainerName(s.rows[j]) == n;
      assert ContainerName(s.rows[i := r][j]) == n;
    }
  }

  /** One step that a plan may contain, from a state where it is due. */
  ghost predicate Due(s: System, a: Action) {
    match a
    case AddRow(r) => !Has(s.rows, r.productType)
    case DropRow(p) => Has(s.rows, p) && ContainerName(s.rows[IndexOf(s.rows, p)]) !in s.containers
    case MarkActive(p, _) => true
    case MarkMode(p, _) => true
    case Launch(r) => HasRow(s.rows, ContainerName(r))
    case Remove(r) => true
  }

  lemma AddKeepsOwned(s: System, r: Row)
    requires Owned(s) && !Has(s.rows, r.productType)
    ensures Owned(s.(rows := s.rows + [r]))
  {
    forall n | n in s.containers ensures HasRow(s.rows + [r], n) {
      assert HasRow(s.rows, n);
      var j :| 0 <= j < |s.rows| && ContainerName(s.rows[j]) == n;
      assert ContainerName((s.rows + [r])[j]) == n;
    }
  }

  lemma DropKeepsOwned(s: System, i: nat)
    requires Owned(s) && i < |s.rows| && ContainerName(s.rows[i]) !in s.containers
    ensures Owned(s.(rows := s.rows[..i] + s.rows[i + 1..]))
  {
    DropKeepsUnique(s.rows, i);
    forall n | n in s.containers ensures HasRow(s.rows[..i] + s.rows[i + 1..], n) {
      DropLeavesRowFor(s.rows, i, n);
    }
  }

  lemma DropRowKeepsOwned(s: System, p: string)
    requires Owned(s) && Due(s, DropRow(p))
    ensures Owned(s.(rows := Select(s.rows, Others(p))))
  {
    OthersKeepsRest(s.rows, IndexOf(s.rows, p));
    DropKeepsOwned(s, IndexOf(s.rows, p));
  }

  lemma MarkKeepsOwned(s: System, p: string, active: bool, mode: Mode)
    requires Owned(s)
    ensures Owned(s.(rows := WithActive(s.rows, p, active))) && Owned(s.(rows := WithMode(s.rows, p, mode)))
  {
    var i := IndexOf(s.rows, p);
    if i < |s.rows| {
      FlagsKeepOwned(s, i, s.rows[i].(isActive := active));
      FlagsKeepOwned(s, i, s.rows[i].(mode := mode));
    }
  }

  lemma ActKeepsOwned(backend: Backend, s: System, a: Action)
    requires Owned(s) && Due(s, a)
    ensures Owned(Act(backend, s, a))
  {
    match a
    case AddRow(r) => AddKeepsOwned(s, r);
    case DropRow(p) => DropRowKeepsOwned(s, p);
    case MarkActive(p, active) => MarkKeepsOwned(s, p, active, Manual);
    case MarkMode(p, mode) => MarkKeepsOwned(s, p, true, mode);
    case Launch(r) => assert Act(backend, s, a).rows == s.rows;
    case Remove(r) => assert Act(backend, s, a).rows == s.rows;
  }

  ghost predicate AllDue(backend: Backend, s: System, steps: seq<Action>)
    decreases |steps|
  {
    steps == [] || (Due(s, steps[0]) && AllDue(backend, Act(backend, s, steps[0]), steps[1..]))
  }

  lemma {:induction false} PrefixKeepsOwned(backend: Backend, s: System, steps: seq<Action>, n: nat)
    requires Owned(s) && AllDue(backend, s, steps) && n <= |steps|
    ensures Owned(ActAll(backend, s, steps[..n]))
    decreases n
  {
    if n > 0 {
      ActKeepsOwned(backend, s, steps[0]);
      PrefixKeepsOwned(backend, Act(backend, s, steps[0]), steps[1..], n - 1);
      assert steps[..n][1..] == steps[1..][..n - 1];
    }
  }

  lemma PlanIsDue(backend: Backend, s: System, q: Request)
    requires Owned(s)
    ensures AllDue(backend, s, Plan(backend, s.rows, q))
  {
    if q.Create? {
      if !Has(s.rows, q.row.productType) {
        var s1 := Act(backend, s, AddRow(q.row));
        assert ContainerName(s1.rows[|s.rows|]) == ContainerName(q.row);
        TwoDue(backend, s, AddRow(q.row), Launch(q.row));
      }
    } else if Has(s.rows, q.productType) {
      var i := IndexOf(s.rows, q.productType);
      var r := s.rows[i];
      assert HasRow(s.rows, ContainerName(r));
      match q
      case Start(p) => TwoDue(backend, s, Launch(r), MarkActive(p, true));
      case Stop(p) => TwoDue(backend, s, Remove(r), MarkActive(p, false));
      case Delete(p) => TwoDue(backend, s, Remove(r), DropRow(p));
      case SetMode(p, mode) =>
        var updated := r.(mode := mode);
        var s1 := Act(backend, s, MarkMode(p, mode));
        assert ContainerName(s1.rows[i]) == ContainerName(updated);
        if !r.isActive {
          assert [MarkMode(p, mode)][1..] == [];
        } else if backend == Podman {
          assert [MarkMode(p, mode), Remove(updated), Launch(updated)][1..] == [Remove(updated), Launch(updated)];
          TwoDue(backend, s1, Remove(updated), Launch(updated));
        } else {
          TwoDue(backend, s, MarkMode(p, mode), Launch(updated));
        }
    }
  }

  lemma TwoDue(backend: Backend, s: System, a: Action, b: Action)
    requires Due(s, a) && Due(Act(backend, s, a), b)
    ensures AllDue(backend, s, [a, b])
  {
    assert [a, b][1..] == [b] && [b][1..] == [];
  }

  /** However requests are cut short, product types stay unique and no container is left without a row. */
  lemma {:induction false} CrashesLeaveNoOrphan(backend: Backend, attempts: seq<Attempt>)
    ensures Owned(AttemptAll(backend, System([], map[]), attempts))
  {
    if attempts != [] {
      var s, a := AttemptAll(backend, System([], map[]), attempts[..|attempts| - 1]), attempts[|attempts| - 1];
      CrashesLeaveNoOrphan(backend, attempts[..|attempts| - 1]);
      PlanIsDue(backend, s, a.request);
      var plan := Plan(backend, s.rows, a.request);
      PrefixKeepsOwned(backend, s, plan, if a.steps <= |plan| then a.steps else |plan|);
    }
  }

  // ---- Where the two runtimes part ----

  /** A Start that finds a container running in another mode than the row's: podman keeps it, Kubernetes patches it. */
  predicate Parts(s: System, q: Request) {
    && q.Start? && Has(s.rows, q.productType)
    && var r := s.rows[IndexOf(s.rows, q.productType)];
       ContainerName(r) in s.containers && s.containers[ContainerName(r)] != r.mode
  }

  lemma OwnedNameIsFree(s: System, r: Row)
    requires Owned(s) && !Has(s.rows, r.productType)
    ensures ContainerName(r) !in s.containers
  {
    if ContainerName(r) in s.containers {
      assert HasRow(s.rows, ContainerName(r));
      var j :| 0 <= j < |s.rows| && ContainerName(s.rows[j]) == ContainerName(r);
      ContainerNameInjective(s.rows[j], r);
    }
  }

  lemma CreateAgrees(s: System, r: Row)
    requires Owned(s)
    ensures Serve(Podman, s, Create(r)) == Serve(Kubernetes, s, Create(r))
  {
    if !Has(s.rows, r.productType) {
      OwnedNameIsFree(s, r);
      ActTwo(Podman, s, AddRow(r), Launch(r));
      ActTwo(Kubernetes, s, AddRow(r), Launch(r));
    }
  }

  lemma StopAndDeleteAgree(s: System, p: string)
    requires Has(s.rows, p)
    ensures Serve(Podman, s, Stop(p)) == Serve(Kubernetes, s, Stop(p))
    ensures Serve(Podman, s, Delete(p)) == Serve(Kubernetes, s, Delete(p))
  {
    var r := s.rows[IndexOf(s.rows, p)];
    ActTwo(Podman, s, Remove(r), MarkActive(p, false));
    ActTwo(Kubernetes, s, Remove(r), MarkActive(p, false));
    DeleteEffect(Podman, s, p);
    DeleteEffect(Kubernetes, s, p);
  }

  lemma SetModeAgrees(s: System, p: string, mode: Mode)
    requires Has(s.rows, p)
    ensures Serve(Podman, s, SetMode(p, mode)) == Serve(Kubernetes, s, SetMode(p, mode))
  {
    SetModeEffect(Podman, s, p, mode);
    SetModeEffect(Kubernetes, s, p, mode);
  }

  /**
   From any state without orphans, one completed request ends alike on both runtimes if and only if it
   does not part them.
   */
  lemma BackendsAgreeExactly(s: System, q: Request)
    requires Owned(s)
    ensures Serve(Podman, s, q) == Serve(Kubernetes, s, q) <==> !Parts(s, q)
  {
    if q.Create? {
      CreateAgrees(s, q.row);
    } else if Has(s.rows, q.productType) {
      match q
      case Start(p) => StartAgreesExactly(s, p);
      case Stop(p) => StopAndDeleteAgree(s, p);
      case Delete(p) => StopAndDeleteAgree(s, p);
      case SetMode(p, mode) => SetModeAgrees(s, p, mode);
    }
  }

  lemma StartAgreesExactly(s: System, p: string)
    requires Has(s.rows, p)
    ensures Serve(Podman, s, Start(p)) == Serve(Kubernetes, s, Start(p)) <==> !Parts(s, Start(p))
  {
    StartEffect(Podman, s, p);
    StartEffect(Kubernetes, s, p);
    var r := s.rows[IndexOf(s.rows, p)];
    var n := ContainerName(r);
    assert Serve(Podman, s, Start(p)).containers[n] == if n in s.containers then s.containers[n] else r.mode;
    assert Serve(Kubernetes, s, Start(p)).containers[n] == r.mode;
  }

  /**
   A started row is in step with its container afterwards: always on Kubernetes, on podman if and only if
   the request did not part them.
   */
  lemma StartInStepExactly(backend: Backend, s: System, p: string)
    requires Has(s.rows, p)
    ensures var t, i := Serve(backend, s, Start(p)), IndexOf(s.rows, p);
      i < |t.rows| && (RowInStep(t, i) <==> backend == Kubernetes || !Parts(s, Start(p)))
  {
    StartEffect(backend, s, p);
  }

  lemma ServeKeepsOwned(backend: Backend, s: System, q: Request)
    requires Owned(s)
    ensures Owned(Serve(backend, s, q))
  {
    var plan := Plan(backend, s.rows, q);
    PlanIsDue(backend, s, q);
    PrefixKeepsOwned(backend, s, plan, |plan|);
    assert plan[..|plan|] == plan;
  }

  /** The runtimes go through the same states, request by request. */
  ghost predicate SameHistory(s: System, qs: seq<Request>) {
    forall k :: 0 <= k <= |qs| ==> ServeAll(Podman, s, qs[..k]) == ServeAll(Kubernetes, s, qs[..k])
  }

  ghost predicate NeverParts(s: System, qs: seq<Request>) {
    forall k :: 0 <= k < |qs| ==> !Parts(ServeAll(Kubernetes, s, qs[..k]), qs[k])
  }

  lemma {:induction false} ServeAllKeepsOwned(backend: Backend, s: System, qs: seq<Request>)
    requires Owned(s)
    ensures Owned(ServeAll(backend, s, qs))
  {
    if qs != [] {
      ServeAllKeepsOwned(backend, s, qs[..|qs| - 1]);
      ServeKeepsOwned(backend, ServeAll(backend, s, qs[..|qs| - 1]), qs[|qs| - 1]);
    }
  }

  lemma ServeOneMore(backend: Backend, s: System, qs: seq<Request>, k: nat)
    requires k < |qs|
    ensures ServeAll(backend, s, qs[..k + 1]) == Serve(backend, ServeAll(backend, s, qs[..k]), qs[k])
  {
    assert qs[..k + 1][..k] == qs[..k];
  }

  lemma {:induction false} SameUpTo(s: System, qs: seq<Request>, k: nat)
    requires Owned(s) && k <= |qs| && NeverParts(s, qs)
    ensures ServeAll(Podman, s, qs[..k]) == ServeAll(Kubernetes, s, qs[..k])
  {
    if k > 0 {
      SameUpTo(s, qs, k - 1);
      var before, q := ServeAll(Kubernetes, s, qs[..k - 1]), qs[k - 1];
      ServeOneMore(Podman, s, qs, k - 1);
      ServeOneMore(Kubernetes, s, qs, k - 1);
      ServeAllKeepsOwned(Kubernetes, s, qs[..k - 1]);
      BackendsAgreeExactly(before, q);
      assert Serve(Podman, before, q) == Serve(Kubernetes, before, q);
    } else {
      assert qs[..0] == [];
    }
  }

  /**
   After any requests cut short anywhere, on either runtime, the requests completed from then on
   take both runtimes through the same states if and only if none of them parts them.
   */
  lemma HistoriesAgreeExactly(backend: Backend, attempts: seq<Attempt>, qs: seq<Request>)
    ensures var s := AttemptAll(backend, System([], map[]), attempts);
      SameHistory(s, qs) <==> NeverParts(s, qs)
  {
    var s := AttemptAll(backend, System([], map[]), attempts);
    CrashesLeaveNoOrphan(backend, attempts);
    if SameHistory(s, qs) {
      forall k | 0 <= k < |qs| ensures !Parts(ServeAll(Kubernetes, s, qs[..k]), qs[k]) {
        ServeOneMore(Podman, s, qs, k);
        ServeOneMore(Kubernetes, s, qs, k);
        assert ServeAll(Podman, s, qs[..k]) == ServeAll(Kubernetes, s, qs[..k]);
        ServeAllKeepsOwned(Kubernetes, s, qs[..k]);
        BackendsAgreeExactly(ServeAll(Kubernetes, s, qs[..k]), qs[k]);
      }
    }
    if NeverParts(s, qs) {
      forall k | 0 <= k <= |qs| ensures ServeAll(Podman, s, qs[..k]) == ServeAll(Kubernetes, s, qs[..k]) {
        SameUpTo(s, qs, k);
      }
    }
  }

  /**
   Such a state arises from any in-step one: a change of an active product's mode cut short after its
   first step, then a Start.
   */
  lemma InterruptedPauseParts(backend: Backend, s: System, p: string, mode: Mode)
    requires InStep(s) && Has(s.rows, p)
    requires var r := s.rows[IndexOf(s.rows, p)]; r.isActive && r.mode != mode
    ensures Parts(Interrupted(backend, s, Attempt(SetMode(p, mode), 1)), Start(p))
  {
    var i := IndexOf(s.rows, p);
    var mark := MarkMode(p, mode);
    InStepByRow(s);
    assert RowInStep(s, i);
    UpdatedRow(s.rows, p, mode);
    assert Plan(backend, s.rows, SetMode(p, mode))[..1] == [mark];
    ActOne(backend, s, mark);
    assert Interrupted(backend, s, Attempt(SetMode(p, mode), 1)) == s.(rows := WithMode(s.rows, p, mode));
  }
}
