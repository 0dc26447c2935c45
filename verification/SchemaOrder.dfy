/** The order in which `WMInit.setSchemaFromModules` creates the tables of its modules. */
module SchemaOrder {
  import opened Common
  import opened Graphs

  /** The dependencies of each known module. */
  type Modules = map<string, seq<string>>

  datatype Outcome =
    | Sorted(order: seq<string>)
    | UnknownModule(name: string)
    | CircularDependency

  /** Each module comes after all its dependencies. */
  ghost predicate DepsFirst(order: seq<string>, deps: Modules) {
    forall i, d | 0 <= i < |order| && order[i] in deps && d in deps[order[i]] :: d in order[..i]
  }

  /** The requested modules, each once, dependencies first. */
  ghost predicate IsOrder(order: seq<string>, requested: set<string>, deps: Modules) {
    NoDup(order) && Elements(order) == requested && DepsFirst(order, deps)
  }

  ghost predicate OrderExists(requested: set<string>, deps: Modules) {
    exists order :: IsOrder(order, requested, deps)
  }

  ghost function GraphOf(deps: Modules): Graph<string> {
    map m | m in deps :: Elements(deps[m])
  }

  predicate AllIn(names: seq<string>, sorted: seq<string>) {
    forall i | 0 <= i < |names| :: names[i] in sorted
  }

  /** An order in terms of places: each module requested has one, none other has, none has two, and
      whatever a module depends on stands somewhere before it. */
  lemma OrderMeans(order: seq<string>, requested: set<string>, deps: Modules)
    ensures IsOrder(order, requested, deps) <==>
            && (forall m :: m in requested <==> exists i :: 0 <= i < |order| && order[i] == m)
            && (forall i, j | 0 <= i < |order| && 0 <= j < |order| && order[i] == order[j] :: i == j)
            && (forall i, d | 0 <= i < |order| && order[i] in deps && d in deps[order[i]] ::
                  exists j :: 0 <= j < i && order[j] == d)
  {
    assert forall m :: m in Elements(order) <==> exists i :: 0 <= i < |order| && order[i] == m;
    assert NoDup(order) <==> forall i, j | 0 <= i < |order| && 0 <= j < |order| && order[i] == order[j] :: i == j;
    forall i, d | 0 <= i < |order| ensures d in order[..i] <==> exists j :: 0 <= j < i && order[j] == d {
      if j :| 0 <= j < i && order[j] == d { assert order[..i][j] == d; }
    }
  }

  // ----- when there is an order -----

  /** A module that still misses a dependency. */
  ghost predicate Waits(m: string, sorted: seq<string>, deps: Modules) {
    m in deps && !AllIn(deps[m], sorted)
  }

  /** If every module left waits, no order of the requested modules exists. */
  lemma StuckMeansNone(sorted: seq<string>, remaining: set<string>, requested: set<string>, deps: Modules)
    requires remaining != {} && Elements(sorted) + remaining == requested
    requires forall m | m in remaining :: Waits(m, sorted, deps)
    ensures !OrderExists(requested, deps)
  {
    if OrderExists(requested, deps) {
      var order :| IsOrder(order, requested, deps);
      var m :| m in remaining;
      assert m in Elements(order);
      var i :| 0 <= i < |order| && order[i] == m;
      FirstLeft(order, remaining, i, sorted, requested, deps);
    }
  }

  lemma {:induction false} FirstLeft(order: seq<string>, remaining: set<string>, i: nat, sorted: seq<string>,
                                     requested: set<string>, deps: Modules)
    requires IsOrder(order, requested, deps) && Elements(sorted) + remaining == requested
    requires i < |order| && order[i] in remaining
    requires forall m | m in remaining :: Waits(m, sorted, deps)
    ensures false
    decreases i
  {
    var m := order[i];
    var k :| 0 <= k < |deps[m]| && deps[m][k] !in sorted;
    var d := deps[m][k];
    assert d in deps[m] && d in order[..i];
    var j :| 0 <= j < i && order[j] == d;
    assert d in Elements(order) && d !in Elements(sorted);
    FirstLeft(order, remaining, j, sorted, requested, deps);
  }

  lemma Append(sorted: seq<string>, m: string, deps: Modules)
    requires NoDup(sorted) && DepsFirst(sorted, deps) && m !in sorted && m in deps && AllIn(deps[m], sorted)
    ensures NoDup(sorted + [m]) && DepsFirst(sorted + [m], deps)
  {
    var order := sorted + [m];
    forall i, d | 0 <= i < |order| && order[i] in deps && d in deps[order[i]] ensures d in order[..i] {
      if i < |sorted| {
        assert order[..i] == sorted[..i] && order[i] == sorted[i];
      } else {
        assert order[..i] == sorted;
        var k :| 0 <= k < |deps[m]| && deps[m][k] == d;
      }
    }
  }

  /** Without unrequested dependencies and without cycles, any part of an order can be
      completed. */
  lemma {:induction false} Complete(sorted: seq<string>, requested: set<string>, deps: Modules)
    requires requested <= deps.Keys && (forall m, d | m in requested && d in deps[m] :: d in requested)
    requires !HasCycle(GraphOf(deps), requested)
    requires NoDup(sorted) && DepsFirst(sorted, deps) && Elements(sorted) <= requested
    ensures OrderExists(requested, deps)
    decreases |requested - Elements(sorted)|
  {
    var remaining := requested - Elements(sorted);
    if remaining == {} {
      assert IsOrder(sorted, requested, deps);
    } else {
      if forall m | m in remaining :: Waits(m, sorted, deps) {
        forall m | m in remaining ensures HasNext(GraphOf(deps), remaining, m) {
          var k :| 0 <= k < |deps[m]| && deps[m][k] !in sorted;
          assert deps[m][k] in deps[m];
          assert deps[m][k] in GraphOf(deps)[m] && deps[m][k] in remaining;
        }
        NoEscape(GraphOf(deps), remaining);
      }
      var m :| m in remaining && !Waits(m, sorted, deps);
      Append(sorted, m, deps);
      Snoc(sorted, m);
      Smaller(requested - Elements(sorted + [m]), remaining);
      Complete(sorted + [m], requested, deps);
    }
  }

  /** In an order, what a module depends on, however indirectly, comes before it. */
  lemma {:induction false} ReachedBefore(order: seq<string>, requested: set<string>, deps: Modules, i: nat,
                                         y: string, n: nat)
    returns (j: nat)
    requires IsOrder(order, requested, deps) && i < |order| && Steps(GraphOf(deps), order[i], y, n)
    ensures j + n <= i && order[j] == y
    decreases n
  {
    if n == 0 {
      j := i;
    } else {
      var c :| c in GraphOf(deps)[order[i]] && Steps(GraphOf(deps), c, y, n - 1);
      assert c in order[..i];
      var k :| 0 <= k < i && order[k] == c;
      j := ReachedBefore(order, requested, deps, k, y, n - 1);
    }
  }

  /** Known modules can be put in order if, and only if, everything they depend on is
      requested too and none of them depends on itself, directly or indirectly. */
  lemma OrderExistsIff(requested: set<string>, deps: Modules)
    requires requested <= deps.Keys
    ensures OrderExists(requested, deps) <==>
            (forall m, d | m in requested && d in deps[m] :: d in requested) && !HasCycle(GraphOf(deps), requested)
  {
    if OrderExists(requested, deps) {
      var order :| IsOrder(order, requested, deps);
      forall m, d | m in requested && d in deps[m] ensures d in requested {
        assert m in Elements(order);
        var i :| 0 <= i < |order| && order[i] == m;
        assert d in order[..i];
        assert d in Elements(order);
      }
      forall x | x in requested ensures !ReachesOn(GraphOf(deps), x, x) {
        if ReachesOn(GraphOf(deps), x, x) {
          assert x in Elements(order);
          var i :| 0 <= i < |order| && order[i] == x;
          var n: nat :| n > 0 && Steps(GraphOf(deps), x, x, n);
          var j := ReachedBefore(order, requested, deps, i, x, n);
        }
      }
    } else if (forall m, d | m in requested && d in deps[m] :: d in requested) && !HasCycle(GraphOf(deps), requested) {
      Complete([], requested, deps);
    }
  }

  /** The circular dependency reported need not be there: one module is requested without the
      one it depends on. */
  lemma UnrequestedIsNoCycle() returns (requested: set<string>, deps: Modules)
    ensures requested <= deps.Keys && !OrderExists(requested, deps) && !HasCycle(GraphOf(deps), deps.Keys)
  {
    requested, deps := {"a"}, map["a" := ["b"], "b" := []];
    var g := GraphOf(deps);
    assert deps["a"][0] == "b" && "a" in requested && "b" in deps["a"] && "b" !in requested;
    OrderExistsIff(requested, deps);
    assert forall y, n: nat :: n > 0 ==> !Steps(g, "b", y, n);
    assert g["a"] == {"b"} && g["b"] == {};
    forall x, n: nat | x in deps.Keys && n > 0 ensures !Steps(g, x, x, n) { }
  }

  // ----- the loop -----

  /** The modules of one round: those that wait for nothing, in the order of the set. */
  method Ready(remaining: set<string>, sorted: seq<string>, deps: Modules) returns (ready: seq<string>)
    requires remaining <= deps.Keys
    ensures NoDup(ready) && forall m :: m in ready <==> m in remaining && AllIn(deps[m], sorted)
  {
    ready := [];
    var todo := remaining;
    while todo != {}
      invariant todo <= remaining && NoDup(ready)
      invariant forall m :: m in ready <==> m in remaining - todo && AllIn(deps[m], sorted)
      decreases todo
    {
      var mod :| mod in todo;
      if AllIn(deps[mod], sorted) {
        Snoc(ready, mod);
        ready := ready + [mod];
      }
      todo := todo - {mod};
    }
  }

  /** Appending a round of modules that waited for nothing keeps the order. */
  lemma {:induction false} AppendRound(sorted: seq<string>, ready: seq<string>, deps: Modules)
    requires NoDup(sorted) && DepsFirst(sorted, deps) && NoDup(ready)
    requires forall i | 0 <= i < |ready| :: ready[i] !in sorted && ready[i] in deps && AllIn(deps[ready[i]], sorted)
    ensures NoDup(sorted + ready) && DepsFirst(sorted + ready, deps)
    ensures Elements(sorted + ready) == Elements(sorted) + Elements(ready)
    decreases |ready|
  {
    if ready == [] {
      assert sorted + ready == sorted;
    } else {
      var m := ready[0];
      Append(sorted, m, deps);
      Snoc(sorted, m);
      AppendRound(sorted + [m], ready[1..], deps);
      assert sorted + [m] + ready[1..] == sorted + ready;
      assert Elements(ready) == {m} + Elements(ready[1..]) by { assert ready == [m] + ready[1..]; }
    }
  }

  /** The dependency part of `setSchemaFromModules`: an unknown module is reported first; then
      the modules are put in order, or the loop gives up, which it does only if no order
      exists. */
  method OrderModules(sqlModules: seq<string>, deps: Modules) returns (r: Outcome)
    ensures r.UnknownModule? <==> exists i :: 0 <= i < |sqlModules| && sqlModules[i] !in deps
    ensures r.UnknownModule? ==> exists i :: 0 <= i < |sqlModules| && sqlModules[i] == r.name && r.name !in deps
                                             && forall j | 0 <= j < i :: sqlModules[j] in deps
    ensures r.Sorted? ==> IsOrder(r.order, Elements(sqlModules), deps)
    ensures r.CircularDependency? ==> !OrderExists(Elements(sqlModules), deps)
  {
    for i := 0 to |sqlModules|
      invariant forall j | 0 <= j < i :: sqlModules[j] in deps
    {
      if sqlModules[i] !in deps {
        return UnknownModule(sqlModules[i]);
      }
    }
    var sorted_modules: seq<string> := [];
    var remaining_modules := set i | 0 <= i < |sqlModules| :: sqlModules[i];
    ghost var requested := Elements(sqlModules);
    while remaining_modules != {}
      invariant requested <= deps.Keys && Elements(sorted_modules) + remaining_modules == requested
      invariant Elements(sorted_modules) !! remaining_modules
      invariant NoDup(sorted_modules) && DepsFirst(sorted_modules, deps)
      decreases remaining_modules
    {
      var ready_modules := Ready(remaining_modules, sorted_modules, deps);
      if ready_modules == [] {
        forall m | m in remaining_modules ensures Waits(m, sorted_modules, deps) {
          assert m !in ready_modules;
        }
        StuckMeansNone(sorted_modules, remaining_modules, requested, deps);
        return CircularDependency;
      }
      forall i | 0 <= i < |ready_modules|
        ensures ready_modules[i] in remaining_modules && ready_modules[i] !in sorted_modules
      {
        assert ready_modules[i] in ready_modules;
        assert ready_modules[i] !in Elements(sorted_modules);
      }
      AppendRound(sorted_modules, ready_modules, deps);
      assert ready_modules[0] in ready_modules && ready_modules[0] in remaining_modules;
      sorted_modules := sorted_modules + ready_modules;
      remaining_modules := remaining_modules - set i | 0 <= i < |ready_modules| :: ready_modules[i];
    }
    r := Sorted(sorted_modules);
  }
}
