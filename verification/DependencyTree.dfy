/** The packages and files a system needs: `walk_dep_tree` of `setup_build.py`. */
module DependencyTree {
  import opened Common
  import opened Graphs

  /** What the dependency dictionary says about one system. */
  datatype System = System(bin: set<string>, packages: set<string>, statics: set<string>, modules: set<string>,
                           systems: seq<string>)

  type Dependencies = map<string, System>

  datatype Parts = Parts(bin: set<string>, packages: set<string>, statics: set<string>, modules: set<string>)

  datatype Result =
    | Ok(parts: Parts)
    | KeyError        // a system named is not in the dictionary
    | RecursionError  // the calls are nested too deeply for the interpreter

  function Own(s: System): Parts {
    Parts(s.bin, s.packages, s.statics, s.modules)
  }

  function Union(a: Parts, b: Parts): Parts {
    Parts(a.bin + b.bin, a.packages + b.packages, a.statics + b.statics, a.modules + b.modules)
  }

  /** The four kinds of things a system needs. */
  datatype Kind = Bin | Packages | Statics | Modules

  function Field(p: Parts, kind: Kind): set<string> {
    match kind
    case Bin => p.bin
    case Packages => p.packages
    case Statics => p.statics
    case Modules => p.modules
  }

  ghost function GraphOf(deps: Dependencies): Graph<string> {
    map n | n in deps :: Elements(deps[n].systems)
  }

  /** The names reached from the systems a system lists. */
  ghost predicate Needed(deps: Dependencies, names: seq<string>, n: string) {
    exists i :: 0 <= i < |names| && Reaches(GraphOf(deps), names[i], n)
  }

  ghost predicate NeededHas(deps: Dependencies, names: seq<string>, kind: Kind, x: string) {
    exists n :: n in deps && Needed(deps, names, n) && x in Field(Own(deps[n]), kind)
  }

  /** `p` holds `own` and the contributions of all the systems needed, and nothing else. */
  ghost predicate IsUnion(p: Parts, own: Parts, deps: Dependencies, names: seq<string>) {
    forall kind, x :: x in Field(p, kind) <==> x in Field(own, kind) || NeededHas(deps, names, kind, x)
  }

  /** Every name needed is in the dictionary. */
  ghost predicate AllKnown(deps: Dependencies, names: seq<string>) {
    forall n | Needed(deps, names, n) :: n in deps
  }

  /** No chain of dependencies from the names is as long as `depth`. */
  ghost predicate Shallow(deps: Dependencies, names: seq<string>, depth: nat) {
    forall i | 0 <= i < |names| :: !Chain(GraphOf(deps), names[i], depth)
  }

  lemma NeededBy(deps: Dependencies, names: seq<string>, i: nat, n: string)
    requires i < |names| && names[i] in deps
    ensures n == names[i] || Needed(deps, deps[names[i]].systems, n) <==> Reaches(GraphOf(deps), names[i], n)
  {
    var g, system := GraphOf(deps), deps[names[i]];
    if Reaches(g, names[i], n) {
      ReachesFirst(g, names[i], n);
      if n != names[i] {
        var b :| b in g[names[i]] && Reaches(g, b, n);
        var k :| 0 <= k < |system.systems| && system.systems[k] == b;
        assert Reaches(g, system.systems[k], n);
      }
    }
    ReachesStart(g, names[i]);
    if k :| 0 <= k < |system.systems| && Reaches(g, system.systems[k], n) {
      assert system.systems[k] in g[names[i]];
      FirstThenReaches(g, names[i], system.systems[k], n);
    }
  }

  lemma NeededGrows(deps: Dependencies, names: seq<string>, i: nat, n: string)
    requires i < |names|
    ensures Needed(deps, names[..i + 1], n) <==> Needed(deps, names[..i], n) || Reaches(GraphOf(deps), names[i], n)
  {
    if Needed(deps, names[..i], n) {
      var k :| 0 <= k < i && Reaches(GraphOf(deps), names[..i][k], n);
      assert names[..i + 1][k] == names[..i][k];
    }
    if Needed(deps, names[..i + 1], n) {
      var k :| 0 <= k < i + 1 && Reaches(GraphOf(deps), names[..i + 1][k], n);
      assert k < i ==> names[..i][k] == names[..i + 1][k];
    }
    assert names[..i + 1][i] == names[i];
  }

  lemma UnionGrows(p: Parts, own: Parts, deps: Dependencies, names: seq<string>, i: nat, more: Parts)
    requires i < |names| && names[i] in deps
    requires IsUnion(p, own, deps, names[..i]) && IsUnion(more, Own(deps[names[i]]), deps, deps[names[i]].systems)
    ensures IsUnion(Union(p, more), own, deps, names[..i + 1])
  {
    forall kind, x
      ensures NeededHas(deps, names[..i + 1], kind, x) <==>
              NeededHas(deps, names[..i], kind, x) || x in Field(more, kind)
    {
      forall n | n in deps ensures Needed(deps, names[..i + 1], n) <==>
          Needed(deps, names[..i], n) || n == names[i] || Needed(deps, deps[names[i]].systems, n) {
        NeededGrows(deps, names, i, n);
        NeededBy(deps, names, i, n);
      }
      assert x in Field(more, kind) <==>
             x in Field(Own(deps[names[i]]), kind) || NeededHas(deps, deps[names[i]].systems, kind, x);
    }
  }

  lemma NothingNeeded(own: Parts, deps: Dependencies)
    ensures IsUnion(own, own, deps, [])
  {
  }

  /** What one listed system adds to what can go wrong. */
  lemma KnownGrows(deps: Dependencies, names: seq<string>, i: nat)
    requires i < |names|
    ensures AllKnown(deps, names[..i + 1]) <==>
            AllKnown(deps, names[..i]) && names[i] in deps && AllKnown(deps, deps[names[i]].systems)
  {
    var g := GraphOf(deps);
    forall n ensures Needed(deps, names[..i + 1], n) <==> Needed(deps, names[..i], n) || Reaches(g, names[i], n) {
      NeededGrows(deps, names, i, n);
    }
    ReachesStart(g, names[i]);
    if names[i] in deps {
      var inner := deps[names[i]].systems;
      forall n ensures Reaches(g, names[i], n) <==> n == names[i] || Needed(deps, inner, n) {
        NeededBy(deps, names, i, n);
      }
    }
  }

  lemma DepthGrows(deps: Dependencies, names: seq<string>, i: nat, depth: nat)
    requires i < |names| && names[i] in deps
    ensures Shallow(deps, names[..i + 1], depth) <==>
            Shallow(deps, names[..i], depth) && depth > 0 && Shallow(deps, deps[names[i]].systems, depth - 1)
  {
    var g, inner := GraphOf(deps), deps[names[i]].systems;
    ShallowGrows(deps, names, i, depth);
    if depth == 0 {
      assert Steps(g, names[i], names[i], 0);
    } else {
      ChainFirst(g, names[i], depth);
      if !Shallow(deps, inner, depth - 1) {
        var k :| 0 <= k < |inner| && Chain(g, inner[k], depth - 1);
        assert inner[k] in g[names[i]];
      }
      if Chain(g, names[i], depth) {
        var c :| c in g[names[i]] && Chain(g, c, depth - 1);
        var k :| 0 <= k < |inner| && inner[k] == c;
      }
    }
  }

  lemma ShallowGrows(deps: Dependencies, names: seq<string>, i: nat, depth: nat)
    requires i < |names|
    ensures Shallow(deps, names[..i + 1], depth) <==>
            Shallow(deps, names[..i], depth) && !Chain(GraphOf(deps), names[i], depth)
  {
    assert forall k | 0 <= k < i :: names[..i + 1][k] == names[..i][k];
    assert names[..i + 1][i] == names[i];
  }

  /** `walk_dep_tree`, in an interpreter that allows `depth` nested calls. It succeeds exactly
      when every system needed is known and no chain of dependencies is too long, and then
      returns the contributions of exactly the systems needed. */
  method WalkDepTree(system: System, deps: Dependencies, depth: nat) returns (r: Result)
    ensures r.Ok? <==> depth > 0 && AllKnown(deps, system.systems) && Shallow(deps, system.systems, depth - 1)
    ensures r.Ok? ==> IsUnion(r.parts, Own(system), deps, system.systems)
    ensures r.Ok? ==> forall x :: x in r.parts.bin <==>
              x in system.bin || exists n :: n in deps && Needed(deps, system.systems, n) && x in deps[n].bin
    ensures r.Ok? ==> forall x :: x in r.parts.packages <==>
              x in system.packages || exists n :: n in deps && Needed(deps, system.systems, n) && x in deps[n].packages
    ensures r.Ok? ==> forall x :: x in r.parts.statics <==>
              x in system.statics || exists n :: n in deps && Needed(deps, system.systems, n) && x in deps[n].statics
    ensures r.Ok? ==> forall x :: x in r.parts.modules <==>
              x in system.modules || exists n :: n in deps && Needed(deps, system.systems, n) && x in deps[n].modules
    ensures r.KeyError? ==> !AllKnown(deps, system.systems)
    ensures r.RecursionError? ==> depth == 0 || !Shallow(deps, system.systems, depth - 1)
    decreases depth
  {
    if depth == 0 {
      return RecursionError;
    }
    var names := system.systems;
    var parts := Own(system);
    NothingNeeded(parts, deps);
    assert names[..0] == [];
    for i := 0 to |names|
      invariant IsUnion(parts, Own(system), deps, names[..i])
      invariant AllKnown(deps, names[..i]) && Shallow(deps, names[..i], depth - 1)
    {
      KnownGrows(deps, names, i);
      if names[i] !in deps {
        ReachesStart(GraphOf(deps), names[i]);
        assert Needed(deps, names, names[i]);
        return KeyError;
      }
      DepthGrows(deps, names, i, depth - 1);
      var dependants := WalkDepTree(deps[names[i]], deps, depth - 1);
      if !dependants.Ok? {
        Fails(deps, names, i, depth - 1);
        return dependants;
      }
      UnionGrows(parts, Own(system), deps, names, i, dependants.parts);
      parts := Union(parts, dependants.parts);
    }
    assert names[..|names|] == names;
    FieldByField(parts, system, deps);
    r := Ok(parts);
  }

  /** Each field of the union is that of the system and of all the systems needed. */
  lemma FieldByField(p: Parts, s: System, deps: Dependencies)
    requires IsUnion(p, Own(s), deps, s.systems)
    ensures forall x :: x in p.bin <==>
              x in s.bin || exists n :: n in deps && Needed(deps, s.systems, n) && x in deps[n].bin
    ensures forall x :: x in p.packages <==>
              x in s.packages || exists n :: n in deps && Needed(deps, s.systems, n) && x in deps[n].packages
    ensures forall x :: x in p.statics <==>
              x in s.statics || exists n :: n in deps && Needed(deps, s.systems, n) && x in deps[n].statics
    ensures forall x :: x in p.modules <==>
              x in s.modules || exists n :: n in deps && Needed(deps, s.systems, n) && x in deps[n].modules
  {
    forall x ensures
      && (x in p.bin <==> x in s.bin || NeededHas(deps, s.systems, Bin, x))
      && (x in p.packages <==> x in s.packages || NeededHas(deps, s.systems, Packages, x))
      && (x in p.statics <==> x in s.statics || NeededHas(deps, s.systems, Statics, x))
      && (x in p.modules <==> x in s.modules || NeededHas(deps, s.systems, Modules, x))
    {
      assert x in Field(p, Bin) <==> x in Field(Own(s), Bin) || NeededHas(deps, s.systems, Bin, x);
      assert x in Field(p, Packages) <==> x in Field(Own(s), Packages) || NeededHas(deps, s.systems, Packages, x);
      assert x in Field(p, Statics) <==> x in Field(Own(s), Statics) || NeededHas(deps, s.systems, Statics, x);
      assert x in Field(p, Modules) <==> x in Field(Own(s), Modules) || NeededHas(deps, s.systems, Modules, x);
    }
    forall n, x | n in deps ensures
      && (x in Field(Own(deps[n]), Bin) <==> x in deps[n].bin)
      && (x in Field(Own(deps[n]), Packages) <==> x in deps[n].packages)
      && (x in Field(Own(deps[n]), Statics) <==> x in deps[n].statics)
      && (x in Field(Own(deps[n]), Modules) <==> x in deps[n].modules)
    {
    }
  }

  /** What goes wrong for one of the first names goes wrong for all. */
  lemma Fails(deps: Dependencies, names: seq<string>, i: nat, depth: nat)
    requires i < |names|
    ensures !AllKnown(deps, names[..i + 1]) ==> !AllKnown(deps, names)
    ensures !Shallow(deps, names[..i + 1], depth) ==> !Shallow(deps, names, depth)
  {
    forall n | Needed(deps, names[..i + 1], n) ensures Needed(deps, names, n) {
      var k :| 0 <= k < i + 1 && Reaches(GraphOf(deps), names[..i + 1][k], n);
      assert names[k] == names[..i + 1][k];
    }
  }

  /** When all systems needed are known, some depth is enough if, and only if, none of them
      depends on itself, directly or indirectly. */
  lemma SomeDepthSufficesIff(deps: Dependencies, names: seq<string>)
    ensures (exists depth: nat :: Shallow(deps, names, depth)) <==>
            forall n | Needed(deps, names, n) :: !ReachesOn(GraphOf(deps), n, n)
  {
    var g := GraphOf(deps);
    if depth: nat :| Shallow(deps, names, depth) {
      forall n | Needed(deps, names, n) ensures !ReachesOn(g, n, n) {
        var i :| 0 <= i < |names| && Reaches(g, names[i], n);
        EndlessIff(g, names[i]);
        assert !Chain(g, names[i], depth);
      }
    }
    if forall n | Needed(deps, names, n) :: !ReachesOn(g, n, n) {
      var depth := |g.Keys| + 1;
      forall i | 0 <= i < |names| ensures !Chain(g, names[i], depth) {
        if Chain(g, names[i], depth) {
          forall x | x in g && Reaches(g, names[i], x) ensures !ReachesOn(g, x, x) {
            assert Needed(deps, names, x);
          }
          ChainsEnd(g, names[i], g.Keys, depth);
        }
      }
      assert Shallow(deps, names, depth);
    }
  }
}
