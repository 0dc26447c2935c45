/** Collecting the dependencies of a spec file: `getDepsRecursive` of
    `ParseSpecCmsswdist.py`. */
module SpecDeps {
  import opened Common
  import opened Graphs

  /** What `getDepsSpec` reads from one file. */
  datatype Spec = Spec(specsPy: seq<string>, specsAll: seq<string>)

  /** The files of the spec directory. */
  type Files = map<string, Spec>

  datatype Outcome = Done | FileNotFound | RecursionError

  ghost function GraphOf(files: Files): Graph<string> {
    map f | f in files :: Elements(files[f].specsAll)
  }

  function Selected(s: Spec, buildAllDep: bool): seq<string> {
    if buildAllDep then s.specsAll else s.specsPy
  }

  /** A file that is read when the given depth is allowed: `n` steps away, with `n` below the
      depth if that is not negative. */
  ghost predicate ReadAt(files: Files, file: string, depth: int, f: string, n: nat) {
    (depth < 0 || n < depth) && Steps(GraphOf(files), file, f, n)
  }

  /** `x` is selected in some file that is read. */
  ghost predicate Collected(files: Files, file: string, depth: int, all: bool, x: string) {
    exists f, n: nat :: ReadAt(files, file, depth, f, n) && f in files && x in Selected(files[f], all)
  }

  ghost predicate AllFound(files: Files, file: string, depth: int) {
    forall f, n: nat | ReadAt(files, file, depth, f, n) :: f in files
  }

  /** The calls are nested `stack` deep or deeper. */
  ghost predicate TooDeep(files: Files, file: string, depth: int, stack: nat) {
    (depth < 0 || stack <= depth) && Chain(GraphOf(files), file, stack)
  }

  function Less(depth: int): int {
    if depth < 0 then depth else depth - 1
  }

  /** What it takes for the outcome `Done`. */
  ghost predicate EndsWell(files: Files, file: string, depth: int, stack: nat) {
    AllFound(files, file, depth) && !TooDeep(files, file, depth, stack)
  }

  // ----- one call and the calls it makes -----

  lemma ReadFirst(files: Files, file: string, depth: int, f: string, n: nat)
    requires depth != 0 && n > 0
    ensures ReadAt(files, file, depth, f, n) <==>
            file in files && exists c :: c in GraphOf(files)[file] && ReadAt(files, c, Less(depth), f, n - 1)
  {
    if ReadAt(files, file, depth, f, n) {
      var c :| c in GraphOf(files)[file] && Steps(GraphOf(files), c, f, n - 1);
      assert ReadAt(files, c, Less(depth), f, n - 1);
    }
  }

  /** What is collected: what the file itself selects, and what its specs collect. */
  lemma CollectedFirst(files: Files, file: string, depth: int, all: bool, x: string)
    requires depth != 0 && file in files
    ensures Collected(files, file, depth, all, x) <==>
            || x in Selected(files[file], all)
            || exists c :: c in GraphOf(files)[file] && Collected(files, c, Less(depth), all, x)
  {
    if Collected(files, file, depth, all, x) {
      var f, n: nat :| ReadAt(files, file, depth, f, n) && f in files && x in Selected(files[f], all);
      if n > 0 {
        ReadFirst(files, file, depth, f, n);
        var c :| c in GraphOf(files)[file] && ReadAt(files, c, Less(depth), f, n - 1);
        assert Collected(files, c, Less(depth), all, x);
      }
    }
    if x in Selected(files[file], all) {
      assert ReadAt(files, file, depth, file, 0);
    }
    if c :| c in GraphOf(files)[file] && Collected(files, c, Less(depth), all, x) {
      var f, n: nat :| ReadAt(files, c, Less(depth), f, n) && f in files && x in Selected(files[f], all);
      ReadFirst(files, file, depth, f, n + 1);
    }
  }

  lemma FoundFirst(files: Files, file: string, depth: int)
    requires depth != 0
    ensures AllFound(files, file, depth) <==>
            file in files && forall c | c in GraphOf(files)[file] :: AllFound(files, c, Less(depth))
  {
    assert ReadAt(files, file, depth, file, 0);
    if AllFound(files, file, depth) {
      forall c, f, n: nat | c in GraphOf(files)[file] && ReadAt(files, c, Less(depth), f, n) ensures f in files {
        ReadFirst(files, file, depth, f, n + 1);
      }
    } else if file in files {
      var f, n: nat :| ReadAt(files, file, depth, f, n) && f !in files;
      ReadFirst(files, file, depth, f, n);
      var c :| c in GraphOf(files)[file] && ReadAt(files, c, Less(depth), f, n - 1);
      assert !AllFound(files, c, Less(depth));
    }
  }

  lemma DeepFirst(files: Files, file: string, depth: int, stack: nat)
    requires depth != 0 && stack > 0
    ensures TooDeep(files, file, depth, stack) <==>
            file in files && exists c :: c in GraphOf(files)[file] && TooDeep(files, c, Less(depth), stack - 1)
  {
    ChainFirst(GraphOf(files), file, stack);
    if TooDeep(files, file, depth, stack) {
      var c :| c in GraphOf(files)[file] && Chain(GraphOf(files), c, stack - 1);
      assert TooDeep(files, c, Less(depth), stack - 1);
    }
  }

  /** The set the script collects its result in. */
  class Deps {
    var depsSpec: set<string>

    constructor ()
      ensures depsSpec == {}
    {
      depsSpec := {};
    }

    /** `getDepsRecursive`, in an interpreter that allows `stack` nested calls. It ends well
        exactly when every file it should read is there and the calls are not nested too
        deeply, and then has added exactly what those files select. */
    method GetDepsRecursive(files: Files, specfile: string, buildAllDep: bool, recursionDepth: int, stack: nat)
      returns (r: Outcome)
      modifies this
      ensures r.Done? <==> EndsWell(files, specfile, recursionDepth, stack)
      ensures r.FileNotFound? ==> !AllFound(files, specfile, recursionDepth)
      ensures r.RecursionError? ==> TooDeep(files, specfile, recursionDepth, stack)
      ensures r.Done? && !buildAllDep ==> forall x :: x in depsSpec <==>
                || x in old(depsSpec)
                || exists f, n: nat ::
                     ReadAt(files, specfile, recursionDepth, f, n) && f in files && x in files[f].specsPy
      ensures r.Done? && buildAllDep ==> forall x :: x in depsSpec <==>
                || x in old(depsSpec)
                || exists f, n: nat ::
                     ReadAt(files, specfile, recursionDepth, f, n) && f in files && x in files[f].specsAll
      ensures r.Done? ==> forall x ::
                x in depsSpec <==> x in old(depsSpec) || Collected(files, specfile, recursionDepth, buildAllDep, x)
      decreases stack
    {
      ghost var g := GraphOf(files);
      if stack == 0 {
        assert Steps(g, specfile, specfile, 0);
        return RecursionError;
      }
      if recursionDepth == 0 {
        return Done;
      }
      var depth := if recursionDepth < 0 then recursionDepth else recursionDepth - 1;
      FoundFirst(files, specfile, recursionDepth);
      DeepFirst(files, specfile, recursionDepth, stack);
      if specfile !in files {
        return FileNotFound;
      }
      var specs := files[specfile];
      depsSpec := depsSpec + set i | 0 <= i < |Selected(specs, buildAllDep)| :: Selected(specs, buildAllDep)[i];
      for i := 0 to |specs.specsAll|
        invariant forall j | 0 <= j < i ::
                    AllFound(files, specs.specsAll[j], depth) && !TooDeep(files, specs.specsAll[j], depth, stack - 1)
        invariant forall x :: x in depsSpec <==>
                    || x in old(depsSpec) || x in Selected(specs, buildAllDep)
                    || exists j :: 0 <= j < i && Collected(files, specs.specsAll[j], depth, buildAllDep, x)
      {
        r := GetDepsRecursive(files, specs.specsAll[i], buildAllDep, depth, stack - 1);
        assert specs.specsAll[i] in g[specfile];
        if !r.Done? {
          return;
        }
      }
      forall c | c in g[specfile] ensures exists j :: 0 <= j < |specs.specsAll| && specs.specsAll[j] == c { }
      forall x ensures Collected(files, specfile, recursionDepth, buildAllDep, x) <==>
                       (x in Selected(specs, buildAllDep)
                        || exists j ::
                             0 <= j < |specs.specsAll| && Collected(files, specs.specsAll[j], depth, buildAllDep, x))
      {
        CollectedFirst(files, specfile, recursionDepth, buildAllDep, x);
        if j :| 0 <= j < |specs.specsAll| && Collected(files, specs.specsAll[j], depth, buildAllDep, x) {
          assert specs.specsAll[j] in g[specfile];
        }
      }
      forall x ensures Collected(files, specfile, recursionDepth, buildAllDep, x) <==>
                       exists f, n: nat :: ReadAt(files, specfile, recursionDepth, f, n) && f in files
                                           && x in if buildAllDep then files[f].specsAll else files[f].specsPy { }
      r := Done;
    }
  }

  // ----- what the depth means -----

  /** `f` is fewer than `n` steps away. */
  ghost predicate ReachedBefore(files: Files, file: string, f: string, n: nat) {
    exists k: nat :: k < n && Steps(GraphOf(files), file, f, k)
  }

  /** A depth that is not negative collects what is selected in the files reached in fewer
      steps; if all specs are wanted, that is exactly the specs reached in at least one and at
      most that many steps. A stack of one more call is always enough, even around cycles. */
  lemma PositiveDepth(files: Files, file: string, depth: nat, x: string)
    ensures !TooDeep(files, file, depth, depth + 1)
    ensures forall all :: Collected(files, file, depth, all, x) <==>
                          exists f :: f in files && ReachedBefore(files, file, f, depth) && x in Selected(files[f], all)
    ensures Collected(files, file, depth, true, x) <==>
            exists n: nat :: 1 <= n <= depth && Steps(GraphOf(files), file, x, n)
  {
    var g := GraphOf(files);
    forall all, f | f in files && ReachedBefore(files, file, f, depth) && x in Selected(files[f], all)
      ensures Collected(files, file, depth, all, x)
    {
      var n: nat :| n < depth && Steps(g, file, f, n);
      assert ReadAt(files, file, depth, f, n);
    }
    if Collected(files, file, depth, true, x) {
      var f, n: nat :| ReadAt(files, file, depth, f, n) && f in files && x in Selected(files[f], true);
      OneStep(g, f, x);
      StepsConcat(g, file, f, x, n, 1);
      assert 1 <= n + 1 <= depth && Steps(g, file, x, n + 1);
    }
    if n: nat :| 1 <= n <= depth && Steps(g, file, x, n) {
      var f := LastStep(g, file, x, n);
      assert ReadAt(files, file, depth, f, n - 1) && x in Selected(files[f], true);
    }
  }

  /** A depth of the number of files collects as much as an unlimited recursion would, and one
      more meets every file that is missing: beyond, the depth makes no difference. */
  lemma DeepEnough(files: Files, file: string, depth: nat, unlimited: int, all: bool, x: string)
    requires depth >= |files| && unlimited < 0
    ensures Collected(files, file, depth, all, x) <==> Collected(files, file, unlimited, all, x)
    ensures depth > |files| ==> (AllFound(files, file, depth) <==> AllFound(files, file, unlimited))
  {
    var g := GraphOf(files);
    assert g.Keys == files.Keys;
    forall f, n: nat | ReadAt(files, file, depth, f, n) ensures ReadAt(files, file, unlimited, f, n) { }
    if Collected(files, file, unlimited, all, x) {
      var f, n: nat :| ReadAt(files, file, unlimited, f, n) && f in files && x in Selected(files[f], all);
      var m := ShortWay(g, file, f, n);
      assert ReadAt(files, file, depth, f, m);
    }
    if depth > |files| && !AllFound(files, file, unlimited) {
      var f, n: nat :| ReadAt(files, file, unlimited, f, n) && f !in files;
      var m := ShortWay(g, file, f, n);
      assert ReadAt(files, file, depth, f, m);
    }
  }

  /** A negative depth collects what is selected in everything reached. The calls are nested
      without bound if, and only if, some file reached depends on itself; so the recursion can
      end well exactly if there is no such file and none is missing. */
  lemma NegativeDepth(files: Files, file: string, depth: int, all: bool, x: string)
    requires depth < 0
    ensures Collected(files, file, depth, all, x) <==>
            exists f :: Reaches(GraphOf(files), file, f) && f in files && x in Selected(files[f], all)
    ensures (exists stack: nat :: !TooDeep(files, file, depth, stack)) <==>
            forall f | Reaches(GraphOf(files), file, f) :: !ReachesOn(GraphOf(files), f, f)
    ensures (exists stack: nat :: EndsWell(files, file, depth, stack)) <==>
            forall f | Reaches(GraphOf(files), file, f) :: f in files && !ReachesOn(GraphOf(files), f, f)
  {
    var g := GraphOf(files);
    if f :| Reaches(g, file, f) && f in files && x in Selected(files[f], all) {
      var n: nat :| Steps(g, file, f, n);
      assert ReadAt(files, file, depth, f, n);
    }
    if Collected(files, file, depth, all, x) {
      var f, n: nat :| ReadAt(files, file, depth, f, n) && f in files && x in Selected(files[f], all);
      assert Reaches(g, file, f);
    }
    EndlessIff(g, file);
    forall stack: nat ensures TooDeep(files, file, depth, stack) <==> Chain(g, file, stack) { }
    FoundWhereReached(files, file, depth);
    if AllFound(files, file, depth) && exists stack: nat :: !TooDeep(files, file, depth, stack) {
      var stack: nat :| !TooDeep(files, file, depth, stack);
      assert EndsWell(files, file, depth, stack);
    }
  }

  lemma FoundWhereReached(files: Files, file: string, depth: int)
    requires depth < 0
    ensures AllFound(files, file, depth) <==> forall f | Reaches(GraphOf(files), file, f) :: f in files
  {
    var g := GraphOf(files);
    forall f, n: nat ensures ReadAt(files, file, depth, f, n) <==> Steps(g, file, f, n) { }
    if AllFound(files, file, depth) {
      forall f | Reaches(g, file, f) ensures f in files {
        var n: nat :| Steps(g, file, f, n);
        assert ReadAt(files, file, depth, f, n);
      }
    }
    forall f, n: nat | Steps(g, file, f, n) ensures Reaches(g, file, f) { }
  }
}
