/** The Python script that `PSetTweak.pythonise` writes, and what running it builds. */
module PSetScript {
  import opened Common
  import opened PSetTree
  import opened Sorting

  /** One statement of the script; holders are named by their dotted path, split. */
  datatype Line =
    | NewProcess                                            // process = PSetHolder("process")
    | NewHolder(pset: Path, name: string)                   // setattr(pset, name, PSetHolder(name))
    | SetParameter(pset: Path, name: string, value: Json)   // setattr(pset, name, value)
    | AppendName(pset: Path, name: string)                  // pset.parameters_.append(name)

  predicate Names(t: Tree, pset: Path) {
    pset != [] && pset[0] == PROCESS && pset[1..] in t
  }

  /** Run one statement; naming a holder that does not exist raises. Before the first
      statement there is no `process`: the empty map. */
  function RunLine(t: Tree, line: Line): Option<Tree> {
    match line
    case NewProcess => Some(EMPTY)
    case NewHolder(pset, c) => if Names(t, pset) then Some(SetHolder(t, pset[1..], c)) else None
    case SetParameter(pset, c, v) =>
      if Names(t, pset) then
        var p := pset[1..];
        Some(Without(t, p + [c])[p := t[p].(slots := t[p].slots[c := Value(v)])])
      else None
    case AppendName(pset, c) =>
      if Names(t, pset) then
        var p := pset[1..];
        Some(t[p := t[p].(parameters := t[p].parameters + [c])])
      else None
  }

  function RunLines(t: Tree, lines: seq<Line>): Option<Tree>
    decreases |lines|
  {
    if lines == [] then Some(t)
    else match RunLine(t, lines[0])
      case None => None
      case Some(t') => RunLines(t', lines[1..])
  }

  lemma {:induction false} RunConcat(t: Tree, a: seq<Line>, b: seq<Line>)
    ensures RunLines(t, a + b) == match RunLines(t, a) case None => None case Some(t') => RunLines(t', b)
    decreases |a|
  {
    if a == [] {
      assert a + b == b;
    } else {
      assert (a + b)[1..] == a[1..] + b;
      if RunLine(t, a[0]).Some? { RunConcat(RunLine(t, a[0]).value, a[1..], b); }
    }
  }

  // ----- the order of the statements -----

  function Dotted(path: Path): string
    decreases |path|
  {
    if path == [] then "" else if |path| == 1 then path[0] else path[0] + "." + Dotted(path[1..])
  }

  predicate DottedLeq(p: Path, q: Path) {
    TextLeq(Dotted(p), Dotted(q))
  }

  lemma DottedIsTotal()
    ensures IsTotal(DottedLeq)
  {
    TextIsTotal();
    forall p, q ensures DottedLeq(p, q) || DottedLeq(q, p) { TextTotal(Dotted(p), Dotted(q)); }
    forall p, q, r | DottedLeq(p, q) && DottedLeq(q, r) ensures DottedLeq(p, r) {
      TextTransitive(Dotted(p), Dotted(q), Dotted(r));
    }
  }

  lemma {:induction false} DottedPrefix(p: Path, q: Path)
    requires p != [] && p < q
    ensures Dotted(p) < Dotted(q)
    decreases |p|
  {
    if |p| > 1 {
      DottedPrefix(p[1..], q[1..]);
      assert Dotted(q) == q[0] + "." + Dotted(q[1..]) && p[0] == q[0];
    } else {
      assert Dotted(q) == p[0] + ("." + Dotted(q[1..]));
    }
  }

  /** In sorted order no dotted path comes before one of its proper prefixes. */
  lemma PrefixSortsFirst(p: Path, q: Path)
    requires p != [] && p < q
    ensures DottedLeq(p, q) && !DottedLeq(q, p)
  {
    DottedPrefix(p, q);
    PrefixFirst(Dotted(p), Dotted(q));
    if DottedLeq(q, p) { TextAntisymmetric(Dotted(p), Dotted(q)); }
  }

  // ----- the script -----

  function HolderLine(key: Path): Line
    requires key != []
  {
    NewHolder(Front(key), Last(key))
  }

  predicate NonEmpty(order: seq<Path>) {
    forall i | 0 <= i < |order| :: order[i] != []
  }

  predicate AllNamed(t: Tree, psets: seq<Path>) {
    forall i | 0 <= i < |psets| :: Names(t, psets[i])
  }

  predicate AllLeaves(t: Tree, p: Path, names: seq<string>) {
    forall i | 0 <= i < |names| :: HasLeaf(t, p + [names[i]])
  }

  function Skeleton(order: seq<Path>): (r: seq<Line>)
    requires NonEmpty(order)
    ensures |r| == |order|
    decreases |order|
  {
    if order == [] then [] else [HolderLine(order[0])] + Skeleton(order[1..])
  }

  /** The statements for some of the parameters of one holder. */
  function ParameterLines(t: Tree, pset: Path, names: seq<string>): seq<Line>
    requires Names(t, pset) && AllLeaves(t, pset[1..], names)
    decreases |names|
  {
    if names == [] then []
    else [SetParameter(pset, names[0], LeafAt(t, pset[1..] + [names[0]])), AppendName(pset, names[0])] +
         ParameterLines(t, pset, names[1..])
  }

  lemma ListedAreLeaves(t: Tree, p: Path)
    requires Ok(t) && p in t
    ensures AllLeaves(t, p, t[p].parameters)
  {
    var names := t[p].parameters;
    forall i | 0 <= i < |names| ensures HasLeaf(t, p + [names[i]]) {
      OneStep(p, names[i], p, names[i]);
      assert names[i] in t[p].parameters && SlotOk(t, p, names[i]);
    }
  }

  ghost function AllParameterLines(t: Tree, psets: seq<Path>): seq<Line>
    requires Ok(t) && AllNamed(t, psets)
    decreases |psets|
  {
    if psets == [] then []
    else
      var p := psets[0];
      ListedAreLeaves(t, p[1..]);
      ParameterLines(t, p, t[p[1..]].parameters) + AllParameterLines(t, psets[1..])
  }

  ghost function PsetsOf(t: Tree): set<Path> {
    set p | p in t :: [PROCESS] + p
  }

  /** `psets` lists the holders of the tree, each once, in any order. */
  ghost predicate ListsPsets(psets: seq<Path>, t: Tree) {
    NoDup(psets) && Elements(psets) == PsetsOf(t)
  }

  /** `order` lists all of them but `process`, sorted as dotted strings. */
  ghost predicate ListsSorted(order: seq<Path>, t: Tree) {
    NoDup(order) && Elements(order) == PsetsOf(t) - {[PROCESS]} && IsSorted(order, DottedLeq)
  }

  lemma PsetsNamed(t: Tree, k: Path)
    ensures k in PsetsOf(t) <==> Names(t, k)
  {
    if Names(t, k) { assert k == [PROCESS] + k[1..]; }
  }

  ghost function Script(t: Tree, order: seq<Path>, psets: seq<Path>): seq<Line>
    requires Ok(t) && NonEmpty(order) && AllNamed(t, psets)
  {
    [NewProcess] + Skeleton(order) + AllParameterLines(t, psets)
  }

  // ----- the first part: the holders -----

  /** The holders `done` of the tree, without parameters. */
  ghost function Bare(t: Tree, done: set<Path>): Tree
    requires done <= t.Keys
  {
    map p | p in done :: BareHolder(t, done, p)
  }

  ghost function BareHolder(t: Tree, done: set<Path>, p: Path): PSet
    requires p in t
  {
    PSet(t[p].name, [], map c | c in t[p].slots && p + [c] in done :: Holder)
  }

  lemma BareStep(t: Tree, done: set<Path>, p: Path, c: string)
    requires Ok(t) && done <= t.Keys && p in done && p + [c] in t && p + [c] !in done
    requires forall q | q in done :: !(p + [c] <= q)
    ensures SetHolder(Bare(t, done), p, c) == Bare(t, done + {p + [c]})
  {
    var t1, t2 := SetHolder(Bare(t, done), p, c), Bare(t, done + {p + [c]});
    OneStep(p, c, p, c);
    assert IsChild(t, p + [c]);
    assert Without(Bare(t, done), p + [c]) == Bare(t, done);
    forall q | q in done + {p + [c]} ensures t1[q] == t2[q] {
      BareStepAt(t, done, p, c, q);
    }
  }

  lemma BareStepAt(t: Tree, done: set<Path>, p: Path, c: string, q: Path)
    requires Ok(t) && p in t && c in t[p].slots && q in done + {p + [c]} && q in t
    requires forall r | r in done :: !(p + [c] <= r)
    ensures BareHolder(t, done + {p + [c]}, q).slots ==
            if q == p + [c] then map[]
            else if q == p then BareHolder(t, done, q).slots[c := Holder]
            else BareHolder(t, done, q).slots
  {
    forall d ensures q + [d] == p + [c] <==> q == p && d == c { OneStep(q, d, p, c); }
    if q == p + [c] {
      forall d ensures !(q + [d] in done + {q}) {
        assert q <= q + [d] && |q + [d]| > |q|;
      }
    }
  }

  /** The holders made by the first `i` statements, with `process`. */
  ghost function Done(order: seq<Path>, i: nat): set<Path>
    requires i <= |order| && NonEmpty(order)
  {
    {[]} + set j | 0 <= j < i :: order[j][1..]
  }

  lemma KeyNamed(t: Tree, order: seq<Path>, j: nat)
    requires ListsSorted(order, t) && j < |order|
    ensures |order[j]| > 1 && order[j] == [PROCESS] + order[j][1..] && order[j][1..] in t
  {
    assert order[j] in Elements(order);
    PsetsNamed(t, order[j]);
    assert order[j] == [PROCESS] + order[j][1..] && order[j] != [PROCESS];
  }

  /** The holder in which the next statement sets an attribute was made before. */
  lemma ParentDone(t: Tree, order: seq<Path>, i: nat)
    requires Ok(t) && ListsSorted(order, t) && NonEmpty(order) && i < |order|
    ensures |order[i]| > 1 && Front(order[i][1..]) in Done(order, i)
  {
    KeyNamed(t, order, i);
    var k, p := order[i], order[i][1..];
    assert IsChild(t, p);
    if Front(p) != [] {
      var parent := [PROCESS] + Front(p);
      assert parent in Elements(order) && parent < k;
      var j :| 0 <= j < |order| && order[j] == parent;
      PrefixSortsFirst(parent, k);
      assert j < i && order[j][1..] == Front(p);
    }
  }

  /** The holder that the next statement makes was not made before, nor anything below it. */
  lemma NothingMade(t: Tree, order: seq<Path>, i: nat, q: Path)
    requires Ok(t) && ListsSorted(order, t) && NonEmpty(order) && i < |order| && q in Done(order, i)
    ensures !(order[i][1..] <= q) && q in t
  {
    KeyNamed(t, order, i);
    if q != [] {
      var j :| 0 <= j < i && order[j][1..] == q;
      KeyNamed(t, order, j);
      assert order[j] != order[i] && DottedLeq(order[j], order[i]);
      if order[i] < order[j] {
        PrefixSortsFirst(order[i], order[j]);
      }
    }
  }

  /** Running the sorted `setattr` calls never names a holder that is not there yet, and
      never replaces one that is: after `i` of them, the holders named so far exist, bare. */
  lemma {:induction false} SkeletonBuilds(t: Tree, order: seq<Path>, i: nat)
    requires Ok(t) && ListsSorted(order, t) && NonEmpty(order) && i <= |order|
    ensures Done(order, i) <= t.Keys
    ensures RunLines(map[], [NewProcess] + Skeleton(order[..i])) == Some(Bare(t, Done(order, i)))
    ensures i < |order| ==>
              var k := order[i]; Names(Bare(t, Done(order, i)), Front(k)) && !Names(Bare(t, Done(order, i)), k)
    decreases i
  {
    if i == 0 {
      assert order[..0] == [];
      BareRoot(t);
      assert Done(order, 0) == {[]};
      assert [NewProcess] + [] == [NewProcess];
      RunSingle(map[], NewProcess);
    } else {
      SkeletonBuilds(t, order, i - 1);
      HolderLineBuilds(t, order, i - 1);
      RunOneMore(order, i - 1, Bare(t, Done(order, i - 1)));
    }
    if i < |order| {
      HolderLineBuilds(t, order, i);
    }
  }

  lemma BareRoot(t: Tree)
    requires Ok(t)
    ensures Bare(t, {[]}) == EMPTY
  {
    forall c: string ensures [] + [c] != [] { assert |[] + [c]| == 1; }
    assert BareHolder(t, {[]}, []).slots.Keys == {};
  }

  lemma RunOneMore(order: seq<Path>, i: nat, u: Tree)
    requires NonEmpty(order) && i < |order|
    requires RunLines(map[], [NewProcess] + Skeleton(order[..i])) == Some(u)
    ensures RunLines(map[], [NewProcess] + Skeleton(order[..i + 1])) == RunLine(u, HolderLine(order[i]))
  {
    SkeletonSnoc(order[..i], order[i]);
    assert order[..i + 1] == order[..i] + [order[i]];
    var before := [NewProcess] + Skeleton(order[..i]);
    assert [NewProcess] + Skeleton(order[..i + 1]) == before + [HolderLine(order[i])];
    RunConcat(map[], before, [HolderLine(order[i])]);
    RunSingle(u, HolderLine(order[i]));
  }

  lemma BareLine(t: Tree, done: set<Path>, k: Path)
    requires Ok(t) && done <= t.Keys && |k| > 1 && k[0] == PROCESS && k[1..] in t && Front(k[1..]) in done
    requires forall q | q in done :: !(k[1..] <= q)
    ensures RunLine(Bare(t, done), HolderLine(k)) == Some(Bare(t, done + {k[1..]}))
    ensures Names(Bare(t, done), Front(k)) && !Names(Bare(t, done), k)
  {
    var p := k[1..];
    assert p == Front(p) + [Last(p)] && Front(k)[1..] == Front(p) && Front(k)[0] == PROCESS;
    BareStep(t, done, Front(p), Last(p));
  }

  lemma HolderLineBuilds(t: Tree, order: seq<Path>, i: nat)
    requires Ok(t) && ListsSorted(order, t) && NonEmpty(order) && i < |order|
    requires Done(order, i) <= t.Keys
    ensures Done(order, i + 1) <= t.Keys
    ensures var k, now := order[i], Bare(t, Done(order, i));
            && RunLine(now, HolderLine(k)) == Some(Bare(t, Done(order, i + 1)))
            && Names(now, Front(k)) && !Names(now, k)
  {
    KeyNamed(t, order, i);
    ParentDone(t, order, i);
    forall q | q in Done(order, i) ensures !(order[i][1..] <= q) { NothingMade(t, order, i, q); }
    BareLine(t, Done(order, i), order[i]);
    DoneStep(order, i);
  }

  lemma DoneStep(order: seq<Path>, i: nat)
    requires NonEmpty(order) && i < |order|
    ensures Done(order, i + 1) == Done(order, i) + {order[i][1..]}
  {
  }

  lemma RunSingle(t: Tree, line: Line)
    ensures RunLines(t, [line]) == RunLine(t, line)
  {
    assert [line][1..] == [];
  }

  lemma {:induction false} SkeletonSnoc(order: seq<Path>, k: Path)
    requires k != [] && NonEmpty(order)
    ensures Skeleton(order + [k]) == Skeleton(order) + [HolderLine(k)]
    decreases |order|
  {
    if order == [] {
      assert order + [k] == [k] && [k][1..] == [];
      assert Skeleton([k]) == [HolderLine(k)] + Skeleton([]);
    } else {
      SkeletonSnoc(order[1..], k);
      assert (order + [k])[1..] == order[1..] + [k];
    }
  }

  // ----- the second part: the parameters -----

  /** A holder with its first `j` parameters. */
  ghost function Half(t: Tree, p: Path, j: nat): PSet
    requires p in t && j <= |t[p].parameters|
  {
    PSet(t[p].name, t[p].parameters[..j],
         map c | c in t[p].slots && (t[p].slots[c].Holder? || c in t[p].parameters[..j]) :: t[p].slots[c])
  }

  lemma HalfEnds(t: Tree, p: Path)
    requires Ok(t) && p in t
    ensures Half(t, p, 0) == BareHolder(t, t.Keys, p)
    ensures Half(t, p, |t[p].parameters|) == t[p]
  {
    forall c | c in t[p].slots ensures SlotOk(t, p, c) { }
    assert t[p].parameters[..|t[p].parameters|] == t[p].parameters;
    assert Half(t, p, 0).slots == BareHolder(t, t.Keys, p).slots;
    assert Half(t, p, |t[p].parameters|).slots == t[p].slots;
  }

  lemma {:induction false} FillHolder(t: Tree, u: Tree, pset: Path, j: nat)
    requires Ok(t) && Names(t, pset) && u.Keys == t.Keys && j <= |t[pset[1..]].parameters|
    requires AllLeaves(t, pset[1..], t[pset[1..]].parameters)
    ensures var p := pset[1..];
            RunLines(u[p := Half(t, p, j)], ParameterLines(t, pset, t[p].parameters[j..])) == Some(u[p := t[p]])
    decreases |t[pset[1..]].parameters| - j
  {
    var p := pset[1..];
    var names := t[p].parameters;
    if j == |names| {
      HalfEnds(t, p);
    } else {
      var c := names[j];
      var lines := ParameterLines(t, pset, names[j..]);
      var u0 := u[p := Half(t, p, j)];
      assert names[j..][0] == c && names[j..][1..] == names[j + 1..];
      TwoLines(t, u, pset, j);
      var u1 := RunLine(u0, lines[0]).value;
      assert RunLine(u1, lines[1]) == Some(u[p := Half(t, p, j + 1)]);
      assert lines[1..][1..] == ParameterLines(t, pset, names[j + 1..]);
      FillHolder(t, u, pset, j + 1);
    }
  }

  lemma TwoLines(t: Tree, u: Tree, pset: Path, j: nat)
    requires Ok(t) && Names(t, pset) && u.Keys == t.Keys && j < |t[pset[1..]].parameters|
    requires AllLeaves(t, pset[1..], t[pset[1..]].parameters)
    ensures var p := pset[1..];
            var c := t[p].parameters[j];
            var first := RunLine(u[p := Half(t, p, j)], SetParameter(pset, c, LeafAt(t, p + [c])));
            first.Some? && RunLine(first.value, AppendName(pset, c)) == Some(u[p := Half(t, p, j + 1)])
  {
    var p := pset[1..];
    var c := t[p].parameters[j];
    var u0 := u[p := Half(t, p, j)];
    OneStep(p, c, p, c);
    assert HasLeaf(t, p + [c]) && SlotOk(t, p, c);
    forall q | q in t ensures !(p + [c] <= q) {
      if p + [c] <= q { NothingBelow(t, p + [c], q); }
    }
    assert Without(u0, p + [c]) == u0;
    HalfStep(t, p, j);
    var half := Half(t, p, j);
    var u1 := u0[p := half.(slots := half.slots[c := Value(LeafAt(t, p + [c]))])];
    assert u1[p := u1[p].(parameters := half.parameters + [c])] == u[p := Half(t, p, j + 1)];
  }

  lemma HalfStep(t: Tree, p: Path, j: nat)
    requires Ok(t) && p in t && j < |t[p].parameters| && HasLeaf(t, p + [t[p].parameters[j]])
    ensures var c := t[p].parameters[j];
            Half(t, p, j + 1) == PSet(t[p].name, Half(t, p, j).parameters + [c],
                                      Half(t, p, j).slots[c := Value(LeafAt(t, p + [c]))])
  {
    var c := t[p].parameters[j];
    OneStep(p, c, p, c);
    assert t[p].parameters[..j + 1] == t[p].parameters[..j] + [c];
    assert Half(t, p, j + 1).slots == Half(t, p, j).slots[c := Value(LeafAt(t, p + [c]))];
  }

  /** Filling the remaining holders one after the other. */
  lemma {:induction false} FillAll(t: Tree, u: Tree, psets: seq<Path>)
    requires Ok(t) && NoDup(psets) && AllNamed(t, psets) && u.Keys == t.Keys
    requires forall p | p in t :: u[p] == if [PROCESS] + p in psets then BareHolder(t, t.Keys, p) else t[p]
    ensures RunLines(u, AllParameterLines(t, psets)) == Some(t)
    decreases |psets|
  {
    if psets == [] {
      assert u == t;
    } else {
      var pset := psets[0];
      assert pset in psets;
      var p := pset[1..];
      assert pset == [PROCESS] + p;
      ListedAreLeaves(t, p);
      HalfEnds(t, p);
      assert u[p := Half(t, p, 0)] == u;
      assert t[p].parameters[0..] == t[p].parameters;
      FillHolder(t, u, pset, 0);
      forall q | q in t
        ensures u[p := t[p]][q] == if [PROCESS] + q in psets[1..] then BareHolder(t, t.Keys, q) else t[q]
      {
        assert [PROCESS] + q == pset <==> q == p by { assert ([PROCESS] + q)[1..] == q; }
        assert psets == [pset] + psets[1..];
      }
      FillAll(t, u[p := t[p]], psets[1..]);
      RunConcat(u, ParameterLines(t, pset, t[p].parameters), AllParameterLines(t, psets[1..]));
    }
  }

  /** Running the script builds the same tree: every holder with its name, its parameters
      in order and its values. */
  lemma ScriptRebuilds(t: Tree, order: seq<Path>, psets: seq<Path>)
    requires Ok(t) && ListsSorted(order, t) && ListsPsets(psets, t)
    requires NonEmpty(order) && AllNamed(t, psets)
    ensures RunLines(map[], Script(t, order, psets)) == Some(t)
  {
    SkeletonBuilds(t, order, |order|);
    assert order[..|order|] == order;
    AllDone(t, order);
    forall p | p in t ensures Bare(t, t.Keys)[p] == if [PROCESS] + p in psets then BareHolder(t, t.Keys, p) else t[p] {
      assert [PROCESS] + p in Elements(psets);
    }
    FillAll(t, Bare(t, t.Keys), psets);
    RunConcat(map[], [NewProcess] + Skeleton(order), AllParameterLines(t, psets));
  }

  lemma AllDone(t: Tree, order: seq<Path>)
    requires Ok(t) && ListsSorted(order, t) && NonEmpty(order)
    ensures Done(order, |order|) == t.Keys
  {
    forall p ensures p in Done(order, |order|) <==> p in t {
      if p in t && p != [] {
        var k := [PROCESS] + p;
        assert k in Elements(order) && k[1..] == p;
        var j :| 0 <= j < |order| && order[j] == k;
      }
      if p in Done(order, |order|) && p != [] {
        var j :| 0 <= j < |order| && order[j][1..] == p;
        KeyNamed(t, order, j);
      }
    }
  }
}
