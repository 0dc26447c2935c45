/** `PSetTweak` itself, and `makeTweakFromJSON`. */
module PSetTweaks {
  import opened Common
  import opened PSetTree
  import opened PSetJson
  import opened PSetScript
  import opened PSetHolders
  import opened PSetVisitors
  import opened Sorting

  class PSetTweak {
    const process: PSetHolder

    constructor ()
      ensures fresh(process) && Holds(map[[] := process], EMPTY)
    {
      process := new PSetHolder(PROCESS);
    }

    /** `nodes` are the objects of this tweak, and hold the tree `t`. */
    ghost predicate Has(nodes: Nodes, t: Tree)
      reads nodes.Values
    {
      [] in nodes && nodes[[]] == process && Holds(nodes, t)
    }

    /** `addParameter`; it raises when it meets something that takes no attributes. */
    method AddParameter(name: Path, v: Json, ghost nodes: Nodes, ghost t: Tree)
      returns (ok: bool, ghost nodes': Nodes)
      requires Has(nodes, t) && forall c | c in name :: c != PARAMETERS && c != PSET_NAME
      modifies nodes.Values
      ensures forall o | o in nodes'.Values && o !in nodes.Values :: fresh(o)
      ensures ok == Add(t, name, v).Some?
      ensures ok ==> Has(nodes', Add(t, name, v).value)
    {
      var currentPSet: PSetHolder? := null;
      ghost var t', place := t, Off;
      nodes', ok := nodes, true;
      var i := 0;
      while i < |name| && ok
        invariant 0 <= i <= |name| && Has(nodes', t') && nodes'.Keys == t'.Keys && Stands(currentPSet, place, nodes')
        invariant forall o | o in nodes'.Values && o !in nodes.Values :: fresh(o)
        invariant Add(t, name, v) == if ok then Walk(t', place, name[i..], v) else None
      {
        assert name[i..][1..] == name[i + 1..];
        ok, currentPSet, nodes', t', place := Advance(process, currentPSet, name[i..], v, place, nodes', t');
        i := i + 1;
      }
    }

    /** `getattr(value, c)`; plain values have no attributes. */
    method GetAttr(value: Attr, c: string, ghost p: Path, ghost nodes: Nodes, ghost t: Tree)
      returns (found: Option<Attr>)
      requires Has(nodes, t) && Ok(t)
      requires if value.Child? then p in nodes && nodes[p] == value.pset else p !in t
      ensures match found
              case Some(Child(pset)) => p + [c] in nodes && nodes[p + [c]] == pset
              case Some(Plain(v)) => p + [c] !in t && FoundAt(t, p + [c], v)
              case None => value.Plain? || (p in t && c !in t[p].slots && c != PARAMETERS && c != PSET_NAME)
    {
      HolderSlot(t, p, c);
      assert Front(p + [c]) == p && Last(p + [c]) == c;
      match value
      case Plain(_) => found := None;
      case Child(pset) => {
        if c == PARAMETERS || c == PSET_NAME {
          found := Some(Plain(if c == PARAMETERS then Texts(pset.parameters_) else Text(pset.psetName_)));
        } else if c !in pset.attrs {
          found := None;
        } else {
          assert LinkedAt(nodes, StatesOf(nodes), p, c);
          found := Some(pset.attrs[c]);
        }
      }
    }

    /** `getParameter`: what is found under the name, or an exception. */
    method GetParameter(name: Path, ghost nodes: Nodes, ghost t: Tree) returns (found: Option<Attr>)
      requires Has(nodes, t) && Ok(t) && name != []
      ensures found.Some? ==> name[0] == PROCESS
      ensures found.Some? && found.value.Plain? ==> FoundAt(t, name[1..], found.value.v)
      ensures found.Some? && found.value.Child? ==> name[1..] in nodes && nodes[name[1..]] == found.value.pset
      ensures found.None? && name[0] == PROCESS ==> name[1..] !in t && forall v :: !FoundAt(t, name[1..], v)
    {
      if name[0] != PROCESS {
        return None;
      }
      var current := Child(process);
      var i := 1;
      assert name[1..1] == [];
      while i < |name|
        invariant 1 <= i <= |name|
        invariant if current.Child? then name[1..i] in nodes && nodes[name[1..i]] == current.pset
                  else name[1..i] !in t && FoundAt(t, name[1..i], current.v)
      {
        assert name[1..i + 1] == name[1..i] + [name[i]];
        var next := GetAttr(current, name[i], name[1..i], nodes, t);
        if next.None? {
          NothingBeyond(t, name[1..i], name[i], name[1..]);
          return None;
        }
        current := next.value;
        i := i + 1;
      }
      assert name[1..i] == name[1..];
      found := Some(current);
    }

    /** A lister's account of the tweak. */
    method List(ghost nodes: Nodes, ghost t: Tree) returns (psets: seq<Path>, parameters: map<Path, seq<Path>>)
      requires Has(nodes, t) && Ok(t)
      ensures ListsPsets(psets, t) && AllNamed(t, psets)
      ensures forall i | 0 <= i < |psets| :: psets[i] in parameters
                && parameters[psets[i]] == ChildParameters(psets[i], t[psets[i][1..]].parameters)
    {
      var lister := new PSetLister();
      ghost var all := lister.Call(process, [], nodes, StatesOf(nodes), t);
      BelowRoot(t);
      PsetsAreNamed(t, all);
      psets, parameters := lister.psets, lister.parameters;
      assert psets == all;
      forall i | 0 <= i < |psets| ensures psets[i] in Elements(all) { }
    }

    /** Iterating over a tweak: the parameters of its holders, one holder after the other. */
    method Iterate(ghost nodes: Nodes, ghost t: Tree) returns (pairs: seq<Write>, psets: seq<Path>)
      requires Has(nodes, t) && Ok(t)
      ensures ListsPsets(psets, t) && AllNamed(t, psets) && pairs == PairsOf(t, psets)
    {
      var parameters;
      psets, parameters := List(nodes, t);
      pairs := [];
      var i := 0;
      while i < |psets|
        invariant 0 <= i <= |psets|
        invariant pairs + PairsOf(t, psets[i..]) == PairsOf(t, psets)
      {
        var some := IteratePset(psets[i], parameters[psets[i]], nodes, t);
        NextPset(t, psets, i, pairs);
        pairs := pairs + some;
        i := i + 1;
      }
    }

    method IteratePset(pset: Path, names: seq<Path>, ghost nodes: Nodes, ghost t: Tree) returns (pairs: seq<Write>)
      requires Has(nodes, t) && Ok(t) && Names(t, pset) && names == ChildParameters(pset, t[pset[1..]].parameters)
      ensures AllLeaves(t, pset[1..], t[pset[1..]].parameters) && pairs == PsetPairs(t, pset, t[pset[1..]].parameters)
    {
      ghost var p := pset[1..];
      ghost var params := t[p].parameters;
      ListedAreLeaves(t, p);
      pairs := [];
      var i := 0;
      while i < |names|
        invariant 0 <= i <= |names|
        invariant pairs + PsetPairs(t, pset, params[i..]) == PsetPairs(t, pset, params)
      {
        assert names[i] == pset + [params[i]] && names[i][1..] == p + [params[i]];
        LeafIsFound(t, names[i][1..], LeafAt(t, names[i][1..]));
        var value := GetParameter(names[i], nodes, t);
        if value.value.Plain? { LeafIsFound(t, names[i][1..], value.value.v); }
        NextPair(t, pset, params, i, pairs);
        pairs := pairs + [Write(names[i], value.value.v)];
        i := i + 1;
      }
    }

    /** `pythonise`: running the script builds a copy of the tree. */
    method Pythonise(ghost nodes: Nodes, ghost t: Tree) returns (script: seq<Line>)
      requires Has(nodes, t) && Ok(t)
      ensures RunLines(map[], script) == Some(t)
    {
      var all, _ := List(nodes, t);
      var order, calls := SkeletonCalls(all, t);
      var skeleton := SkeletonScript(order, calls);
      var pairs, psets := Iterate(nodes, t);
      PairLinesAre(t, psets);
      var lines := ParameterScript(pairs);
      script := [NewProcess] + skeleton + lines;
      ScriptRebuilds(t, order, psets);
    }

    /** `jsondictionary` */
    method JsonDictionary(ghost nodes: Nodes, ghost t: Tree) returns (json: map<string, Json>)
      requires Has(nodes, t) && Ok(t)
      ensures Dict(json) == PSetJson.JsonDictionary(t)
    {
      var jsoniser := new JSONiser();
      json := jsoniser.Call(process, jsoniser.json, [], nodes, t);
    }
  }

  lemma PsetsAreNamed(t: Tree, psets: seq<Path>)
    requires Elements(psets) == PsetsOf(t)
    ensures AllNamed(t, psets)
  {
    forall i | 0 <= i < |psets| ensures Names(t, psets[i]) {
      assert psets[i] in Elements(psets);
      PsetsNamed(t, psets[i]);
    }
  }

  lemma NextPset(t: Tree, psets: seq<Path>, i: nat, pairs: seq<Write>)
    requires Ok(t) && AllNamed(t, psets) && i < |psets|
    ensures AllLeaves(t, psets[i][1..], t[psets[i][1..]].parameters)
    ensures pairs + PairsOf(t, psets[i..]) ==
            pairs + PsetPairs(t, psets[i], t[psets[i][1..]].parameters) + PairsOf(t, psets[i + 1..])
  {
    ListedAreLeaves(t, psets[i][1..]);
    assert psets[i..][0] == psets[i] && psets[i..][1..] == psets[i + 1..];
  }

  /** What `getattr` finds besides holders: a parameter, or what each holder keeps for itself. */
  predicate FoundAt(t: Tree, q: Path, v: Json) {
    q != [] && Front(q) in t
    && if Last(q) == PARAMETERS then v == Texts(t[Front(q)].parameters)
       else if Last(q) == PSET_NAME then v == Text(t[Front(q)].name)
       else HasLeaf(t, q) && v == LeafAt(t, q)
  }

  lemma HolderSlot(t: Tree, p: Path, c: string)
    requires Ok(t)
    ensures p + [c] in t ==> p in t && c in t[p].slots && Proper(c)
  {
    assert Front(p + [c]) == p && Last(p + [c]) == c;
    if p + [c] in t {
      assert IsChild(t, p + [c]) && SlotOk(t, p, c);
    }
  }

  lemma LeafIsFound(t: Tree, q: Path, v: Json)
    requires Ok(t) && HasLeaf(t, q)
    ensures q !in t && (FoundAt(t, q, v) <==> v == LeafAt(t, q))
  {
    assert q == Front(q) + [Last(q)];
    assert SlotOk(t, Front(q), Last(q));
  }

  lemma NothingBeyond(t: Tree, p: Path, c: string, name: Path)
    requires Ok(t) && p + [c] <= name
    requires p !in t || (c !in t[p].slots && c != PARAMETERS && c != PSET_NAME)
    ensures name !in t && forall v :: !FoundAt(t, name, v)
  {
    assert name == p + name[|p|..] && name[|p|..][0] == c;
    HolderSlot(t, p, c);
    NothingBelow(t, p + [c], name);
    if p + [c] <= Front(name) {
      NothingBelow(t, p + [c], Front(name));
    } else {
      assert Front(name) == p && Last(name) == c;
    }
  }

  // ----- iteration -----

  ghost function PsetPairs(t: Tree, pset: Path, names: seq<string>): seq<Write>
    requires Names(t, pset) && AllLeaves(t, pset[1..], names)
    decreases |names|
  {
    if names == [] then []
    else [Write(pset + [names[0]], LeafAt(t, pset[1..] + [names[0]]))] + PsetPairs(t, pset, names[1..])
  }

  ghost function PairsOf(t: Tree, psets: seq<Path>): seq<Write>
    requires Ok(t) && AllNamed(t, psets)
    decreases |psets|
  {
    if psets == [] then []
    else
      ListedAreLeaves(t, psets[0][1..]);
      PsetPairs(t, psets[0], t[psets[0][1..]].parameters) + PairsOf(t, psets[1..])
  }

  lemma NextPair(t: Tree, pset: Path, params: seq<string>, i: nat, pairs: seq<Write>)
    requires Names(t, pset) && i < |params| && AllLeaves(t, pset[1..], params)
    requires pairs + PsetPairs(t, pset, params[i..]) == PsetPairs(t, pset, params)
    ensures pairs + [Write(pset + [params[i]], LeafAt(t, pset[1..] + [params[i]]))] +
            PsetPairs(t, pset, params[i + 1..]) ==
            PsetPairs(t, pset, params)
  {
    var first := [Write(pset + [params[i]], LeafAt(t, pset[1..] + [params[i]]))];
    assert params[i..][0] == params[i] && params[i..][1..] == params[i + 1..];
    assert pairs + (first + PsetPairs(t, pset, params[i + 1..])) ==
           (pairs + first) + PsetPairs(t, pset, params[i + 1..]);
  }

  lemma {:induction false} PsetPairsAre(t: Tree, pset: Path, names: seq<string>, w: Write)
    requires Names(t, pset) && AllLeaves(t, pset[1..], names)
    ensures w in PsetPairs(t, pset, names) <==>
            exists c | c in names :: w == Write(pset + [c], LeafAt(t, pset[1..] + [c]))
    decreases |names|
  {
    if names != [] {
      PsetPairsAre(t, pset, names[1..], w);
      assert forall c :: c in names <==> c == names[0] || c in names[1..];
    }
  }

  lemma {:induction false} PairsAre(t: Tree, psets: seq<Path>, w: Write)
    requires Ok(t) && AllNamed(t, psets)
    ensures w in PairsOf(t, psets) <==> IsPair(t, psets, w)
    decreases |psets|
  {
    if psets != [] {
      var k := psets[0];
      ListedAreLeaves(t, k[1..]);
      PairsAre(t, psets[1..], w);
      FirstPairs(t, k, w);
      assert forall p :: p in psets <==> p == k || p in psets[1..];
    }
  }

  ghost predicate IsPair(t: Tree, psets: seq<Path>, w: Write) {
    w.name != [] && Front(w.name) in psets && HasLeaf(t, w.name[1..]) && w.value == LeafAt(t, w.name[1..])
  }

  lemma FirstPairs(t: Tree, k: Path, w: Write)
    requires Ok(t) && Names(t, k) && AllLeaves(t, k[1..], t[k[1..]].parameters)
    ensures w in PsetPairs(t, k, t[k[1..]].parameters) <==> IsPair(t, [k], w)
  {
    var names := t[k[1..]].parameters;
    PsetPairsAre(t, k, names, w);
    if c :| c in names && w == Write(k + [c], LeafAt(t, k[1..] + [c])) {
      assert Front(w.name) == k && w.name[1..] == k[1..] + [c];
      var i :| 0 <= i < |names| && names[i] == c;
      assert HasLeaf(t, k[1..] + [names[i]]);
    }
    if IsPair(t, [k], w) {
      LastListed(t, k, w.name);
    }
  }

  lemma LastListed(t: Tree, k: Path, name: Path)
    requires Ok(t) && Names(t, k) && name != [] && Front(name) == k && HasLeaf(t, name[1..])
    ensures Last(name) in t[k[1..]].parameters && name == k + [Last(name)] && name[1..] == k[1..] + [Last(name)]
  {
    var c := Last(name);
    assert name == k + [c] && name[1..] == k[1..] + [c];
    OneStep(k[1..], c, k[1..], c);
    assert SlotOk(t, k[1..], c);
  }

  /** Iterating gives every parameter of the tweak with its value, and nothing else. */
  lemma IterationIsLeaves(t: Tree, psets: seq<Path>, w: Write)
    requires Ok(t) && AllNamed(t, psets) && ListsPsets(psets, t)
    ensures w in PairsOf(t, psets) <==>
            && w.name != [] && w.name[0] == PROCESS
            && w.name[1..] in Leaves(t) && w.value == Leaves(t)[w.name[1..]]
  {
    PairsAre(t, psets, w);
    if w.name != [] {
      LeavesAre(t, w.name[1..]);
      PsetsNamed(t, Front(w.name));
      assert Front(w.name) in psets <==> Front(w.name) in Elements(psets);
      if HasLeaf(t, w.name[1..]) {
        assert Front(w.name)[1..] == Front(w.name[1..]);
      }
    }
  }

  // ----- the script -----

  predicate HaveNames(pairs: seq<Write>) {
    forall i | 0 <= i < |pairs| :: pairs[i].name != []
  }

  function PairLines(pairs: seq<Write>): seq<Line>
    requires HaveNames(pairs)
    decreases |pairs|
  {
    if pairs == [] then []
    else
      var w := pairs[0];
      [SetParameter(Front(w.name), Last(w.name), w.value), AppendName(Front(w.name), Last(w.name))] +
        PairLines(pairs[1..])
  }

  lemma {:induction false} PairLinesConcat(a: seq<Write>, b: seq<Write>)
    requires HaveNames(a) && HaveNames(b)
    ensures PairLines(a + b) == PairLines(a) + PairLines(b)
    decreases |a|
  {
    if a == [] {
      assert a + b == b;
    } else {
      assert (a + b)[1..] == a[1..] + b;
      PairLinesConcat(a[1..], b);
    }
  }

  lemma {:induction false} PsetPairLines(t: Tree, pset: Path, names: seq<string>)
    requires Names(t, pset) && AllLeaves(t, pset[1..], names)
    ensures HaveNames(PsetPairs(t, pset, names))
    ensures PairLines(PsetPairs(t, pset, names)) == ParameterLines(t, pset, names)
    decreases |names|
  {
    if names != [] {
      PsetPairLines(t, pset, names[1..]);
      var pairs := PsetPairs(t, pset, names);
      assert pairs[1..] == PsetPairs(t, pset, names[1..]);
      assert Front(pairs[0].name) == pset && Last(pairs[0].name) == names[0];
      forall i | 0 <= i < |pairs| ensures pairs[i].name != [] {
        assert i > 0 ==> pairs[i] == pairs[1..][i - 1];
      }
    }
  }

  lemma {:induction false} PairLinesAre(t: Tree, psets: seq<Path>)
    requires Ok(t) && AllNamed(t, psets)
    ensures HaveNames(PairsOf(t, psets))
    ensures PairLines(PairsOf(t, psets)) == AllParameterLines(t, psets)
    decreases |psets|
  {
    if psets != [] {
      var k := psets[0];
      ListedAreLeaves(t, k[1..]);
      PsetPairLines(t, k, t[k[1..]].parameters);
      PairLinesAre(t, psets[1..]);
      PairLinesConcat(PsetPairs(t, k, t[k[1..]].parameters), PairsOf(t, psets[1..]));
    }
  }

  /** The second loop of `pythonise`. */
  method ParameterScript(pairs: seq<Write>) returns (lines: seq<Line>)
    requires HaveNames(pairs)
    ensures lines == PairLines(pairs)
  {
    lines := [];
    var i := 0;
    while i < |pairs|
      invariant 0 <= i <= |pairs| && lines + PairLines(pairs[i..]) == PairLines(pairs)
    {
      var psetName, paramName := Front(pairs[i].name), Last(pairs[i].name);
      assert pairs[i..][0] == pairs[i] && pairs[i..][1..] == pairs[i + 1..];
      var two := [SetParameter(psetName, paramName, pairs[i].value), AppendName(psetName, paramName)];
      assert lines + (two + PairLines(pairs[i + 1..])) == (lines + two) + PairLines(pairs[i + 1..]);
      lines := lines + two;
      i := i + 1;
    }
  }

  /** Each key has its call, and `process` is none of them. */
  predicate Called(order: seq<Path>, calls: map<Path, Line>)
    requires NonEmpty(order)
  {
    forall i | 0 <= i < |order| :: order[i] in calls && calls[order[i]] == HolderLine(order[i]) && order[i] != [PROCESS]
  }

  /** The calls for the holders, in order. */
  method SkeletonScript(order: seq<Path>, calls: map<Path, Line>) returns (lines: seq<Line>)
    requires NonEmpty(order) && Called(order, calls)
    ensures lines == Skeleton(order)
  {
    lines := [];
    var i := 0;
    while i < |order|
      invariant 0 <= i <= |order| && lines == Skeleton(order[..i])
    {
      SkeletonSnoc(order[..i], order[i]);
      assert order[..i + 1] == order[..i] + [order[i]];
      if order[i] != [PROCESS] {
        lines := lines + [calls[order[i]]];
      }
      i := i + 1;
    }
    assert order[..i] == order;
  }

  /** A path with at least two components that leads to `p`. */
  predicate KeyOf(k: Path, p: Path) {
    |k| >= 2 && k <= p
  }

  lemma KeysGrow(p: Path, c: string, k: Path)
    ensures KeyOf(k, p + [c]) <==> KeyOf(k, p) || (p != [] && k == p + [c])
  {
    if KeyOf(k, p + [c]) && |k| == |p| + 1 { assert k == p + [c]; }
  }

  /** `setattrCalls`: one call for each prefix of a path but `process`. */
  method SetattrCalls(psetPath: Path) returns (calls: map<Path, Line>)
    ensures forall k :: k in calls <==> KeyOf(k, psetPath)
    ensures forall k | k in calls :: k != [] && calls[k] == HolderLine(k)
  {
    calls := map[];
    var current: Path := [];
    var i := 0;
    while i < |psetPath|
      invariant 0 <= i <= |psetPath| && current == psetPath[..i]
      invariant forall k :: k in calls <==> KeyOf(k, current)
      invariant forall k | k in calls :: k != [] && calls[k] == HolderLine(k)
    {
      var last, pset := current, psetPath[i];
      current := current + [pset];
      assert current == psetPath[..i + 1];
      forall k ensures KeyOf(k, current) <==> KeyOf(k, last) || (last != [] && k == current) {
        KeysGrow(last, pset, k);
      }
      assert Front(current) == last && Last(current) == pset;
      if last != [] {
        calls := calls[current := NewHolder(last, pset)];
      }
      i := i + 1;
    }
    assert psetPath[..i] == psetPath;
  }

  /** The first loop of `pythonise`: the calls for all holders, and their keys sorted. */
  method SkeletonCalls(psets: seq<Path>, ghost t: Tree) returns (order: seq<Path>, calls: map<Path, Line>)
    requires Ok(t) && ListsPsets(psets, t)
    ensures NonEmpty(order) && ListsSorted(order, t) && Called(order, calls)
  {
    calls := map[];
    var i := 0;
    while i < |psets|
      invariant 0 <= i <= |psets|
      invariant forall k :: k in calls <==> exists j :: 0 <= j < i && KeyOf(k, psets[j])
      invariant forall k | k in calls :: k != [] && calls[k] == HolderLine(k)
    {
      var some := SetattrCalls(psets[i]);
      calls := calls + some;
      i := i + 1;
    }
    forall k ensures k in calls <==> k in PsetsOf(t) - {[PROCESS]} {
      KeysArePsets(t, psets, k);
    }
    assert calls.Keys == PsetsOf(t) - {[PROCESS]};
    var keys := InSomeOrder(calls.Keys);
    order := Sort(keys, DottedLeq);
    SortKeepsDistinct(keys, DottedLeq);
    DottedIsTotal();
    SortIs(keys, DottedLeq);
    forall j | 0 <= j < |order| ensures order[j] in calls && |order[j]| >= 2 {
      assert order[j] in Elements(order);
    }
  }

  lemma KeysArePsets(t: Tree, psets: seq<Path>, k: Path)
    requires Ok(t) && ListsPsets(psets, t)
    ensures (exists j :: 0 <= j < |psets| && KeyOf(k, psets[j])) <==> k in PsetsOf(t) - {[PROCESS]}
  {
    PsetsNamed(t, k);
    if j :| 0 <= j < |psets| && KeyOf(k, psets[j]) {
      assert psets[j] in Elements(psets);
      PsetsNamed(t, psets[j]);
      Ancestors(t, psets[j][1..], |k| - 1);
      assert psets[j][1..][..|k| - 1] == k[1..];
    }
    if k in PsetsOf(t) - {[PROCESS]} {
      assert k in Elements(psets);
      assert k != [PROCESS] && k == [PROCESS] + k[1..];
      var j :| 0 <= j < |psets| && psets[j] == k;
      assert KeyOf(k, psets[j]);
    }
  }

  // ----- from JSON -----

  predicate Plainly(name: Path) {
    forall c | c in name :: c != PARAMETERS && c != PSET_NAME
  }

  /** `makeTweakFromJSON`: collect the parameters and add them to a new tweak; `ws` is the
      order in which that happened. */
  method MakeTweakFromJSON(dictionary: map<string, Json>)
    returns (ok: bool, tweak: PSetTweak, ghost ws: seq<Write>, ghost nodes: Nodes)
    requires forall q | q in Collected(Dict(dictionary)) :: Plainly(q)
    ensures Raises(Dict(dictionary)) ==> !ok
    ensures !Raises(Dict(dictionary)) ==> Lists(ws, Collected(Dict(dictionary))) && ok == AddAll(ws).Some?
    ensures ok ==> AddAll(ws).Some? && tweak.Has(nodes, AddAll(ws).value)
  {
    var jsoniser := new JSONiser();
    ok := jsoniser.Dejson(dictionary);
    tweak := new PSetTweak();
    ws, nodes := [], map[[] := tweak.process];
    if ok {
      CollectedExactly(jsoniser.parameters, Dict(dictionary));
      ok, ws, nodes := AddParameters(tweak, jsoniser.parameters, nodes);
    }
  }

  lemma CollectedExactly(now: map<Path, Json>, j: Json)
    requires CollectsAll(now, map[], [], j)
    ensures now == Collected(j)
  {
    forall q ensures Entry(now, q) == Entry(Collected(j), q) {
      CollectedAre(j, q);
      assert q[0..] == q;
      assert q == [] ==> Found(j, q).None?;
    }
    forall q ensures (q in now <==> q in Collected(j)) && (q in now ==> now[q] == Collected(j)[q]) {
      assert Entry(now, q) == Entry(Collected(j), q);
    }
  }

  /** Add parameters, in some order. */
  method AddParameters(tweak: PSetTweak, parameters: map<Path, Json>, ghost start: Nodes)
    returns (ok: bool, ghost ws: seq<Write>, ghost nodes: Nodes)
    requires tweak.Has(start, EMPTY) && forall q | q in parameters :: Plainly(q)
    modifies start.Values
    ensures Lists(ws, parameters) && ok == AddAll(ws).Some?
    ensures ok ==> tweak.Has(nodes, AddAll(ws).value)
  {
    nodes, ws, ok := start, [], true;
    var todo := parameters.Keys;
    ghost var t := EMPTY;
    while todo != {}
      invariant todo <= parameters.Keys && AddAll(ws) == Some(t) && tweak.Has(nodes, t)
      invariant forall o | o in nodes.Values && o !in start.Values :: fresh(o)
      invariant Lists(ws, parameters - todo)
      decreases todo
    {
      var param :| param in todo;
      ghost var w := Write(param, parameters[param]);
      ok, nodes := tweak.AddParameter(param, parameters[param], nodes, t);
      assert (ws + [w])[..|ws|] == ws;
      assert AddAll(ws + [w]) == Add(t, param, parameters[param]);
      ListsLast(ws, parameters, todo, param);
      ws, todo := ws + [w], todo - {param};
      if !ok {
        ghost var rest := Enumerate(parameters - (parameters.Keys - todo));
        AddAllFails(ws, rest);
        ListsRest(ws, rest, parameters, todo);
        ws := ws + rest;
        return;
      }
      t := AddAll(ws).value;
    }
    assert parameters - todo == parameters;
  }

  lemma ListsLast(ws: seq<Write>, m: map<Path, Json>, todo: set<Path>, q: Path)
    requires todo <= m.Keys && Lists(ws, m - todo) && q in todo
    ensures Lists(ws + [Write(q, m[q])], m - (todo - {q}))
  {
    var all := ws + [Write(q, m[q])];
    forall r | r in m - (todo - {q}) ensures Write(r, m[r]) in all {
      if r != q { assert Write(r, (m - todo)[r]) in ws; }
    }
  }

  lemma ListsRest(ws: seq<Write>, rest: seq<Write>, m: map<Path, Json>, todo: set<Path>)
    requires todo <= m.Keys && Lists(ws, m - todo) && Lists(rest, m - (m.Keys - todo))
    ensures Lists(ws + rest, m)
  {
    var all, later := ws + rest, m - (m.Keys - todo);
    forall r | r in m ensures Write(r, m[r]) in all {
      if r in todo {
        assert Write(r, later[r]) in rest;
      } else {
        assert Write(r, (m - todo)[r]) in ws;
      }
    }
  }

  lemma {:induction false} AddAllFails(a: seq<Write>, b: seq<Write>)
    requires AddAll(a).None?
    ensures AddAll(a + b).None?
    decreases |b|
  {
    if b == [] {
      assert a + b == a;
    } else {
      AddAllFails(a, b[..|b| - 1]);
      assert (a + b)[..|a + b| - 1] == a + b[..|b| - 1];
    }
  }

  /** Save a tweak with quiet values as JSON and make a tweak of that: same parameters. */
  method SaveAndMake(tweak: PSetTweak, ghost nodes: Nodes, ghost t: Tree)
    returns (copy: PSetTweak, ghost nodes': Nodes, ghost t': Tree)
    requires tweak.Has(nodes, t) && Ok(t) && AllQuiet(t)
    ensures copy.Has(nodes', t') && Leaves(t') == Leaves(t)
  {
    var json := tweak.JsonDictionary(nodes, t);
    forall q | q in Collected(Dict(json)) ensures Plainly(q) {
      QuietCollects(t, q);
      LeavesProper(t, q[1..]);
      assert q == [PROCESS] + q[1..];
    }
    TopRaises(t);
    forall q | HasLeaf(t, q) ensures !Raises(LeafAt(t, q)) { QuietIff(LeafAt(t, q)); }
    var ok;
    ghost var ws;
    ok, copy, ws, nodes' := MakeTweakFromJSON(json);
    QuietRoundTrip(t, ws);
    t' := AddAll(ws).value;
  }
}
