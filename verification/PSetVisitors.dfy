/** The two visitors that walk the holders of a tweak: `PSetLister` and `JSONiser`. */
module PSetVisitors {
  import opened Common
  import opened PSetTree
  import opened PSetJson
  import opened PSetScript
  import opened PSetHolders

  lemma NoDupConcat<T>(a: seq<T>, b: seq<T>)
    requires NoDup(a) && NoDup(b) && Elements(a) !! Elements(b)
    ensures NoDup(a + b) && Elements(a + b) == Elements(a) + Elements(b)
  {
    forall i, j | 0 <= i < |a| && 0 <= j < |b| ensures a[i] != b[j] {
      assert a[i] in Elements(a) && b[j] in Elements(b);
    }
  }

  // ----- the lister -----

  /** The dotted paths of the holder at `p` and of those below its children `cs`. */
  ghost function PsetsBelow(t: Tree, p: Path, cs: set<string>): set<Path> {
    set q | q in t && p <= q && (q == p || q[|p|] in cs) :: [PROCESS] + q
  }

  ghost function ChildNames(t: Tree, p: Path): set<string>
    requires p in t
  {
    set c | c in t[p].slots && t[p].slots[c].Holder?
  }

  lemma BelowAre(t: Tree, p: Path, cs: set<string>, k: Path)
    ensures k in PsetsBelow(t, p, cs) <==> Names(t, k) && p <= k[1..] && (k[1..] == p || k[1..][|p|] in cs)
  {
    if Names(t, k) { assert k == [PROCESS] + k[1..]; }
    if k in PsetsBelow(t, p, cs) {
      var q :| q in t && p <= q && (q == p || q[|p|] in cs) && k == [PROCESS] + q;
      assert k[1..] == q;
    }
  }

  lemma BelowNone(t: Tree, p: Path)
    requires p in t
    ensures PsetsBelow(t, p, {}) == {[PROCESS] + p}
  {
  }

  lemma {:induction false} ChildOnPath(t: Tree, p: Path, q: Path)
    requires Ok(t) && p in t && q in t && p < q
    ensures q[|p|] in ChildNames(t, p) && p + [q[|p|]] in t && p + [q[|p|]] <= q
  {
    Ancestors(t, q, |p| + 1);
    var c := q[|p|];
    assert q[..|p| + 1] == p + [c];
    OneStep(p, c, p, c);
    assert IsChild(t, p + [c]);
  }

  lemma BelowStep(t: Tree, p: Path, cs: set<string>, c: string)
    requires Ok(t) && p in t && p + [c] in t && c !in cs
    ensures PsetsBelow(t, p, cs + {c}) == PsetsBelow(t, p, cs) + PsetsBelow(t, p + [c], ChildNames(t, p + [c]))
    ensures PsetsBelow(t, p, cs) !! PsetsBelow(t, p + [c], ChildNames(t, p + [c]))
  {
    forall k ensures k in PsetsBelow(t, p, cs + {c}) <==>
      k in PsetsBelow(t, p, cs) || k in PsetsBelow(t, p + [c], ChildNames(t, p + [c]))
             ensures !(k in PsetsBelow(t, p, cs) && k in PsetsBelow(t, p + [c], ChildNames(t, p + [c])))
    {
      BelowAre(t, p, cs + {c}, k);
      BelowAre(t, p, cs, k);
      BelowAre(t, p + [c], ChildNames(t, p + [c]), k);
      if Names(t, k) {
        var q := k[1..];
        if p + [c] < q { ChildOnPath(t, p + [c], q); }
        assert p + [c] <= q <==> p < q && q[|p|] == c;
      }
    }
  }

  lemma BelowRoot(t: Tree)
    requires Ok(t)
    ensures PsetsBelow(t, [], ChildNames(t, [])) == PsetsOf(t)
  {
    forall k ensures k in PsetsBelow(t, [], ChildNames(t, [])) <==> k in PsetsOf(t) {
      BelowAre(t, [], ChildNames(t, []), k);
      PsetsNamed(t, k);
      if Names(t, k) && k[1..] != [] { ChildOnPath(t, [], k[1..]); }
    }
  }

  /** `childParameters` */
  function ChildParameters(pset: Path, names: seq<string>): seq<Path> {
    seq(|names|, i requires 0 <= i < |names| => pset + [names[i]])
  }

  ghost predicate ListsParameters(parameters: map<Path, seq<Path>>, t: Tree, keys: set<Path>) {
    forall k | k in keys :: Names(t, k) && k in parameters && parameters[k] == ChildParameters(k, t[k[1..]].parameters)
  }

  /** What the lister has added for the holder at `p` and the children `cs`. */
  ghost predicate Listing(added: seq<Path>, now: map<Path, seq<Path>>, before: map<Path, seq<Path>>, t: Tree,
                          p: Path, cs: set<string>)
  {
    && NoDup(added) && Elements(added) == PsetsBelow(t, p, cs)
    && ListsParameters(now, t, Elements(added))
    && forall k | k in before && k !in Elements(added) :: k in now && now[k] == before[k]
  }

  lemma ListingStep(added: seq<Path>, now: map<Path, seq<Path>>, before: map<Path, seq<Path>>, t: Tree, p: Path,
                    cs: set<string>, c: string, more: seq<Path>, later: map<Path, seq<Path>>)
    requires Ok(t) && p in t && p + [c] in t && c !in cs
    requires Listing(added, now, before, t, p, cs) && Listing(more, later, now, t, p + [c], ChildNames(t, p + [c]))
    ensures Listing(added + more, later, before, t, p, cs + {c})
  {
    BelowStep(t, p, cs, c);
    NoDupConcat(added, more);
  }

  lemma ListingStart(t: Tree, p: Path, before: map<Path, seq<Path>>, pset: Path)
    requires p in t && pset == [PROCESS] + p
    ensures Listing([pset], before[pset := ChildParameters(pset, t[p].parameters)], before, t, p, {})
  {
    BelowNone(t, p);
    assert pset[1..] == p;
  }

  lemma ChildHere(nodes: Nodes, states: States, t: Tree, p: Path, c: string)
    requires Shows(nodes, states, t) && Ok(t) && p in t && c in states[p].attrs && states[p].attrs[c].Child?
    ensures p + [c] in nodes && nodes[p + [c]] == states[p].attrs[c].pset && t[p + [c]].name == c && Proper(c)
    ensures Below(t, p + [c]) < Below(t, p) && c in t[p].slots && t[p].slots[c].Holder?
  {
    assert LinkedAt(nodes, states, p, c);
    OneStep(p, c, p, c);
    assert IsChild(t, p + [c]);
    assert c in View(states[p]).slots && SlotOk(t, p, c);
    Descend(t, p, c);
  }

  function ChildKeys(attrs: map<string, Attr>): set<string> {
    set c | c in attrs && attrs[c].Child?
  }

  lemma OneDown(pset: Path, p: Path, c: string)
    requires pset == [PROCESS] + p
    ensures pset + [c] == [PROCESS] + (p + [c])
  {
  }

  lemma SameChildren(states: States, t: Tree, p: Path)
    requires ShowsTree(states, t) && p in t
    ensures ChildKeys(states[p].attrs) == ChildNames(t, p)
  {
    assert View(states[p]).slots == t[p].slots;
  }

  /** The objects hold `states`. */
  ghost predicate Reads(nodes: Nodes, states: States)
    reads nodes.Values
  {
    nodes.Keys == states.Keys && forall p | p in nodes :: nodes[p].State() == states[p]
  }

  class PSetLister {
    var queue: Path
    var psets: seq<Path>
    var parameters: map<Path, seq<Path>>

    constructor ()
      ensures queue == [] && psets == [] && parameters == map[]
    {
      queue, psets, parameters := [], [], map[];
    }

    /** Visit one child of the holder at `p`, after its children `done`. */
    method CallChild(child: PSetHolder, c: string, ghost p: Path, ghost nodes: Nodes, ghost states: States,
                     ghost t: Tree, ghost added: seq<Path>, ghost done: set<string>, ghost start: seq<Path>,
                     ghost before: map<Path, seq<Path>>)
      returns (ghost added': seq<Path>)
      requires Reads(nodes, states) && Shows(nodes, states, t) && Ok(t) && p in t && c !in done
      requires p + [c] in nodes && nodes[p + [c]] == child && t[p + [c]].name == c
      requires queue == [PROCESS] + p && psets == start + added && Listing(added, parameters, before, t, p, done)
      requires Below(t, p + [c]) < Below(t, p)
      modifies this
      ensures Reads(nodes, states) && queue == old(queue) && psets == start + added'
              && Listing(added', parameters, before, t, p, done + {c})
      decreases Below(t, p), 0
    {
      OneDown(queue, p, c);
      ghost var now := parameters;
      ghost var more := Call(child, p + [c], nodes, states, t);
      ListingStep(added, now, before, t, p, done, c, more, parameters);
      added' := added + more;
    }

    /** Note one holder and its parameters. */
    method Record(pset: PSetHolder, ghost p: Path, ghost nodes: Nodes, ghost states: States, ghost t: Tree)
      requires Reads(nodes, states) && Shows(nodes, states, t) && p in nodes && nodes[p] == pset
      requires queue + [pset.psetName_] == [PROCESS] + p
      modifies this
      ensures Reads(nodes, states) && queue == old(queue) + [pset.psetName_] && psets == old(psets) + [queue]
      ensures Listing([queue], parameters, old(parameters), t, p, {})
    {
      queue := queue + [pset.psetName_];
      psets := psets + [queue];
      parameters := parameters[queue := ChildParameters(queue, pset.parameters_)];
      ListingStart(t, p, old(parameters), queue);
    }

    /** `__call__`: append the paths of a holder and of everything below it, each once, and
        note the parameters of each. The children are visited in some order. */
    method Call(pset: PSetHolder, ghost p: Path, ghost nodes: Nodes, ghost states: States, ghost t: Tree)
      returns (ghost added: seq<Path>)
      requires Reads(nodes, states) && Shows(nodes, states, t) && Ok(t) && p in nodes && nodes[p] == pset
      requires queue + [pset.psetName_] == [PROCESS] + p
      modifies this
      ensures Reads(nodes, states) && queue == old(queue) && psets == old(psets) + added
      ensures Listing(added, parameters, old(parameters), t, p, ChildNames(t, p))
      decreases Below(t, p)
    {
      Record(pset, p, nodes, states, t);
      var psetPath := queue;
      added := [psetPath];
      var children := pset.attrs;
      var todo := ChildKeys(children);
      ghost var done := {};
      SameChildren(states, t, p);
      while todo != {}
        invariant todo !! done && todo + done == ChildNames(t, p)
        invariant queue == psetPath && psets == old(psets) + added
        invariant Reads(nodes, states) && Listing(added, parameters, old(parameters), t, p, done)
        decreases todo
      {
        var c :| c in todo;
        ChildHere(nodes, states, t, p, c);
        added := CallChild(children[c].pset, c, p, nodes, states, t, added, done, old(psets), old(parameters));
        todo, done := todo - {c}, done + {c};
      }
      queue := queue[..|queue| - 1];
    }
  }

  // ----- the JSON visitor -----

  function EntriesIn(parent: map<string, Json>, name: string): map<string, Json> {
    if name in parent && parent[name].Dict? then parent[name].entries else map[]
  }

  /** The part of a holder's dictionary with the keys `ks`. */
  ghost function SomeEntries(t: Tree, p: Path, ks: set<string>): map<string, Json>
    requires Ok(t) && p in t && ks <= t[p].slots.Keys + {PARAMETERS}
  {
    map k | k in ks :: EntryOf(t, p, k)
  }

  lemma NextParameter(t: Tree, p: Path, i: nat)
    requires Ok(t) && p in t && i < |t[p].parameters| && Elements(t[p].parameters[..i]) <= t[p].slots.Keys
    ensures var params := t[p].parameters;
            && params[i] in t[p].slots && t[p].slots[params[i]].Value?
            && Elements(params[..i + 1]) <= t[p].slots.Keys
            && SomeEntries(t, p, Elements(params[..i + 1])) ==
               SomeEntries(t, p, Elements(params[..i]))[params[i] := t[p].slots[params[i]].v]
  {
    var params := t[p].parameters;
    assert params[i] in params && SlotOk(t, p, params[i]);
    Snoc(params[..i], params[i]);
    assert params[..i + 1] == params[..i] + [params[i]];
  }

  /** `r` is `parent` with the dictionary of the holder at `p` entered under its name. */
  ghost predicate Entered(r: map<string, Json>, parent: map<string, Json>, t: Tree, p: Path)
    requires Ok(t) && p in t
  {
    r == parent[t[p].name := Dict(Entries(t, p))]
  }

  /** The dictionary of the holder at `p` is complete but for the children `todo`. */
  ghost predicate EntriesBut(d: map<string, Json>, t: Tree, p: Path, todo: set<string>)
    requires Ok(t) && p in t
  {
    todo <= ChildNames(t, p) && d == SomeEntries(t, p, t[p].slots.Keys + {PARAMETERS} - todo)
  }

  lemma EntriesButOneLess(d: map<string, Json>, r: map<string, Json>, t: Tree, p: Path, todo: set<string>, c: string)
    requires Ok(t) && p in t && EntriesBut(d, t, p, todo) && c in todo && p + [c] in t && t[p + [c]].name == c
    requires Proper(c) && Entered(r, d, t, p + [c])
    ensures EntriesBut(r, t, p, todo - {c})
  {
    var ks := t[p].slots.Keys + {PARAMETERS} - todo;
    assert t[p].slots.Keys + {PARAMETERS} - (todo - {c}) == ks + {c};
    assert r == d[c := Dict(Entries(t, p + [c]))];
    assert SomeEntries(t, p, ks + {c}) == SomeEntries(t, p, ks)[c := EntryOf(t, p, c)];
  }

  lemma EntriesButChildren(t: Tree, p: Path)
    requires Ok(t) && p in t && Elements(t[p].parameters) <= t[p].slots.Keys
    ensures EntriesBut(SomeEntries(t, p, Elements(t[p].parameters) + {PARAMETERS}), t, p, ChildNames(t, p))
  {
    AllKeys(t, p);
    assert t[p].slots.Keys + {PARAMETERS} - ChildNames(t, p) == Elements(t[p].parameters) + {PARAMETERS};
  }

  lemma EntriesAll(d: map<string, Json>, t: Tree, p: Path)
    requires Ok(t) && p in t && EntriesBut(d, t, p, {})
    ensures d == Entries(t, p)
  {
  }

  ghost function Entry(m: map<Path, Json>, k: Path): Option<Json> {
    if k in m then Some(m[k]) else None
  }

  /** Exactly what `dejson` finds in `j` was added to `before`, under names below `queue`. */
  ghost predicate CollectsAll(now: map<Path, Json>, before: map<Path, Json>, queue: Path, j: Json) {
    forall path :: Entry(now, path) ==
                   if queue < path && Found(j, path[|queue|..]).Some? then Found(j, path[|queue|..])
                   else Entry(before, path)
  }

  /** The same for the parameters `names` and the inner dictionaries `keys` only. */
  ghost predicate Collects(now: map<Path, Json>, before: map<Path, Json>, queue: Path, d: map<string, Json>,
                           names: set<string>, keys: set<string>) {
    forall path :: Entry(now, path) ==
                   if queue < path && Hit(d, names, keys, path[|queue|..]) then Found(Dict(d), path[|queue|..])
                   else Entry(before, path)
  }

  ghost predicate Hit(d: map<string, Json>, names: set<string>, keys: set<string>, q: Path) {
    q != [] && Found(Dict(d), q).Some? && if |q| == 1 then q[0] in names else q[0] in keys
  }

  lemma CollectName(now: map<Path, Json>, before: map<Path, Json>, queue: Path, d: map<string, Json>,
                    names: set<string>, k: string)
    requires Collects(now, before, queue, d, names, {})
    requires Listed(d).Some? && k in Listed(d).value && k in d
    ensures Collects(now[queue + [k] := d[k]], before, queue, d, names + {k}, {})
  {
    var later := now[queue + [k] := d[k]];
    forall path ensures Entry(later, path) ==
      if queue < path && Hit(d, names + {k}, {}, path[|queue|..]) then Found(Dict(d), path[|queue|..])
      else Entry(before, path)
    {
      assert Entry(now, path) ==
             if queue < path && Hit(d, names, {}, path[|queue|..]) then Found(Dict(d), path[|queue|..])
             else Entry(before, path);
      if queue < path {
        var q := path[|queue|..];
        assert path == queue + q;
        assert path == queue + [k] <==> q == [k];
        assert |q| == 1 ==> q == [q[0]];
      }
    }
  }

  lemma CollectKey(later: map<Path, Json>, now: map<Path, Json>, before: map<Path, Json>, queue: Path,
                   d: map<string, Json>, names: set<string>, keys: set<string>, k: string)
    requires Collects(now, before, queue, d, names, keys) && k in d
    requires if d[k].Dict? then CollectsAll(later, now, queue + [k], d[k]) else later == now
    ensures Collects(later, before, queue, d, names, keys + {k})
  {
    forall path ensures Entry(later, path) ==
      if queue < path && Hit(d, names, keys + {k}, path[|queue|..]) then Found(Dict(d), path[|queue|..])
      else Entry(before, path)
    {
      assert Entry(now, path) ==
             if queue < path && Hit(d, names, keys, path[|queue|..]) then Found(Dict(d), path[|queue|..])
             else Entry(before, path);
      if queue < path {
        var q := path[|queue|..];
        assert path == queue + q;
        if |q| > 1 && q[0] == k {
          assert queue + [k] < path && path[|queue + [k]|..] == q[1..];
          assert d[k].Dict? ==>
                 Entry(later, path) ==
                 if Found(d[k], q[1..]).Some? then Found(d[k], q[1..]) else Entry(now, path);
        } else {
          assert !(queue + [k] < path);
          assert d[k].Dict? ==> Entry(later, path) == Entry(now, path);
        }
      }
    }
  }

  class JSONiser {
    var json: map<string, Json>
    var queue: Path
    var parameters: map<Path, Json>

    constructor ()
      ensures json == map[] && queue == [] && parameters == map[]
    {
      json, queue, parameters := map[], [], map[];
    }

    /** The part of `__call__` that enters the parameters and their list. */
    method CallParameters(pset: PSetHolder, before: map<string, Json>, ghost p: Path, ghost nodes: Nodes, ghost t: Tree)
      returns (thisPSet: map<string, Json>)
      requires Holds(nodes, t) && Ok(t) && p in nodes && nodes[p] == pset && before == map[]
      ensures Elements(t[p].parameters) <= t[p].slots.Keys
      ensures thisPSet == SomeEntries(t, p, Elements(t[p].parameters) + {PARAMETERS})
    {
      thisPSet := before;
      var params := pset.parameters_;
      var i := 0;
      while i < |params|
        invariant 0 <= i <= |params| && Elements(params[..i]) <= t[p].slots.Keys
        invariant thisPSet == SomeEntries(t, p, Elements(params[..i]))
      {
        var param := params[i];
        NextParameter(t, p, i);
        thisPSet := thisPSet[param := pset.attrs[param].v];
        i := i + 1;
      }
      assert params[..i] == params;
      thisPSet := thisPSet[PARAMETERS := Texts(params)];
    }

    /** `__call__`: the dictionary `parent` with that of the holder and of everything below
        it entered under its name. */
    method Call(pset: PSetHolder, parent: map<string, Json>, ghost p: Path, ghost nodes: Nodes, ghost t: Tree)
      returns (r: map<string, Json>)
      requires Holds(nodes, t) && Ok(t) && p in nodes && nodes[p] == pset && pset.psetName_ !in parent
      ensures Entered(r, parent, t, p)
      decreases Below(t, p)
    {
      var thisPSet := CallParameters(pset, EntriesIn(parent, pset.psetName_), p, nodes, t);
      var children := pset.attrs;
      var todo := ChildKeys(children);
      ghost var states := StatesOf(nodes);
      EntriesButChildren(t, p);
      SameChildren(states, t, p);
      while todo != {}
        invariant todo <= ChildNames(t, p) && EntriesBut(thisPSet, t, p, todo)
        decreases todo
      {
        var c :| c in todo;
        ChildHere(nodes, states, t, p, c);
        ghost var before := thisPSet;
        thisPSet := Call(children[c].pset, thisPSet, p + [c], nodes, t);
        EntriesButOneLess(before, thisPSet, t, p, todo, c);
        todo := todo - {c};
      }
      EntriesAll(thisPSet, t, p);
      r := parent[pset.psetName_ := Dict(thisPSet)];
    }

    /** `dejson`: collect the parameters of a dictionary and of the dictionaries in it, under
        the names in the queue. It raises when something listed is not there. */
    method Dejson(dictionary: map<string, Json>) returns (ok: bool)
      modifies this
      ensures ok == !Raises(Dict(dictionary))
      ensures ok ==> queue == old(queue) && CollectsAll(parameters, old(parameters), queue, Dict(dictionary))
      decreases Dict(dictionary)
    {
      ok := CollectListed(dictionary);
      if !ok {
        return false;
      }
      var todo := dictionary.Keys;
      ghost var keys := {};
      while todo != {}
        invariant todo !! keys && todo + keys == dictionary.Keys && queue == old(queue)
        invariant Collects(parameters, old(parameters), queue, dictionary, Listed(dictionary).value, keys)
        invariant forall k | k in keys :: !Raises(dictionary[k])
        decreases todo
      {
        var key :| key in todo;
        ghost var now := parameters;
        if dictionary[key].Dict? {
          queue := queue + [key];
          ok := Dejson(dictionary[key].entries);
          if !ok {
            assert Raises(dictionary[key]);
            return false;
          }
          queue := queue[..|queue| - 1];
        }
        CollectKey(parameters, now, old(parameters), queue, dictionary, Listed(dictionary).value, keys, key);
        todo, keys := todo - {key}, keys + {key};
      }
    }

    /** The first loop of `dejson`: the parameters of the dictionary itself. */
    method CollectListed(dictionary: map<string, Json>) returns (ok: bool)
      modifies this`parameters
      ensures ok == (Listed(dictionary).Some? && Listed(dictionary).value <= dictionary.Keys)
      ensures ok ==> Collects(parameters, old(parameters), queue, dictionary, Listed(dictionary).value, {})
    {
      var params := Listed(dictionary);
      if params.None? {
        return false;
      }
      var todo := params.value;
      ghost var names := {};
      while todo != {}
        invariant todo !! names && todo + names == params.value && names <= dictionary.Keys
        invariant Collects(parameters, old(parameters), queue, dictionary, names, {})
        decreases todo
      {
        var param :| param in todo;
        if param !in dictionary {
          return false;
        }
        CollectName(parameters, old(parameters), queue, dictionary, names, param);
        parameters := parameters[queue + [param] := dictionary[param]];
        todo, names := todo - {param}, names + {param};
      }
      ok := true;
    }
  }

  lemma AllKeys(t: Tree, p: Path)
    requires Ok(t) && p in t
    ensures Elements(t[p].parameters) + {PARAMETERS} + ChildNames(t, p) == t[p].slots.Keys + {PARAMETERS}
    ensures Elements(t[p].parameters) !! ChildNames(t, p) && PARAMETERS !in ChildNames(t, p)
  {
    forall c | c in t[p].slots ensures SlotOk(t, p, c) { }
  }
}
