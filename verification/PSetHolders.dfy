/** The holders of `PSetTweaks/PSetTweak.py`, objects changed in place, and the tree they
    form below `process`. */
module PSetHolders {
  import opened Common
  import opened PSetTree

  datatype Attr = Plain(v: Json) | Child(pset: PSetHolder)

  /** Everything one holder holds. */
  datatype Fields = Fields(name: string, parameters: seq<string>, attrs: map<string, Attr>)

  class PSetHolder {
    var psetName_: string
    var parameters_: seq<string>
    var attrs: map<string, Attr>

    constructor (name: string)
      ensures State() == Fields(name, [], map[])
    {
      psetName_, parameters_, attrs := name, [], map[];
    }

    function State(): Fields
      reads this
    {
      Fields(psetName_, parameters_, attrs)
    }

    /** `setattr` */
    method SetAttr(c: string, a: Attr)
      modifies this`attrs
      ensures attrs == old(attrs)[c := a]
    {
      attrs := attrs[c := a];
    }
  }

  // ----- objects and paths -----

  ghost function View(f: Fields): PSet {
    PSet(f.name, f.parameters, map c | c in f.attrs :: if f.attrs[c].Plain? then Value(f.attrs[c].v) else Holder)
  }

  type Nodes = map<Path, PSetHolder>
  type States = map<Path, Fields>

  ghost function StatesOf(nodes: Nodes): States
    reads nodes.Values
  {
    map p | p in nodes :: nodes[p].State()
  }

  /** Objects at paths below `process`, with what they hold, show the tree `t`. */
  ghost predicate Shows(nodes: Nodes, states: States, t: Tree) {
    nodes.Keys == t.Keys && Distinct(nodes) && ShowsTree(states, t) && LinksOk(nodes, states)
  }

  ghost predicate Distinct(nodes: Nodes) {
    forall p, q | p in nodes && q in nodes && p != q :: nodes[p] != nodes[q]
  }

  ghost predicate ShowsTree(states: States, t: Tree) {
    states.Keys == t.Keys && forall p {:trigger states[p]} | p in t :: View(states[p]) == t[p]
  }

  ghost predicate LinksOk(nodes: Nodes, states: States) {
    forall p, c {:trigger LinkedAt(nodes, states, p, c)} | p in states && c in states[p].attrs ::
      LinkedAt(nodes, states, p, c)
  }

  ghost predicate LinkedAt(nodes: Nodes, states: States, p: Path, c: string)
    requires p in states && c in states[p].attrs
  {
    match states[p].attrs[c]
    case Plain(_) => p + [c] !in nodes
    case Child(pset) => p + [c] in nodes && nodes[p + [c]] == pset
  }

  ghost function Drop<T>(m: map<Path, T>, q: Path): map<Path, T> {
    map p | p in m && !(q <= p) :: m[p]
  }

  ghost function LeafStates(states: States, p: Path, c: string, v: Json): States
    requires p in states
  {
    var f := states[p];
    Drop(states, p + [c])[p := Fields(f.name, f.parameters + [c], f.attrs[c := Plain(v)])]
  }

  ghost function HolderStates(states: States, p: Path, c: string, child: PSetHolder): States
    requires p in states
  {
    var f := states[p];
    var f' := Fields(f.name, f.parameters, f.attrs[c := Child(child)]);
    Drop(states, p + [c])[p := f'][p + [c] := Fields(c, [], map[])]
  }

  lemma LeafShowsTree(states: States, t: Tree, p: Path, c: string, v: Json)
    requires ShowsTree(states, t) && p in t
    ensures ShowsTree(LeafStates(states, p, c, v), SetValue(t, p, c, v))
  {
    var f, f' := states[p], LeafStates(states, p, c, v)[p];
    assert View(f').slots == View(f).slots[c := Value(v)];
  }

  lemma DropKeeps(nodes: Nodes, q: Path)
    requires Distinct(nodes)
    ensures Distinct(Drop(nodes, q)) && Drop(nodes, q).Values <= nodes.Values
  {
    forall o | o in Drop(nodes, q).Values ensures o in nodes.Values {
      var p :| p in Drop(nodes, q) && Drop(nodes, q)[p] == o;
      assert nodes[p] == o;
    }
  }

  lemma LeafLinks(nodes: Nodes, states: States, p: Path, c: string, v: Json)
    requires LinksOk(nodes, states) && p in states
    ensures LinksOk(Drop(nodes, p + [c]), LeafStates(states, p, c, v))
  {
    var states' := LeafStates(states, p, c, v);
    forall q, d | q in states' && d in states'[q].attrs ensures LinkedAt(Drop(nodes, p + [c]), states', q, d) {
      OneStep(q, d, p, c);
      assert (q != p || d != c) ==> LinkedAt(nodes, states, q, d);
    }
  }

  lemma HolderShowsTree(states: States, t: Tree, p: Path, c: string, child: PSetHolder)
    requires ShowsTree(states, t) && p in t
    ensures ShowsTree(HolderStates(states, p, c, child), SetHolder(t, p, c))
  {
    var states' := HolderStates(states, p, c, child);
    OneStep(p, c, p, c);
    assert View(states'[p]).slots == View(states[p]).slots[c := Holder];
    assert View(states'[p + [c]]).slots.Keys == {};
  }

  lemma HolderLinks(nodes: Nodes, states: States, p: Path, c: string, child: PSetHolder)
    requires LinksOk(nodes, states) && p in states
    ensures LinksOk(Drop(nodes, p + [c])[p + [c] := child], HolderStates(states, p, c, child))
  {
    var nodes', states' := Drop(nodes, p + [c])[p + [c] := child], HolderStates(states, p, c, child);
    forall q, d | q in states' && d in states'[q].attrs ensures LinkedAt(nodes', states', q, d) {
      OneStep(q, d, p, c);
      assert q != p + [c];
      assert (q != p || d != c) ==> LinkedAt(nodes, states, q, d);
    }
  }

  lemma LeafShows(nodes: Nodes, states: States, t: Tree, p: Path, c: string, v: Json)
    requires Shows(nodes, states, t) && p in t
    ensures Shows(Drop(nodes, p + [c]), LeafStates(states, p, c, v), SetValue(t, p, c, v))
  {
    DropKeeps(nodes, p + [c]);
    LeafShowsTree(states, t, p, c, v);
    LeafLinks(nodes, states, p, c, v);
  }

  lemma HolderShows(nodes: Nodes, states: States, t: Tree, p: Path, c: string, child: PSetHolder)
    requires Shows(nodes, states, t) && p in t && child !in nodes.Values
    ensures Shows(Drop(nodes, p + [c])[p + [c] := child], HolderStates(states, p, c, child), SetHolder(t, p, c))
  {
    DropKeeps(nodes, p + [c]);
    HolderShowsTree(states, t, p, c, child);
    HolderLinks(nodes, states, p, c, child);
  }

  /** The objects `nodes` hold the tree `t`. */
  ghost predicate Holds(nodes: Nodes, t: Tree)
    reads nodes.Values
  {
    Shows(nodes, StatesOf(nodes), t)
  }

  lemma StatesWithLeaf(nodes: Nodes, states: States, p: Path, c: string, v: Json)
    requires nodes.Keys == states.Keys && p in nodes
    requires nodes[p].State() == Fields(states[p].name, states[p].parameters + [c], states[p].attrs[c := Plain(v)])
    requires forall q | q in nodes && q != p :: nodes[q].State() == states[q]
    ensures StatesOf(Drop(nodes, p + [c])) == LeafStates(states, p, c, v)
  {
  }

  lemma StatesWithHolder(nodes: Nodes, states: States, p: Path, c: string, child: PSetHolder)
    requires nodes.Keys == states.Keys && p in nodes && child.State() == Fields(c, [], map[])
    requires nodes[p].State() == Fields(states[p].name, states[p].parameters, states[p].attrs[c := Child(child)])
    requires forall q | q in nodes && q != p :: nodes[q].State() == states[q]
    ensures StatesOf(Drop(nodes, p + [c])[p + [c] := child]) == HolderStates(states, p, c, child)
  {
  }

  /** `setattr(pset, c, value)` and `pset.parameters_.append(c)` */
  method SetLeaf(pset: PSetHolder, c: string, v: Json, ghost p: Path, ghost nodes: Nodes, ghost t: Tree)
    requires Holds(nodes, t) && p in nodes && nodes[p] == pset
    modifies pset
    ensures Holds(Drop(nodes, p + [c]), SetValue(t, p, c, v))
  {
    ghost var states := StatesOf(nodes);
    LeafShows(nodes, states, t, p, c, v);
    pset.SetAttr(c, Plain(v));
    pset.parameters_ := pset.parameters_ + [c];
    StatesWithLeaf(nodes, states, p, c, v);
  }

  /** `setattr(pset, c, PSetHolder(c))` */
  method SetChild(pset: PSetHolder, c: string, ghost p: Path, ghost nodes: Nodes, ghost t: Tree)
    returns (child: PSetHolder)
    requires Holds(nodes, t) && p in nodes && nodes[p] == pset
    modifies pset
    ensures fresh(child) && Holds(Drop(nodes, p + [c])[p + [c] := child], SetHolder(t, p, c))
  {
    ghost var states := StatesOf(nodes);
    child := new PSetHolder(c);
    HolderShows(nodes, states, t, p, c, child);
    pset.SetAttr(c, Child(child));
    StatesWithHolder(nodes, states, p, c, child);
  }

  /** The object `pset` is where the walk of `addParameter` stands. */
  ghost predicate Stands(pset: PSetHolder?, place: Place, nodes: Nodes) {
    if pset == null then place == Off else place.At? && place.path in nodes && nodes[place.path] == pset
  }

  ghost predicate Grown(nodes': Nodes, nodes: Nodes) {
    [] in nodes' && [] in nodes && nodes'[[]] == nodes[[]]
  }

  /** One step of the walk: `if not hasattr(pset, c): setattr(pset, c, PSetHolder(c))`, then
      `getattr(pset, c)`; null stands for a value on which no attribute can be set. */
  method Enter(pset: PSetHolder, c: string, ghost p: Path, ghost nodes: Nodes, ghost t: Tree)
    returns (next: PSetHolder?, ghost nodes': Nodes, ghost t': Tree, ghost place: Place)
    requires Holds(nodes, t) && p in nodes && nodes[p] == pset && [] in nodes
    modifies pset
    ensures Holds(nodes', t') && nodes'.Keys == t'.Keys && Stands(next, place, nodes') && Grown(nodes', nodes)
    ensures forall o | o in nodes'.Values && o !in nodes.Values :: fresh(o)
    ensures c in t[p].slots ==> t' == t && place == if p + [c] in t then At(p + [c]) else Off
    ensures c !in t[p].slots ==> t' == SetHolder(t, p, c) && place == At(p + [c])
  {
    if c !in pset.attrs {
      var child := SetChild(pset, c, p, nodes, t);
      next, nodes' := child, Drop(nodes, p + [c])[p + [c] := child];
      t', place := SetHolder(t, p, c), At(p + [c]);
      DropKeeps(nodes, p + [c]);
    } else {
      assert LinkedAt(nodes, StatesOf(nodes), p, c);
      nodes', t' := nodes, t;
      match pset.attrs[c]
      case Child(inner) => next, place := inner, At(p + [c]);
      case Plain(_) => next, place := null, Off;
    }
  }

  /** The last step of the walk. */
  method Finish(pset: PSetHolder, c: string, v: Json, ghost p: Path, ghost nodes: Nodes, ghost t: Tree)
    returns (ghost nodes': Nodes)
    requires Holds(nodes, t) && p in nodes && nodes[p] == pset && [] in nodes
    modifies pset
    ensures Holds(nodes', SetValue(t, p, c, v)) && Grown(nodes', nodes) && nodes'.Values <= nodes.Values
  {
    SetLeaf(pset, c, v, p, nodes, t);
    nodes' := Drop(nodes, p + [c]);
    DropKeeps(nodes, p + [c]);
  }

  /** One turn of the loop of `addParameter`, for the first of the names left. */
  method Advance(process: PSetHolder, pset: PSetHolder?, rest: Path, v: Json, ghost place: Place, ghost nodes: Nodes,
                 ghost t: Tree)
    returns (ok: bool, next: PSetHolder?, ghost nodes': Nodes, ghost t': Tree, ghost place': Place)
    requires Holds(nodes, t) && nodes.Keys == t.Keys && [] in nodes && nodes[[]] == process
             && Stands(pset, place, nodes)
    requires rest != []
    modifies nodes.Values
    ensures Holds(nodes', t') && nodes'.Keys == t'.Keys && Grown(nodes', nodes) && Stands(next, place', nodes')
    ensures forall o | o in nodes'.Values && o !in nodes.Values :: fresh(o)
    ensures Walk(t, place, rest, v) == if ok then Walk(t', place', rest[1..], v) else None
  {
    var param := rest[0];
    ok, next, nodes', t', place' := true, pset, nodes, t, place;
    if param == PROCESS {
      next, place' := process, At([]);
    } else if pset == null {
      ok := false;
    } else if |rest| > 1 {
      next, nodes', t', place' := Enter(pset, param, place.path, nodes, t);
    } else {
      nodes' := Finish(pset, param, v, place.path, nodes, t);
      next, t', place' := null, SetValue(t, place.path, param, v), Off;
    }
  }
}
