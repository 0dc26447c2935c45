/** The tree of `PSetHolder` objects behind a `PSetTweak`, as a map from paths below
    `process` to the holder found there, and what `addParameter` does to it. */
module PSetTree {
  import opened Common

  /** A dotted name, split at its dots. */
  type Path = seq<string>

  /** A Python value, as far as the JSON code looks into it: dictionaries, what can be
      iterated over, and everything else. */
  datatype Json =
    | Other(text: string)
    | Text(chars: string)
    | Items(items: seq<Json>)
    | Dict(entries: map<string, Json>)

  const PROCESS := "process"
  const PARAMETERS := "parameters_"
  const PSET_NAME := "psetName_"

  predicate Proper(c: string) {
    c != PROCESS && c != PARAMETERS && c != PSET_NAME
  }

  predicate AllProper(path: Path) {
    forall c | c in path :: Proper(c)
  }

  /** An attribute of a holder: a value, or the holder one step further down. */
  datatype Slot = Value(v: Json) | Holder

  datatype PSet = PSet(name: string, parameters: seq<string>, slots: map<string, Slot>)

  type Tree = map<Path, PSet>

  const EMPTY: Tree := map[[] := PSet(PROCESS, [], map[])]

  // ----- addParameter -----

  /** What hangs below an attribute that is overwritten is gone. */
  function Without(t: Tree, q: Path): Tree {
    map p | p in t && !(q <= p) :: t[p]
  }

  /** `setattr(pset, c, value)` and `pset.parameters_.append(c)` */
  function SetValue(t: Tree, p: Path, c: string, v: Json): Tree
    requires p in t
  {
    Without(t, p + [c])[p := t[p].(parameters := t[p].parameters + [c], slots := t[p].slots[c := Value(v)])]
  }

  /** `setattr(pset, c, PSetHolder(c))` */
  function SetHolder(t: Tree, p: Path, c: string): Tree
    requires p in t
  {
    Without(t, p + [c])[p := t[p].(slots := t[p].slots[c := Holder])][p + [c] := PSet(c, [], map[])]
  }

  /** Where the walk of `addParameter` stands: at a holder, or at `None` or a plain value,
      on which no attribute can be set. */
  datatype Place = Off | At(path: Path)

  /** `addParameter` from some place on; `None` is the exception raised. */
  function Walk(t: Tree, place: Place, rest: Path, v: Json): Option<Tree>
    requires place.At? ==> place.path in t
    decreases |rest|
  {
    if rest == [] then Some(t)
    else if rest[0] == PROCESS then Walk(t, if [] in t then At([]) else Off, rest[1..], v)
    else
      match place
      case Off => None
      case At(p) =>
        var c := rest[0];
        if |rest| == 1 then Some(SetValue(t, p, c, v))
        else if c in t[p].slots then Walk(t, if p + [c] in t then At(p + [c]) else Off, rest[1..], v)
        else Walk(SetHolder(t, p, c), At(p + [c]), rest[1..], v)
  }

  function Add(t: Tree, name: Path, v: Json): Option<Tree> {
    Walk(t, Off, name, v)
  }

  // ----- the parameters of a tree -----

  predicate HasLeaf(t: Tree, q: Path) {
    q != [] && Front(q) in t && Last(q) in t[Front(q)].slots && t[Front(q)].slots[Last(q)].Value?
  }

  function LeafAt(t: Tree, q: Path): Json
    requires HasLeaf(t, q)
  {
    t[Front(q)].slots[Last(q)].v
  }

  ghost function Leaves(t: Tree): map<Path, Json> {
    var all := set p, c | p in t && c in t[p].slots :: p + [c];
    map q | q in all && HasLeaf(t, q) :: LeafAt(t, q)
  }

  lemma LeavesAre(t: Tree, q: Path)
    ensures q in Leaves(t) <==> HasLeaf(t, q)
    ensures HasLeaf(t, q) ==> Leaves(t)[q] == LeafAt(t, q)
  {
    if HasLeaf(t, q) {
      assert q == Front(q) + [Last(q)];
    }
  }

  /** What every `addParameter` keeps true: the holders form a tree rooted at `process`, each
      is named after its attribute, and `parameters_` lists exactly the plain attributes. */
  ghost predicate Ok(t: Tree) {
    [] in t && t[[]].name == PROCESS && ChildrenOk(t) && SlotsOk(t) && ListedOk(t)
  }

  ghost predicate ChildrenOk(t: Tree) {
    forall p {:trigger IsChild(t, p)} | p in t && p != [] :: IsChild(t, p)
  }

  ghost predicate SlotsOk(t: Tree) {
    forall p, c {:trigger SlotOk(t, p, c)} | p in t && c in t[p].slots :: SlotOk(t, p, c)
  }

  ghost predicate ListedOk(t: Tree) {
    forall p, c | p in t && c in t[p].parameters :: c in t[p].slots
  }

  ghost predicate IsChild(t: Tree, p: Path)
    requires p in t && p != []
  {
    && Front(p) in t && Last(p) in t[Front(p)].slots && t[Front(p)].slots[Last(p)].Holder?
    && t[p].name == Last(p)
  }

  ghost predicate SlotOk(t: Tree, p: Path, c: string)
    requires p in t && c in t[p].slots
  {
    Proper(c) && (t[p].slots[c].Holder? <==> p + [c] in t) && (t[p].slots[c].Value? <==> c in t[p].parameters)
  }

  lemma {:induction false} Ancestors(t: Tree, p: Path, i: nat)
    requires Ok(t) && p in t && i <= |p|
    ensures p[..i] in t
    decreases |p|
  {
    if i == |p| {
      assert p[..i] == p;
    } else {
      assert IsChild(t, p);
      Ancestors(t, Front(p), i);
      assert Front(p)[..i] == p[..i];
    }
  }

  lemma NothingBelow(t: Tree, q: Path, p: Path)
    requires Ok(t) && q !in t && q <= p
    ensures p !in t
  {
    assert q == p[..|q|];
    if p in t {
      Ancestors(t, p, |q|);
    }
  }

  /** No parameter lies below another. */
  lemma LeavesApart(t: Tree, q: Path, r: Path)
    requires Ok(t) && HasLeaf(t, q) && q < r
    ensures !HasLeaf(t, r)
  {
    assert q == Front(q) + [Last(q)];
    assert SlotOk(t, Front(q), Last(q));
    NothingBelow(t, q, Front(r));
  }

  lemma OneStep(q: Path, d: string, p: Path, c: string)
    ensures Front(q + [d]) == q && Last(q + [d]) == d
    ensures q + [d] == p + [c] <==> q == p && d == c
    ensures p + [c] <= q + [d] <==> p + [c] <= q || (q == p && d == c)
  {
    assert Front(q + [d]) == q && Last(q + [d]) == d;
    assert Front(p + [c]) == p && Last(p + [c]) == c;
    if p + [c] <= q + [d] && |p| < |q| {
      assert (q + [d])[..|p| + 1] == q[..|p| + 1];
    }
  }

  lemma SetValueOk(t: Tree, p: Path, c: string, v: Json)
    requires Ok(t) && p in t && Proper(c)
    ensures Ok(SetValue(t, p, c, v))
  {
    var t' := SetValue(t, p, c, v);
    forall q | q in t' && q != [] ensures IsChild(t', q) {
      assert IsChild(t, q);
      assert q == Front(q) + [Last(q)];
    }
    forall q, d | q in t' && d in t'[q].slots ensures SlotOk(t', q, d) {
      OneStep(q, d, p, c);
      assert (q != p || d != c) ==> SlotOk(t, q, d);
    }
  }

  lemma NoHolder(t: Tree, p: Path, c: string)
    requires Ok(t) && p in t && c !in t[p].slots
    ensures forall q | q in t :: !(p + [c] <= q)
  {
    assert Front(p + [c]) == p && Last(p + [c]) == c;
    assert p + [c] in t ==> IsChild(t, p + [c]);
    forall q | q in t && p + [c] <= q ensures false {
      NothingBelow(t, p + [c], q);
    }
  }

  lemma SetHolderSlotOk(t: Tree, p: Path, c: string, q: Path, d: string)
    requires Ok(t) && p in t && Proper(c) && c !in t[p].slots
    requires var t' := SetHolder(t, p, c); q in t' && d in t'[q].slots
    ensures SlotOk(SetHolder(t, p, c), q, d)
  {
    NoHolder(t, p, c);
    OneStep(q, d, p, c);
    assert c !in t[p].parameters;
    assert q != p + [c] && (q != p || d != c) ==> SlotOk(t, q, d);
  }

  lemma SetHolderChild(t: Tree, p: Path, c: string, q: Path)
    requires Ok(t) && p in t && Proper(c) && c !in t[p].slots && q in SetHolder(t, p, c) && q != []
    ensures IsChild(SetHolder(t, p, c), q)
  {
    NoHolder(t, p, c);
    OneStep(p, c, p, c);
    assert q in t ==> IsChild(t, q);
  }

  lemma SetHolderOk(t: Tree, p: Path, c: string)
    requires Ok(t) && p in t && Proper(c) && c !in t[p].slots
    ensures Ok(SetHolder(t, p, c))
  {
    var t' := SetHolder(t, p, c);
    assert ChildrenOk(t') by {
      forall q | q in t' && q != [] ensures IsChild(t', q) { SetHolderChild(t, p, c, q); }
    }
    assert SlotsOk(t') by {
      forall q, d | q in t' && d in t'[q].slots ensures SlotOk(t', q, d) { SetHolderSlotOk(t, p, c, q, d); }
    }
    assert ListedOk(t');
  }

  lemma SetHolderLeaves(t: Tree, p: Path, c: string, q: Path)
    requires Ok(t) && p in t && c !in t[p].slots
    ensures HasLeaf(SetHolder(t, p, c), q) <==> HasLeaf(t, q)
    ensures HasLeaf(t, q) ==> LeafAt(SetHolder(t, p, c), q) == LeafAt(t, q)
  {
    NoHolder(t, p, c);
  }

  lemma SetValueLeaves(t: Tree, p: Path, c: string, v: Json, q: Path)
    requires Ok(t) && p in t
    ensures var t' := SetValue(t, p, c, v);
            && (HasLeaf(t', q) <==> q == p + [c] || (HasLeaf(t, q) && !(p + [c] <= q)))
            && (HasLeaf(t', q) ==> LeafAt(t', q) == if q == p + [c] then v else LeafAt(t, q))
  {
    var t' := SetValue(t, p, c, v);
    assert Front(p + [c]) == p && Last(p + [c]) == c;
    if q != [] {
      assert q == Front(q) + [Last(q)];
      assert q != p + [c] && p + [c] <= q ==> p + [c] <= Front(q);
      assert p + [c] <= Front(q) ==> p + [c] <= q;
    }
  }

  /** The attribute met at step `i` of the walk along `r` from `p` is a plain value. */
  ghost predicate Blocked(t: Tree, p: Path, r: Path) {
    exists i :: 1 <= i < |r| && HasLeaf(t, p + r[..i])
  }

  /** The walk raises exactly when it would step into a plain value; otherwise it replaces
      whatever the name stood for by the value and leaves every other parameter alone. */
  lemma {:induction false} WalkSets(t: Tree, p: Path, r: Path, v: Json)
    requires Ok(t) && p in t && r != [] && AllProper(r)
    ensures var result := Walk(t, At(p), r, v);
            && (result.None? <==> Blocked(t, p, r))
            && (result.Some? ==> Ok(result.value) && SetsLeaf(t, result.value, p + r, v))
    decreases |r|
  {
    var c := r[0];
    assert p + r == p + [c] + r[1..] && p + r[..1] == p + [c];
    OneStep(p, c, p, c);
    if |r| == 1 {
      assert p + r == p + [c];
      SetValueOk(t, p, c, v);
      forall q ensures SetsLeafAt(t, SetValue(t, p, c, v), p + r, v, q) { SetValueLeaves(t, p, c, v, q); }
    } else if c in t[p].slots {
      assert SlotOk(t, p, c);
      if p + [c] in t {
        WalkSets(t, p + [c], r[1..], v);
        BlockedStep(t, p, r);
      } else {
        assert r[1] in r && r[1] != PROCESS;
        assert HasLeaf(t, p + r[..1]);
      }
    } else {
      SetHolderOk(t, p, c);
      WalkSets(SetHolder(t, p, c), p + [c], r[1..], v);
      WalkPastNewHolder(t, p, r, v);
    }
  }

  lemma WalkPastNewHolder(t: Tree, p: Path, r: Path, v: Json)
    requires Ok(t) && p in t && |r| > 1 && AllProper(r) && r[0] !in t[p].slots
    ensures var t1 := SetHolder(t, p, r[0]);
            && (Blocked(t1, p + [r[0]], r[1..]) <==> Blocked(t, p, r))
            && forall t', name :: SetsLeaf(t1, t', name, v) ==> SetsLeaf(t, t', name, v)
  {
    var c := r[0];
    var t1 := SetHolder(t, p, c);
    assert p + r[..1] == p + [c];
    OneStep(p, c, p, c);
    forall q ensures (HasLeaf(t1, q) <==> HasLeaf(t, q)) && (HasLeaf(t, q) ==> LeafAt(t1, q) == LeafAt(t, q)) {
      SetHolderLeaves(t, p, c, q);
    }
    BlockedStep(t1, p, r);
    forall t', name | SetsLeaf(t1, t', name, v) ensures SetsLeaf(t, t', name, v) {
      forall q ensures SetsLeafAt(t, t', name, v, q) { assert SetsLeafAt(t1, t', name, v, q); }
    }
  }

  ghost predicate SetsLeafAt(t: Tree, t': Tree, name: Path, v: Json, q: Path) {
    && (HasLeaf(t', q) <==> q == name || (HasLeaf(t, q) && !(name <= q)))
    && (HasLeaf(t', q) ==> LeafAt(t', q) == if q == name then v else LeafAt(t, q))
  }

  ghost predicate SetsLeaf(t: Tree, t': Tree, name: Path, v: Json) {
    forall q :: SetsLeafAt(t, t', name, v, q)
  }

  lemma BlockedStep(t: Tree, p: Path, r: Path)
    requires |r| > 1 && !HasLeaf(t, p + r[..1])
    ensures Blocked(t, p, r) <==> Blocked(t, p + [r[0]], r[1..])
  {
    if Blocked(t, p, r) {
      var i :| 1 <= i < |r| && HasLeaf(t, p + r[..i]);
      assert p + [r[0]] + r[1..][..i - 1] == p + r[..i];
    }
    if Blocked(t, p + [r[0]], r[1..]) {
      var i :| 1 <= i < |r| - 1 && HasLeaf(t, p + [r[0]] + r[1..][..i]);
      assert p + [r[0]] + r[1..][..i] == p + r[..i + 1];
    }
  }

  // ----- sequences of calls -----

  datatype Write = Write(name: Path, value: Json)

  /** A name as callers give it: `process`, then names that mean nothing special. */
  predicate WellNamed(name: Path) {
    |name| >= 2 && name[0] == PROCESS && AllProper(name[1..])
  }

  predicate AllWellNamed(ws: seq<Write>) {
    forall i | 0 <= i < |ws| :: WellNamed(ws[i].name)
  }

  /** A new tweak after some calls of `addParameter`. */
  function AddAll(ws: seq<Write>): Option<Tree>
    decreases |ws|
  {
    if ws == [] then Some(EMPTY)
    else
      var last := ws[|ws| - 1];
      match AddAll(ws[..|ws| - 1])
      case None => None
      case Some(t) => Add(t, last.name, last.value)
  }

  /** The value last given to each name (without the leading `process`). */
  function LastWrites(ws: seq<Write>): map<Path, Json>
    requires AllWellNamed(ws)
    decreases |ws|
  {
    if ws == [] then map[]
    else
      var last := ws[|ws| - 1];
      LastWrites(ws[..|ws| - 1])[last.name[1..] := last.value]
  }

  ghost predicate PrefixFree(ws: seq<Write>) {
    forall w, x | w in ws && x in ws :: !(w.name < x.name)
  }

  lemma AddSets(t: Tree, name: Path, v: Json)
    requires Ok(t) && WellNamed(name)
    ensures var result := Add(t, name, v);
            && (result.None? <==> Blocked(t, [], name[1..]))
            && (result.Some? ==> Ok(result.value) && SetsLeaf(t, result.value, name[1..], v))
  {
    WalkSets(t, [], name[1..], v);
    assert [] + name[1..] == name[1..];
  }

  lemma {:induction false} AddAllOk(ws: seq<Write>)
    requires AllWellNamed(ws)
    ensures AddAll(ws).Some? ==> Ok(AddAll(ws).value)
    decreases |ws|
  {
    if ws != [] {
      AddAllOk(ws[..|ws| - 1]);
      if AddAll(ws[..|ws| - 1]).Some? {
        AddSets(AddAll(ws[..|ws| - 1]).value, ws[|ws| - 1].name, ws[|ws| - 1].value);
      }
    }
  }

  lemma {:induction false} LastWritesKeys(ws: seq<Write>, q: Path)
    requires AllWellNamed(ws)
    ensures q in LastWrites(ws) <==> exists w | w in ws :: w.name == [PROCESS] + q
    decreases |ws|
  {
    if ws != [] {
      var init, last := ws[..|ws| - 1], ws[|ws| - 1];
      LastWritesKeys(init, q);
      assert ws == init + [last];
      assert last.name == [PROCESS] + last.name[1..];
      assert ([PROCESS] + q)[1..] == q;
      if q in LastWrites(ws) {
        if q != last.name[1..] {
          var w :| w in init && w.name == [PROCESS] + q;
          assert w in ws;
        }
      }
      if w :| w in ws && w.name == [PROCESS] + q {
        assert w in init || w == last;
      }
    }
  }

  lemma {:induction false} PrefixFreeAdds(ws: seq<Write>)
    requires AllWellNamed(ws) && PrefixFree(ws)
    ensures AddAll(ws).Some? && Leaves(AddAll(ws).value) == LastWrites(ws)
    decreases |ws|
  {
    if ws == [] {
      forall q ensures !HasLeaf(EMPTY, q) { }
      assert Leaves(EMPTY) == map[] by {
        forall q ensures q !in Leaves(EMPTY) { LeavesAre(EMPTY, q); }
      }
    } else {
      var init, last := ws[..|ws| - 1], ws[|ws| - 1];
      PrefixFreeAdds(init);
      AddAllOk(init);
      var t, name := AddAll(init).value, last.name[1..];
      AddSets(t, last.name, last.value);
      forall q | HasLeaf(t, q) ensures !(q < name) && !(name < q) {
        LeavesAre(t, q);
        NewNameApart(ws, q);
      }
      assert !Blocked(t, [], name) by {
        forall i | 1 <= i < |name| ensures !HasLeaf(t, [] + name[..i]) {
          assert [] + name[..i] == name[..i] && name[..i] < name;
        }
      }
      OneMoreLeaf(t, AddAll(ws).value, name, last.value);
    }
  }

  /** A parameter set earlier is neither above nor below the last one. */
  lemma NewNameApart(ws: seq<Write>, q: Path)
    requires AllWellNamed(ws) && PrefixFree(ws) && ws != []
    requires q in LastWrites(ws[..|ws| - 1])
    ensures var name := ws[|ws| - 1].name[1..]; !(q < name) && !(name < q)
  {
    var init, last := ws[..|ws| - 1], ws[|ws| - 1];
    var name := last.name[1..];
    LastWritesKeys(init, q);
    var w :| w in init && w.name == [PROCESS] + q;
    assert last in ws && w in ws && last.name == [PROCESS] + name;
    assert q < name ==> w.name < last.name;
    assert name < q ==> last.name < w.name;
  }

  lemma OneMoreLeaf(t: Tree, t': Tree, name: Path, v: Json)
    requires SetsLeaf(t, t', name, v)
    requires forall q | HasLeaf(t, q) :: !(name < q)
    ensures Leaves(t') == Leaves(t)[name := v]
  {
    forall q ensures (q in Leaves(t') <==> q in Leaves(t)[name := v])
                     && (q in Leaves(t') ==> Leaves(t')[q] == Leaves(t)[name := v][q]) {
      LeavesAre(t, q);
      LeavesAre(t', q);
      assert SetsLeafAt(t, t', name, v, q);
      assert name <= q ==> name == q || name < q;
    }
  }

  /** Any calls of `addParameter` succeed and leave exactly the last value given to each
      name if, and only if, no name is a proper prefix of another. */
  lemma AddsAreLastWritesIff(ws: seq<Write>)
    requires AllWellNamed(ws)
    ensures PrefixFree(ws) <==> AddAll(ws).Some? && Leaves(AddAll(ws).value) == LastWrites(ws)
  {
    if PrefixFree(ws) {
      PrefixFreeAdds(ws);
    } else if AddAll(ws).Some? && Leaves(AddAll(ws).value) == LastWrites(ws) {
      var w, x :| w in ws && x in ws && w.name < x.name;
      NotBothKept(ws, w, x);
    }
  }

  lemma NotBothKept(ws: seq<Write>, w: Write, x: Write)
    requires AllWellNamed(ws) && w in ws && x in ws && w.name < x.name && AddAll(ws).Some?
    ensures Leaves(AddAll(ws).value) != LastWrites(ws)
  {
    var t := AddAll(ws).value;
    AddAllOk(ws);
    var q, r := w.name[1..], x.name[1..];
    assert w.name == [PROCESS] + q && x.name == [PROCESS] + r;
    LastWritesKeys(ws, q);
    LastWritesKeys(ws, r);
    LeavesAre(t, q);
    LeavesAre(t, r);
    if HasLeaf(t, q) { LeavesApart(t, q, r); }
  }
}
