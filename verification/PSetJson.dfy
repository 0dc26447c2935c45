/** A tweak as nested JSON dictionaries, and the way back: what `JSONiser` writes, what
    `dejson` collects from it, and what `makeTweakFromJSON` makes of that. */
module PSetJson {
  import opened Common
  import opened PSetTree

  // ----- from the tree to dictionaries -----

  ghost function Below(t: Tree, p: Path): set<Path> {
    set q | q in t && p <= q
  }

  lemma Descend(t: Tree, p: Path, c: string)
    requires p in t
    ensures Below(t, p + [c]) < Below(t, p)
  {
    assert p in Below(t, p) && p !in Below(t, p + [c]);
    forall q | q in Below(t, p + [c]) ensures q in Below(t, p) {
      assert p <= p + [c] <= q;
    }
  }

  function Texts(names: seq<string>): Json {
    Items(seq(|names|, i requires 0 <= i < |names| => Text(names[i])))
  }

  /** The dictionary of the holder at `p`. */
  ghost function Entries(t: Tree, p: Path): map<string, Json>
    requires Ok(t) && p in t
    decreases Below(t, p)
  {
    map k | k in t[p].slots.Keys + {PARAMETERS} :: k := EntryOf(t, p, k)
  }

  ghost function EntryOf(t: Tree, p: Path, k: string): Json
    requires Ok(t) && p in t && k in t[p].slots.Keys + {PARAMETERS}
    decreases Below(t, p), 0
  {
    if k == PARAMETERS then Texts(t[p].parameters)
    else if t[p].slots[k].Value? then t[p].slots[k].v
    else
      assert SlotOk(t, p, k);
      Descend(t, p, k);
      Dict(Entries(t, p + [k]))
  }

  /** `jsondictionary` */
  ghost function JsonDictionary(t: Tree): Json
    requires Ok(t)
  {
    Dict(map[PROCESS := Dict(Entries(t, []))])
  }

  // ----- from dictionaries to parameters -----

  /** The strings that `for param in j` goes through; `None` if it raises, or meets
      something that is no key of a JSON dictionary. */
  function Iterated(j: Json): Option<set<string>> {
    match j
    case Other(_) => None
    case Text(chars) => Some(set c | c in chars :: [c])
    case Items(items) =>
      if forall i | 0 <= i < |items| :: items[i].Text?
      then Some(set i | 0 <= i < |items| && items[i].Text? :: items[i].chars)
      else None
    case Dict(entries) => Some(entries.Keys)
  }

  function Listed(d: map<string, Json>): Option<set<string>> {
    if PARAMETERS in d then Iterated(d[PARAMETERS]) else Some({})
  }

  /** A dictionary somewhere in `j` lists its parameters wrongly, so that `dejson` raises. */
  ghost predicate Raises(j: Json) {
    j.Dict? && (Listed(j.entries).None? || !(Listed(j.entries).value <= j.entries.Keys)
                || exists k :: k in j.entries && Raises(j.entries[k]))
  }

  /** The value `dejson` collects under the name `q`, relative to `j`. */
  ghost function Found(j: Json, q: Path): Option<Json>
    decreases j
  {
    if !j.Dict? || q == [] || q[0] !in j.entries then None
    else if |q| > 1 then Found(j.entries[q[0]], q[1..])
    else if Listed(j.entries).Some? && q[0] in Listed(j.entries).value then Some(j.entries[q[0]])
    else None
  }

  ghost function FoundPaths(j: Json): set<Path>
    decreases j
  {
    if !j.Dict? then {}
    else (set k | k in j.entries && Found(j, [k]).Some? :: [k]) +
         (set k, q | k in j.entries && q in FoundPaths(j.entries[k]) :: [k] + q)
  }

  lemma {:induction false} FoundPathsAre(j: Json, q: Path)
    ensures q in FoundPaths(j) <==> Found(j, q).Some?
    decreases j
  {
    if j.Dict? {
      if q != [] && q[0] in j.entries {
        FoundPathsAre(j.entries[q[0]], q[1..]);
      }
      if Found(j, q).Some? && |q| == 1 {
        assert q == [q[0]];
      } else if Found(j, q).Some? {
        var k, r := q[0], q[1..];
        assert k in j.entries && r in FoundPaths(j.entries[k]) && [k] + r == q;
      }
    }
  }

  /** All that `dejson` collects. */
  ghost function Collected(j: Json): map<Path, Json> {
    map q | q in FoundPaths(j) && Found(j, q).Some? :: Found(j, q).value
  }

  lemma CollectedAre(j: Json, q: Path)
    ensures q in Collected(j) <==> Found(j, q).Some?
    ensures q in Collected(j) ==> Collected(j)[q] == Found(j, q).value
  {
    FoundPathsAre(j, q);
  }

  // ----- what comes back -----

  /** A value that adds nothing when it is read as a dictionary of holders: no dictionary
      in it lists a parameter. */
  ghost predicate Quiet(j: Json) {
    j.Dict? ==> Listed(j.entries) == Some({}) && forall k :: k in j.entries ==> Quiet(j.entries[k])
  }

  ghost predicate NothingFound(j: Json) {
    forall q :: Found(j, q).None?
  }

  lemma {:induction false} QuietIff(j: Json)
    ensures Quiet(j) <==> !Raises(j) && NothingFound(j)
    decreases j
  {
    if j.Dict? {
      forall k | k in j.entries ensures Quiet(j.entries[k]) <==> !Raises(j.entries[k]) && NothingFound(j.entries[k]) {
        QuietIff(j.entries[k]);
      }
      if Quiet(j) {
        forall q ensures Found(j, q).None? {
          assert q != [] && q[0] in j.entries ==> Quiet(j.entries[q[0]]);
        }
        forall k | k in j.entries ensures !Raises(j.entries[k]) {
          assert Quiet(j.entries[k]);
        }
      } else if !Raises(j) {
        SomethingListed(j);
      }
    }
  }

  lemma SomethingListed(j: Json)
    requires j.Dict? && !Raises(j) && !Quiet(j)
    requires forall k | k in j.entries :: Quiet(j.entries[k]) || Raises(j.entries[k]) || !NothingFound(j.entries[k])
    ensures !NothingFound(j)
  {
    if k :| k in j.entries && !Quiet(j.entries[k]) {
      assert !Raises(j.entries[k]);
      var q :| Found(j.entries[k], q).Some?;
      assert ([k] + q)[1..] == q;
      assert Found(j, [k] + q).Some?;
    } else {
      assert Listed(j.entries).value != {};
      var k :| k in Listed(j.entries).value;
      assert Found(j, [k]).Some?;
    }
  }

  lemma {:induction false} HoldersProper(t: Tree, p: Path)
    requires Ok(t) && p in t
    ensures AllProper(p)
    decreases |p|
  {
    if p != [] {
      assert IsChild(t, p) && SlotOk(t, Front(p), Last(p));
      HoldersProper(t, Front(p));
      assert p == Front(p) + [Last(p)];
    }
  }

  lemma LeavesProper(t: Tree, q: Path)
    requires Ok(t) && HasLeaf(t, q)
    ensures AllProper(q)
  {
    HoldersProper(t, Front(q));
    assert SlotOk(t, Front(q), Last(q));
    assert q == Front(q) + [Last(q)];
  }

  lemma ParametersListed(t: Tree, p: Path)
    requires Ok(t) && p in t
    ensures Listed(Entries(t, p)) == Some(Elements(t[p].parameters))
  {
    var names := t[p].parameters;
    assert Entries(t, p)[PARAMETERS] == Texts(names);
    TextsIterated(names);
  }

  lemma TextsIterated(names: seq<string>)
    ensures Iterated(Texts(names)) == Some(Elements(names))
  {
    var items := Texts(names).items;
    assert forall i | 0 <= i < |items| :: items[i] == Text(names[i]);
    var all := set i | 0 <= i < |items| && items[i].Text? :: items[i].chars;
    forall k ensures k in all <==> k in names {
      if k in names {
        var i :| 0 <= i < |names| && names[i] == k;
        assert items[i].chars == k;
      }
    }
    assert all == Elements(names);
  }

  /** The parameters of the tree are collected, each with its value. */
  lemma {:induction false} LeafFound(t: Tree, p: Path, q: Path)
    requires Ok(t) && p in t && q != [] && HasLeaf(t, p + q)
    ensures Found(Dict(Entries(t, p)), q) == Some(LeafAt(t, p + q))
    decreases |q|
  {
    if |q| == 1 {
      assert Front(p + q) == p && Last(p + q) == q[0];
      assert SlotOk(t, p, q[0]);
      ParametersListed(t, p);
    } else {
      HolderStep(t, p, q);
      LeafFound(t, p + [q[0]], q[1..]);
    }
  }

  /** The first step towards a longer name below `p` that exists. */
  lemma HolderStep(t: Tree, p: Path, q: Path)
    requires Ok(t) && p in t && |q| > 1 && Front(p + q) in t
    ensures p + q == p + [q[0]] + q[1..] && p + [q[0]] in t
    ensures q[0] in t[p].slots && t[p].slots[q[0]].Holder? && q[0] != PARAMETERS
  {
    Ancestors(t, Front(p + q), |p| + 1);
    assert Front(p + q)[..|p| + 1] == p + [q[0]];
    OneStep(p, q[0], p, q[0]);
    assert IsChild(t, p + [q[0]]);
    assert SlotOk(t, p, q[0]);
  }

  /** Name `q` lies inside the value of a parameter, and `dejson` collects it there. */
  ghost predicate Inside(t: Tree, p: Path, q: Path) {
    exists i :: 1 <= i < |q| && InsideAt(t, p, q, i)
  }

  ghost predicate InsideAt(t: Tree, p: Path, q: Path, i: int)
    requires 1 <= i < |q|
  {
    HasLeaf(t, p + q[..i]) && Found(LeafAt(t, p + q[..i]), q[i..]).Some?
  }

  /** Nothing else is collected but what is listed inside values. */
  lemma {:induction false} OnlyLeavesFound(t: Tree, p: Path, q: Path)
    requires Ok(t) && p in t && !(q != [] && HasLeaf(t, p + q))
    ensures Found(Dict(Entries(t, p)), q).Some? <==> Inside(t, p, q)
    decreases |q|
  {
    if |q| > 1 && q[0] in t[p].slots {
      assert p + q[..1] == p + [q[0]] && p + q == p + [q[0]] + q[1..];
      OneStep(p, q[0], p, q[0]);
      assert SlotOk(t, p, q[0]);
      if t[p].slots[q[0]].Value? {
        ValueStep(t, p, q);
      } else {
        OnlyLeavesFound(t, p + [q[0]], q[1..]);
        InsideStep(t, p, q);
      }
    } else if |q| == 1 {
      assert p + q == p + [q[0]];
      OneStep(p, q[0], p, q[0]);
      ParametersListed(t, p);
      assert q[0] in t[p].slots ==> SlotOk(t, p, q[0]);
    } else if |q| > 1 {
      assert Found(Dict(Entries(t, p)), q).None? by {
        if q[0] == PARAMETERS { assert !Texts(t[p].parameters).Dict?; }
      }
      forall i | 1 <= i < |q| ensures !HasLeaf(t, p + q[..i]) {
        NothingThere(t, p, q[..i]);
      }
    }
  }

  lemma NothingThere(t: Tree, p: Path, q: Path)
    requires Ok(t) && p in t && q != [] && q[0] !in t[p].slots
    ensures !HasLeaf(t, p + q)
  {
    OneStep(p, q[0], p, q[0]);
    if |q| == 1 {
      assert p + q == p + [q[0]];
    } else if HasLeaf(t, p + q) {
      HolderStep(t, p, q);
      assert false;
    }
  }

  lemma ValueStep(t: Tree, p: Path, q: Path)
    requires Ok(t) && p in t && |q| > 1 && HasLeaf(t, p + q[..1])
    ensures Found(LeafAt(t, p + q[..1]), q[1..]).Some? <==> Inside(t, p, q)
  {
    assert InsideAt(t, p, q, 1) <==> Found(LeafAt(t, p + q[..1]), q[1..]).Some?;
    forall i | 1 < i < |q| ensures !HasLeaf(t, p + q[..i]) {
      assert p + q[..1] < p + q[..i];
      LeavesApart(t, p + q[..1], p + q[..i]);
    }
  }

  lemma InsideStep(t: Tree, p: Path, q: Path)
    requires |q| > 1 && !HasLeaf(t, p + q[..1])
    ensures Inside(t, p, q) <==> Inside(t, p + [q[0]], q[1..])
  {
    forall i | 1 <= i < |q| - 1 ensures InsideAt(t, p + [q[0]], q[1..], i) <==> InsideAt(t, p, q, i + 1) {
      assert p + [q[0]] + q[1..][..i] == p + q[..i + 1] && q[1..][i..] == q[i + 1..];
    }
    if i :| 1 <= i < |q| && InsideAt(t, p, q, i) {
      assert InsideAt(t, p + [q[0]], q[1..], i - 1);
    }
    if i :| 1 <= i < |q| - 1 && InsideAt(t, p + [q[0]], q[1..], i) {
      assert InsideAt(t, p, q, i + 1);
    }
  }

  /** `dejson` raises on the dictionaries of a tweak exactly when it would on a value. */
  lemma {:induction false} EntriesRaise(t: Tree, p: Path)
    requires Ok(t) && p in t
    ensures Raises(Dict(Entries(t, p))) <==> ValueRaises(t, p, false)
    decreases Below(t, p)
  {
    var d := Entries(t, p);
    ParametersListed(t, p);
    assert Listed(d).value <= d.Keys by {
      forall k | k in t[p].parameters ensures k in d { }
    }
    forall k | k in t[p].slots ensures Raises(d[k]) <==> ValueRaises(t, p + [k], true) {
      OneStep(p, k, p, k);
      assert SlotOk(t, p, k);
      if t[p].slots[k].Holder? {
        Descend(t, p, k);
        EntriesRaise(t, p + [k]);
        assert ValueRaises(t, p + [k], true) <==> ValueRaises(t, p + [k], false);
      } else {
        assert HasLeaf(t, p + [k]) && LeafAt(t, p + [k]) == d[k];
        forall q | p + [k] < q ensures !HasLeaf(t, q) { LeavesApart(t, p + [k], q); }
      }
    }
    if Raises(Dict(d)) {
      var k :| k in d && Raises(d[k]);
      assert k in t[p].slots;
      var q :| p + [k] <= q && HasLeaf(t, q) && Raises(LeafAt(t, q));
      assert p < q;
    }
    if q :| p < q && HasLeaf(t, q) && Raises(LeafAt(t, q)) {
      FirstStep(t, p, q);
      assert ValueRaises(t, p + [q[|p|]], true);
      assert Raises(d[q[|p|]]);
    }
  }

  /** A value below `p`, or also at `p`, makes `dejson` raise. */
  ghost predicate ValueRaises(t: Tree, p: Path, orAt: bool) {
    exists q :: (p < q || (orAt && p == q)) && HasLeaf(t, q) && Raises(LeafAt(t, q))
  }

  lemma FirstStep(t: Tree, p: Path, q: Path)
    requires Ok(t) && p in t && p < q && HasLeaf(t, q)
    ensures q[|p|] in t[p].slots && p + [q[|p|]] <= q
  {
    var r := q[|p|..];
    assert q == p + r;
    if |r| == 1 {
      OneStep(p, r[0], p, r[0]);
      assert q == p + [r[0]];
    } else {
      HolderStep(t, p, r);
    }
  }

  // ----- the round trip -----

  /** The parameters `m`, in some order. */
  ghost predicate Lists(ws: seq<Write>, m: map<Path, Json>) {
    && (forall i, j | 0 <= i < j < |ws| :: ws[i].name != ws[j].name)
    && (forall i | 0 <= i < |ws| :: ws[i].name in m && m[ws[i].name] == ws[i].value)
    && (forall q | q in m :: Write(q, m[q]) in ws)
  }

  lemma {:induction false} Enumerate(m: map<Path, Json>) returns (ws: seq<Write>)
    ensures Lists(ws, m)
    decreases |m|
  {
    if m == map[] {
      ws := [];
    } else {
      var q :| q in m;
      var rest := Enumerate(m - {q});
      ListsFirst(rest, m, q);
      ws := [Write(q, m[q])] + rest;
    }
  }

  lemma ListsFirst(rest: seq<Write>, m: map<Path, Json>, q: Path)
    requires q in m && Lists(rest, m - {q})
    ensures Lists([Write(q, m[q])] + rest, m)
  {
    var ws := [Write(q, m[q])] + rest;
    forall r | r in m ensures Write(r, m[r]) in ws {
      if r != q {
        assert r in m - {q};
      }
    }
  }

  lemma {:induction false} LastWriteOf(ws: seq<Write>, k: nat)
    requires AllWellNamed(ws) && k < |ws|
    requires forall i | k < i < |ws| :: ws[i].name != ws[k].name
    ensures var q := ws[k].name[1..]; q in LastWrites(ws) && LastWrites(ws)[q] == ws[k].value
    decreases |ws|
  {
    if k < |ws| - 1 {
      LastWriteOf(ws[..|ws| - 1], k);
      assert ws[k].name == [PROCESS] + ws[k].name[1..] && ws[|ws| - 1].name == [PROCESS] + ws[|ws| - 1].name[1..];
    }
  }

  lemma TopFound(t: Tree, q: Path)
    requires Ok(t)
    ensures Found(JsonDictionary(t), q) ==
            if |q| > 1 && q[0] == PROCESS then Found(Dict(Entries(t, [])), q[1..]) else None
  {
    assert PARAMETERS != PROCESS;
  }

  lemma TopRaises(t: Tree)
    requires Ok(t)
    ensures Raises(JsonDictionary(t)) <==> exists q :: HasLeaf(t, q) && Raises(LeafAt(t, q))
  {
    var d := JsonDictionary(t).entries;
    assert d[PROCESS] == Dict(Entries(t, [])) && PARAMETERS !in d;
    assert Raises(JsonDictionary(t)) <==> Raises(d[PROCESS]);
    EntriesRaise(t, []);
    if q :| HasLeaf(t, q) && Raises(LeafAt(t, q)) {
      assert [] < q;
    }
  }

  /** What `dejson` collects from the dictionaries of a tweak: its parameters with their
      values, and under longer names what the values themselves seem to list. */
  lemma CollectedFromTweak(t: Tree, q: Path)
    requires Ok(t)
    ensures HasLeaf(t, q) ==> Found(JsonDictionary(t), [PROCESS] + q) == Some(LeafAt(t, q))
    ensures !HasLeaf(t, q) ==> (Found(JsonDictionary(t), [PROCESS] + q).Some? <==> Inside(t, [], q))
  {
    TopFound(t, [PROCESS] + q);
    assert ([PROCESS] + q)[1..] == q && [] + q == q;
    if HasLeaf(t, q) {
      LeafFound(t, [], q);
    } else {
      OnlyLeavesFound(t, [], q);
    }
  }

  /** `makeTweakFromJSON(jsondictionary())` succeeds with the same parameters, whatever the
      order in which it adds them. */
  ghost predicate RoundTrips(t: Tree)
    requires Ok(t)
  {
    && !Raises(JsonDictionary(t))
    && forall ws | Lists(ws, Collected(JsonDictionary(t))) :: AddAll(ws).Some? && Leaves(AddAll(ws).value) == Leaves(t)
  }

  ghost predicate AllQuiet(t: Tree) {
    forall q | HasLeaf(t, q) :: Quiet(LeafAt(t, q))
  }

  lemma QuietCollects(t: Tree, q: Path)
    requires Ok(t) && AllQuiet(t)
    ensures q in Collected(JsonDictionary(t)) <==> q != [] && q[0] == PROCESS && HasLeaf(t, q[1..])
    ensures q in Collected(JsonDictionary(t)) ==> Collected(JsonDictionary(t))[q] == LeafAt(t, q[1..])
  {
    CollectedAre(JsonDictionary(t), q);
    TopFound(t, q);
    if q != [] && q[0] == PROCESS {
      var r := q[1..];
      assert q == [PROCESS] + r;
      CollectedFromTweak(t, r);
      forall i | 1 <= i < |r| ensures !InsideAt(t, [], r, i) {
        if HasLeaf(t, [] + r[..i]) { QuietIff(LeafAt(t, [] + r[..i])); }
      }
    }
  }

  /** Adding parameters none of which lies below another, in any order, leaves just those. */
  lemma ApartRebuilds(m: map<Path, Json>, ws: seq<Write>)
    requires Lists(ws, m) && (forall n | n in m :: WellNamed(n)) && (forall n, o | n in m && o in m :: !(n < o))
    ensures AddAll(ws).Some?
    ensures forall q :: q in Leaves(AddAll(ws).value) <==> [PROCESS] + q in m
    ensures forall q :: q in Leaves(AddAll(ws).value) ==> Leaves(AddAll(ws).value)[q] == m[[PROCESS] + q]
  {
    forall w, x | w in ws && x in ws ensures !(w.name < x.name) {
      assert w.name in m && x.name in m;
    }
    PrefixFreeAdds(ws);
    forall q ensures q in LastWrites(ws) <==> [PROCESS] + q in m
             ensures q in LastWrites(ws) ==> LastWrites(ws)[q] == m[[PROCESS] + q] {
      var n := [PROCESS] + q;
      assert n[1..] == q;
      LastWritesKeys(ws, q);
      if n in m {
        var k :| 0 <= k < |ws| && ws[k] == Write(n, m[n]);
        LastWriteOf(ws, k);
      }
    }
  }

  lemma QuietRoundTrip(t: Tree, ws: seq<Write>)
    requires Ok(t) && AllQuiet(t) && Lists(ws, Collected(JsonDictionary(t)))
    ensures AddAll(ws).Some? && Leaves(AddAll(ws).value) == Leaves(t)
  {
    var m := Collected(JsonDictionary(t));
    forall n | n in m ensures WellNamed(n) {
      QuietCollects(t, n);
      LeavesProper(t, n[1..]);
    }
    forall n, o | n in m && o in m ensures !(n < o) {
      QuietCollects(t, n);
      QuietCollects(t, o);
      if n < o {
        LeavesApart(t, n[1..], o[1..]);
      }
    }
    ApartRebuilds(m, ws);
    SameLeaves(t, AddAll(ws).value);
  }

  lemma SameLeaves(t: Tree, t': Tree)
    requires Ok(t) && AllQuiet(t)
    requires forall q :: q in Leaves(t') <==> [PROCESS] + q in Collected(JsonDictionary(t))
    requires forall q :: q in Leaves(t') ==> Leaves(t')[q] == Collected(JsonDictionary(t))[[PROCESS] + q]
    ensures Leaves(t') == Leaves(t)
  {
    forall q ensures q in Leaves(t') <==> q in Leaves(t)
             ensures q in Leaves(t) ==> Leaves(t')[q] == Leaves(t)[q] {
      assert ([PROCESS] + q)[1..] == q;
      LeavesAre(t, q);
      QuietCollects(t, [PROCESS] + q);
    }
  }

  /** A parameter set first, and not overwritten, blocks every name below it. */
  lemma {:induction false} FirstStays(ws: seq<Write>)
    requires ws != [] && AllWellNamed(ws)
    requires forall i | 0 < i < |ws| :: !(ws[i].name <= ws[0].name)
    ensures AddAll(ws).Some? ==> HasLeaf(AddAll(ws).value, ws[0].name[1..])
    ensures AddAll(ws).Some? ==> forall i | 0 < i < |ws| :: !(ws[0].name < ws[i].name)
    decreases |ws|
  {
    var init, last := ws[..|ws| - 1], ws[|ws| - 1];
    var q := ws[0].name[1..];
    AddAllOk(init);
    if AddAll(ws).Some? {
      var t, name := AddAll(init).value, last.name[1..];
      AddSets(t, last.name, last.value);
      assert SetsLeafAt(t, AddAll(ws).value, name, last.value, q);
      if |ws| > 1 {
        FirstStays(init);
        assert last.name == [PROCESS] + name && ws[0].name == [PROCESS] + q;
        if q < name {
          BlockedBelow(t, q, name);
        }
        assert !(ws[0].name < last.name) && !(name <= q);
      }
    }
  }

  lemma BlockedBelow(t: Tree, q: Path, name: Path)
    requires HasLeaf(t, q) && q < name
    ensures Blocked(t, [], name)
  {
    assert [] + name[..|q|] == q;
  }

  /** No value lists a parameter with one of the names that mean something special. */
  ghost predicate InnerProper(t: Tree) {
    forall p, s | HasLeaf(t, p) && Found(LeafAt(t, p), s).Some? :: AllProper(s)
  }

  /** If some parameter lies below another, adding them in the wrong order raises. */
  lemma BelowBreaks(m: map<Path, Json>, p: Path, x: Path) returns (ws: seq<Write>)
    requires p in m && x in m && p < x
    requires forall n | n in m :: WellNamed(n) && (n <= p ==> n == p)
    ensures Lists(ws, m) && AddAll(ws).None?
  {
    var rest := Enumerate(m - {p});
    ListsFirst(rest, m, p);
    ws := [Write(p, m[p])] + rest;
    FirstStays(ws);
    var k :| 0 <= k < |ws| && ws[k] == Write(x, m[x]);
    assert k > 0;
  }

  lemma InsideBreaks(t: Tree, q: Path, r: Path)
    requires Ok(t) && HasLeaf(t, q) && Found(LeafAt(t, q), r).Some?
    requires InnerProper(t)
    ensures !RoundTrips(t)
  {
    var m, p := Collected(JsonDictionary(t)), [PROCESS] + q;
    forall n | n in m ensures WellNamed(n) && (n <= p ==> n == p) {
      CollectedName(t, n);
      CollectedApart(t, n, q);
    }
    CollectedFromTweak(t, q);
    CollectedAre(JsonDictionary(t), p);
    LongerFound(t, q, r);
    assert p < [PROCESS] + (q + r);
    var ws := BelowBreaks(m, p, [PROCESS] + (q + r));
  }

  lemma LongerFound(t: Tree, q: Path, r: Path)
    requires Ok(t) && HasLeaf(t, q) && Found(LeafAt(t, q), r).Some?
    ensures r != [] && [PROCESS] + (q + r) in Collected(JsonDictionary(t))
  {
    CollectedAre(JsonDictionary(t), [PROCESS] + (q + r));
    CollectedFromTweak(t, q + r);
    assert r != [];
    assert [] + (q + r)[..|q|] == q && (q + r)[|q|..] == r;
    assert InsideAt(t, [], q + r, |q|);
    assert q < q + r;
    LeavesApart(t, q, q + r);
  }

  lemma ProperConcat(a: Path, b: Path)
    requires AllProper(a) && AllProper(b)
    ensures AllProper(a + b)
  {
  }

  lemma InsideName(t: Tree, q: Path)
    requires Ok(t) && InnerProper(t) && Inside(t, [], q)
    ensures AllProper(q)
  {
    var i :| 1 <= i < |q| && InsideAt(t, [], q, i);
    assert [] + q[..i] == q[..i] && q == q[..i] + q[i..];
    LeavesProper(t, q[..i]);
    assert AllProper(q[i..]);
    ProperConcat(q[..i], q[i..]);
  }

  lemma CollectedName(t: Tree, name: Path)
    requires Ok(t) && name in Collected(JsonDictionary(t)) && InnerProper(t)
    ensures WellNamed(name)
  {
    var q := SplitCollected(t, name);
    if HasLeaf(t, q) {
      LeavesProper(t, q);
    } else {
      InsideName(t, q);
    }
  }

  lemma SplitCollected(t: Tree, name: Path) returns (q: Path)
    requires Ok(t) && name in Collected(JsonDictionary(t))
    ensures name == [PROCESS] + q && q != [] && (HasLeaf(t, q) || Inside(t, [], q))
  {
    CollectedAre(JsonDictionary(t), name);
    TopFound(t, name);
    q := name[1..];
    assert name == [PROCESS] + q;
    CollectedFromTweak(t, q);
  }

  lemma CollectedApart(t: Tree, name: Path, q: Path)
    requires Ok(t) && name in Collected(JsonDictionary(t)) && HasLeaf(t, q)
    ensures name <= [PROCESS] + q ==> name == [PROCESS] + q
  {
    var r := SplitCollected(t, name);
    if name <= [PROCESS] + q && r != q {
      assert r < q;
      if HasLeaf(t, r) {
        LeavesApart(t, r, q);
      } else {
        InsideApart(t, r, q);
      }
    }
  }

  lemma InsideApart(t: Tree, r: Path, q: Path)
    requires Ok(t) && Inside(t, [], r) && HasLeaf(t, q)
    ensures !(r < q)
  {
    var i :| 1 <= i < |r| && InsideAt(t, [], r, i);
    assert [] + r[..i] == r[..i];
    if r < q {
      assert r[..i] < q;
      LeavesApart(t, r[..i], q);
    }
  }

  /** Writing a tweak as JSON and making a tweak of that gives back the same parameters,
      in every order, if and only if no dictionary inside a value lists a parameter. */
  lemma RoundTripsIffQuiet(t: Tree)
    requires Ok(t)
    requires InnerProper(t)
    ensures RoundTrips(t) <==> AllQuiet(t)
  {
    TopRaises(t);
    if AllQuiet(t) {
      forall q | HasLeaf(t, q) ensures !Raises(LeafAt(t, q)) { QuietIff(LeafAt(t, q)); }
      forall ws | Lists(ws, Collected(JsonDictionary(t)))
        ensures AddAll(ws).Some? && Leaves(AddAll(ws).value) == Leaves(t)
      {
        QuietRoundTrip(t, ws);
      }
    } else {
      var q :| HasLeaf(t, q) && !Quiet(LeafAt(t, q));
      QuietIff(LeafAt(t, q));
      if !Raises(LeafAt(t, q)) {
        var r :| Found(LeafAt(t, q), r).Some?;
        InsideBreaks(t, q, r);
      }
    }
  }

  lemma {:induction false} LastWritesFrom(ws: seq<Write>, q: Path)
    requires AllWellNamed(ws) && q in LastWrites(ws)
    ensures exists i :: 0 <= i < |ws| && ws[i].value == LastWrites(ws)[q]
    decreases |ws|
  {
    var init, last := ws[..|ws| - 1], ws[|ws| - 1];
    if q != last.name[1..] {
      LastWritesFrom(init, q);
      var i :| 0 <= i < |init| && init[i].value == LastWrites(init)[q];
      assert ws[i].value == LastWrites(ws)[q];
    }
  }

  /** A tweak built by any calls with names none of which lies below another, and with
      quiet values, holds the last value of each name, and so does what its JSON makes. */
  lemma TweakRoundTrip(ws: seq<Write>)
    requires AllWellNamed(ws) && PrefixFree(ws) && forall i | 0 <= i < |ws| :: Quiet(ws[i].value)
    ensures AddAll(ws).Some? && Ok(AddAll(ws).value)
    ensures Leaves(AddAll(ws).value) == LastWrites(ws) && RoundTrips(AddAll(ws).value)
  {
    PrefixFreeAdds(ws);
    AddAllOk(ws);
    var t := AddAll(ws).value;
    forall q | HasLeaf(t, q) ensures Quiet(LeafAt(t, q)) {
      LeavesAre(t, q);
      LastWritesFrom(ws, q);
    }
    forall q | HasLeaf(t, q) ensures NothingFound(LeafAt(t, q)) { QuietIff(LeafAt(t, q)); }
    RoundTripsIffQuiet(t);
  }
}
