/** Tweaks and their dictionaries, name by name. */
module PSetShapes {
  import opened Common
  import opened PSetTree
  import opened PSetJson
  import opened PSetScript

  // ----- dictionaries -----

  /** Look up keys, one dictionary inside the other. */
  function Follow(j: Json, keys: Path): Option<Json>
    decreases |keys|
  {
    if keys == [] then Some(j)
    else if j.Dict? && keys[0] in j.entries then Follow(j.entries[keys[0]], keys[1..])
    else None
  }

  lemma {:induction false} FollowEntries(t: Tree, p: Path, q: Path)
    requires Ok(t) && p in t && p + q in t
    ensures Follow(Dict(Entries(t, p)), q) == Some(Dict(Entries(t, p + q)))
    decreases |q|
  {
    if q == [] {
      assert p + q == p;
    } else {
      var r := p + [q[0]];
      assert p + q == r + q[1..];
      Ancestors(t, p + q, |p| + 1);
      assert (p + q)[..|p| + 1] == r;
      assert IsChild(t, r) && Front(r) == p && Last(r) == q[0] && SlotOk(t, p, q[0]);
      FollowEntries(t, r, q[1..]);
      assert Entries(t, p)[q[0]] == EntryOf(t, p, q[0]) == Dict(Entries(t, r));
    }
  }

  lemma {:induction false} FollowSnoc(j: Json, keys: Path, k: string)
    ensures Follow(j, keys + [k]) ==
            match Follow(j, keys)
            case None => None
            case Some(d) => if d.Dict? && k in d.entries then Some(d.entries[k]) else None
    decreases |keys|
  {
    if keys == [] {
      assert keys + [k] == [k] && [k][1..] == [];
    } else {
      assert (keys + [k])[1..] == keys[1..] + [k];
      if j.Dict? && keys[0] in j.entries { FollowSnoc(j.entries[keys[0]], keys[1..], k); }
    }
  }

  /** The JSON of a tweak has a dictionary for each holder, under the names that lead to it: the
      attributes of the holder, and the names of its parameters in order. */
  lemma HolderInJson(t: Tree, p: Path)
    requires Ok(t) && p in t
    ensures var d := Follow(JsonDictionary(t), ["process"] + p);
            && d.Some? && d.value.Dict? && d.value.entries.Keys == t[p].slots.Keys + {"parameters_"}
            && d.value.entries["parameters_"].Items?
            && var items := d.value.entries["parameters_"].items;
               |items| == |t[p].parameters| && forall i | 0 <= i < |items| :: items[i] == Text(t[p].parameters[i])
  {
    var j := JsonDictionary(t);
    assert [] + p == p;
    FollowEntries(t, [], p);
    assert (["process"] + p)[1..] == p;
    assert Follow(j, ["process"] + p) == Follow(j.entries["process"], p);
    assert Entries(t, p)["parameters_"] == EntryOf(t, p, "parameters_");
  }

  /** And each parameter has its value there, under its name. */
  lemma ParameterInJson(t: Tree, q: Path)
    requires Ok(t) && HasLeaf(t, q)
    ensures Follow(JsonDictionary(t), ["process"] + q) == Some(LeafAt(t, q))
  {
    var p, c := Front(q), Last(q);
    assert ["process"] + q == (["process"] + p) + [c];
    FollowSnoc(JsonDictionary(t), ["process"] + p, c);
    var j := JsonDictionary(t);
    assert [] + p == p;
    FollowEntries(t, [], p);
    assert (["process"] + p)[1..] == p;
    assert Follow(j, ["process"] + p) == Follow(j.entries["process"], p);
    assert SlotOk(t, p, c);
    assert Entries(t, p)[c] == EntryOf(t, p, c);
  }

  // ----- collecting -----

  /** What is collected from a dictionary: under each name it lists what it has there, and under
      longer names what is collected from the dictionaries in it. */
  lemma FoundInDictionary(d: map<string, Json>, names: seq<string>, k: string, q: Path)
    requires "parameters_" in d ==> d["parameters_"] == Texts(names)
    requires "parameters_" !in d ==> names == []
    ensures Found(Dict(d), [k]) == if k in names && k in d then Some(d[k]) else None
    ensures q != [] ==> Found(Dict(d), [k] + q) == if k in d then Found(d[k], q) else None
    ensures Raises(Dict(d)) <==> (exists n :: n in names && n !in d) || exists n :: n in d && Raises(d[n])
  {
    TextsIterated(names);
    assert names == [] ==> Elements(names) == {};
    assert Listed(d) == Some(Elements(names));
    assert [k][0] == k && ([k] + q)[1..] == q;
  }

  lemma PlainValuesAreQuiet(j: Json, q: Path)
    requires !j.Dict?
    ensures Found(j, q).None? && !Raises(j)
  {
  }

  /** A string that stands where a list of names should be is taken apart into characters. */
  lemma StringsAreListsOfCharacters(d: map<string, Json>, chars: string, k: string)
    requires "parameters_" in d && d["parameters_"] == Text(chars)
    ensures Found(Dict(d), [k]) == if |k| == 1 && k[0] in chars && k in d then Some(d[k]) else None
  {
    assert |k| == 1 ==> k == [k[0]];
  }

  // ----- adding -----

  /** The first parameter of a holder of its own. */
  lemma FirstParameter(a: string, b: string, v: Json)
    requires a !in {"process", "parameters_", "psetName_"} && b !in {"process", "parameters_", "psetName_"}
    ensures Add(EMPTY, ["process", a, b], v) ==
            Some(map[[] := PSet("process", [], map[a := Holder]), [a] := PSet(a, [b], map[b := Value(v)])])
    ensures Add(EMPTY, ["process", b], v) == Some(map[[] := PSet("process", [b], map[b := Value(v)])])
  {
    OneValue(b, v);
    var name := ["process", a, b];
    assert name[1..] == [a, b];
    assert Add(EMPTY, name, v) == Walk(EMPTY, At([]), [a, b], v);
    var t1 := SetHolder(EMPTY, [], a);
    assert [] + [a] == [a];
    assert t1 == map[[] := PSet("process", [], map[a := Holder]), [a] := PSet(a, [], map[])];
    assert [a, b][1..] == [b] && [a, b][0] == a;
    assert Walk(EMPTY, At([]), [a, b], v) == Walk(t1, At([a]), [b], v);
    assert Walk(t1, At([a]), [b], v) == Some(SetValue(t1, [a], b, v));
    var none: seq<string>, slots: map<string, Slot> := [], map[];
    assert none + [b] == [b] && slots[b := Value(v)] == map[b := Value(v)];
    assert SetValue(t1, [a], b, v)[[a]] == PSet(a, [b], map[b := Value(v)]);
    assert SetValue(t1, [a], b, v) ==
           map[[] := PSet("process", [], map[a := Holder]), [a] := PSet(a, [b], map[b := Value(v)])];
  }

  lemma OneValue(b: string, v: Json)
    requires b !in {"process", "parameters_", "psetName_"}
    ensures Add(EMPTY, ["process", b], v) == Some(map[[] := PSet("process", [b], map[b := Value(v)])])
  {
    var name := ["process", b];
    assert name[1..] == [b] && [] + [b] == [b];
    assert Add(EMPTY, name, v) == Walk(EMPTY, At([]), [b], v);
    assert Walk(EMPTY, At([]), [b], v) == Some(SetValue(EMPTY, [], b, v));
    var none: seq<string>, slots: map<string, Slot> := [], map[];
    assert none + [b] == [b] && slots[b := Value(v)] == map[b := Value(v)];
    assert SetValue(EMPTY, [], b, v)[[]] == PSet("process", [b], map[b := Value(v)]);
    assert SetValue(EMPTY, [], b, v) == map[[] := PSet("process", [b], map[b := Value(v)])];
  }

  /** Before `process` is named there is nothing to set an attribute on. */
  lemma NamesStartWithProcess(t: Tree, name: Path, v: Json)
    requires name != [] && name[0] != "process"
    ensures Add(t, name, v).None?
  {
  }

  /** The last value given to a name: that of the last call for it. */
  lemma {:induction false} LastWritesIff(ws: seq<Write>, q: Path, v: Json)
    requires AllWellNamed(ws)
    ensures q in LastWrites(ws) && LastWrites(ws)[q] == v <==>
            exists k :: 0 <= k < |ws| && ws[k] == Write(["process"] + q, v)
                        && forall i | k < i < |ws| :: ws[i].name != ws[k].name
    decreases |ws|
  {
    forall k | 0 <= k < |ws| && ws[k] == Write(["process"] + q, v)
               && forall i | k < i < |ws| :: ws[i].name != ws[k].name
      ensures q in LastWrites(ws) && LastWrites(ws)[q] == v
    {
      LastWriteOf(ws, k);
      assert (["process"] + q)[1..] == q;
    }
    if ws != [] && q in LastWrites(ws) && LastWrites(ws)[q] == v {
      var init, last := ws[..|ws| - 1], ws[|ws| - 1];
      assert last.name == ["process"] + last.name[1..];
      if last.name[1..] == q {
        assert ws[|ws| - 1] == Write(["process"] + q, v);
      } else {
        LastWritesIff(init, q, v);
        var k :| 0 <= k < |init| && init[k] == Write(["process"] + q, v)
                 && forall i | k < i < |init| :: init[i].name != init[k].name;
        assert (["process"] + q)[1..] == q;
        assert ws[k] == init[k];
        forall i | k < i < |ws| ensures ws[i].name != ws[k].name {
          assert i < |init| ==> ws[i] == init[i];
        }
      }
    }
  }

  // ----- dotted names -----

  /** One more name is put behind a dot. */
  lemma {:induction false} DottedSnoc(p: Path, c: string)
    requires p != []
    ensures Dotted(p + [c]) == Dotted(p) + "." + c && Dotted([c]) == c
    decreases |p|
  {
    assert (p + [c])[1..] == p[1..] + [c];
    if |p| == 1 {
      assert p + [c] == [p[0], c] && [p[0], c][1..] == [c];
    } else {
      DottedSnoc(p[1..], c);
      assert p[0] + "." + (Dotted(p[1..]) + "." + c) == p[0] + "." + Dotted(p[1..]) + "." + c;
    }
  }
}
