/** The index of modules: `create_modules_toc_file` of `doc/generate_modules.py`, which leaves
    out what another entry stands for, in one pass over the sorted names. */
module ModuleIndex {
  import opened Common
  import opened Sorting

  /** `m` lies below `p`: `m.startswith(p + '.')` */
  predicate Below(p: string, m: string) {
    p + "." <= m
  }

  /** Something in the list stands for `m` already. */
  ghost predicate HasAncestor(names: set<string>, m: string) {
    exists p :: p in names && Below(p, m)
  }

  /** The pass: only the name kept last is compared. */
  function Kept(prev: string, modules: seq<string>): seq<string>
    decreases |modules|
  {
    if modules == [] then []
    else if Below(prev, modules[0]) then Kept(prev, modules[1..])
    else [modules[0]] + Kept(modules[0], modules[1..])
  }

  /** What the index should hold. */
  ghost function TopNames(modules: seq<string>, names: set<string>): seq<string>
    decreases |modules|
  {
    if modules == [] then []
    else (if HasAncestor(names, modules[0]) then [] else [modules[0]]) + TopNames(modules[1..], names)
  }

  /** The names the pass knows: those of the list, and the empty one it starts with. */
  ghost function Known(modules: seq<string>): set<string> {
    Elements(modules) + {""}
  }

  predicate SortedNames(modules: seq<string>) {
    forall i, j | 0 <= i < j < |modules| :: TextLeq(modules[i], modules[j])
  }

  /** `create_modules_toc_file`: the lines of the index. */
  method CreateModulesTocFile(list: seq<string>) returns (modules: seq<string>, text: seq<string>)
    ensures multiset(modules) == multiset(list) && SortedNames(modules)
    ensures text == Kept("", modules)
  {
    modules := Sort(list, TextLeq);
    TextIsTotal();
    SortIs(list, TextLeq);
    var prev_module := "";
    text := [];
    for i := 0 to |modules|
      invariant text + Kept(prev_module, modules[i..]) == Kept("", modules)
    {
      var module_ := modules[i];
      assert modules[i..][0] == module_ && modules[i..][1..] == modules[i + 1..];
      if Below(prev_module, module_) {
        continue;
      }
      assert text + ([module_] + Kept(module_, modules[i + 1..])) ==
             (text + [module_]) + Kept(module_, modules[i + 1..]);
      prev_module := module_;
      text := text + [module_];
    }
    assert modules[|modules|..] == [];
  }

  // ----- when the pass is right -----

  /** `b` comes between `p`, for which nothing stands, and a name below `p`, without being
      below `p`. */
  ghost predicate Intrudes(names: set<string>, p: string, b: string, m: string) {
    && p in names && b in names && m in names && !HasAncestor(names, p) && Below(p, m)
    && TextLeq(p, b) && TextLeq(b, m) && b != p && !Below(p, b)
  }

  ghost predicate NoIntruders(names: set<string>) {
    forall p, b, m :: !Intrudes(names, p, b, m)
  }

  lemma BelowTransitive(p: string, q: string, m: string)
    requires Below(p, q) && Below(q, m)
    ensures Below(p, m)
  {
    assert q <= m;
  }

  lemma BelowAfter(p: string, m: string)
    requires Below(p, m)
    ensures TextLeq(p, m) && p != m && |p| < |m|
  {
    assert p <= m;
    PrefixFirst(p, m);
  }

  /** If something stands for a name, then something for which nothing does. */
  lemma {:induction false} Topmost(names: set<string>, m: string) returns (p: string)
    requires HasAncestor(names, m)
    ensures p in names && Below(p, m) && !HasAncestor(names, p)
    decreases |m|
  {
    p :| p in names && Below(p, m);
    BelowAfter(p, m);
    if HasAncestor(names, p) {
      var q := Topmost(names, p);
      BelowTransitive(q, p, m);
      p := q;
    }
  }

  lemma AncestorsNested(p: string, q: string, m: string)
    requires Below(p, m) && Below(q, m)
    ensures p == q || Below(p, q) || Below(q, p)
  {
    assert p == m[..|p|] && q == m[..|q|];
    assert p + "." == m[..|p| + 1] && q + "." == m[..|q| + 1];
    if |p| < |q| {
      assert q[..|p| + 1] == m[..|p| + 1];
    } else if |q| < |p| {
      assert p[..|q| + 1] == m[..|q| + 1];
    }
  }

  /** Partway through the pass: `done` are the names passed, `prev` the last of them for which
      nothing stands. */
  ghost predicate Passing(names: set<string>, done: set<string>, prev: string, rest: seq<string>) {
    && names == done + Elements(rest) && "" in done && SortedNames(rest)
    && (forall d, i | d in done && 0 <= i < |rest| :: TextLeq(d, rest[i]))
    && prev in done && !HasAncestor(names, prev)
    && forall q | q in done && !HasAncestor(names, q) :: TextLeq(q, prev)
  }

  lemma PassingStart(modules: seq<string>)
    requires SortedNames(modules)
    ensures Passing(Known(modules), {""}, "", modules)
  {
    forall p ensures !Below(p, "") { assert |p + "."| > 0; }
  }

  lemma PassingNext(names: set<string>, done: set<string>, prev: string, rest: seq<string>)
    requires Passing(names, done, prev, rest) && rest != []
    ensures Passing(names, done + {rest[0]}, if HasAncestor(names, rest[0]) then prev else rest[0], rest[1..])
  {
    var m := rest[0];
    FirstAndRest(rest);
    TextTotal(m, m);
    forall d, i | d in done + {m} && 0 <= i < |rest[1..]| ensures TextLeq(d, rest[1..][i]) {
      assert rest[1..][i] == rest[i + 1];
    }
  }

  lemma FirstAndRest(rest: seq<string>)
    requires rest != []
    ensures Elements(rest) == {rest[0]} + Elements(rest[1..])
  {
    assert rest == [rest[0]] + rest[1..];
  }

  /** What comes before the next name has been passed. */
  lemma PassedBefore(names: set<string>, done: set<string>, prev: string, rest: seq<string>, b: string)
    requires Passing(names, done, prev, rest) && rest != [] && b in names && TextLeq(b, rest[0]) && b != rest[0]
    ensures b in done
  {
    if b !in done {
      assert b in Elements(rest);
      var i :| 0 <= i < |rest| && rest[i] == b;
      TextAntisymmetric(b, rest[0]);
    }
  }

  /** Without intruders the last name kept tells whether something stands for the next. */
  lemma LastKeptTells(names: set<string>, done: set<string>, prev: string, rest: seq<string>)
    requires Passing(names, done, prev, rest) && rest != [] && NoIntruders(names)
    ensures HasAncestor(names, rest[0]) <==> Below(prev, rest[0])
  {
    var m := rest[0];
    if HasAncestor(names, m) {
      var p := Topmost(names, m);
      BelowAfter(p, m);
      PassedBefore(names, done, prev, rest, p);
      assert m in Elements(rest);
      assert TextLeq(p, prev) && TextLeq(prev, m);
      assert !Intrudes(names, p, prev, m);
      assert !Below(p, prev);
    }
  }

  lemma {:induction false} PassIsRight(names: set<string>, done: set<string>, prev: string, rest: seq<string>)
    requires Passing(names, done, prev, rest) && NoIntruders(names)
    ensures Kept(prev, rest) == TopNames(rest, names)
    decreases |rest|
  {
    if rest != [] {
      LastKeptTells(names, done, prev, rest);
      PassingNext(names, done, prev, rest);
      PassIsRight(names, done + {rest[0]}, if HasAncestor(names, rest[0]) then prev else rest[0], rest[1..]);
    }
  }

  lemma {:induction false} TopNamesAre(modules: seq<string>, names: set<string>, m: string)
    ensures m in TopNames(modules, names) <==> m in modules && !HasAncestor(names, m)
    decreases |modules|
  {
    if modules != [] {
      TopNamesAre(modules[1..], names, m);
      assert m in modules <==> m == modules[0] || m in modules[1..];
    }
  }

  /** A right pass decides rightly about every single name. */
  lemma RightStep(names: set<string>, done: set<string>, prev: string, rest: seq<string>)
    requires Passing(names, done, prev, rest) && rest != [] && Kept(prev, rest) == TopNames(rest, names)
    ensures HasAncestor(names, rest[0]) <==> Below(prev, rest[0])
  {
    if !Below(prev, rest[0]) {
      assert Kept(prev, rest)[0] == rest[0];
      assert rest[0] in TopNames(rest, names);
      TopNamesAre(rest, names, rest[0]);
    }
  }

  ghost predicate CleanUpTo(names: set<string>, done: set<string>) {
    forall p, b, m | m in done :: !Intrudes(names, p, b, m)
  }

  lemma CleanAt(names: set<string>, done: set<string>, p: string, b: string, m: string)
    requires CleanUpTo(names, done) && m in done
    ensures !Intrudes(names, p, b, m)
  {
  }

  /** If the pass decides rightly about a name, nothing intrudes before it. */
  lemma NoneIntrudes(names: set<string>, done: set<string>, prev: string, rest: seq<string>, p: string, b: string)
    requires Passing(names, done, prev, rest) && rest != [] && CleanUpTo(names, done)
    requires HasAncestor(names, rest[0]) <==> Below(prev, rest[0])
    ensures !Intrudes(names, p, b, rest[0])
  {
    var m := rest[0];
    if Intrudes(names, p, b, m) {
      AncestorsNested(p, prev, m);
      assert p == prev;
      PassedBefore(names, done, prev, rest, b);
      if !HasAncestor(names, b) {
        TextAntisymmetric(b, p);
      } else {
        var q := Topmost(names, b);
        BelowAfter(q, b);
        TextTransitive(q, b, m);
        if q == m { TextAntisymmetric(b, m); }
        PassedBefore(names, done, prev, rest, q);
        CleanAt(names, done, q, p, b);
      }
    }
  }

  lemma {:induction false} RightMeansClean(names: set<string>, done: set<string>, prev: string, rest: seq<string>)
    requires Passing(names, done, prev, rest) && CleanUpTo(names, done) && Kept(prev, rest) == TopNames(rest, names)
    ensures NoIntruders(names)
    decreases |rest|
  {
    if rest == [] {
      forall p, b, m ensures !Intrudes(names, p, b, m) { }
    } else {
      RightStep(names, done, prev, rest);
      forall p, b ensures !Intrudes(names, p, b, rest[0]) { NoneIntrudes(names, done, prev, rest, p, b); }
      PassingNext(names, done, prev, rest);
      var top := TopNames(rest[1..], names);
      var kept := if Below(prev, rest[0]) then Kept(prev, rest[1..]) else Kept(rest[0], rest[1..]);
      assert !Below(prev, rest[0]) ==> ([rest[0]] + kept)[1..] == kept && ([rest[0]] + top)[1..] == top;
      RightMeansClean(names, done + {rest[0]}, if HasAncestor(names, rest[0]) then prev else rest[0], rest[1..]);
    }
  }

  /** The pass leaves out exactly the names for which another one stands if, and only if, in
      sorted order nothing else comes between a name and those below it. */
  lemma IndexIsRightIff(modules: seq<string>)
    requires SortedNames(modules)
    ensures Kept("", modules) == TopNames(modules, Known(modules)) <==> NoIntruders(Known(modules))
  {
    PassingStart(modules);
    if NoIntruders(Known(modules)) {
      PassIsRight(Known(modules), {""}, "", modules);
    } else if Kept("", modules) == TopNames(modules, Known(modules)) {
      forall p ensures !Below(p, "") { assert |p + "."| > 0; }
      RightMeansClean(Known(modules), {""}, "", modules);
    }
  }

  /** What the index holds when the pass is right: the names that do not begin with another name,
      or with nothing, and a dot. */
  lemma {:induction false} TopNamesHold(modules: seq<string>, names: set<string>, m: string)
    ensures m in TopNames(modules, names) <==> m in modules && !exists p :: p in names && p + "." <= m
    decreases |modules|
  {
    if modules != [] {
      TopNamesHold(modules[1..], names, m);
      assert m in modules <==> m == modules[0] || m in modules[1..];
      assert HasAncestor(names, m) <==> exists p :: p in names && p + "." <= m by {
        if p :| p in names && p + "." <= m { assert Below(p, m); }
        if HasAncestor(names, m) {
          var p :| p in names && Below(p, m);
          assert p + "." <= m;
        }
      }
    }
  }

  lemma IndexHolds(modules: seq<string>, m: string)
    requires SortedNames(modules) && NoIntruders(Known(modules))
    ensures m in Kept("", modules) <==> m in modules && !exists p :: (p in modules || p == "") && p + "." <= m
  {
    IndexIsRightIff(modules);
    TopNamesHold(modules, Known(modules), m);
    assert forall p :: p in Known(modules) <==> p in modules || p == "";
  }

  // ----- names that keep descendants together -----

  /** No character sorts before the dot, as with letters, digits and underscores. */
  predicate Plain(name: string) {
    forall i | 0 <= i < |name| :: name[i] >= '.'
  }

  /** What comes between a name and one below it is below it too. */
  lemma {:induction false} BelowContiguous(p: string, b: string, m: string)
    requires Plain(b) && Below(p, m) && TextLeq(p, b) && TextLeq(b, m) && b != p
    ensures Below(p, b)
    decreases |p|
  {
    assert (p + ".")[|p|] == '.' && m[|p|] == '.';
    if p != [] {
      assert m[0] == (p + ".")[0] == p[0];
      assert b == [b[0]] + b[1..] && p == [p[0]] + p[1..] && m == [m[0]] + m[1..];
      assert p + "." == [p[0]] + (p[1..] + ".");
      BelowContiguous(p[1..], b[1..], m[1..]);
    }
  }

  /** With plain names the pass is right. */
  lemma PlainNamesRight(modules: seq<string>)
    requires SortedNames(modules) && forall i | 0 <= i < |modules| :: Plain(modules[i])
    ensures Kept("", modules) == TopNames(modules, Known(modules))
  {
    forall p, b, m ensures !Intrudes(Known(modules), p, b, m) {
      if Intrudes(Known(modules), p, b, m) {
        BelowContiguous(p, b, m);
      }
    }
    IndexIsRightIff(modules);
  }

  /** A hyphen sorts before the dot: here `a.c` is listed although `a` is. */
  lemma HyphenBreaksPass()
    ensures var modules := ["a", "a-b", "a.c"];
            SortedNames(modules) && Kept("", modules) == modules && HasAncestor(Known(modules), "a.c")
  {
    var modules := ["a", "a-b", "a.c"];
    assert modules[1..] == ["a-b", "a.c"] && modules[1..][1..] == ["a.c"] && modules[1..][1..][1..] == [];
    assert TextLeq("", "-b") && TextLeq("", ".c") && "-b"[0] < ".c"[0];
    assert TextLeq("-b", ".c");
    assert "a"[1..] == "" && "a-b"[1..] == "-b" && "a.c"[1..] == ".c";
    assert "" + "." == "." && "a" + "." == "a." && "a-b" + "." == "a-b.";
    assert "a."[1] == '.' && "a-b"[1] == '-' && "a-b."[1] == '-' && "a.c"[1] == '.';
    assert "a" in Elements(modules) && Below("a", "a.c");
    assert Kept("a-b", ["a.c"]) == ["a.c"];
    assert Kept("a", ["a-b", "a.c"]) == ["a-b", "a.c"];
  }
}
