/** Looking parameters up by name, and by names with wildcards: `PSetTweaks/WMTweak.py`. */
module WMTweak {
  import opened Common

  /** A dotted name below `process`, split at its dots. */
  type Path = seq<string>

  const STAR := "*"

  /** A configuration object: Python's `None`, a parameter, or something with `parameters_`,
      which has attributes and lists some of them as its parameters. */
  datatype Node =
    | Null
    | Leaf(value: string)
    | PSet(attrs: map<string, Node>, listed: seq<string>)

  // ----- what names mean -----

  /** Follow attributes. */
  function At(n: Node, path: Path): Option<Node>
    decreases |path|
  {
    if path == [] then Some(n)
    else if n.PSet? && path[0] in n.attrs then At(n.attrs[path[0]], path[1..])
    else None
  }

  /** The path exists and matches the pattern: a star stands for any listed parameter, any
      other component for itself. */
  predicate Match(n: Node, pattern: Path, path: Path)
    decreases |path|
  {
    if path == [] || pattern == [] then path == pattern
    else
      && n.PSet? && path[0] in n.attrs
      && (if pattern[0] == STAR then path[0] in n.listed else path[0] == pattern[0])
      && Match(n.attrs[path[0]], pattern[1..], path[1..])
  }

  lemma {:induction false} MatchExists(n: Node, pattern: Path, path: Path)
    requires Match(n, pattern, path)
    ensures |path| == |pattern| && At(n, path).Some?
    decreases |path|
  {
    if path != [] && pattern != [] { MatchExists(n.attrs[path[0]], pattern[1..], path[1..]); }
  }

  lemma {:induction false} AtSnoc(n: Node, p: Path, c: string)
    ensures At(n, p + [c]) == match At(n, p)
                              case Some(m) => if m.PSet? && c in m.attrs then Some(m.attrs[c]) else None
                              case None => None
    decreases |p|
  {
    if p == [] {
      assert [c][1..] == [];
      assert p + [c] == [c];
    } else {
      assert (p + [c])[1..] == p[1..] + [c];
      if n.PSet? && p[0] in n.attrs { AtSnoc(n.attrs[p[0]], p[1..], c); }
    }
  }

  lemma {:induction false} MatchSnoc(n: Node, pattern: Path, d: string, p: Path, c: string)
    ensures Match(n, pattern + [d], p + [c]) <==>
            && Match(n, pattern, p) && At(n, p).Some?
            && var m := At(n, p).value; m.PSet? && c in m.attrs && if d == STAR then c in m.listed else c == d
    decreases |p|
  {
    if p == [] {
      assert p + [c] == [c] && [c][1..] == [];
      if pattern == [] {
        assert pattern + [d] == [d] && [d][1..] == [];
      } else {
        assert (pattern + [d])[1..] == pattern[1..] + [d];
      }
    } else if pattern == [] {
      assert pattern + [d] == [d] && [d][1..] == [] && (p + [c])[1..] == p[1..] + [c];
    } else {
      assert (p + [c])[1..] == p[1..] + [c] && (pattern + [d])[1..] == pattern[1..] + [d];
      if n.PSet? && p[0] in n.attrs { MatchSnoc(n.attrs[p[0]], pattern[1..], d, p[1..], c); }
    }
  }

  // ----- the results of an expansion -----

  /** The holders that the first `k` components of the pattern lead to. */
  predicate Reached(root: Node, pattern: Path, k: nat, p: Path)
    requires k <= |pattern|
  {
    Match(root, pattern[..k], p) && At(root, p).Some? && At(root, p).value.PSet?
  }

  /** The entry of the result under the name `q`: a parameter found at the last component of
      the pattern or at one that is no star; `None` for a missing attribute at one that is
      no star. */
  function Expected(root: Node, pattern: Path, q: Path): Option<Node> {
    var k := |q|;
    if k == 0 || k > |pattern| then None
    else if Match(root, pattern[..k], q) && At(root, q).Some? then
      if !At(root, q).value.PSet? && (k == |pattern| || pattern[k - 1] != STAR) then At(root, q) else None
    else if Reached(root, pattern, k - 1, Front(q)) && pattern[k - 1] != STAR && Last(q) == pattern[k - 1]
    then Some(Null)
    else None
  }

  /** A star meets a holder that lists an attribute it does not have. */
  ghost predicate ListsMissing(root: Node, pattern: Path, k: nat)
    requires k <= |pattern|
  {
    exists j, p :: 0 <= j < k && pattern[j] == STAR && Reached(root, pattern, j, p) && !ListOk(At(root, p).value)
  }

  predicate ListOk(n: Node)
    requires n.PSet?
  {
    forall i | 0 <= i < |n.listed| :: n.listed[i] in n.attrs
  }

  // ----- one level -----

  type Found = map<Path, Node>

  ghost predicate HoldsReached(last: Found, root: Node, pattern: Path, k: nat)
    requires k <= |pattern|
  {
    forall p :: (p in last <==> Reached(root, pattern, k, p)) && (p in last ==> last[p] == At(root, p).value)
  }

  ghost predicate HoldsExpected(final: Found, root: Node, pattern: Path, k: nat) {
    forall q :: (q in final <==> |q| <= k && Expected(root, pattern, q).Some?)
                && (q in final ==> final[q] == Expected(root, pattern, q).value)
  }

  /** After the holders `done` of level `k`. */
  ghost predicate Partway(next: Found, final: Found, root: Node, pattern: Path, k: nat, done: set<Path>)
    requires k < |pattern|
  {
    PartOfNext(next, root, pattern, k, done) && PartOfFinal(final, root, pattern, k, done)
  }

  ghost predicate PartOfNext(next: Found, root: Node, pattern: Path, k: nat, done: set<Path>)
    requires k < |pattern|
  {
    forall q :: (q in next <==> q != [] && Front(q) in done && Reached(root, pattern, k + 1, q))
                && (q in next ==> next[q] == At(root, q).value)
  }

  ghost predicate PartOfFinal(final: Found, root: Node, pattern: Path, k: nat, done: set<Path>) {
    forall q :: (q in final <==> Expected(root, pattern, q).Some? && (|q| <= k || (|q| == k + 1 && Front(q) in done)))
                && (q in final ==> final[q] == Expected(root, pattern, q).value)
  }

  /** What the holder `m` at `p` contributes below it: its children of level `k + 1`. */
  lemma Children(root: Node, pattern: Path, k: nat, p: Path, c: string)
    requires k < |pattern| && Reached(root, pattern, k, p)
    ensures var m, d, q := At(root, p).value, pattern[k], p + [c];
            var here := c in m.attrs && if d == STAR then c in m.listed else c == d;
            && Front(q) == p && Last(q) == c
            && (Reached(root, pattern, k + 1, q) <==> here && m.attrs[c].PSet?)
            && (here ==> At(root, q) == Some(m.attrs[c]))
            && Expected(root, pattern, q) ==
                 if here && !m.attrs[c].PSet? && (k + 1 == |pattern| || d != STAR) then Some(m.attrs[c])
                 else if !here && d != STAR && c == d then Some(Null)
                 else None
  {
    MatchExists(root, pattern[..k], p);
    assert Front(p + [c]) == p && Last(p + [c]) == c;
    assert pattern[..k + 1] == pattern[..k] + [pattern[k]];
    MatchSnoc(root, pattern[..k], pattern[k], p, c);
    AtSnoc(root, p, c);
  }

  /** Nothing is expected or reached below a name that is no holder of the level before. */
  lemma NoOrphans(root: Node, pattern: Path, k: nat, q: Path)
    requires k < |pattern| && q != []
    ensures Reached(root, pattern, k + 1, q) ==> |q| == k + 1 && Reached(root, pattern, k, Front(q))
    ensures |q| == k + 1 && Expected(root, pattern, q).Some? ==> Reached(root, pattern, k, Front(q))
  {
    assert q == Front(q) + [Last(q)] && pattern[..k + 1] == pattern[..k] + [pattern[k]];
    MatchSnoc(root, pattern[..k], pattern[k], Front(q), Last(q));
    if Reached(root, pattern, k + 1, q) { MatchExists(root, pattern[..k + 1], q); }
  }

  /** `q` names a listed attribute of the holder `m` at `p`, a holder or not. */
  ghost predicate Adds(p: Path, m: Node, holder: bool, q: Path)
    requires m.PSet?
  {
    q != [] && Front(q) == p && Last(q) in m.listed && Last(q) in m.attrs && m.attrs[Last(q)].PSet? == holder
  }

  /** `now` is `before` with those of the attributes `names` of `m` that are (no) holders. */
  ghost predicate Gains(now: Found, before: Found, p: Path, m: Node, holder: bool, names: seq<string>)
    requires m.PSet?
  {
    forall q :: var gained := Adds(p, m, holder, q) && Last(q) in names;
                && (q in now <==> q in before || gained)
                && (q in now ==> now[q] == if gained then m.attrs[Last(q)] else before[q])
  }

  lemma GainsOne(now: Found, before: Found, p: Path, m: Node, holder: bool, names: seq<string>, c: string)
    requires m.PSet? && Gains(now, before, p, m, holder, names) && c in m.listed && c in m.attrs
    ensures Gains(if m.attrs[c].PSet? == holder then now[p + [c] := m.attrs[c]] else now,
                  before, p, m, holder, names + [c])
  {
    assert Front(p + [c]) == p && Last(p + [c]) == c;
    assert forall d :: d in names + [c] <==> d in names || d == c;
    forall q | q != [] && Front(q) == p ensures Last(q) == c <==> q == p + [c] { assert q == Front(q) + [Last(q)]; }
  }

  /** The inner loop for a star; `last` says that no component of the pattern is left. */
  method StepStar(p: Path, m: Node, last: bool, next: Found, final: Found)
    returns (ok: bool, next': Found, final': Found)
    requires m.PSet?
    ensures ok == ListOk(m)
    ensures ok ==> Gains(next', next, p, m, true, m.listed)
    ensures ok ==> if last then Gains(final', final, p, m, false, m.listed) else final' == final
  {
    next', final' := next, final;
    var i := 0;
    while i < |m.listed|
      invariant 0 <= i <= |m.listed| && forall j | 0 <= j < i :: m.listed[j] in m.attrs
      invariant Gains(next', next, p, m, true, m.listed[..i])
      invariant if last then Gains(final', final, p, m, false, m.listed[..i]) else final' == final
    {
      var param := m.listed[i];
      if param !in m.attrs {
        return false, next', final';
      }
      GainsOne(next', next, p, m, true, m.listed[..i], param);
      if last { GainsOne(final', final, p, m, false, m.listed[..i], param); }
      assert m.listed[..i + 1] == m.listed[..i] + [param];
      var newResultKey, newResultVal := p + [param], m.attrs[param];
      if newResultVal.PSet? {
        next' := next'[newResultKey := newResultVal];
      } else if last {
        final' := final'[newResultKey := newResultVal];
      }
      i := i + 1;
    }
    assert m.listed[..i] == m.listed;
    ok := true;
  }

  lemma StarStep(next: Found, final: Found, next': Found, final': Found, root: Node, pattern: Path, k: nat,
                 done: set<Path>, p: Path)
    requires k < |pattern| && pattern[k] == STAR && Reached(root, pattern, k, p) && p !in done
    requires Partway(next, final, root, pattern, k, done)
    requires var m := At(root, p).value;
             && Gains(next', next, p, m, true, m.listed)
             && (if k + 1 == |pattern| then Gains(final', final, p, m, false, m.listed) else final' == final)
    ensures Partway(next', final', root, pattern, k, done + {p})
  {
    forall q | q != [] && Front(q) == p ensures StarredChild(root, pattern, k, p, q) {
      StarChild(root, pattern, k, p, q);
    }
  }

  /** What `q`, a name one step below the holder at `p`, is when the pattern goes on with a star. */
  ghost predicate StarredChild(root: Node, pattern: Path, k: nat, p: Path, q: Path)
    requires k < |pattern| && Reached(root, pattern, k, p)
  {
    var m := At(root, p).value;
    && |q| == k + 1
    && (Reached(root, pattern, k + 1, q) <==> Adds(p, m, true, q))
    && (Expected(root, pattern, q).Some? <==> k + 1 == |pattern| && Adds(p, m, false, q))
    && (Adds(p, m, true, q) || Adds(p, m, false, q) ==> At(root, q) == Some(m.attrs[Last(q)]))
  }

  lemma StarChild(root: Node, pattern: Path, k: nat, p: Path, q: Path)
    requires k < |pattern| && pattern[k] == STAR && Reached(root, pattern, k, p) && q != [] && Front(q) == p
    ensures StarredChild(root, pattern, k, p, q)
  {
    MatchExists(root, pattern[..k], p);
    assert q == p + [Last(q)];
    Children(root, pattern, k, p, Last(q));
  }

  lemma NameStep(next: Found, final: Found, root: Node, pattern: Path, k: nat, done: set<Path>, p: Path)
    requires k < |pattern| && pattern[k] != STAR && Reached(root, pattern, k, p) && p !in done
    requires Partway(next, final, root, pattern, k, done)
    ensures var m, c := At(root, p).value, pattern[k];
            var value := if c in m.attrs then m.attrs[c] else Null;
            Partway(if value.PSet? then next[p + [c] := value] else next,
                    if value.PSet? then final else final[p + [c] := value], root, pattern, k, done + {p})
  {
    var m, c := At(root, p).value, pattern[k];
    var value := if c in m.attrs then m.attrs[c] else Null;
    NameStepNext(next, root, pattern, k, done, p);
    NameStepFinal(final, root, pattern, k, done, p);
    assert Partway(if value.PSet? then next[p + [c] := value] else next,
                   if value.PSet? then final else final[p + [c] := value], root, pattern, k, done + {p});
  }

  lemma NameStepNext(next: Found, root: Node, pattern: Path, k: nat, done: set<Path>, p: Path)
    requires k < |pattern| && pattern[k] != STAR && Reached(root, pattern, k, p)
             && PartOfNext(next, root, pattern, k, done)
    ensures var m, c := At(root, p).value, pattern[k];
            PartOfNext(if c in m.attrs && m.attrs[c].PSet? then next[p + [c] := m.attrs[c]] else next,
                       root, pattern, k, done + {p})
  {
    forall q | q != [] && Front(q) == p ensures NamedChild(root, pattern, k, p, q) {
      NameChild(root, pattern, k, p, q);
    }
    assert Front(p + [pattern[k]]) == p;
  }

  lemma NameStepFinal(final: Found, root: Node, pattern: Path, k: nat, done: set<Path>, p: Path)
    requires k < |pattern| && pattern[k] != STAR && Reached(root, pattern, k, p)
             && PartOfFinal(final, root, pattern, k, done)
    ensures var m, c := At(root, p).value, pattern[k];
            var value := if c in m.attrs then m.attrs[c] else Null;
            PartOfFinal(if value.PSet? then final else final[p + [c] := value], root, pattern, k, done + {p})
  {
    forall q | q != [] && Front(q) == p ensures NamedChild(root, pattern, k, p, q) {
      NameChild(root, pattern, k, p, q);
    }
    assert Front(p + [pattern[k]]) == p;
  }

  /** What `q`, a name one step below the holder at `p`, is when the pattern goes on with a
      component that is no star. */
  ghost predicate NamedChild(root: Node, pattern: Path, k: nat, p: Path, q: Path)
    requires k < |pattern| && Reached(root, pattern, k, p)
  {
    var m, c := At(root, p).value, pattern[k];
    && |q| == k + 1
    && (Reached(root, pattern, k + 1, q) <==> q == p + [c] && c in m.attrs && m.attrs[c].PSet?)
    && (Expected(root, pattern, q).Some? <==> q == p + [c] && !(c in m.attrs && m.attrs[c].PSet?))
    && (q == p + [c] && c in m.attrs ==> At(root, q) == Some(m.attrs[c]))
    && (Expected(root, pattern, q).Some? ==>
          Expected(root, pattern, q).value == if c in m.attrs then m.attrs[c] else Null)
  }

  lemma NameChild(root: Node, pattern: Path, k: nat, p: Path, q: Path)
    requires k < |pattern| && pattern[k] != STAR && Reached(root, pattern, k, p) && q != [] && Front(q) == p
    ensures NamedChild(root, pattern, k, p, q)
  {
    MatchExists(root, pattern[..k], p);
    assert q == p + [Last(q)];
    Children(root, pattern, k, p, Last(q));
    assert Last(p + [pattern[k]]) == pattern[k];
  }

  /** One turn of the outer loop: from the holders of level `k` to those of level `k + 1`. */
  method Level(last: Found, final: Found, ghost root: Node, pattern: Path, k: nat)
    returns (ok: bool, next: Found, final': Found)
    requires k < |pattern| && HoldsReached(last, root, pattern, k) && HoldsExpected(final, root, pattern, k)
    ensures ok == !(pattern[k] == STAR && exists p :: p in last && !ListOk(At(root, p).value))
    ensures ok ==> HoldsReached(next, root, pattern, k + 1) && HoldsExpected(final', root, pattern, k + 1)
  {
    next, final' := map[], final;
    var todo := last.Keys;
    ghost var done := {};
    while todo != {}
      invariant todo !! done && todo + done == last.Keys
      invariant Partway(next, final', root, pattern, k, done)
      invariant pattern[k] == STAR ==> forall p | p in done :: ListOk(At(root, p).value)
      decreases todo
    {
      var p :| p in todo;
      if pattern[k] == STAR {
        ghost var next0, final0 := next, final';
        ok, next, final' := StepStar(p, last[p], k + 1 == |pattern|, next, final');
        if !ok {
          return;
        }
        StarStep(next0, final0, next, final', root, pattern, k, done, p);
      } else {
        NameStep(next, final', root, pattern, k, done, p);
        var newResultKey := p + [pattern[k]];
        var newResultVal := if pattern[k] in last[p].attrs then last[p].attrs[pattern[k]] else Null;
        if newResultVal.PSet? {
          next := next[newResultKey := newResultVal];
        } else {
          final' := final'[newResultKey := newResultVal];
        }
      }
      todo, done := todo - {p}, done + {p};
    }
    ok := true;
    AllDone(next, final', root, pattern, k, done, last);
  }

  lemma AllDone(next: Found, final: Found, root: Node, pattern: Path, k: nat, done: set<Path>, last: Found)
    requires k < |pattern| && HoldsReached(last, root, pattern, k) && done == last.Keys
    requires Partway(next, final, root, pattern, k, done)
    ensures HoldsReached(next, root, pattern, k + 1) && HoldsExpected(final, root, pattern, k + 1)
  {
    forall q | q != [] ensures Reached(root, pattern, k + 1, q) ==> Front(q) in done
                       ensures |q| == k + 1 && Expected(root, pattern, q).Some? ==> Front(q) in done {
      NoOrphans(root, pattern, k, q);
    }
    assert !Reached(root, pattern, k + 1, []);
  }

  /** `expandParameter`, with the leading `process` of the pattern taken off. It raises
      exactly when a star meets a holder that lists an attribute it does not have. */
  method ExpandParameter(process: Node, pattern: Path) returns (ok: bool, finalResults: Found)
    requires process.PSet?
    ensures ok == !ListsMissing(process, pattern, |pattern|)
    ensures ok ==> HoldsExpected(finalResults, process, pattern, |pattern|)
  {
    var lastResults: Found := map[[] := process];
    finalResults := map[];
    ok := true;
    forall p ensures Reached(process, pattern, 0, p) <==> p == [] { assert pattern[..0] == []; }
    var k := 0;
    while k < |pattern|
      invariant 0 <= k <= |pattern|
      invariant HoldsReached(lastResults, process, pattern, k) && HoldsExpected(finalResults, process, pattern, k)
      invariant !ListsMissing(process, pattern, k)
    {
      ghost var last := lastResults;
      ok, lastResults, finalResults := Level(lastResults, finalResults, process, pattern, k);
      if !ok {
        ghost var p :| p in last && !ListOk(At(process, p).value);
        assert Reached(process, pattern, k, p);
        return;
      }
      k := k + 1;
    }
  }

  // ----- what the expansion means -----

  /** Every parameter whose whole path matches the pattern is returned, with its value. */
  lemma ExpandsWholeMatches(process: Node, pattern: Path, results: Found, q: Path)
    requires HoldsExpected(results, process, pattern, |pattern|) && pattern != []
    requires Match(process, pattern, q) && At(process, q).Some? && !At(process, q).value.PSet?
    ensures q in results && Some(results[q]) == At(process, q)
  {
    MatchExists(process, pattern, q);
    assert pattern[..|pattern|] == pattern;
  }

  /** Every result that is not `None` is an existing parameter whose path matches a prefix of
      the pattern: all of it, or one that does not end with a star. */
  lemma ResultsMatch(process: Node, pattern: Path, results: Found, q: Path)
    requires HoldsExpected(results, process, pattern, |pattern|) && q in results && results[q] != Null
    ensures 1 <= |q| <= |pattern| && Match(process, pattern[..|q|], q)
    ensures At(process, q) == Some(results[q]) && !results[q].PSet?
    ensures |q| == |pattern| || pattern[|q| - 1] != STAR
  {
  }

  /** Following the first `i` components of `q`, one comes to a holder with the next one, which
      is what the pattern has there, or is listed and the pattern has a star. */
  ghost predicate StepFits(process: Node, pattern: Path, q: Path, i: nat)
    requires i < |q| && i < |pattern|
  {
    && At(process, q[..i]).Some?
    && var m := At(process, q[..i]).value;
       m.PSet? && q[i] in m.attrs && (if pattern[i] == "*" then q[i] in m.listed else q[i] == pattern[i])
  }

  /** A path matches if and only if it fits component by component. */
  lemma {:induction false} MatchIff(n: Node, pattern: Path, q: Path)
    ensures Match(n, pattern, q) <==> |q| == |pattern| && forall i | 0 <= i < |q| :: StepFits(n, pattern, q, i)
    decreases |q|
  {
    if |q| == |pattern| && q != [] {
      var k := |q| - 1;
      assert q == q[..k] + [q[k]] && pattern == pattern[..k] + [pattern[k]];
      MatchSnoc(n, pattern[..k], pattern[k], q[..k], q[k]);
      MatchIff(n, pattern[..k], q[..k]);
      forall i | 0 <= i < k ensures StepFits(n, pattern[..k], q[..k], i) <==> StepFits(n, pattern, q, i) {
        assert q[..k][..i] == q[..i];
      }
      assert Match(n, pattern, q) <==> Match(n, pattern[..k], q[..k]) && StepFits(n, pattern, q, k);
      assert (forall i | 0 <= i < |q| :: StepFits(n, pattern, q, i)) <==>
             (forall i | 0 <= i < k :: StepFits(n, pattern, q, i)) && StepFits(n, pattern, q, k);
      assert (forall i | 0 <= i < k :: StepFits(n, pattern[..k], q[..k], i)) <==>
             forall i | 0 <= i < k :: StepFits(n, pattern, q, i);
    } else if Match(n, pattern, q) {
      MatchExists(n, pattern, q);
    }
  }

  /** Exactly which parameters are returned: those that are there, are no holders, and fit the
      pattern component by component up to its end or up to a component that is no star. */
  lemma ReturnedIff(process: Node, pattern: Path, results: Found, q: Path)
    requires HoldsExpected(results, process, pattern, |pattern|)
    ensures q in results && results[q] != Null <==>
            && 1 <= |q| <= |pattern| && (forall i | 0 <= i < |q| :: StepFits(process, pattern, q, i))
            && At(process, q).Some? && At(process, q).value.Leaf?
            && (|q| == |pattern| || pattern[|q| - 1] != "*")
    ensures q in results && results[q] != Null ==> At(process, q) == Some(results[q])
  {
    if |q| <= |pattern| {
      MatchIff(process, pattern[..|q|], q);
      forall i | 0 <= i < |q| ensures StepFits(process, pattern[..|q|], q, i) <==> StepFits(process, pattern, q, i) { }
    }
  }

  /** Exactly when the expansion raises: a path that fits the components before a star leads to a
      holder that lists an attribute it does not have. */
  lemma RaisesIff(process: Node, pattern: Path)
    ensures ListsMissing(process, pattern, |pattern|) <==>
            exists p: Path, c :: MissesAt(process, pattern, p, c)
  {
    if ListsMissing(process, pattern, |pattern|) {
      var j, p :| 0 <= j < |pattern| && pattern[j] == STAR && Reached(process, pattern, j, p)
                  && !ListOk(At(process, p).value);
      var i :| 0 <= i < |At(process, p).value.listed| && At(process, p).value.listed[i] !in At(process, p).value.attrs;
      FitsBefore(process, pattern, p, j);
      assert MissesAt(process, pattern, p, At(process, p).value.listed[i]);
    }
    if p, c :| MissesAt(process, pattern, p, c) {
      FitsBefore(process, pattern, p, |p|);
      assert Reached(process, pattern, |p|, p) && !ListOk(At(process, p).value);
    }
  }

  ghost predicate MissesAt(process: Node, pattern: Path, p: Path, c: string) {
    && |p| < |pattern| && pattern[|p|] == "*" && (forall i | 0 <= i < |p| :: StepFits(process, pattern, p, i))
    && At(process, p).Some? && At(process, p).value.PSet?
    && c in At(process, p).value.listed && c !in At(process, p).value.attrs
  }

  lemma FitsBefore(process: Node, pattern: Path, p: Path, j: nat)
    requires j <= |pattern|
    ensures Match(process, pattern[..j], p) <==> |p| == j && forall i | 0 <= i < |p| :: StepFits(process, pattern, p, i)
  {
    MatchIff(process, pattern[..j], p);
    if |p| == j {
      forall i | 0 <= i < j ensures StepFits(process, pattern[..j], p, i) <==> StepFits(process, pattern, p, i) { }
    }
  }

  /** `hasParameter` */
  method HasParameter(pset: Node, params: Path) returns (found: bool)
    ensures found <==> At(pset, params).Some? && At(pset, params).value != Null
  {
    var lastParam := pset;
    var i := 0;
    while i < |params|
      invariant 0 <= i <= |params| && At(pset, params) == At(lastParam, params[i..])
    {
      assert params[i..][0] == params[i] && params[i..][1..] == params[i + 1..];
      lastParam := if lastParam.PSet? && params[i] in lastParam.attrs then lastParam.attrs[params[i]] else Null;
      if lastParam == Null {
        return false;
      }
      i := i + 1;
    }
    found := lastParam != Null;
  }

  /** What `getParameter` ends with. */
  datatype Got = Got(value: string) | Nothing | AttributeError

  /** The call of `value()` on an object; `None` has no such method, and `value` says what
      others do. */
  function ValueOf(value: Node -> Option<string>, n: Node): Got {
    if n != Null && value(n).Some? then Got(value(n).value) else AttributeError
  }

  /** `getParameter`: nothing if nothing is found along the names, else the value of what is
      found, or an exception if that has none. */
  method GetParameter(value: Node -> Option<string>, pset: Node, params: Path) returns (got: Got)
    ensures forall v :: got == Got(v) <==>
              At(pset, params).Some? && At(pset, params).value != Null && value(At(pset, params).value) == Some(v)
    ensures got.Nothing? <==> params != [] && (At(pset, params).None? || At(pset, params).value == Null)
    ensures !got.Nothing? ==> At(pset, params).Some? && got == ValueOf(value, At(pset, params).value)
  {
    var lastParam, i := pset, 0;
    while i < |params|
      invariant 0 <= i <= |params| && At(pset, params) == At(lastParam, params[i..])
      invariant i > 0 ==> lastParam != Null
    {
      assert params[i..][0] == params[i] && params[i..][1..] == params[i + 1..];
      if !lastParam.PSet? || params[i] !in lastParam.attrs {
        return Nothing;
      }
      lastParam := lastParam.attrs[params[i]];
      if lastParam == Null {
        assert params[i + 1..] == [] ==> At(pset, params) == Some(Null);
        return Nothing;
      }
      i := i + 1;
    }
    got := ValueOf(value, lastParam);
  }

  /** A result is `None` exactly when `hasParameter` says no to its name. */
  lemma ResultsExist(process: Node, pattern: Path, results: Found, q: Path)
    requires HoldsExpected(results, process, pattern, |pattern|) && q in results
    ensures results[q] != Null <==> At(process, q).Some? && At(process, q).value != Null
  {
    var k := |q|;
    if !Match(process, pattern[..k], q) {
      assert Reached(process, pattern, k - 1, Front(q)) && pattern[k - 1] != STAR && Last(q) == pattern[k - 1];
      assert q == Front(q) + [Last(q)] && pattern[..k] == pattern[..k - 1] + [pattern[k - 1]];
      MatchSnoc(process, pattern[..k - 1], pattern[k - 1], Front(q), Last(q));
      AtSnoc(process, Front(q), Last(q));
    }
  }
}
