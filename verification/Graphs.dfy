/** Finite directed graphs: reachability and cycles. */
module Graphs {

  /** The successors of each node; a node that is no key has none. */
  type Graph<!T> = map<T, set<T>>

  /** `b` is reached from `a` in exactly `n` steps. */
  ghost predicate Steps<T(!new)>(g: Graph<T>, a: T, b: T, n: nat) {
    if n == 0 then a == b else a in g && exists c :: c in g[a] && Steps(g, c, b, n - 1)
  }

  ghost predicate Reaches<T(!new)>(g: Graph<T>, a: T, b: T) {
    exists n: nat :: Steps(g, a, b, n)
  }

  /** `b` is reached in one step or more. */
  ghost predicate ReachesOn<T(!new)>(g: Graph<T>, a: T, b: T) {
    exists n: nat :: n > 0 && Steps(g, a, b, n)
  }

  /** `p` leads from `a` to `b` along the edges. */
  ghost predicate IsPath<T(!new)>(g: Graph<T>, p: seq<T>, a: T, b: T) {
    p != [] && p[0] == a && p[|p| - 1] == b && forall i | 0 <= i < |p| - 1 :: p[i] in g && p[i + 1] in g[p[i]]
  }

  /** `n` steps are a path of `n + 1` nodes. */
  lemma {:induction false} StepsArePath<T(!new)>(g: Graph<T>, a: T, b: T, n: nat)
    ensures Steps(g, a, b, n) <==> exists p :: |p| == n + 1 && IsPath(g, p, a, b)
    decreases n
  {
    if n == 0 {
      assert IsPath(g, [a], a, a);
    } else {
      if Steps(g, a, b, n) {
        var c :| c in g[a] && Steps(g, c, b, n - 1);
        StepsArePath(g, c, b, n - 1);
        var p :| |p| == n && IsPath(g, p, c, b);
        assert IsPath(g, [a] + p, a, b);
      }
      if p :| |p| == n + 1 && IsPath(g, p, a, b) {
        StepsArePath(g, p[1], b, n - 1);
        assert IsPath(g, p[1..], p[1], b);
        assert p[0] in g && p[1] in g[p[0]];
      }
    }
  }

  lemma {:induction false} StepsConcat<T(!new)>(g: Graph<T>, a: T, b: T, c: T, n: nat, m: nat)
    requires Steps(g, a, b, n) && Steps(g, b, c, m)
    ensures Steps(g, a, c, n + m)
    decreases n
  {
    if n > 0 {
      var d :| d in g[a] && Steps(g, d, b, n - 1);
      StepsConcat(g, d, b, c, n - 1, m);
      assert Steps(g, d, c, n + m - 1);
    }
  }

  lemma OneStep<T(!new)>(g: Graph<T>, a: T, b: T)
    requires a in g && b in g[a]
    ensures Steps(g, a, b, 1)
  {
    assert Steps(g, b, b, 0);
  }

  lemma {:induction false} LastStep<T(!new)>(g: Graph<T>, a: T, c: T, n: nat) returns (b: T)
    requires n > 0 && Steps(g, a, c, n)
    ensures Steps(g, a, b, n - 1) && b in g && c in g[b]
    decreases n
  {
    if n == 1 {
      b := a;
      var d :| d in g[a] && Steps(g, d, c, 0);
    } else {
      var d :| d in g[a] && Steps(g, d, c, n - 1);
      b := LastStep(g, d, c, n - 1);
    }
  }

  lemma ReachesStart<T(!new)>(g: Graph<T>, a: T)
    ensures Reaches(g, a, a)
  {
    assert Steps(g, a, a, 0);
  }

  lemma ReachesNext<T(!new)>(g: Graph<T>, a: T, b: T, c: T)
    requires Reaches(g, a, b) && b in g && c in g[b]
    ensures Reaches(g, a, c) && ReachesOn(g, a, c)
  {
    var n: nat :| Steps(g, a, b, n);
    OneStep(g, b, c);
    StepsConcat(g, a, b, c, n, 1);
  }

  lemma FirstThenReaches<T(!new)>(g: Graph<T>, a: T, b: T, c: T)
    requires a in g && b in g[a] && Reaches(g, b, c)
    ensures Reaches(g, a, c) && ReachesOn(g, a, c)
  {
    var n: nat :| Steps(g, b, c, n);
    OneStep(g, a, b);
    StepsConcat(g, a, b, c, 1, n);
  }

  /** What is reached is reached over one of the successors, or is the node itself. */
  lemma ReachesFirst<T(!new)>(g: Graph<T>, a: T, c: T)
    requires Reaches(g, a, c)
    ensures a == c || (a in g && exists b :: b in g[a] && Reaches(g, b, c))
  {
    var n: nat :| Steps(g, a, c, n);
    if n > 0 {
      var b :| b in g[a] && Steps(g, b, c, n - 1);
      assert Reaches(g, b, c);
    }
  }

  /** A set that holds the start and all successors of what it holds holds all that is reached. */
  lemma {:induction false} ClosedHoldsReached<T(!new)>(g: Graph<T>, s: set<T>, a: T, b: T, n: nat)
    requires a in s && (forall x, y | x in s && x in g && y in g[x] :: y in s)
    requires Steps(g, a, b, n)
    ensures b in s
    decreases n
  {
    if n > 0 {
      var c :| c in g[a] && Steps(g, c, b, n - 1);
      ClosedHoldsReached(g, s, c, b, n - 1);
    }
  }

  // ----- short ways -----

  /** A way visits `a`, or is a way without `a`. */
  lemma {:induction false} VisitOrAvoid<T(!new)>(g: Graph<T>, a: T, c: T, b: T, n: nat)
    requires Steps(g, c, b, n)
    ensures Steps(g - {a}, c, b, n) || exists k: nat :: k <= n && Steps(g, a, b, k)
    decreases n
  {
    if c == a {
      assert Steps(g, a, b, n);
    } else if n > 0 {
      var d :| d in g[c] && Steps(g, d, b, n - 1);
      VisitOrAvoid(g, a, d, b, n - 1);
      assert c in g - {a} && d in (g - {a})[c];
    }
  }

  /** What is reached from `a` is reached without coming back to `a`. */
  lemma {:induction false} LeaveOnce<T(!new)>(g: Graph<T>, a: T, b: T, n: nat) returns (c: T, m: nat)
    requires Steps(g, a, b, n) && a != b
    ensures a in g && c in g[a] && Steps(g - {a}, c, b, m)
    decreases n
  {
    var d :| d in g[a] && Steps(g, d, b, n - 1);
    VisitOrAvoid(g, a, d, b, n - 1);
    if Steps(g - {a}, d, b, n - 1) {
      c, m := d, n - 1;
    } else {
      var k: nat :| k <= n - 1 && Steps(g, a, b, k);
      c, m := LeaveOnce(g, a, b, k);
    }
  }

  lemma {:induction false} StepsInMore<T(!new)>(g: Graph<T>, x: T, a: T, b: T, n: nat)
    requires Steps(g - {x}, a, b, n)
    ensures Steps(g, a, b, n)
    decreases n
  {
    if n > 0 {
      var c :| c in g[a] && Steps(g - {x}, c, b, n - 1);
      StepsInMore(g, x, c, b, n - 1);
    }
  }

  /** What is reached at all is reached in no more steps than the graph has nodes with
      successors, and in fewer if it is one of them. */
  lemma {:induction false} ShortWay<T(!new)>(g: Graph<T>, a: T, b: T, n: nat) returns (m: nat)
    requires Steps(g, a, b, n)
    ensures Steps(g, a, b, m) && m <= |g.Keys| && (b in g ==> m < |g.Keys|)
    decreases |g.Keys|
  {
    if a == b {
      m := 0;
      if b in g { assert |g.Keys| > 0; }
    } else {
      var c, k := LeaveOnce(g, a, b, n);
      assert (g - {a}).Keys == g.Keys - {a};
      Smaller(g.Keys - {a}, g.Keys);
      m := ShortWay(g - {a}, c, b, k);
      StepsInMore(g, a, c, b, m);
      m := m + 1;
    }
  }

  // ----- cycles -----

  ghost predicate HasCycle<T(!new)>(g: Graph<T>, s: set<T>) {
    exists x :: x in s && ReachesOn(g, x, x)
  }

  ghost predicate HasNext<T(!new)>(g: Graph<T>, s: set<T>, x: T) {
    x in g && exists y :: y in g[x] && y in s
  }

  /** What is reached from `a` in `s` has successors there if all of `s` has. */
  lemma LaterHasNext<T(!new)>(g: Graph<T>, s: set<T>, a: T, later: set<T>, x: T)
    requires later == (set y | y in s && ReachesOn(g, a, y)) && HasNext(g, s, x) && (x == a || x in later)
    ensures HasNext(g, later, x)
  {
    var y :| y in g[x] && y in s;
    if x == a {
      ReachesStart(g, a);
    } else {
      var n: nat :| n > 0 && Steps(g, a, x, n);
    }
    assert Reaches(g, a, x);
    ReachesNext(g, a, x, y);
    assert y in later;
  }

  /** A finite set in which every node has a successor holds a node that reaches itself. */
  lemma {:induction false} NoEscape<T(!new)>(g: Graph<T>, s: set<T>)
    requires s != {} && forall x | x in s :: HasNext(g, s, x)
    ensures HasCycle(g, s)
    decreases |s|
  {
    var a :| a in s;
    var later := set y | y in s && ReachesOn(g, a, y);
    if a in later {
      assert ReachesOn(g, a, a);
    } else {
      LaterHasNext(g, s, a, later, a);
      forall x | x in later ensures HasNext(g, later, x) { LaterHasNext(g, s, a, later, x); }
      Smaller(later, s);
      NoEscape(g, later);
    }
  }

  lemma Smaller<T>(a: set<T>, b: set<T>)
    requires a < b
    ensures |a| < |b|
  {
    assert b == a + (b - a) && b - a != {};
  }

  // ----- chains -----

  /** There is a chain of `n` steps from `a`. */
  ghost predicate Chain<T(!new)>(g: Graph<T>, a: T, n: nat) {
    exists b :: Steps(g, a, b, n)
  }

  lemma ChainFirst<T(!new)>(g: Graph<T>, a: T, n: nat)
    requires n > 0
    ensures Chain(g, a, n) <==> a in g && exists c :: c in g[a] && Chain(g, c, n - 1)
  {
    if Chain(g, a, n) {
      var b :| Steps(g, a, b, n);
      var c :| c in g[a] && Steps(g, c, b, n - 1);
      assert Chain(g, c, n - 1);
    }
    if a in g {
      forall c | c in g[a] && Chain(g, c, n - 1) ensures Chain(g, a, n) {
        var b :| Steps(g, c, b, n - 1);
        assert Steps(g, a, b, n);
      }
    }
  }

  /** Without cycles a chain visits a new node at every step, so it is no longer than the
      graph is large. */
  lemma {:induction false} ChainsEnd<T(!new)>(g: Graph<T>, a: T, left: set<T>, n: nat)
    requires forall x | x in g && Reaches(g, a, x) :: x in left && !ReachesOn(g, x, x)
    requires Chain(g, a, n)
    ensures n <= |left|
    decreases n
  {
    if n > 0 {
      ChainFirst(g, a, n);
      var c :| c in g[a] && Chain(g, c, n - 1);
      ReachesStart(g, a);
      forall x | x in g && Reaches(g, c, x) ensures x in left - {a} && !ReachesOn(g, x, x) {
        FirstThenReaches(g, a, c, x);
      }
      ChainsEnd(g, c, left - {a}, n - 1);
      assert a in left;
      Smaller(left - {a}, left);
    }
  }

  /** A chain can be cut short. */
  lemma {:induction false} ChainShorter<T(!new)>(g: Graph<T>, a: T, n: nat, m: nat)
    requires Chain(g, a, m) && n <= m
    ensures Chain(g, a, n)
    decreases n
  {
    if n == 0 {
      assert Steps(g, a, a, 0);
    } else {
      ChainFirst(g, a, m);
      var c :| c in g[a] && Chain(g, c, m - 1);
      ChainShorter(g, c, n - 1, m - 1);
      ChainFirst(g, a, n);
    }
  }

  /** From a node on a cycle there are chains of every length. */
  lemma {:induction false} CycleChains<T(!new)>(g: Graph<T>, a: T, n: nat)
    requires ReachesOn(g, a, a)
    ensures Chain(g, a, n)
    decreases n
  {
    if n == 0 {
      assert Steps(g, a, a, 0);
    } else {
      CycleChains(g, a, n - 1);
      var b :| Steps(g, a, b, n - 1);
      var k: nat :| k > 0 && Steps(g, a, a, k);
      StepsConcat(g, a, a, b, k, n - 1);
      ChainShorter(g, a, n, k + n - 1);
    }
  }

  /** There are chains of every length from a node if, and only if, it reaches a cycle. */
  lemma EndlessIff<T(!new)>(g: Graph<T>, a: T)
    ensures (forall n: nat :: Chain(g, a, n)) <==> exists x :: Reaches(g, a, x) && ReachesOn(g, x, x)
  {
    if x :| Reaches(g, a, x) && ReachesOn(g, x, x) {
      var k: nat :| Steps(g, a, x, k);
      forall n: nat ensures Chain(g, a, n) {
        CycleChains(g, x, n);
        var b :| Steps(g, x, b, n);
        StepsConcat(g, a, x, b, k, n);
        ChainShorter(g, a, n, k + n);
      }
    } else if forall n: nat :: Chain(g, a, n) {
      assert Chain(g, a, |g.Keys| + 1);
      ChainsEnd(g, a, g.Keys, |g.Keys| + 1);
    }
  }
}
