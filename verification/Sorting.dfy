/** Sorting, as `sorted` and `sort` do it, for any total order; and the order of strings. */
module Sorting {
  import opened Common

  ghost predicate IsSorted<T>(s: seq<T>, leq: (T, T) -> bool) {
    forall i, j | 0 <= i < j < |s| :: leq(s[i], s[j])
  }

  ghost predicate IsTotal<T(!new)>(leq: (T, T) -> bool) {
    && (forall a, b :: leq(a, b) || leq(b, a))
    && (forall a, b, c :: leq(a, b) && leq(b, c) ==> leq(a, c))
  }

  function Insert<T>(x: T, s: seq<T>, leq: (T, T) -> bool): seq<T>
    decreases |s|
  {
    if s == [] || leq(x, s[0]) then [x] + s else [s[0]] + Insert(x, s[1..], leq)
  }

  function Sort<T>(s: seq<T>, leq: (T, T) -> bool): seq<T>
    decreases |s|
  {
    if s == [] then [] else Insert(s[0], Sort(s[1..], leq), leq)
  }

  lemma {:induction false} InsertKeeps<T(!new)>(x: T, s: seq<T>, leq: (T, T) -> bool)
    requires IsTotal(leq) && IsSorted(s, leq)
    ensures IsSorted(Insert(x, s, leq), leq) && multiset(Insert(x, s, leq)) == multiset(s) + multiset{x}
    decreases |s|
  {
    if s == [] || leq(x, s[0]) {
      assert forall j | 0 <= j < |s| :: leq(x, s[j]);
    } else {
      var rest := Insert(x, s[1..], leq);
      InsertKeeps(x, s[1..], leq);
      assert s == [s[0]] + s[1..];
      StillFirst(s, x, rest, leq);
    }
  }

  lemma StillFirst<T(!new)>(s: seq<T>, x: T, rest: seq<T>, leq: (T, T) -> bool)
    requires IsSorted(s, leq) && s != [] && leq(s[0], x) && multiset(rest) == multiset(s[1..]) + multiset{x}
    ensures forall j | 0 <= j < |rest| :: leq(s[0], rest[j])
  {
    forall j | 0 <= j < |rest| ensures leq(s[0], rest[j]) {
      assert rest[j] in multiset(rest);
      assert rest[j] == x || rest[j] in s[1..];
    }
  }

  /** Sorting permutes a list into order. */
  lemma {:induction false} SortIs<T(!new)>(s: seq<T>, leq: (T, T) -> bool)
    requires IsTotal(leq)
    ensures IsSorted(Sort(s, leq), leq) && multiset(Sort(s, leq)) == multiset(s)
    decreases |s|
  {
    if s != [] {
      SortIs(s[1..], leq);
      InsertKeeps(s[0], Sort(s[1..], leq), leq);
      assert s == [s[0]] + s[1..];
    }
  }

  lemma {:induction false} InsertKeepsDistinct<T>(x: T, s: seq<T>, leq: (T, T) -> bool)
    requires NoDup(s) && x !in s
    ensures NoDup(Insert(x, s, leq)) && Elements(Insert(x, s, leq)) == Elements(s) + {x}
    decreases |s|
  {
    if s != [] && !leq(x, s[0]) {
      var rest := Insert(x, s[1..], leq);
      InsertKeepsDistinct(x, s[1..], leq);
      assert s == [s[0]] + s[1..];
      assert forall y :: y in rest <==> y in Elements(rest);
      assert s[0] !in rest;
    }
  }

  lemma {:induction false} SortKeepsDistinct<T>(s: seq<T>, leq: (T, T) -> bool)
    requires NoDup(s)
    ensures NoDup(Sort(s, leq)) && Elements(Sort(s, leq)) == Elements(s)
    decreases |s|
  {
    if s != [] {
      SortKeepsDistinct(s[1..], leq);
      assert s == [s[0]] + s[1..];
      assert s[0] !in Elements(Sort(s[1..], leq));
      InsertKeepsDistinct(s[0], Sort(s[1..], leq), leq);
    }
  }

  // ----- strings -----

  /** `a <= b` for Python strings. */
  predicate TextLeq(a: string, b: string)
    decreases |a|
  {
    a == [] || (b != [] && (a[0] < b[0] || (a[0] == b[0] && TextLeq(a[1..], b[1..]))))
  }

  /** The two strings agree up to position `i` and differ there as the characters do. */
  ghost predicate LessAt(a: string, b: string, i: nat) {
    i < |a| && i < |b| && a[..i] == b[..i] && a[i] < b[i]
  }

  /** One string is no greater than another if it is the start of that, or has the smaller
      character where they first differ. */
  lemma {:induction false} TextLeqIff(a: string, b: string)
    ensures TextLeq(a, b) <==> a <= b || exists i: nat :: LessAt(a, b, i)
    decreases |a|
  {
    if a != [] && b != [] && a[0] == b[0] {
      TextLeqIff(a[1..], b[1..]);
      assert a <= b <==> a[1..] <= b[1..] by {
        assert a == [a[0]] + a[1..] && b == [b[0]] + b[1..];
      }
      if i: nat :| LessAt(a[1..], b[1..], i) {
        assert a[..i + 1] == [a[0]] + a[1..][..i] && b[..i + 1] == [b[0]] + b[1..][..i];
        assert LessAt(a, b, i + 1);
      }
      if i: nat :| LessAt(a, b, i) {
        assert i > 0;
        assert a[1..][..i - 1] == a[..i][1..] && b[1..][..i - 1] == b[..i][1..];
        assert LessAt(a[1..], b[1..], i - 1);
      }
    } else if a != [] && b != [] {
      if a[0] < b[0] { assert LessAt(a, b, 0); }
      if i: nat :| LessAt(a, b, i) {
        if i > 0 { assert a[..i][0] == b[..i][0]; }
      }
    }
  }

  lemma {:induction false} TextTotal(a: string, b: string)
    ensures TextLeq(a, b) || TextLeq(b, a)
    decreases |a|
  {
    if a != [] && b != [] && a[0] == b[0] { TextTotal(a[1..], b[1..]); }
  }

  lemma {:induction false} TextAntisymmetric(a: string, b: string)
    requires TextLeq(a, b) && TextLeq(b, a)
    ensures a == b
    decreases |a|
  {
    if a != [] && b != [] {
      TextAntisymmetric(a[1..], b[1..]);
      assert a == [a[0]] + a[1..] && b == [b[0]] + b[1..];
    }
  }

  lemma {:induction false} TextTransitive(a: string, b: string, c: string)
    requires TextLeq(a, b) && TextLeq(b, c)
    ensures TextLeq(a, c)
    decreases |a|
  {
    if a != [] && a[0] == b[0] == c[0] { TextTransitive(a[1..], b[1..], c[1..]); }
  }

  lemma TextIsTotal()
    ensures IsTotal(TextLeq)
  {
    forall a, b ensures TextLeq(a, b) || TextLeq(b, a) { TextTotal(a, b); }
    forall a, b, c | TextLeq(a, b) && TextLeq(b, c) ensures TextLeq(a, c) { TextTransitive(a, b, c); }
  }

  /** A string comes after its prefixes. */
  lemma {:induction false} PrefixFirst(a: string, b: string)
    requires a <= b
    ensures TextLeq(a, b)
    decreases |a|
  {
    if a != [] { PrefixFirst(a[1..], b[1..]); }
  }
}
