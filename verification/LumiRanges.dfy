/** Ranges of luminosity sections: what compacting a list means, for any program that does it. */
module LumiRanges {
  /** All numbers from `first` to `last`, both included. */
  datatype Range = Range(first: int, last: int)

  ghost predicate InRanges(x: int, ranges: seq<Range>) {
    exists i :: 0 <= i < |ranges| && ranges[i].first <= x <= ranges[i].last
  }

  /** Sorted, and not two ranges that overlap or touch. */
  ghost predicate Canonical(ranges: seq<Range>) {
    && (forall i | 0 <= i < |ranges| :: ranges[i].first <= ranges[i].last)
    && (forall i, j | 0 <= i < j < |ranges| :: ranges[i].last + 1 < ranges[j].first)
  }

  ghost predicate Covers(ranges: seq<Range>, lumis: seq<int>) {
    forall x :: InRanges(x, ranges) <==> x in lumis
  }

  // ----- there is only one compaction -----

  lemma InFirstOrRest(x: int, ranges: seq<Range>)
    requires ranges != []
    ensures InRanges(x, ranges) <==> ranges[0].first <= x <= ranges[0].last || InRanges(x, ranges[1..])
  {
    if InRanges(x, ranges) {
      var i :| 0 <= i < |ranges| && ranges[i].first <= x <= ranges[i].last;
      assert i > 0 ==> ranges[1..][i - 1] == ranges[i];
    }
    if InRanges(x, ranges[1..]) {
      var i :| 0 <= i < |ranges[1..]| && ranges[1..][i].first <= x <= ranges[1..][i].last;
      assert ranges[i + 1] == ranges[1..][i];
    }
  }

  /** The first range of a canonical list is the least run of consecutive numbers covered. */
  lemma FirstRange(ranges: seq<Range>)
    requires Canonical(ranges) && ranges != []
    ensures Canonical(ranges[1..])
    ensures forall x | InRanges(x, ranges) :: ranges[0].first <= x
    ensures InRanges(ranges[0].first, ranges) && InRanges(ranges[0].last, ranges)
            && !InRanges(ranges[0].last + 1, ranges)
    ensures forall x | InRanges(x, ranges[1..]) :: ranges[0].last + 1 < x
  {
    forall x | InRanges(x, ranges[1..]) ensures ranges[0].last + 1 < x {
      var i :| 0 <= i < |ranges[1..]| && ranges[1..][i].first <= x <= ranges[1..][i].last;
      assert ranges[1..][i] == ranges[i + 1];
    }
    forall x ensures InRanges(x, ranges) <==> ranges[0].first <= x <= ranges[0].last || InRanges(x, ranges[1..]) {
      InFirstOrRest(x, ranges);
    }
  }

  /** Two canonical lists that cover the same numbers are equal. */
  lemma {:induction false} CanonicalUnique(a: seq<Range>, b: seq<Range>)
    requires Canonical(a) && Canonical(b) && forall x :: InRanges(x, a) <==> InRanges(x, b)
    ensures a == b
    decreases |a|
  {
    if a != [] { FirstRange(a); }
    if b != [] { FirstRange(b); }
    if a != [] && b != [] {
      SameFirst(a, b);
      forall x ensures InRanges(x, a[1..]) <==> InRanges(x, b[1..]) {
        InFirstOrRest(x, a);
        InFirstOrRest(x, b);
      }
      CanonicalUnique(a[1..], b[1..]);
      assert a == [a[0]] + a[1..] && b == [b[0]] + b[1..];
    }
  }

  lemma SameFirst(a: seq<Range>, b: seq<Range>)
    requires Canonical(a) && Canonical(b) && a != [] && b != [] && forall x :: InRanges(x, a) <==> InRanges(x, b)
    ensures a[0] == b[0]
  {
    FirstRange(a);
    FirstRange(b);
    assert InRanges(a[0].first, b) && InRanges(b[0].first, a);
    InFirstOrRest(a[0].last + 1, b);
    InFirstOrRest(b[0].last + 1, a);
  }

  // ----- expanding -----

  function Numbers(first: int, last: int): seq<int>
    decreases last - first
  {
    if first > last then [] else [first] + Numbers(first + 1, last)
  }

  /** The numbers of the ranges, one range after the other. */
  function Expanded(ranges: seq<Range>): seq<int>
    decreases |ranges|
  {
    if ranges == [] then [] else Numbers(ranges[0].first, ranges[0].last) + Expanded(ranges[1..])
  }

  ghost predicate Increasing(s: seq<int>) {
    forall i, j | 0 <= i < j < |s| :: s[i] < s[j]
  }

  lemma {:induction false} NumbersAre(first: int, last: int)
    ensures Increasing(Numbers(first, last)) && forall x :: x in Numbers(first, last) <==> first <= x <= last
    decreases last - first
  {
    if first <= last {
      NumbersAre(first + 1, last);
      var rest := Numbers(first + 1, last);
      forall j | 0 <= j < |rest| ensures first < rest[j] { assert rest[j] in rest; }
    }
  }

  /** Expanding gives exactly the numbers covered. */
  lemma {:induction false} ExpandedAre(ranges: seq<Range>, x: int)
    ensures x in Expanded(ranges) <==> InRanges(x, ranges)
    decreases |ranges|
  {
    if ranges != [] {
      NumbersAre(ranges[0].first, ranges[0].last);
      ExpandedAre(ranges[1..], x);
      InFirstOrRest(x, ranges);
    }
  }

  /** Expanding canonical ranges gives them in increasing order, each once. */
  lemma {:induction false} ExpandedIncreases(ranges: seq<Range>)
    requires Canonical(ranges)
    ensures Increasing(Expanded(ranges))
    decreases |ranges|
  {
    if ranges != [] {
      FirstRange(ranges);
      NumbersAre(ranges[0].first, ranges[0].last);
      ExpandedIncreases(ranges[1..]);
      var a, b := Numbers(ranges[0].first, ranges[0].last), Expanded(ranges[1..]);
      forall i, j | 0 <= i < |a| && 0 <= j < |b| ensures a[i] < b[j] {
        assert a[i] in a && b[j] in b;
        ExpandedAre(ranges[1..], b[j]);
      }
    }
  }

  /** Compacting what canonical ranges expand to gives these ranges back. */
  lemma CompactExpanded(ranges: seq<Range>, compacted: seq<Range>)
    requires Canonical(ranges) && Canonical(compacted) && Covers(compacted, Expanded(ranges))
    ensures compacted == ranges
  {
    forall x ensures InRanges(x, compacted) <==> InRanges(x, ranges) { ExpandedAre(ranges, x); }
    CanonicalUnique(compacted, ranges);
  }

  lemma IncreasingTail(s: seq<int>, x: int)
    requires Increasing(s) && s != []
    ensures x in s <==> x == s[0] || x in s[1..]
    ensures x in s[1..] ==> s[0] < x
  {
    assert s == [s[0]] + s[1..];
  }

  /** An increasing list is known by its elements. */
  lemma {:induction false} IncreasingUnique(a: seq<int>, b: seq<int>)
    requires Increasing(a) && Increasing(b) && forall x :: x in a <==> x in b
    ensures a == b
    decreases |a|
  {
    assert b != [] ==> b[0] in b;
    if a != [] {
      assert a[0] in a && b != [];
      assert b[0] in b;
      forall x ensures (x in a <==> x == a[0] || x in a[1..]) && (x in a[1..] ==> a[0] < x) { IncreasingTail(a, x); }
      forall x ensures (x in b <==> x == b[0] || x in b[1..]) && (x in b[1..] ==> b[0] < x) { IncreasingTail(b, x); }
      IncreasingUnique(a[1..], b[1..]);
      assert a == [a[0]] + a[1..] && b == [b[0]] + b[1..];
    }
  }

  /** Expanding what a list was compacted to gives the list sorted and without duplicates. */
  lemma ExpandCompacted(lumis: seq<int>, compacted: seq<Range>, unique: seq<int>)
    requires Canonical(compacted) && Covers(compacted, lumis)
    requires Increasing(unique) && forall x :: x in unique <==> x in lumis
    ensures Expanded(compacted) == unique
  {
    ExpandedIncreases(compacted);
    forall x ensures x in Expanded(compacted) <==> x in unique { ExpandedAre(compacted, x); }
    IncreasingUnique(Expanded(compacted), unique);
  }

  /** Any two programs that compact the same numbers agree. */
  lemma CompactionsAgree(a: seq<Range>, b: seq<Range>, lumis: seq<int>, lumis': seq<int>)
    requires Canonical(a) && Canonical(b) && Covers(a, lumis) && Covers(b, lumis')
    requires forall x :: x in lumis <==> x in lumis'
    ensures a == b
  {
    CanonicalUnique(a, b);
  }

  // ----- one step of a compaction -----

  /** `done` and the open range from `first` to `last` compact the numbers seen so far. */
  ghost predicate Compacting(done: seq<Range>, first: int, last: int, seen: seq<int>) {
    Canonical(done + [Range(first, last)]) && Covers(done + [Range(first, last)], seen)
  }

  lemma InLastOrBefore(x: int, done: seq<Range>, r: Range)
    ensures InRanges(x, done + [r]) <==> InRanges(x, done) || r.first <= x <= r.last
  {
    var all := done + [r];
    if InRanges(x, all) {
      var i :| 0 <= i < |all| && all[i].first <= x <= all[i].last;
      assert i < |done| ==> done[i] == all[i];
    }
    if InRanges(x, done) {
      var i :| 0 <= i < |done| && done[i].first <= x <= done[i].last;
      assert all[i] == done[i];
    }
    assert all[|done|] == r;
  }

  lemma Start(x: int)
    ensures Compacting([], x, x, [x])
  {
    forall y ensures InRanges(y, [] + [Range(x, x)]) <==> y in [x] { InLastOrBefore(y, [], Range(x, x)); }
  }

  /** The same number again, or the next one: the open range takes it. */
  lemma Extend(done: seq<Range>, first: int, last: int, seen: seq<int>, x: int)
    requires Compacting(done, first, last, seen) && (x == last || x == last + 1)
    ensures Compacting(done, first, x, seen + [x])
  {
    var all, all' := done + [Range(first, last)], done + [Range(first, x)];
    assert all[|done|] == Range(first, last);
    forall i | 0 <= i < |done| ensures all'[i] == all[i] { }
    forall y ensures InRanges(y, all') <==> y in seen + [x] {
      InLastOrBefore(y, done, Range(first, last));
      InLastOrBefore(y, done, Range(first, x));
      assert InRanges(y, all) <==> y in seen;
    }
  }

  /** A number further on: the open range is closed and a new one opened. */
  lemma Open(done: seq<Range>, first: int, last: int, seen: seq<int>, x: int)
    requires Compacting(done, first, last, seen) && x > last + 1
    ensures Compacting(done + [Range(first, last)], x, x, seen + [x])
  {
    var all := done + [Range(first, last)];
    var all' := all + [Range(x, x)];
    assert all[|done|] == Range(first, last);
    forall i | 0 <= i < |all| ensures all'[i] == all[i] && all[i].last <= last { }
    forall y ensures InRanges(y, all') <==> y in seen + [x] {
      InLastOrBefore(y, all, Range(x, x));
      assert InRanges(y, all) <==> y in seen;
    }
  }
}
