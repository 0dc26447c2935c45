/** The total size of an object and all it refers to: `getSize` of `Utils/Utilities.py`. */
module ObjectSize {
  import opened Common
  import opened Graphs

  type Id = int

  /** What the interpreter says about one object: its own size, whether it is a type, a module
      or a function, and the objects it refers to. */
  datatype Object = Object(size: nat, blacklisted: bool, referents: seq<Id>)

  type Heap = map<Id, Object>

  /** All referents are objects of the heap. */
  ghost predicate Closed(heap: Heap) {
    forall x | x in heap :: Elements(heap[x].referents) <= heap.Keys
  }

  /** References between objects that are not blacklisted. */
  ghost function Counted(heap: Heap): Graph<Id> {
    map x | x in heap && !heap[x].blacklisted :: set y | y in heap[x].referents && y in heap && !heap[y].blacklisted
  }

  /** The objects reached from `start` through objects that are not blacklisted. */
  ghost function ReachedFrom(heap: Heap, start: Id): set<Id> {
    set x | x in heap && Reaches(Counted(heap), start, x)
  }

  // ----- sums over sets -----

  ghost function SumOf(heap: Heap, s: set<Id>): nat
    requires forall x | x in s :: x in heap
    decreases |s|
  {
    if exists x :: x in s then
      var x :| x in s;
      heap[x].size + SumOf(heap, s - {x})
    else 0
  }

  /** Which element is taken first makes no difference. */
  lemma {:induction false} SumTakes(heap: Heap, s: set<Id>, x: Id)
    requires s <= heap.Keys && x in s
    ensures SumOf(heap, s) == heap[x].size + SumOf(heap, s - {x})
    decreases |s|
  {
    var y :| y in s && SumOf(heap, s) == heap[y].size + SumOf(heap, s - {y});
    if y != x {
      Smaller(s - {y}, s);
      Smaller(s - {x}, s);
      SumTakes(heap, s - {y}, x);
      SumTakes(heap, s - {x}, y);
      assert s - {y} - {x} == s - {x} - {y};
    }
  }

  lemma SumAdds(heap: Heap, s: set<Id>, x: Id)
    requires s <= heap.Keys && x in heap && x !in s
    ensures SumOf(heap, s + {x}) == SumOf(heap, s) + heap[x].size
  {
    SumTakes(heap, s + {x}, x);
    assert s + {x} - {x} == s;
  }

  /** With the empty sum, that settles all sums. */
  lemma SumOfFew(heap: Heap, x: Id)
    requires x in heap
    ensures SumOf(heap, {}) == 0 && SumOf(heap, {x}) == heap[x].size
  {
    SumTakes(heap, {x}, x);
    assert {x} - {x} == {};
  }

  // ----- the loops -----

  /** `get_referents(*objects)` */
  function GetReferents(heap: Heap, objects: seq<Id>): seq<Id>
    requires forall i | 0 <= i < |objects| :: objects[i] in heap
    decreases |objects|
  {
    if objects == [] then [] else heap[objects[0]].referents + GetReferents(heap, objects[1..])
  }

  lemma {:induction false} ReferentsAre(heap: Heap, objects: seq<Id>, y: Id)
    requires forall i | 0 <= i < |objects| :: objects[i] in heap
    ensures y in GetReferents(heap, objects) <==> exists i :: 0 <= i < |objects| && y in heap[objects[i]].referents
    decreases |objects|
  {
    if objects != [] {
      ReferentsAre(heap, objects[1..], y);
      if i :| 0 <= i < |objects| && y in heap[objects[i]].referents {
        assert i > 0 ==> objects[1..][i - 1] == objects[i];
      }
      if i :| 0 <= i < |objects| - 1 && y in heap[objects[1..][i]].referents {
        assert objects[i + 1] == objects[1..][i];
      }
    }
  }

  /** Between two rounds: what was seen is reached and not blacklisted; a referent of what
      was seen was seen too, is blacklisted, or waits in `waiting`. */
  ghost predicate Explored(heap: Heap, start: Id, seen: set<Id>, waiting: set<Id>) {
    && seen <= ReachedFrom(heap, start)
    && (forall x | x in seen :: !heap[x].blacklisted)
    && (forall x, y | x in seen && y in heap[x].referents ::
        y in seen || y in waiting || (y in heap && heap[y].blacklisted))
  }

  /** One round: note the objects that are new, and add up their sizes. */
  method Round(heap: Heap, objects: seq<Id>, seen_ids: set<Id>, size: nat)
    returns (need_referents: seq<Id>, seen: set<Id>, total: nat)
    requires Closed(heap) && (forall i | 0 <= i < |objects| :: objects[i] in heap)
    requires seen_ids <= heap.Keys && size == SumOf(heap, seen_ids)
    ensures seen == seen_ids + Elements(need_referents) && seen <= heap.Keys && total == SumOf(heap, seen)
    ensures forall i | 0 <= i < |objects| :: objects[i] in seen || heap[objects[i]].blacklisted
    ensures Chosen(heap, objects, need_referents)
    ensures forall i | 0 <= i < |need_referents| :: need_referents[i] !in seen_ids
  {
    need_referents, seen, total := [], seen_ids, size;
    for j := 0 to |objects|
      invariant seen == seen_ids + Elements(need_referents) && seen <= heap.Keys && total == SumOf(heap, seen)
      invariant forall i | 0 <= i < j :: objects[i] in seen || heap[objects[i]].blacklisted
      invariant Chosen(heap, objects, need_referents)
      invariant forall i | 0 <= i < |need_referents| :: need_referents[i] !in seen_ids
    {
      var obj := objects[j];
      if !heap[obj].blacklisted && obj !in seen {
        SumAdds(heap, seen, obj);
        Snoc(need_referents, obj);
        seen := seen + {obj};
        total := total + heap[obj].size;
        need_referents := need_referents + [obj];
      }
    }
  }

  /** The objects of a round are reached, or blacklisted. */
  ghost predicate Offered(heap: Heap, start: Id, objects: seq<Id>) {
    forall i | 0 <= i < |objects| ::
      objects[i] in heap && (heap[objects[i]].blacklisted || objects[i] in ReachedFrom(heap, start))
  }

  /** `more` are those of `objects` that were not seen before. */
  ghost predicate Chosen(heap: Heap, objects: seq<Id>, more: seq<Id>) {
    forall i | 0 <= i < |more| :: more[i] in objects && more[i] in heap && !heap[more[i]].blacklisted
  }

  lemma ChosenReached(heap: Heap, start: Id, objects: seq<Id>, more: seq<Id>, k: nat)
    requires Offered(heap, start, objects) && Chosen(heap, objects, more) && k < |more|
    ensures more[k] in ReachedFrom(heap, start)
  {
    assert more[k] in objects;
    var i :| 0 <= i < |objects| && objects[i] == more[k];
  }

  lemma ReferentInHeap(heap: Heap, x: Id, y: Id)
    requires Closed(heap) && x in heap && y in heap[x].referents
    ensures y in heap
  {
    assert Elements(heap[x].referents) <= heap.Keys;
    assert y in Elements(heap[x].referents);
  }

  lemma OfferedNext(heap: Heap, start: Id, objects: seq<Id>, more: seq<Id>)
    requires Closed(heap) && Offered(heap, start, objects) && Chosen(heap, objects, more)
    ensures Offered(heap, start, GetReferents(heap, more))
  {
    var next := GetReferents(heap, more);
    forall j | 0 <= j < |next|
      ensures next[j] in heap && (heap[next[j]].blacklisted || next[j] in ReachedFrom(heap, start))
    {
      var y := next[j];
      ReferentsAre(heap, more, y);
      var i :| 0 <= i < |more| && y in heap[more[i]].referents;
      ChosenReached(heap, start, objects, more, i);
      ReferentInHeap(heap, more[i], y);
      if !heap[y].blacklisted {
        ReachesNext(Counted(heap), start, more[i], y);
      }
    }
  }

  lemma ExploredNext(heap: Heap, start: Id, seen: set<Id>, objects: seq<Id>, more: seq<Id>, seen': set<Id>)
    requires Closed(heap) && Explored(heap, start, seen, Elements(objects))
    requires Offered(heap, start, objects) && Chosen(heap, objects, more) && seen' == seen + Elements(more)
    requires forall i | 0 <= i < |objects| :: objects[i] in seen' || heap[objects[i]].blacklisted
    ensures Explored(heap, start, seen', Elements(GetReferents(heap, more)))
  {
    forall x | x in seen' ensures x in ReachedFrom(heap, start) && x in heap && !heap[x].blacklisted {
      if x !in seen {
        var i :| 0 <= i < |more| && more[i] == x;
        ChosenReached(heap, start, objects, more, i);
      }
    }
    forall x, y | x in seen' && y in heap[x].referents
      ensures y in seen' || y in Elements(GetReferents(heap, more)) || (y in heap && heap[y].blacklisted)
    {
      if x !in seen {
        var i :| 0 <= i < |more| && more[i] == x;
        ReferentsAre(heap, more, y);
      } else if y in Elements(objects) {
        var i :| 0 <= i < |objects| && objects[i] == y;
      }
    }
  }

  /** When nothing waits, everything that is reached was seen. */
  lemma ExploredAll(heap: Heap, start: Id, seen: set<Id>)
    requires Closed(heap) && start in seen && Explored(heap, start, seen, {})
    ensures seen == ReachedFrom(heap, start)
  {
    forall x, y | x in seen && y in Counted(heap)[x] ensures y in seen {
      assert y in Elements(heap[x].referents);
    }
    forall x | x in ReachedFrom(heap, start) ensures x in seen {
      var n: nat :| Steps(Counted(heap), start, x, n);
      ClosedHoldsReached(Counted(heap), seen, start, x, n);
    }
  }

  /** `getSize`: `None` for the `TypeError`; otherwise the sizes of the objects reached
      through objects that are not blacklisted, each counted once. */
  method GetSize(heap: Heap, obj: Id) returns (r: Option<nat>)
    requires Closed(heap) && obj in heap
    ensures r == if heap[obj].blacklisted then None else Some(SumOf(heap, ReachedFrom(heap, obj)))
  {
    if heap[obj].blacklisted {
      return None;
    }
    var seen_ids: set<Id>, size, objects := {}, 0, [obj];
    ReachesStart(Counted(heap), obj);
    while objects != []
      invariant seen_ids <= heap.Keys && size == SumOf(heap, seen_ids)
      invariant Explored(heap, obj, seen_ids, Elements(objects)) && (obj in seen_ids || obj in objects)
      invariant Offered(heap, obj, objects)
      decreases heap.Keys - seen_ids, |objects|
    {
      ghost var before := seen_ids;
      assert obj !in seen_ids ==> exists i :: 0 <= i < |objects| && objects[i] == obj;
      var need_referents;
      need_referents, seen_ids, size := Round(heap, objects, seen_ids, size);
      ExploredNext(heap, obj, before, objects, need_referents, seen_ids);
      OfferedNext(heap, obj, objects, need_referents);
      if need_referents != [] {
        assert need_referents[0] in Elements(need_referents);
        assert need_referents[0] in heap.Keys - before && need_referents[0] !in heap.Keys - seen_ids;
      } else {
        assert seen_ids == before;
      }
      objects := GetReferents(heap, need_referents);
    }
    ExploredAll(heap, obj, seen_ids);
    r := Some(size);
  }
}
