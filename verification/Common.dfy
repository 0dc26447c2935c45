/** What several of the models use. */
module Common {

  datatype Option<+T> = None | Some(value: T)

  ghost predicate NoDup<T>(s: seq<T>) {
    forall i, j | 0 <= i < j < |s| :: s[i] != s[j]
  }

  ghost function Elements<T>(s: seq<T>): set<T> {
    set x | x in s
  }

  lemma Snoc<T>(s: seq<T>, x: T)
    ensures Elements(s + [x]) == Elements(s) + {x}
    ensures NoDup(s) && x !in s ==> NoDup(s + [x])
  {
    assert forall y :: y in s + [x] <==> y in s || y == x;
  }

  function Front<T>(s: seq<T>): seq<T>
    requires s != []
  {
    s[..|s| - 1]
  }

  function Last<T>(s: seq<T>): T
    requires s != []
  {
    s[|s| - 1]
  }

  /** The elements of a set in some order, each once. */
  method InSomeOrder<T(==)>(s: set<T>) returns (list: seq<T>)
    ensures NoDup(list) && Elements(list) == s
  {
    list := [];
    var todo := s;
    while todo != {}
      invariant todo !! Elements(list) && todo + Elements(list) == s && NoDup(list)
      decreases todo
    {
      var x :| x in todo;
      assert x !in Elements(list);
      Snoc(list, x);
      list, todo := list + [x], todo - {x};
    }
  }
}
