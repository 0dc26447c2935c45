/** `UserThrottle` of `Utils/Throttled.py`: a counter per user, shared by all threads
    under a lock, and a nesting count of each thread's own. */
module Throttle {
  import opened Common

  type User = string
  type ThreadId = nat

  /** What `_incUser` returned to a thread that has not compared it with the limit yet. */
  datatype Ticket = Ticket(user: User, counter: int)

  /** One thread. Only `count` exists in the program (as `tls.count`, zero when unset);
      the rest records the `with` statements the thread is in. */
  datatype Thread = Thread(
    count: int,              // entries minus exits
    owner: User,             // for whom `count` last went from 0 to 1
    inside: seq<User>,       // bodies being executed, the outermost first
    ticket: Option<Ticket>,  // an entry under way
    rejected: nat)           // entries that raised: they were counted, and no exit follows

  const IDLE := Thread(0, "", [], None, 0)

  datatype State = State(users: map<User, int>, threads: map<ThreadId, Thread>)

  const START := State(map[], map[])

  function Get(s: State, t: ThreadId): Thread {
    if t in s.threads then s.threads[t] else IDLE
  }

  /** The atomic steps. The code around the lock touches nothing that is shared. */
  datatype Event =
    | Context(user: User)                 // `throttleContext`
    | Enter(thread: ThreadId, user: User) // `_incUser`
    | Decide(thread: ThreadId)            // the rest of `__enter__`
    | Exit(thread: ThreadId)              // `__exit__`, hence `_decUser`

  function SetDefault(users: map<User, int>, u: User): map<User, int> {
    if u in users then users else users[u := 0]
  }

  /** `_incUser` and `_decUser` on the shared counters, for a thread with this count. */
  function AfterInc(users: map<User, int>, count: int, u: User): map<User, int>
    requires u in users
  {
    if count + 1 == 1 then users[u := users[u] + 1] else users
  }

  function AfterDec(users: map<User, int>, count: int, u: User): map<User, int>
    requires u in users
  {
    if count - 1 == 0 then users[u := users[u] - 1] else users
  }

  /** An entry needs the key that making the context object put there, and a thread does
      one thing at a time; `None` for a step that cannot come next. */
  function Step(limit: int, s: State, e: Event): Option<State> {
    match e
    case Context(u) => Some(s.(users := SetDefault(s.users, u)))
    case Enter(t, u) =>
      var th := Get(s, t);
      if u !in s.users || th.ticket.Some? then None
      else
        var th' := th.(count := th.count + 1, owner := if th.count == 0 then u else th.owner,
                       ticket := Some(Ticket(u, s.users[u])));
        Some(State(AfterInc(s.users, th.count, u), s.threads[t := th']))
    case Decide(t) =>
      var th := Get(s, t);
      if th.ticket.None? then None
      else if th.ticket.value.counter > limit then
        Some(s.(threads := s.threads[t := th.(ticket := None, rejected := th.rejected + 1)]))
      else
        Some(s.(threads := s.threads[t := th.(ticket := None, inside := th.inside + [th.ticket.value.user])]))
    case Exit(t) =>
      var th := Get(s, t);
      if th.inside == [] || th.ticket.Some? then None
      else
        var u := th.inside[|th.inside| - 1];
        if u !in s.users then None
        else
          var th' := th.(count := th.count - 1, inside := th.inside[..|th.inside| - 1]);
          Some(State(AfterDec(s.users, th.count, u), s.threads[t := th']))
  }

  function Run(limit: int, s: State, events: seq<Event>): Option<State>
    decreases |events|
  {
    if events == [] then Some(s)
    else match Step(limit, s, events[0])
      case None => None
      case Some(s') => Run(limit, s', events[1..])
  }

  // ----- what every run keeps -----

  /** The threads counted against `u`. */
  function Counted(s: State, u: User): set<ThreadId> {
    set t | t in s.threads && s.threads[t].count > 0 && s.threads[t].owner == u
  }

  ghost predicate ThreadOk(th: Thread, known: set<User>) {
    && th.count == |th.inside| + th.rejected + (if th.ticket.Some? then 1 else 0)
    && (th.count > 0 ==> th.owner in known)
    && (th.ticket.Some? ==> th.ticket.value.user in known)
    && (forall u | u in th.inside :: u in known)
    // with no rejection behind it, the outermost entry is the one that was counted
    && (th.count > 0 && th.rejected == 0 ==>
          th.owner == if th.inside != [] then th.inside[0] else th.ticket.value.user)
  }

  ghost predicate ThreadsOk(s: State) {
    forall t | t in s.threads :: ThreadOk(s.threads[t], s.users.Keys)
  }

  ghost predicate CountersOk(s: State) {
    forall u | u in s.users :: s.users[u] == |Counted(s, u)|
  }

  ghost predicate Inv(s: State) {
    ThreadsOk(s) && CountersOk(s)
  }

  lemma ThreadKept(limit: int, s: State, e: Event, t: ThreadId)
    requires Step(limit, s, e).Some? && ThreadsOk(s)
    ensures ThreadOk(Get(Step(limit, s, e).value, t), Step(limit, s, e).value.users.Keys)
  {
    assert s.users.Keys <= Step(limit, s, e).value.users.Keys;
    assert ThreadOk(Get(s, t), s.users.Keys);
  }

  lemma ThreadsKept(limit: int, s: State, e: Event)
    requires Step(limit, s, e).Some? && ThreadsOk(s)
    ensures ThreadsOk(Step(limit, s, e).value)
  {
    var s' := Step(limit, s, e).value;
    forall t | t in s'.threads ensures ThreadOk(s'.threads[t], s'.users.Keys) {
      ThreadKept(limit, s, e, t);
    }
  }

  /** Replacing one thread moves at most that thread in or out. */
  lemma CountedAfter(s: State, t: ThreadId, th: Thread, users: map<User, int>, u: User)
    ensures Counted(State(users, s.threads[t := th]), u) ==
            if th.count > 0 && th.owner == u then Counted(s, u) + {t} else Counted(s, u) - {t}
    ensures t in Counted(s, u) <==> Get(s, t).count > 0 && Get(s, t).owner == u
  {
  }

  function One(b: bool): int { if b then 1 else 0 }

  lemma CountAfter(s: State, t: ThreadId, th: Thread, users: map<User, int>, u: User)
    ensures |Counted(State(users, s.threads[t := th]), u)| ==
            |Counted(s, u)| - One(Get(s, t).count > 0 && Get(s, t).owner == u) + One(th.count > 0 && th.owner == u)
  {
    CountedAfter(s, t, th, users, u);
  }

  lemma CounterKept(limit: int, s: State, e: Event, u: User)
    requires Step(limit, s, e).Some? && Inv(s) && u in Step(limit, s, e).value.users
    ensures Step(limit, s, e).value.users[u] == |Counted(Step(limit, s, e).value, u)|
  {
    var s' := Step(limit, s, e).value;
    if e.Context? {
      assert Counted(s', u) == Counted(s, u);
      if u !in s.users {
        forall t | t in s.threads ensures t !in Counted(s, u) {
          assert ThreadOk(s.threads[t], s.users.Keys);
        }
        assert Counted(s, u) == {};
      }
    } else {
      var t := e.thread;
      assert ThreadOk(Get(s, t), s.users.Keys);
      CountAfter(s, t, Get(s', t), s'.users, u);
      assert s' == State(s'.users, s.threads[t := Get(s', t)]);
      assert s'.users[u] - s.users[u] == One(Get(s', t).count > 0 && Get(s', t).owner == u)
                                         - One(Get(s, t).count > 0 && Get(s, t).owner == u);
    }
  }

  lemma StepKeeps(limit: int, s: State, e: Event)
    requires Inv(s) && Step(limit, s, e).Some?
    ensures Inv(Step(limit, s, e).value)
  {
    var s' := Step(limit, s, e).value;
    ThreadsKept(limit, s, e);
    forall u | u in s'.users ensures s'.users[u] == |Counted(s', u)| {
      CounterKept(limit, s, e, u);
    }
  }

  /** In every interleaving of entries, rejections and exits, the counter of a user is the
      number of threads whose nesting count is positive and was made so for that user. */
  lemma {:induction false} CountersExact(limit: int, s: State, events: seq<Event>)
    requires Inv(s) && Run(limit, s, events).Some?
    ensures Inv(Run(limit, s, events).value)
    decreases |events|
  {
    if events != [] {
      StepKeeps(limit, s, events[0]);
      CountersExact(limit, Step(limit, s, events[0]).value, events[1..]);
    }
  }

  lemma StartOk()
    ensures Inv(START)
  {
  }

  // ----- when everybody has left -----

  predicate Idle(s: State) {
    forall t | t in s.threads :: s.threads[t].inside == [] && s.threads[t].ticket == None
  }

  predicate NoRejection(s: State) {
    forall t | t in s.threads :: s.threads[t].rejected == 0
  }

  /** Once no thread is inside or on its way in, all the counters are back to zero if
      and only if no entry was ever rejected. */
  lemma BackToZeroIff(s: State)
    requires Inv(s) && Idle(s)
    ensures (forall u | u in s.users :: s.users[u] == 0) <==> NoRejection(s)
  {
    forall t | t in s.threads ensures ThreadOk(s.threads[t], s.users.Keys) { }
    if NoRejection(s) {
      forall u | u in s.users ensures s.users[u] == 0 {
        assert Counted(s, u) == {};
      }
    } else {
      var t :| t in s.threads && s.threads[t].rejected != 0;
      var u := s.threads[t].owner;
      assert t in Counted(s, u) && u in s.users;
    }
  }

  lemma RejectionStays(limit: int, s: State, e: Event, t: ThreadId)
    requires Inv(s) && Step(limit, s, e).Some? && Get(s, t).rejected > 0
    ensures Get(Step(limit, s, e).value, t).rejected > 0
    ensures Get(Step(limit, s, e).value, t).owner == Get(s, t).owner
  {
    assert ThreadOk(Get(s, t), s.users.Keys);
  }

  /** A rejected entry is never given back: from then on, in every continuation, the user
      its thread was counted for has a positive counter. */
  lemma {:induction false} RejectionIsForever(limit: int, s: State, events: seq<Event>, t: ThreadId)
    requires Inv(s) && Run(limit, s, events).Some? && Get(s, t).rejected > 0
    ensures var s' := Run(limit, s, events).value;
            var u := Get(s, t).owner;
            Get(s', t).rejected > 0 && Get(s', t).owner == u && u in s'.users && s'.users[u] >= 1
    decreases |events|
  {
    if events == [] {
      assert ThreadOk(Get(s, t), s.users.Keys);
      assert t in Counted(s, Get(s, t).owner);
    } else {
      StepKeeps(limit, s, events[0]);
      RejectionStays(limit, s, events[0], t);
      RejectionIsForever(limit, Step(limit, s, events[0]).value, events[1..], t);
    }
  }

  // ----- how many get in -----

  function Bound(limit: int): nat {
    if limit < 0 then 0 else limit + 1
  }

  /** The threads that execute a body for `u`. */
  function InsideFor(s: State, u: User): set<ThreadId> {
    set t | t in s.threads && u in s.threads[t].inside
  }

  /** Those of them that are counted for `u`. */
  function CountedInside(s: State, u: User): set<ThreadId> {
    set t | t in s.threads && u in s.threads[t].inside && s.threads[t].owner == u
  }

  /** The thread is inside for `u`, or the test will let it in. */
  predicate Admitted(th: Thread, limit: int, u: User) {
    u in th.inside || (th.ticket.Some? && th.ticket.value.user == u && th.ticket.value.counter <= limit)
  }

  /** The threads admitted for `u` that are counted for `u`. */
  function OwnAdmitted(s: State, limit: int, u: User): set<ThreadId> {
    set t | t in s.threads && s.threads[t].owner == u && Admitted(s.threads[t], limit, u)
  }

  /** The threads admitted for `u` that are counted for somebody else. */
  function ForeignAdmitted(s: State, limit: int, u: User): set<ThreadId> {
    set t | t in s.threads && s.threads[t].owner != u && Admitted(s.threads[t], limit, u)
  }

  /** A detour: an entry for `u` by a thread that is counted for somebody else at that moment,
      because it is inside for that user, or was rejected for that user once. */
  predicate IsDetour(s: State, e: Event, u: User) {
    e.Enter? && e.user == u && Get(s, e.thread).count > 0 && Get(s, e.thread).owner != u
  }

  /** The number of detours to `u` in a run. */
  function Detours(limit: int, s: State, events: seq<Event>, u: User): nat
    decreases |events|
  {
    if events == [] then 0
    else
      (if IsDetour(s, events[0], u) then 1 else 0) +
      match Step(limit, s, events[0])
      case None => 0
      case Some(s') => Detours(limit, s', events[1..], u)
  }

  ghost predicate LimitInv(s: State, limit: int) {
    Inv(s) && forall u :: |OwnAdmitted(s, limit, u)| <= Bound(limit)
  }

  lemma StartLimit(limit: int)
    ensures LimitInv(START, limit)
  {
    forall u ensures OwnAdmitted(START, limit, u) == {} { }
  }

  lemma Fewer(a: set<ThreadId>, b: set<ThreadId>)
    requires a <= b
    ensures |a| <= |b|
  {
    assert b == a + (b - a);
  }

  lemma AdmittedAreCounted(s: State, limit: int, u: User)
    requires Inv(s)
    ensures OwnAdmitted(s, limit, u) <= Counted(s, u)
  {
    forall t | t in OwnAdmitted(s, limit, u) ensures t in Counted(s, u) {
      assert ThreadOk(s.threads[t], s.users.Keys);
    }
  }

  /** A thread becomes admitted for `u` only by an entry for `u` that finds the counter within
      the limit; while it is admitted, the user it is counted for stays the same. */
  lemma Newcomer(limit: int, s: State, e: Event, u: User, t: ThreadId)
    requires Inv(s) && Step(limit, s, e).Some? && Admitted(Get(Step(limit, s, e).value, t), limit, u)
    ensures (Admitted(Get(s, t), limit, u) && Get(Step(limit, s, e).value, t).owner == Get(s, t).owner)
            || (e == Enter(t, u) && s.users[u] <= limit)
  {
    assert ThreadOk(Get(s, t), s.users.Keys);
  }

  /** The test looks at the counter, and the counter is the number of threads counted: so an
      entry that is counted for `u` is let in only while there are few of them. */
  lemma OwnStep(limit: int, s: State, e: Event, u: User)
    requires LimitInv(s, limit) && Step(limit, s, e).Some?
    ensures |OwnAdmitted(Step(limit, s, e).value, limit, u)| <= Bound(limit)
  {
    var s' := Step(limit, s, e).value;
    var before, after := OwnAdmitted(s, limit, u), OwnAdmitted(s', limit, u);
    forall t | t in after && t !in before ensures e == Enter(t, u) && s.users[u] <= limit {
      Newcomer(limit, s, e, u, t);
    }
    if e.Enter? && e.thread in after && e.thread !in before {
      AdmittedAreCounted(s, limit, u);
      Fewer(after, Counted(s, u) + {e.thread});
    } else {
      Fewer(after, before);
    }
  }

  lemma LimitStep(limit: int, s: State, e: Event)
    requires LimitInv(s, limit) && Step(limit, s, e).Some?
    ensures LimitInv(Step(limit, s, e).value, limit)
  {
    var s' := Step(limit, s, e).value;
    StepKeeps(limit, s, e);
    forall u ensures |OwnAdmitted(s', limit, u)| <= Bound(limit) { OwnStep(limit, s, e, u); }
  }

  /** A step makes one more thread foreign at most, and only if it is a detour. */
  lemma ForeignStep(limit: int, s: State, e: Event, u: User)
    requires LimitInv(s, limit) && Step(limit, s, e).Some?
    ensures |ForeignAdmitted(Step(limit, s, e).value, limit, u)| <=
            |ForeignAdmitted(s, limit, u)| + if IsDetour(s, e, u) then 1 else 0
  {
    var s' := Step(limit, s, e).value;
    var before, after := ForeignAdmitted(s, limit, u), ForeignAdmitted(s', limit, u);
    forall t | t in after && t !in before ensures e == Enter(t, u) && IsDetour(s, e, u) {
      Newcomer(limit, s, e, u, t);
      assert ThreadOk(Get(s, t), s.users.Keys);
    }
    if IsDetour(s, e, u) {
      Fewer(after, before + {e.thread});
    } else {
      Fewer(after, before);
    }
  }

  /** From any state: the threads counted for `u` keep to the limit, and the others are no more
      than there were and the detours that follow. */
  lemma {:induction false} RunBound(limit: int, s: State, events: seq<Event>, u: User)
    requires LimitInv(s, limit) && Run(limit, s, events).Some?
    ensures var s' := Run(limit, s, events).value;
            && LimitInv(s', limit)
            && |ForeignAdmitted(s', limit, u)| <= |ForeignAdmitted(s, limit, u)| + Detours(limit, s, events, u)
    decreases |events|
  {
    if events != [] {
      LimitStep(limit, s, events[0]);
      ForeignStep(limit, s, events[0], u);
      RunBound(limit, Step(limit, s, events[0]).value, events[1..], u);
    }
  }

  // ----- all runs -----

  /** In every run, with rejections, re-entry, and threads that serve any users: the counters
      are exact. */
  lemma CountersExactFromStart(limit: int, events: seq<Event>)
    requires Run(limit, START, events).Some?
    ensures Inv(Run(limit, START, events).value)
  {
    StartOk();
    CountersExact(limit, START, events);
  }

  /** No run ever has more than `limit + 1` threads inside for a user and counted for that user. */
  lemma CountedAreLimited(limit: int, events: seq<Event>, u: User)
    requires Run(limit, START, events).Some?
    ensures |CountedInside(Run(limit, START, events).value, u)| <= Bound(limit)
  {
    StartLimit(limit);
    RunBound(limit, START, events, u);
    var s' := Run(limit, START, events).value;
    Fewer(CountedInside(s', u), OwnAdmitted(s', limit, u));
  }

  /** So more than `limit + 1` threads are inside for a user only if some of them are counted
      for somebody else, and then by no more than there are of these. */
  lemma ExcessIsForeign(limit: int, events: seq<Event>, u: User)
    requires Run(limit, START, events).Some?
    ensures var s' := Run(limit, START, events).value;
            |InsideFor(s', u)| <= Bound(limit) + |InsideFor(s', u) - CountedInside(s', u)|
    ensures var s' := Run(limit, START, events).value;
            forall t | t in InsideFor(s', u) - CountedInside(s', u) :: s'.threads[t].owner != u
  {
    CountedAreLimited(limit, events, u);
    var s' := Run(limit, START, events).value;
    assert InsideFor(s', u) == CountedInside(s', u) + (InsideFor(s', u) - CountedInside(s', u));
  }

  /** In every run, no more threads are inside for a user than `limit + 1` and the detours made
      to that user. */
  lemma AtMostLimitAndDetours(limit: int, events: seq<Event>, u: User)
    requires Run(limit, START, events).Some?
    ensures |InsideFor(Run(limit, START, events).value, u)| <= Bound(limit) + Detours(limit, START, events, u)
  {
    StartLimit(limit);
    RunBound(limit, START, events, u);
    assert ForeignAdmitted(START, limit, u) == {};
    var s' := Run(limit, START, events).value;
    var both := OwnAdmitted(s', limit, u) + ForeignAdmitted(s', limit, u);
    Fewer(InsideFor(s', u), both);
  }

  /** Every entry finds its thread uncounted, or counted for the user it is for. */
  predicate NoDetours(limit: int, s: State, events: seq<Event>)
    decreases |events|
  {
    events == [] ||
    ((events[0].Enter? ==> var th := Get(s, events[0].thread); th.count == 0 || th.owner == events[0].user) &&
     match Step(limit, s, events[0])
     case None => true
     case Some(s') => NoDetours(limit, s', events[1..]))
  }

  lemma {:induction false} NoneIsZero(limit: int, s: State, events: seq<Event>, u: User)
    requires LimitInv(s, limit) && NoDetours(limit, s, events)
    ensures Detours(limit, s, events, u) == 0
    decreases |events|
  {
    if events != [] && Step(limit, s, events[0]).Some? {
      LimitStep(limit, s, events[0]);
      NoneIsZero(limit, Step(limit, s, events[0]).value, events[1..], u);
    }
  }

  /** Without detours the limit holds for all threads, also those that serve one user after
      another. */
  lemma AtMostLimitPlusOneIfGuarded(limit: int, events: seq<Event>, u: User)
    requires Run(limit, START, events).Some? && NoDetours(limit, START, events)
    ensures |InsideFor(Run(limit, START, events).value, u)| <= Bound(limit)
  {
    StartLimit(limit);
    NoneIsZero(limit, START, events, u);
    AtMostLimitAndDetours(limit, events, u);
  }

  // ----- threads that serve one user -----

  /** Every entry of thread `t` is for the user `home(t)`. */
  predicate EntersFor(home: ThreadId -> User, e: Event) {
    e.Enter? ==> e.user == home(e.thread)
  }

  predicate Only(users: seq<User>, user: User) {
    forall i | 0 <= i < |users| :: users[i] == user
  }

  ghost predicate ThreadAtHome(th: Thread, user: User) {
    && (th.count > 0 ==> th.owner == user) && Only(th.inside, user)
    && (th.ticket.Some? ==> th.ticket.value.user == user)
  }

  ghost predicate AtHome(s: State, home: ThreadId -> User) {
    forall t :: ThreadAtHome(Get(s, t), home(t))
  }

  lemma HomeStep(limit: int, s: State, e: Event, home: ThreadId -> User)
    requires Inv(s) && AtHome(s, home) && EntersFor(home, e) && Step(limit, s, e).Some?
    ensures AtHome(Step(limit, s, e).value, home)
  {
    forall t ensures ThreadAtHome(Get(Step(limit, s, e).value, t), home(t)) {
      assert ThreadAtHome(Get(s, t), home(t)) && ThreadOk(Get(s, t), s.users.Keys);
    }
  }

  lemma {:induction false} HomeRun(limit: int, s: State, events: seq<Event>, home: ThreadId -> User)
    requires Inv(s) && AtHome(s, home) && Run(limit, s, events).Some?
    requires forall i | 0 <= i < |events| :: EntersFor(home, events[i])
    ensures AtHome(Run(limit, s, events).value, home) && NoDetours(limit, s, events)
    decreases |events|
  {
    if events != [] {
      var e := events[0];
      assert EntersFor(home, e);
      if e.Enter? {
        assert ThreadAtHome(Get(s, e.thread), home(e.thread)) && ThreadOk(Get(s, e.thread), s.users.Keys);
      }
      StepKeeps(limit, s, e);
      HomeStep(limit, s, e, home);
      HomeRun(limit, Step(limit, s, e).value, events[1..], home);
    }
  }

  /** When every thread enters for one user only, no interleaving, with rejections and
      re-entry, ever has more than `limit + 1` threads of a user inside. */
  lemma AtMostLimitPlusOne(limit: int, events: seq<Event>, home: ThreadId -> User, u: User)
    requires Run(limit, START, events).Some?
    requires forall i | 0 <= i < |events| :: EntersFor(home, events[i])
    ensures var s' := Run(limit, START, events).value;
            |set t | t in s'.threads && home(t) == u && s'.threads[t].inside != []| <= Bound(limit)
  {
    StartOk();
    HomeRun(limit, START, events, home);
    AtMostLimitPlusOneIfGuarded(limit, events, u);
    var s' := Run(limit, START, events).value;
    var atHome := set t | t in s'.threads && home(t) == u && s'.threads[t].inside != [];
    forall t | t in atHome ensures t in InsideFor(s', u) {
      assert ThreadAtHome(Get(s', t), home(t)) && s'.threads[t].inside[0] == u;
    }
    Fewer(atHome, InsideFor(s', u));
  }

  // ----- the bound is reached -----

  lemma {:induction false} RunAppend(limit: int, s: State, xs: seq<Event>, ys: seq<Event>)
    ensures Run(limit, s, xs + ys) == match Run(limit, s, xs) case None => None case Some(s') => Run(limit, s', ys)
    decreases |xs|
  {
    if xs == [] {
      assert xs + ys == ys;
    } else {
      assert (xs + ys)[1..] == xs[1..] + ys;
      match Step(limit, s, xs[0])
      case None =>
      case Some(s') => RunAppend(limit, s', xs[1..], ys);
    }
  }

  lemma {:induction false} DetoursAppend(limit: int, s: State, xs: seq<Event>, ys: seq<Event>, u: User)
    requires Run(limit, s, xs).Some?
    ensures Detours(limit, s, xs + ys, u) ==
            Detours(limit, s, xs, u) + Detours(limit, Run(limit, s, xs).value, ys, u)
    decreases |xs|
  {
    if xs == [] {
      assert xs + ys == ys;
    } else {
      assert (xs + ys)[1..] == xs[1..] + ys;
      DetoursAppend(limit, Step(limit, s, xs[0]).value, xs[1..], ys, u);
    }
  }

  /** A user of thread `t`'s own. */
  function OwnUser(t: ThreadId): (u: User)
    ensures |u| == t + 2
  {
    seq(t + 2, _ => 'a')
  }

  /** Enter for the own user, then, from inside, for "u". */
  function Detour(t: ThreadId): seq<Event> {
    [Context(OwnUser(t)), Enter(t, OwnUser(t)), Decide(t), Enter(t, "u"), Decide(t)]
  }

  lemma DetourSteps(limit: nat, s: State, t: ThreadId) returns (s1: State, s2: State, s3: State, s4: State, s5: State)
    requires "u" in s.users && s.users["u"] == 0 && OwnUser(t) !in s.users && t !in s.threads
    ensures var d := Detour(t);
            && Step(limit, s, d[0]) == Some(s1) && Step(limit, s1, d[1]) == Some(s2)
            && Step(limit, s2, d[2]) == Some(s3)
            && Step(limit, s3, d[3]) == Some(s4) && Step(limit, s4, d[4]) == Some(s5)
    ensures s5 == State(s.users[OwnUser(t) := 1], s.threads[t := Thread(2, OwnUser(t), [OwnUser(t), "u"], None, 0)])
    ensures IsDetour(s3, Detour(t)[3], "u")
  {
    var own := OwnUser(t);
    assert own != "u";
    s1 := State(s.users[own := 0], s.threads);
    s2 := State(s.users[own := 1], s.threads[t := Thread(1, own, [], Some(Ticket(own, 0)), 0)]);
    s3 := State(s2.users, s.threads[t := Thread(1, own, [own], None, 0)]);
    s4 := State(s2.users, s.threads[t := Thread(2, own, [own], Some(Ticket("u", 0)), 0)]);
    s5 := State(s2.users, s.threads[t := Thread(2, own, [own, "u"], None, 0)]);
    assert s1.users[own := 1] == s2.users;
    assert s2.threads[t := Thread(1, own, [own], None, 0)] == s3.threads;
    assert [] + [own] == [own] && [own] + ["u"] == [own, "u"];
    assert s3.threads[t := Thread(2, own, [own], Some(Ticket("u", 0)), 0)] == s4.threads;
    assert s4.threads[t := Thread(2, own, [own, "u"], None, 0)] == s5.threads;
  }

  lemma RunFirst(limit: int, s: State, events: seq<Event>, s': State, rest: seq<Event>, u: User)
    requires events != [] && events[1..] == rest && Step(limit, s, events[0]) == Some(s')
    ensures Run(limit, s, events) == Run(limit, s', rest)
    ensures Detours(limit, s, events, u) == (if IsDetour(s, events[0], u) then 1 else 0) + Detours(limit, s', rest, u)
  {
  }

  lemma RunDetour(limit: nat, s: State, t: ThreadId)
    requires "u" in s.users && s.users["u"] == 0 && OwnUser(t) !in s.users && t !in s.threads
    ensures Run(limit, s, Detour(t)) ==
            Some(State(s.users[OwnUser(t) := 1], s.threads[t := Thread(2, OwnUser(t), [OwnUser(t), "u"], None, 0)]))
    ensures Detours(limit, s, Detour(t), "u") == 1
  {
    var d := Detour(t);
    var s1, s2, s3, s4, s5 := DetourSteps(limit, s, t);
    assert OwnUser(t) != "u";
    assert d[1..][1..] == d[2..] && d[2..][1..] == d[3..] && d[3..][1..] == d[4..] && d[4..][1..] == [];
    RunFirst(limit, s4, d[4..], s5, [], "u");
    RunFirst(limit, s3, d[3..], s4, d[4..], "u");
    RunFirst(limit, s2, d[2..], s3, d[3..], "u");
    RunFirst(limit, s1, d[1..], s2, d[2..], "u");
    RunFirst(limit, s, d, s1, d[1..], "u");
  }

  /** The first `n` threads are all the threads there are, and all are inside for "u". */
  ghost predicate FirstInside(s: State, n: nat) {
    forall t: ThreadId :: (t in s.threads <==> t < n) && (t < n ==> "u" in s.threads[t].inside)
  }

  /** Each of them has its place for a user of its own, and nobody is counted for "u". */
  ghost predicate Nested(s: State, n: nat) {
    FirstInside(s, n) && "u" in s.users && s.users["u"] == 0 && forall v | v in s.users :: |v| <= n + 1
  }

  lemma OneMore(s: State, n: nat, own: User)
    requires Nested(s, n) && own == OwnUser(n)
    ensures own !in s.users && n !in s.threads
    ensures Nested(State(s.users[own := 1], s.threads[n := Thread(2, own, [own, "u"], None, 0)]), n + 1)
  {
    assert [own, "u"][1] == "u";
  }

  /** Detours are not limited: whatever the limit is, any number of threads can be inside for
      one user at once by one detour each, with that user's counter at zero. */
  lemma {:induction false} NestedUsersAreNotLimited(limit: nat, n: nat) returns (events: seq<Event>)
    ensures Run(limit, START, events).Some? && Nested(Run(limit, START, events).value, n)
    ensures Detours(limit, START, events, "u") == n
  {
    if n == 0 {
      events := [Context("u")];
      assert events[1..] == [];
      assert Step(limit, START, events[0]) == Some(State(map["u" := 0], map[]));
    } else {
      var before := NestedUsersAreNotLimited(limit, n - 1);
      events := before + Detour(n - 1);
      var s := Run(limit, START, before).value;
      OneMore(s, n - 1, OwnUser(n - 1));
      RunAppend(limit, START, before, Detour(n - 1));
      RunDetour(limit, s, n - 1);
      DetoursAppend(limit, START, before, Detour(n - 1), "u");
    }
  }

  function Plain(t: ThreadId): seq<Event> {
    [Enter(t, "u"), Decide(t)]
  }

  lemma RunPlain(limit: nat, s: State, t: ThreadId)
    requires "u" in s.users && s.users["u"] <= limit && t !in s.threads
    ensures Run(limit, s, Plain(t)) ==
            Some(State(s.users["u" := s.users["u"] + 1], s.threads[t := Thread(1, "u", ["u"], None, 0)]))
    ensures Detours(limit, s, Plain(t), "u") == 0
  {
    var users := s.users["u" := s.users["u"] + 1];
    var s1 := State(users, s.threads[t := Thread(1, "u", [], Some(Ticket("u", s.users["u"])), 0)]);
    var s2 := State(users, s.threads[t := Thread(1, "u", ["u"], None, 0)]);
    var p := Plain(t);
    assert Step(limit, s, p[0]) == Some(s1);
    assert s1.threads[t := Thread(1, "u", ["u"], None, 0)] == s2.threads;
    assert [] + ["u"] == ["u"];
    assert Step(limit, s1, p[1]) == Some(s2);
    assert p[1..][1..] == [];
    assert Run(limit, s1, p[1..]) == Some(s2);
    assert Detours(limit, s1, p[1..], "u") == 0;
  }

  /** After `k` detours, `n` threads more enter for "u" alone, up to the limit. */
  lemma {:induction false} Fill(limit: nat, k: nat, n: nat) returns (events: seq<Event>)
    requires n <= limit + 1
    ensures var r := Run(limit, START, events);
            r.Some? && "u" in r.value.users && r.value.users["u"] == n && FirstInside(r.value, k + n)
    ensures Detours(limit, START, events, "u") == k
    decreases n
  {
    if n == 0 {
      events := NestedUsersAreNotLimited(limit, k);
    } else {
      var before := Fill(limit, k, n - 1);
      events := before + Plain(k + n - 1);
      RunAppend(limit, START, before, Plain(k + n - 1));
      RunPlain(limit, Run(limit, START, before).value, k + n - 1);
      DetoursAppend(limit, START, before, Plain(k + n - 1), "u");
    }
  }

  lemma {:induction false} FirstThreads(n: nat, s: set<ThreadId>)
    requires forall t: ThreadId :: t in s <==> t < n
    ensures |s| == n
    decreases n
  {
    if n == 0 {
      assert s == {};
    } else {
      FirstThreads(n - 1, s - {n - 1});
      assert s == s - {n - 1} + {n - 1};
    }
  }

  /** The bound is reached, for every limit and every number of detours; a single detour is
      enough to have `limit + 2` threads inside. */
  lemma BoundIsReached(limit: nat, k: nat) returns (events: seq<Event>)
    ensures Run(limit, START, events).Some? && Detours(limit, START, events, "u") == k
    ensures |InsideFor(Run(limit, START, events).value, "u")| == limit + 1 + k
  {
    events := Fill(limit, k, limit + 1);
    FirstThreads(k + limit + 1, InsideFor(Run(limit, START, events).value, "u"));
  }

  /** All runs with at most `k` detours to a user keep to `m` threads inside for that user. */
  ghost predicate KeepsTo(limit: int, k: nat, m: nat) {
    forall events, u | Run(limit, START, events).Some? && Detours(limit, START, events, u) <= k ::
      |InsideFor(Run(limit, START, events).value, u)| <= m
  }

  /** Waiting at most, with a counter that is no less than zero. */
  predicate Outside(th: Thread) {
    th.inside == [] && (th.ticket.Some? ==> th.ticket.value.counter >= 0)
  }

  ghost predicate NobodyIn(s: State) {
    forall t :: Outside(Get(s, t))
  }

  lemma StaysOutside(limit: int, s: State, e: Event, t: ThreadId)
    requires limit < 0 && CountersOk(s) && NobodyIn(s) && Step(limit, s, e).Some?
    ensures Outside(Get(Step(limit, s, e).value, t))
  {
    assert Outside(Get(s, t));
  }

  /** With a negative limit nobody gets in. */
  lemma {:induction false} NegativeLimit(limit: int, s: State, events: seq<Event>)
    requires limit < 0 && Inv(s) && NobodyIn(s) && Run(limit, s, events).Some?
    ensures NobodyIn(Run(limit, s, events).value)
    decreases |events|
  {
    if events != [] {
      var s' := Step(limit, s, events[0]).value;
      StepKeeps(limit, s, events[0]);
      forall t ensures Outside(Get(s', t)) { StaysOutside(limit, s, events[0], t); }
      NegativeLimit(limit, s', events[1..]);
    }
  }

  /** So many detours, so many threads above the limit: exactly. */
  lemma KeepsToIff(limit: int, k: nat, m: nat)
    ensures KeepsTo(limit, k, m) <==> limit < 0 || limit + 1 + k <= m
  {
    if limit < 0 {
      forall events, u | Run(limit, START, events).Some? && Detours(limit, START, events, u) <= k
        ensures |InsideFor(Run(limit, START, events).value, u)| <= m
      {
        NegativeLimit(limit, START, events);
        var s' := Run(limit, START, events).value;
        forall t | t in s'.threads ensures t !in InsideFor(s', u) { assert Outside(Get(s', t)); }
        assert InsideFor(s', u) == {};
      }
    } else if limit + 1 + k <= m {
      forall events, u | Run(limit, START, events).Some? && Detours(limit, START, events, u) <= k
        ensures |InsideFor(Run(limit, START, events).value, u)| <= m
      {
        AtMostLimitAndDetours(limit, events, u);
      }
    } else {
      var events := BoundIsReached(limit, k);
    }
  }

  // ----- locked out for good -----

  /** The thread will be rejected, or was: it is counted from now on whatever happens. */
  predicate IsStuck(th: Thread, limit: int) {
    th.count > 0 && (th.rejected > 0 || (th.ticket.Some? && th.ticket.value.counter > limit))
  }

  /** The stuck threads that are counted for `u`. */
  function Stuck(s: State, limit: int, u: User): set<ThreadId> {
    set t | t in s.threads && s.threads[t].owner == u && IsStuck(s.threads[t], limit)
  }

  lemma StuckStays(limit: int, s: State, e: Event, u: User, t: ThreadId)
    requires Inv(s) && Step(limit, s, e).Some? && t in Stuck(s, limit, u)
    ensures t in Stuck(Step(limit, s, e).value, limit, u)
  {
    assert ThreadOk(Get(s, t), s.users.Keys);
  }

  lemma {:induction false} StuckStaysStuck(limit: int, s: State, events: seq<Event>, u: User)
    requires Inv(s) && Run(limit, s, events).Some?
    ensures Inv(Run(limit, s, events).value) && Stuck(s, limit, u) <= Stuck(Run(limit, s, events).value, limit, u)
    decreases |events|
  {
    if events != [] {
      var s' := Step(limit, s, events[0]).value;
      StepKeeps(limit, s, events[0]);
      forall t | t in Stuck(s, limit, u) ensures t in Stuck(s', limit, u) { StuckStays(limit, s, events[0], u, t); }
      StuckStaysStuck(limit, s', events[1..], u);
    }
  }

  /** An entry for `u` that comes next is rejected whenever it is decided. */
  predicate Refuses(limit: int, s: State, u: User) {
    u in s.users && s.users[u] > limit
  }

  /** In every continuation, all entries for `u` are rejected. */
  ghost predicate LockedOut(limit: int, s: State, u: User) {
    forall events | Run(limit, s, events).Some? :: Refuses(limit, Run(limit, s, events).value, u)
  }

  /** What that means for the entry itself, by whatever thread. */
  lemma RefusedEntry(limit: int, s: State, t: ThreadId, u: User)
    requires u in s.users && Get(s, t).ticket.None?
    ensures var r := Run(limit, s, [Enter(t, u), Decide(t)]);
            r.Some? && (Refuses(limit, s, u) <==> Get(r.value, t).inside == Get(s, t).inside)
  {
    var events := [Enter(t, u), Decide(t)];
    assert events[1..] == [Decide(t)] && events[1..][1..] == [];
    var s1 := Step(limit, s, events[0]).value;
    var s2 := Step(limit, s1, events[1]).value;
    assert Run(limit, s1, events[1..]) == Some(s2);
    assert |Get(s, t).inside + [u]| == |Get(s, t).inside| + 1;
  }

  /** The next step of a thread that is not stuck, on its way out. */
  function WayOut(th: Thread, t: ThreadId): Event {
    if th.ticket.Some? then Decide(t) else Exit(t)
  }

  function Left(th: Thread): nat {
    |th.inside| + if th.ticket.Some? then 2 else 0
  }

  lemma OutStep(limit: int, s: State, t: ThreadId)
    requires Inv(s) && t in s.threads && s.threads[t].count > 0 && !IsStuck(s.threads[t], limit)
    ensures var r := Step(limit, s, WayOut(s.threads[t], t));
            && r.Some? && r.value.threads.Keys == s.threads.Keys && r.value.users.Keys == s.users.Keys
            && (forall x | x in s.threads && x != t :: r.value.threads[x] == s.threads[x])
            && !IsStuck(r.value.threads[t], limit) && Left(r.value.threads[t]) < Left(s.threads[t])
  {
    var th := s.threads[t];
    assert ThreadOk(th, s.users.Keys);
    if th.ticket.None? {
      assert th.inside[|th.inside| - 1] in th.inside;
    }
  }

  /** A thread that is not stuck can leave altogether. */
  lemma {:induction false} Leave(limit: int, s: State, t: ThreadId) returns (events: seq<Event>)
    requires Inv(s) && t in s.threads && !IsStuck(s.threads[t], limit)
    ensures var r := Run(limit, s, events);
            && r.Some? && Inv(r.value) && r.value.threads.Keys == s.threads.Keys && r.value.users.Keys == s.users.Keys
            && (forall x | x in s.threads && x != t :: r.value.threads[x] == s.threads[x])
            && r.value.threads[t].count == 0
    decreases Left(s.threads[t])
  {
    assert ThreadOk(s.threads[t], s.users.Keys);
    if s.threads[t].count == 0 {
      events := [];
    } else {
      var e := WayOut(s.threads[t], t);
      OutStep(limit, s, t);
      StepKeeps(limit, s, e);
      var rest := Leave(limit, Step(limit, s, e).value, t);
      events := [e] + rest;
      assert events[1..] == rest;
    }
  }

  lemma Without(limit: int, s: State, s': State, t: ThreadId, u: User)
    requires t in Counted(s, u) && !IsStuck(s.threads[t], limit) && s'.threads.Keys == s.threads.Keys
    requires forall x | x in s.threads && x != t :: s'.threads[x] == s.threads[x]
    requires s'.threads[t].count == 0
    ensures Counted(s', u) == Counted(s, u) - {t} && Stuck(s', limit, u) == Stuck(s, limit, u)
  {
  }

  /** All threads counted for `u` that are not stuck can leave. */
  lemma {:induction false} LeaveAll(limit: int, s: State, u: User) returns (events: seq<Event>)
    requires Inv(s)
    ensures var r := Run(limit, s, events);
            && r.Some? && Inv(r.value) && r.value.users.Keys == s.users.Keys
            && Counted(r.value, u) == Stuck(s, limit, u)
    decreases |Counted(s, u)|
  {
    assert Stuck(s, limit, u) <= Counted(s, u);
    if Counted(s, u) == Stuck(s, limit, u) {
      events := [];
    } else {
      var t :| t in Counted(s, u) && t !in Stuck(s, limit, u);
      var first := Leave(limit, s, t);
      var s' := Run(limit, s, first).value;
      Without(limit, s, s', t, u);
      assert Counted(s, u) == Counted(s', u) + {t};
      var rest := LeaveAll(limit, s', u);
      RunAppend(limit, s, first, rest);
      events := first + rest;
    }
  }

  /** A user is locked out for good, however the threads go on, if and only if more than
      `limit` threads counted for that user were rejected, or are about to be. */
  lemma LockedOutIff(limit: int, s: State, u: User)
    requires Inv(s) && u in s.users
    ensures LockedOut(limit, s, u) <==> |Stuck(s, limit, u)| > limit
  {
    if |Stuck(s, limit, u)| > limit {
      forall events | Run(limit, s, events).Some? ensures Refuses(limit, Run(limit, s, events).value, u) {
        StuckStaysStuck(limit, s, events, u);
        UserStays(limit, s, events, u);
        var s' := Run(limit, s, events).value;
        Fewer(Stuck(s, limit, u), Counted(s', u));
      }
    } else {
      var events := LeaveAll(limit, s, u);
      assert !Refuses(limit, Run(limit, s, events).value, u);
    }
  }

  lemma {:induction false} UserStays(limit: int, s: State, events: seq<Event>, u: User)
    requires u in s.users && Run(limit, s, events).Some?
    ensures u in Run(limit, s, events).value.users
    decreases |events|
  {
    if events != [] { UserStays(limit, Step(limit, s, events[0]).value, events[1..], u); }
  }

  /** Each rejection of another thread brings that closer, and `limit + 1` of them do it: from
      then on nobody enters for the user any more. */
  lemma RejectionsLockOut(limit: int, s: State, u: User, rejected: set<ThreadId>)
    requires Inv(s) && |rejected| > limit
    requires forall t | t in rejected :: t in s.threads && s.threads[t].owner == u && s.threads[t].rejected > 0
    requires u in s.users
    ensures LockedOut(limit, s, u)
  {
    forall t | t in rejected ensures t in Stuck(s, limit, u) { assert ThreadOk(s.threads[t], s.users.Keys); }
    Fewer(rejected, Stuck(s, limit, u));
    LockedOutIff(limit, s, u);
  }

  /** The threads from `first` on, `n` of them, are the last there are, and were rejected for "u". */
  ghost predicate RejectedFrom(s: State, first: nat, n: nat) {
    forall t: ThreadId :: (t in s.threads <==> t < first + n)
                          && (first <= t < first + n ==> s.threads[t].owner == "u" && s.threads[t].rejected > 0)
  }

  lemma RunRejected(limit: nat, s: State, t: ThreadId)
    requires "u" in s.users && s.users["u"] > limit && t !in s.threads
    ensures Run(limit, s, Plain(t)) ==
            Some(State(s.users["u" := s.users["u"] + 1], s.threads[t := Thread(1, "u", [], None, 1)]))
  {
    var users := s.users["u" := s.users["u"] + 1];
    var s1 := State(users, s.threads[t := Thread(1, "u", [], Some(Ticket("u", s.users["u"])), 0)]);
    var s2 := State(users, s.threads[t := Thread(1, "u", [], None, 1)]);
    var p := Plain(t);
    assert Step(limit, s, p[0]) == Some(s1);
    assert s1.threads[t := Thread(1, "u", [], None, 1)] == s2.threads;
    assert Step(limit, s1, p[1]) == Some(s2);
    assert p[1..][1..] == [];
    assert Run(limit, s1, p[1..]) == Some(s2);
  }

  lemma {:induction false} Overfill(limit: nat, n: nat) returns (events: seq<Event>)
    ensures var r := Run(limit, START, events);
            && r.Some? && "u" in r.value.users && r.value.users["u"] == limit + 1 + n
            && RejectedFrom(r.value, limit + 1, n)
    decreases n
  {
    if n == 0 {
      events := Fill(limit, 0, limit + 1);
    } else {
      var before := Overfill(limit, n - 1);
      events := before + Plain(limit + n);
      RunAppend(limit, START, before, Plain(limit + n));
      RunRejected(limit, Run(limit, START, before).value, limit + n);
    }
  }

  /** This happens, for every limit: `2 * limit + 2` plain entries at once are enough. */
  lemma LockOutIsReached(limit: nat) returns (events: seq<Event>)
    ensures Run(limit, START, events).Some? && LockedOut(limit, Run(limit, START, events).value, "u")
  {
    events := Overfill(limit, limit + 1);
    var s := Run(limit, START, events).value;
    CountersExactFromStart(limit, events);
    var all := set t | t in s.threads;
    var rejected := set t | t in s.threads && t > limit;
    FirstThreads(2 * limit + 2, all);
    var early := set t | t in s.threads && t <= limit;
    FirstThreads(limit + 1, early);
    assert all == early + rejected && early !! rejected;
    RejectionsLockOut(limit, s, "u", rejected);
  }

  // ----- the object -----

  function CountOf(counts: map<ThreadId, int>, t: ThreadId): int {
    if t in counts then counts[t] else 0
  }

  /** The fields of the object are what `s` says. */
  ghost predicate Shows(users: map<User, int>, counts: map<ThreadId, int>, s: State) {
    users == s.users && forall t :: Get(s, t).count == CountOf(counts, t)
  }

  lemma ShowsEnter(limit: int, users: map<User, int>, counts: map<ThreadId, int>, s: State, t: ThreadId, u: User)
    requires Shows(users, counts, s) && Step(limit, s, Enter(t, u)).Some?
    ensures Shows(AfterInc(users, CountOf(counts, t), u), counts[t := CountOf(counts, t) + 1],
                  Step(limit, s, Enter(t, u)).value)
  {
    var s' := Step(limit, s, Enter(t, u)).value;
    forall x ensures Get(s', x).count == CountOf(counts[t := CountOf(counts, t) + 1], x) {
      assert Get(s, x).count == CountOf(counts, x);
    }
  }

  lemma ShowsExit(limit: int, users: map<User, int>, counts: map<ThreadId, int>, s: State, t: ThreadId)
    requires Shows(users, counts, s) && Step(limit, s, Exit(t)).Some?
    ensures var inside := Get(s, t).inside;
            Shows(AfterDec(users, CountOf(counts, t), inside[|inside| - 1]), counts[t := CountOf(counts, t) - 1],
                  Step(limit, s, Exit(t)).value)
  {
    var s' := Step(limit, s, Exit(t)).value;
    forall x ensures Get(s', x).count == CountOf(counts[t := CountOf(counts, t) - 1], x) {
      assert Get(s, x).count == CountOf(counts, x);
    }
  }

  /** A thread that is inside can always leave. */
  lemma CanExit(limit: int, s: State, t: ThreadId)
    requires Inv(s) && Get(s, t).inside != [] && Get(s, t).ticket.None?
    ensures Step(limit, s, Exit(t)).Some? && Inv(Step(limit, s, Exit(t)).value)
    ensures Get(s, t).count > 0 && Get(s, t).inside[|Get(s, t).inside| - 1] in s.users
  {
    assert ThreadOk(Get(s, t), s.users.Keys);
    StepKeeps(limit, s, Exit(t));
  }

  /** The shared object. `counts` is the thread-local `count` of each thread that has one;
      `model` records the `with` statements of all threads. */
  class UserThrottle {
    var users: map<User, int>
    var counts: map<ThreadId, int>
    var limit: int
    ghost var model: State

    ghost predicate Valid()
      reads this
    {
      Shows(users, counts, model) && Inv(model)
    }

    constructor (limit: int)
      ensures Valid() && this.limit == limit && model == START
    {
      users, counts, this.limit := map[], map[], limit;
      model := START;
    }

    method ThrottleContext(u: User)
      requires Valid()
      modifies this
      ensures Valid() && limit == old(limit) && Step(limit, old(model), Context(u)) == Some(model)
      ensures u in users
    {
      StepKeeps(limit, model, Context(u));
      if u !in users {
        users := users[u := 0];
      }
      model := Step(limit, model, Context(u)).value;
    }

    /** `_incUser`, with the lock held throughout. */
    method IncUser(t: ThreadId, u: User) returns (retval: int)
      requires Valid() && u in users && Get(model, t).ticket.None?
      modifies this
      ensures Valid() && limit == old(limit) && Step(limit, old(model), Enter(t, u)) == Some(model)
      ensures retval == old(users[u]) && Get(model, t).ticket == Some(Ticket(u, retval))
    {
      StepKeeps(limit, model, Enter(t, u));
      ShowsEnter(limit, users, counts, model, t, u);
      model := Step(limit, model, Enter(t, u)).value;
      retval := users[u];
      if t !in counts {
        counts := counts[t := 0];
      }
      counts := counts[t := counts[t] + 1];
      if counts[t] == 1 {
        users := users[u := retval + 1];
      }
    }

    /** `_decUser`, with the lock held throughout. */
    method DecUser(t: ThreadId, u: User) returns (retval: int)
      requires Valid() && Get(model, t).ticket.None?
      requires Get(model, t).inside != [] && u == Get(model, t).inside[|Get(model, t).inside| - 1]
      modifies this
      ensures Valid() && limit == old(limit) && Step(limit, old(model), Exit(t)) == Some(model)
      ensures u in old(users) && retval == old(users[u])
    {
      CanExit(limit, model, t);
      ShowsExit(limit, users, counts, model, t);
      model := Step(limit, model, Exit(t)).value;
      retval := users[u];
      assert t in counts;
      counts := counts[t := counts[t] - 1];
      if counts[t] == 0 {
        users := users[u := retval - 1];
      }
    }

    /** `_ThrottleCounter.__enter__` when no other thread runs in between; false if it raises. */
    method EnterContext(t: ThreadId, u: User) returns (admitted: bool)
      requires Valid() && u in users && Get(model, t).ticket.None?
      modifies this
      ensures Valid() && limit == old(limit) && Run(limit, old(model), [Enter(t, u), Decide(t)]) == Some(model)
      ensures admitted == (old(users[u]) <= limit)
    {
      ghost var before := model;
      var ctr := IncUser(t, u);
      ghost var between := model;
      StepKeeps(limit, model, Decide(t));
      model := Step(limit, model, Decide(t)).value;
      admitted := !(ctr > limit);
      ghost var events := [Enter(t, u), Decide(t)];
      assert events[1..] == [Decide(t)] && events[1..][1..] == [];
      assert Run(limit, between, events[1..]) == Some(model);
    }
  }
}
