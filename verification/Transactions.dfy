/** Nested database transactions: `WMConnectionBase` and the `Transaction` of one thread. */
module Transactions {
  import opened Common

  type Statement = string

  /** What a thread has under its attribute `transaction`. */
  datatype Tx =
    | Missing                        // no such attribute
    | Closed                         // an object with no database transaction
    | Open(pending: seq<Statement>)  // statements sent, not committed yet

  /** One thread and the database, as other connections see it. */
  datatype State = State(tx: Tx, committed: seq<Statement>)

  /** A piece of code that uses the database. */
  datatype Prog =
    | Skip
    | Write(statement: Statement)
    | Raise
    | Seq(first: Prog, second: Prog)
    | Try(body: Prog, handler: Prog)  // `try: body` `except: handler`
    | Block(inner: Prog)              // `with transactionContext(): inner`

  // ----- the operations -----

  /** `beginTransaction`: a missing object is made, but not begun. */
  function Begin(s: State): (State, bool) {
    match s.tx
    case Missing => (s.(tx := Closed), false)
    case Closed => (s.(tx := Open([])), false)
    case Open(_) => (s, true)
  }

  function Commit(s: State): State {
    match s.tx
    case Open(pending) => State(Closed, s.committed + pending)
    case _ => s
  }

  function Rollback(s: State): State {
    match s.tx
    case Open(_) => s.(tx := Closed)
    case _ => s
  }

  /** A statement runs in the open transaction, or in one of its own. */
  function Execute(s: State, w: Statement): State {
    match s.tx
    case Open(pending) => s.(tx := Open(pending + [w]))
    case _ => s.(committed := s.committed + [w])
  }

  /** Run a program; the flag says whether it ends with an exception. */
  function Run(p: Prog, s: State): (State, bool) {
    match p
    case Skip => (s, false)
    case Write(w) => (Execute(s, w), false)
    case Raise => (s, true)
    case Seq(first, second) =>
      var (s1, raised) := Run(first, s);
      if raised then (s1, true) else Run(second, s1)
    case Try(body, handler) =>
      var (s1, raised) := Run(body, s);
      if raised then Run(handler, s1) else (s1, false)
    case Block(inner) =>
      var (s1, existing) := Begin(s);
      var (s2, raised) := Run(inner, s1);
      if existing then (s2, raised)
      else if raised then (Rollback(s2), true)
      else (Commit(s2), false)
  }

  // ----- what the program does, with no transaction in sight -----

  predicate Raises(p: Prog) {
    match p
    case Raise => true
    case Seq(first, second) => Raises(first) || Raises(second)
    case Try(body, handler) => Raises(body) && Raises(handler)
    case Block(inner) => Raises(inner)
    case _ => false
  }

  /** The statements executed, in order. */
  function Trace(p: Prog): seq<Statement> {
    match p
    case Write(w) => [w]
    case Seq(first, second) => Trace(first) + if Raises(first) then [] else Trace(second)
    case Try(body, handler) => Trace(body) + if Raises(body) then Trace(handler) else []
    case Block(inner) => Trace(inner)
    case _ => []
  }

  /** The statements that last: those of an outermost block together or not at all. */
  function Lasting(p: Prog): seq<Statement> {
    match p
    case Write(w) => [w]
    case Seq(first, second) => Lasting(first) + if Raises(first) then [] else Lasting(second)
    case Try(body, handler) => Lasting(body) + if Raises(body) then Lasting(handler) else []
    case Block(inner) => if Raises(inner) then [] else Trace(inner)
    case _ => []
  }

  /** Inside an open transaction nothing ends it, whatever blocks are nested and whatever is
      raised and caught: the statements pile up in order, the database is as it was. */
  lemma {:induction false} InsideOpen(p: Prog, pending: seq<Statement>, db: seq<Statement>)
    ensures Run(p, State(Open(pending), db)) == (State(Open(pending + Trace(p)), db), Raises(p))
  {
    match p
    case Write(w) =>
    case Seq(first, second) =>
      InsideOpen(first, pending, db);
      InsideOpen(second, pending + Trace(first), db);
      assert (pending + Trace(first)) + Trace(second) == pending + (Trace(first) + Trace(second));
      assert Trace(first) + [] == Trace(first);
    case Try(body, handler) =>
      InsideOpen(body, pending, db);
      InsideOpen(handler, pending + Trace(body), db);
      assert (pending + Trace(body)) + Trace(handler) == pending + (Trace(body) + Trace(handler));
      assert Trace(body) + [] == Trace(body);
    case Block(inner) => InsideOpen(inner, pending, db);
    case _ => assert pending + [] == pending;
  }

  /** An outermost block is all or nothing: an exception leaves the database as it was, a
      normal exit adds exactly the statements executed, in order. No transaction stays open. */
  lemma OutermostBlock(inner: Prog, db: seq<Statement>)
    ensures Run(Block(inner), State(Closed, db)) ==
            (State(Closed, if Raises(inner) then db else db + Trace(inner)), Raises(inner))
  {
    InsideOpen(inner, [], db);
    assert [] + Trace(inner) == Trace(inner);
  }

  /** The same for whole programs that use any number of blocks, one after the other. */
  lemma {:induction false} FromClosed(p: Prog, db: seq<Statement>)
    ensures Run(p, State(Closed, db)) == (State(Closed, db + Lasting(p)), Raises(p))
  {
    match p
    case Write(w) =>
    case Seq(first, second) =>
      FromClosed(first, db);
      FromClosed(second, db + Lasting(first));
      assert (db + Lasting(first)) + Lasting(second) == db + (Lasting(first) + Lasting(second));
      assert Lasting(first) + [] == Lasting(first);
    case Try(body, handler) =>
      FromClosed(body, db);
      FromClosed(handler, db + Lasting(body));
      assert (db + Lasting(body)) + Lasting(handler) == db + (Lasting(body) + Lasting(handler));
      assert Lasting(body) + [] == Lasting(body);
    case Block(inner) =>
      OutermostBlock(inner, db);
      assert db + [] == db;
    case _ => assert db + [] == db;
  }

  /** A thread that has no transaction object yet gets one, but the outermost block then runs
      with it closed: as if the block were not there. */
  lemma FirstBlockOfThread(inner: Prog, db: seq<Statement>)
    ensures Run(Block(inner), State(Missing, db)) == (State(Closed, db + Lasting(inner)), Raises(inner))
  {
    FromClosed(inner, db);
  }

  /** Every outermost block started in state `s` is all or nothing. */
  ghost predicate AllOrNothing(s: State) {
    forall inner :: Run(Block(inner), s).0.committed ==
                    if Raises(inner) then s.committed else s.committed + Trace(inner)
  }

  /** Outermost blocks are all or nothing exactly in threads that have a transaction object. */
  lemma AllOrNothingIff(s: State)
    requires !s.tx.Open?
    ensures AllOrNothing(s) <==> s.tx != Missing
  {
    if s.tx == Missing {
      var inner := Seq(Write("w"), Raise);
      FirstBlockOfThread(inner, s.committed);
      assert Run(Block(inner), s).0.committed == s.committed + Lasting(inner);
      assert Lasting(inner) == ["w"] + [] && |s.committed + ["w"]| == |s.committed| + 1;
    } else {
      forall inner
        ensures Run(Block(inner), s).0.committed == if Raises(inner) then s.committed else s.committed + Trace(inner)
      {
        OutermostBlock(inner, s.committed);
      }
    }
  }

  // ----- what that comes to -----

  /** The program that sends the statements in turn. */
  function Writes(ws: seq<Statement>): Prog
    decreases |ws|
  {
    if ws == [] then Skip else Seq(Write(ws[0]), Writes(ws[1..]))
  }

  /** Outside of blocks each statement lasts at once, in an open transaction they wait. */
  lemma {:induction false} WritesRun(ws: seq<Statement>, db: seq<Statement>)
    ensures forall tx | tx != Missing && !tx.Open? :: Run(Writes(ws), State(tx, db)) == (State(tx, db + ws), false)
    ensures Run(Writes(ws), State(Missing, db)) == (State(Missing, db + ws), false)
    ensures forall pending :: Run(Writes(ws), State(Open(pending), db)) == (State(Open(pending + ws), db), false)
    decreases |ws|
  {
    if ws == [] {
      assert db + ws == db && forall pending: seq<Statement> :: pending + ws == pending;
    } else {
      WritesRun(ws[1..], db);
      WritesRun(ws[1..], db + [ws[0]]);
      assert (db + [ws[0]]) + ws[1..] == db + ws;
      forall pending: seq<Statement> ensures (pending + [ws[0]]) + ws[1..] == pending + ws { }
    }
  }

  lemma WritesThenRaise(ws: seq<Statement>, s: State)
    ensures Run(Seq(Writes(ws), Raise), s) == (Run(Writes(ws), s).0, true)
  {
    WritesRun(ws, s.committed);
    match s.tx
    case Open(pending) => assert Run(Writes(ws), State(Open(pending), s.committed)).1 == false;
    case _ =>
  }

  /** A block commits what is sent in it, and after an exception nothing of it. */
  lemma BlockOfWrites(ws: seq<Statement>, db: seq<Statement>)
    ensures Run(Block(Writes(ws)), State(Closed, db)) == (State(Closed, db + ws), false)
    ensures Run(Block(Seq(Writes(ws), Raise)), State(Closed, db)) == (State(Closed, db), true)
    ensures Run(Block(Seq(Raise, Writes(ws))), State(Closed, db)) == (State(Closed, db), true)
  {
    var open := State(Open([]), db);
    WritesRun(ws, db);
    WritesThenRaise(ws, open);
    assert [] + ws == ws;
    assert Run(Raise, open) == (open, true);
    assert Run(Seq(Raise, Writes(ws)), open) == (open, true);
  }

  lemma InTurn(first: Prog, second: Prog, s: State, s1: State, s2: State, raised: bool)
    requires Run(first, s) == (s1, false) && Run(second, s1) == (s2, raised)
    ensures Run(Seq(first, second), s) == (s2, raised)
  {
  }

  lemma Caught(body: Prog, handler: Prog, s: State, s1: State, s2: State, raised: bool)
    requires Run(body, s) == (s1, true) && Run(handler, s1) == (s2, raised)
    ensures Run(Try(body, handler), s) == (s2, raised)
  {
  }

  lemma OuterBlock(inner: Prog, db: seq<Statement>, sent: seq<Statement>, raised: bool)
    requires Run(inner, State(Open([]), db)) == (State(Open(sent), db), raised)
    ensures Run(Block(inner), State(Closed, db)) == (State(Closed, if raised then db else db + sent), raised)
  {
  }

  lemma NestedBlock(inner: Prog, s: State, s': State, raised: bool)
    requires s.tx.Open? && Run(inner, s) == (s', raised)
    ensures Run(Block(inner), s) == (s', raised)
  {
  }

  /** Handled inside the block, an exception keeps what was sent before it. */
  lemma HandledInside(ws: seq<Statement>, vs: seq<Statement>, db: seq<Statement>)
    ensures Run(Block(Try(Seq(Writes(ws), Raise), Writes(vs))), State(Closed, db)) ==
            (State(Closed, db + (ws + vs)), false)
  {
    var open, one, two := State(Open([]), db), State(Open(ws), db), State(Open(ws + vs), db);
    WritesRun(ws, db);
    WritesRun(vs, db);
    WritesThenRaise(ws, open);
    assert [] + ws == ws;
    Caught(Seq(Writes(ws), Raise), Writes(vs), open, one, two, false);
    OuterBlock(Try(Seq(Writes(ws), Raise), Writes(vs)), db, ws + vs, false);
  }

  /** Handled outside, the block is undone, and what the handler sends lasts by itself. */
  lemma HandledOutside(ws: seq<Statement>, vs: seq<Statement>, db: seq<Statement>)
    ensures Run(Try(Block(Seq(Writes(ws), Raise)), Writes(vs)), State(Closed, db)) == (State(Closed, db + vs), false)
    ensures Run(Try(Block(Writes(ws)), Writes(vs)), State(Closed, db)) == (State(Closed, db + ws), false)
  {
    BlockOfWrites(ws, db);
    WritesRun(vs, db);
    var closed, after := State(Closed, db), State(Closed, db + vs);
    Caught(Block(Seq(Writes(ws), Raise)), Writes(vs), closed, closed, after, false);
  }

  /** A nested block neither commits nor undoes by itself: what it sent lasts if the outermost
      block ends well, and is gone if that fails later. */
  lemma NestedSharesFate(ws: seq<Statement>, vs: seq<Statement>, db: seq<Statement>)
    ensures Run(Block(Seq(Block(Writes(ws)), Writes(vs))), State(Closed, db)) == (State(Closed, db + (ws + vs)), false)
    ensures Run(Block(Seq(Block(Writes(ws)), Raise)), State(Closed, db)) == (State(Closed, db), true)
  {
    var open, one, two := State(Open([]), db), State(Open(ws), db), State(Open(ws + vs), db);
    WritesRun(ws, db);
    WritesRun(vs, db);
    assert [] + ws == ws;
    NestedBlock(Writes(ws), open, one, false);
    InTurn(Block(Writes(ws)), Writes(vs), open, one, two, false);
    OuterBlock(Seq(Block(Writes(ws)), Writes(vs)), db, ws + vs, false);
    InTurn(Block(Writes(ws)), Raise, open, one, one, true);
    OuterBlock(Seq(Block(Writes(ws)), Raise), db, ws, true);
  }

  /** A nested block that fails is not undone if the exception is handled inside the outermost. */
  lemma NestedFailureIsKept(ws: seq<Statement>, vs: seq<Statement>, db: seq<Statement>)
    ensures Run(Block(Try(Block(Seq(Writes(ws), Raise)), Writes(vs))), State(Closed, db)) ==
            (State(Closed, db + (ws + vs)), false)
  {
    var open, one, two := State(Open([]), db), State(Open(ws), db), State(Open(ws + vs), db);
    var failing := Seq(Writes(ws), Raise);
    WritesRun(ws, db);
    WritesRun(vs, db);
    WritesThenRaise(ws, open);
    assert [] + ws == ws;
    NestedBlock(failing, open, one, true);
    Caught(Block(failing), Writes(vs), open, one, two, false);
    OuterBlock(Try(Block(failing), Writes(vs)), db, ws + vs, false);
  }

  /** The first block of a thread without the attribute: what is sent lasts, exception or not. */
  lemma FirstBlockOfWrites(ws: seq<Statement>, db: seq<Statement>)
    ensures Run(Block(Seq(Writes(ws), Raise)), State(Missing, db)) == (State(Closed, db + ws), true)
  {
    WritesRun(ws, db);
    WritesThenRaise(ws, State(Closed, db));
  }

  // ----- the objects -----

  class Database {
    var committed: seq<Statement>

    constructor ()
      ensures committed == []
    {
      committed := [];
    }
  }

  /** `WMCore.Database.Transaction`: a connection and the transaction begun on it. */
  class Transaction {
    const db: Database
    var conn: bool
    var transaction: Option<seq<Statement>>

    constructor (db: Database)
      ensures this.db == db && !conn && transaction == None
    {
      this.db := db;
      conn, transaction := false, None;
    }

    method Begin()
      modifies this
      ensures conn && transaction == if old(transaction).None? then Some([]) else old(transaction)
    {
      if !conn {
        conn := true;
      }
      if transaction == None {
        transaction := Some([]);
      }
    }

    method Commit()
      modifies this, db
      ensures !conn && transaction == None
      ensures db.committed == old(db.committed) + if old(transaction).Some? then old(transaction).value else []
    {
      if transaction != None {
        db.committed := db.committed + transaction.value;
      }
      conn, transaction := false, None;
    }

    method Rollback()
      modifies this
      ensures !conn && transaction == None
    {
      conn, transaction := false, None;
    }
  }

  /** One thread's view through `WMConnectionBase`; `current` is null while the thread has
      no attribute `transaction`. */
  class WMConnectionBase {
    const dbi: Database
    var current: Transaction?

    ghost predicate Valid()
      reads this, current
    {
      current != null ==> current.db == dbi && (current.conn <==> current.transaction.Some?)
    }

    ghost function Model(): State
      reads this, current, dbi
    {
      State(if current == null then Missing
            else if current.transaction.None? then Closed
            else Open(current.transaction.value), dbi.committed)
    }

    constructor (dbi: Database)
      ensures Valid() && this.dbi == dbi && Model() == State(Closed, dbi.committed) && fresh(current)
    {
      this.dbi := dbi;
      current := new Transaction(dbi);
    }

    /** The object as another thread finds it, in which `__init__` did not run. */
    constructor InOtherThread(dbi: Database)
      ensures Valid() && this.dbi == dbi && Model() == State(Missing, dbi.committed)
    {
      this.dbi := dbi;
      current := null;
    }

    method BeginTransaction() returns (existing: bool)
      requires Valid()
      modifies this, current
      ensures Valid() && (current == old(current) || (old(current) == null && fresh(current)))
      ensures (Model(), existing) == Begin(old(Model()))
    {
      if current == null {
        current := new Transaction(dbi);
        return false;
      }
      if current.transaction == None {
        current.Begin();
        return false;
      }
      existing := true;
    }

    method ExistingTransaction() returns (existing: bool)
      requires Valid()
      ensures existing <==> Model().tx.Open?
    {
      existing := current != null && current.transaction != None;
    }

    method CommitTransaction(existing: bool)
      requires Valid() && (!existing ==> current != null)
      modifies current, dbi
      ensures Valid() && Model() == if existing then old(Model()) else Commit(old(Model()))
    {
      if !existing {
        current.Commit();
        assert old(Model()).committed + [] == old(Model()).committed;
      }
    }

    method RollbackTransaction(existing: bool)
      requires Valid() && (!existing ==> current != null)
      modifies current
      ensures Valid() && Model() == if existing then old(Model()) else Rollback(old(Model()))
    {
      if !existing {
        current.Rollback();
      }
    }

    /** `action.execute(..., conn=self.getDBConn(), transaction=self.existingTransaction())` */
    method ExecuteStatement(w: Statement)
      requires Valid()
      modifies current, dbi
      ensures Valid() && Model() == Execute(old(Model()), w)
    {
      var existing := ExistingTransaction();
      if existing {
        current.transaction := Some(current.transaction.value + [w]);
      } else {
        dbi.committed := dbi.committed + [w];
      }
    }

    /** Run a program, `transactionContext` included. */
    method RunProgram(p: Prog) returns (raised: bool)
      requires Valid()
      modifies this, current, dbi
      ensures Valid() && (current == old(current) || (old(current) == null && fresh(current)))
      ensures (Model(), raised) == Run(p, old(Model()))
      decreases p
    {
      raised := false;
      match p
      case Skip =>
      case Write(w) => ExecuteStatement(w);
      case Raise => raised := true;
      case Seq(first, second) =>
        raised := RunProgram(first);
        if !raised {
          raised := RunProgram(second);
        }
      case Try(body, handler) =>
        raised := RunProgram(body);
        if raised {
          raised := RunProgram(handler);
        }
      case Block(inner) =>
        var existing := BeginTransaction();
        raised := RunProgram(inner);
        if raised {
          RollbackTransaction(existing);
        } else {
          CommitTransaction(existing);
        }
    }
  }
}
