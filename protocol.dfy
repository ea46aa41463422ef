/** The transaction flag and the connection handle of the builder, and the
    driver calls its `beginTransaction`, `commit`, `rollBack` and `execute`
    issue. The pool and the driver are outside the model: the outcome of
    each call to them is an input, and the calls themselves are recorded in
    order as `DriverCall`s. */
module Protocol {
  import opened Values

  /** A pooled connection handed out by the pool. */
  datatype Handle = Handle(id: nat)

  /** What `pool.promise().getConnection()` produced. */
  datatype Acquire = Acquired(handle: Handle) | AcquireFailed(cause: string)

  /** What one command on a connection (`beginTransaction`, `commit`,
      `rollback`, `query`) produced. */
  datatype Outcome = Succeeded | Failed(cause: string)

  /** What a builder method throws: its own message, a `TypeError` from
      calling a method of an undefined connection, or a driver error passed on. */
  datatype Error = Thrown(message: string) | TypeError | DriverError(cause: string)

  /** How a builder method ended. */
  datatype Status = Completed | Threw(error: Error)

  /** A call the builder issues to the pool or to a connection. */
  datatype DriverCall =
    | GetConnection(h: Handle)
    | BeginTx(h: Handle)
    | CommitTx(h: Handle)
    | RollbackTx(h: Handle)
    | Query(h: Handle, text: string, params: seq<Value>)
    | Release(h: Handle)

  /** The builder's `inTransaction` flag and its `conn` field; `None` is a
      connection never assigned (`undefined`). */
  datatype Session = Session(inTransaction: bool, conn: Option<Handle>)

  /** The session after one operation, the driver calls it issued, and how it ended. */
  datatype Step = Step(session: Session, calls: seq<DriverCall>, status: Status)

  const ActiveTransaction := "There is an active transaction under execution!"

  const Idle := Session(false, None)

  function StatusOf(o: Outcome): Status
  {
    if o.Succeeded? then Completed else Threw(DriverError(o.cause))
  }

  /** The connections taken from the pool in `calls`. */
  function Acquisitions(calls: seq<DriverCall>): nat
  {
    if calls == [] then 0
    else (if calls[0].GetConnection? then 1 else 0) + Acquisitions(calls[1..])
  }

  /** The connections given back to the pool in `calls`. */
  function Releases(calls: seq<DriverCall>): nat
  {
    if calls == [] then 0
    else (if calls[0].Release? then 1 else 0) + Releases(calls[1..])
  }

  lemma {:induction false} CountsAppend(x: seq<DriverCall>, y: seq<DriverCall>)
    ensures Acquisitions(x + y) == Acquisitions(x) + Acquisitions(y)
    ensures Releases(x + y) == Releases(x) + Releases(y)
  {
    if x == [] {
      assert x + y == y;
    } else {
      assert (x + y)[1..] == x[1..] + y;
      CountsAppend(x[1..], y);
    }
  }

  lemma CountsOne(c: DriverCall)
    ensures Acquisitions([c]) == if c.GetConnection? then 1 else 0
    ensures Releases([c]) == if c.Release? then 1 else 0
  {
    assert [c][1..] == [];
  }

  lemma CountsTwo(c: DriverCall, d: DriverCall)
    ensures Acquisitions([c, d]) == Acquisitions([c]) + Acquisitions([d])
    ensures Releases([c, d]) == Releases([c]) + Releases([d])
  {
    CountsAppend([c], [d]);
    assert [c] + [d] == [c, d];
  }

  /** `beginTransaction`: refuses when a transaction is active; otherwise
      sets the flag first, then takes a connection and begins on it. */
  function Begin(s: Session, acquire: Acquire, begin: Outcome): (r: Step)
    ensures s.inTransaction ==> r == Step(s, [], Threw(Thrown(ActiveTransaction)))
    ensures r.session.inTransaction
    ensures r.status == Completed <==> !s.inTransaction && acquire.Acquired? && begin.Succeeded?
    ensures Releases(r.calls) == 0
    ensures Acquisitions(r.calls) == if !s.inTransaction && acquire.Acquired? then 1 else 0
    ensures !s.inTransaction && acquire.Acquired? ==>
              r.session.conn == Some(acquire.handle) &&
              r.calls == [GetConnection(acquire.handle), BeginTx(acquire.handle)] &&
              (begin.Failed? ==> r.status == Threw(DriverError(begin.cause)))
    ensures !s.inTransaction && acquire.AcquireFailed? ==>
              r.session == Session(true, s.conn) && r.calls == [] &&
              r.status == Threw(DriverError(acquire.cause))
  {
    if s.inTransaction then Step(s, [], Threw(Thrown(ActiveTransaction)))
    else
      match acquire
      case AcquireFailed(cause) => Step(Session(true, s.conn), [], Threw(DriverError(cause)))
      case Acquired(h) =>
        CountsOne(GetConnection(h));
        CountsOne(BeginTx(h));
        CountsTwo(GetConnection(h), BeginTx(h));
        Step(Session(true, Some(h)), [GetConnection(h), BeginTx(h)], StatusOf(begin))
  }

  /** `commit`: commits on the held connection; it neither releases the
      connection nor clears the flag. */
  function Commit(s: Session, commit: Outcome): (r: Step)
    ensures r.session == s
    ensures Releases(r.calls) == 0 && Acquisitions(r.calls) == 0
    ensures r.status == Completed <==> s.conn.Some? && commit.Succeeded?
    ensures s.conn == None ==> r.calls == [] && r.status == Threw(TypeError)
    ensures s.conn.Some? ==>
              r.calls == [CommitTx(s.conn.value)] &&
              (commit.Failed? ==> r.status == Threw(DriverError(commit.cause)))
  {
    match s.conn
    case None => Step(s, [], Threw(TypeError))
    case Some(h) =>
      CountsOne(CommitTx(h));
      Step(s, [CommitTx(h)], StatusOf(commit))
  }

  /** `rollBack`: rolls back on the held connection and releases it only if
      the rollback succeeded; any error is swallowed and the flag is kept. */
  function RollBack(s: Session, rollback: Outcome): (r: Step)
    ensures r.session == s && r.status == Completed
    ensures Acquisitions(r.calls) == 0
    ensures Releases(r.calls) == if s.conn.Some? && rollback.Succeeded? then 1 else 0
    ensures s.conn.Some? ==> |r.calls| > 0 && r.calls[0] == RollbackTx(s.conn.value)
    ensures s.conn == None ==> r.calls == []
    ensures s.conn.Some? ==>
              r.calls == [RollbackTx(s.conn.value)] + (if rollback.Succeeded? then [Release(s.conn.value)] else [])
  {
    match s.conn
    case None => Step(s, [], Completed)
    case Some(h) =>
      CountsOne(RollbackTx(h));
      CountsOne(Release(h));
      CountsTwo(RollbackTx(h), Release(h));
      assert [RollbackTx(h)] + [Release(h)] == [RollbackTx(h), Release(h)];
      Step(s, [RollbackTx(h)] + (if rollback.Succeeded? then [Release(h)] else []), Completed)
  }

  /** Whether `execute` gets past taking a connection, which is where it
      empties the builder's text and values. */
  predicate Drains(s: Session, acquire: Acquire)
  {
    s.inTransaction || acquire.Acquired?
  }

  /** `execute` of the statement `text` bound to `params`: outside a
      transaction it takes a fresh connection (a failure is passed on);
      inside one it reuses the held connection. It runs the statement and
      releases the connection after a successful run, in both modes; a
      failed run is passed on without a release. */
  function Execute(s: Session, acquire: Acquire, text: string, params: seq<Value>, query: Outcome): (r: Step)
    ensures r.session.inTransaction == s.inTransaction
    ensures s.inTransaction ==> r.session == s && Acquisitions(r.calls) == 0
    ensures !s.inTransaction ==>
              r.session.conn == (if acquire.Acquired? then Some(acquire.handle) else s.conn) &&
              Acquisitions(r.calls) == (if acquire.Acquired? then 1 else 0)
    ensures !Drains(s, acquire) ==> r.calls == [] && r.status == Threw(DriverError(acquire.cause))
    ensures Drains(s, acquire) && r.session.conn.Some? ==> Query(r.session.conn.value, text, params) in r.calls
    ensures r.status == Completed <==> Drains(s, acquire) && r.session.conn.Some? && query.Succeeded?
    ensures Releases(r.calls) == if r.status == Completed then 1 else 0
    ensures Drains(s, acquire) && r.session.conn.Some? ==>
              var h := r.session.conn.value;
              r.calls == (if s.inTransaction then [] else [GetConnection(h)])
                         + [Query(h, text, params)]
                         + (if query.Succeeded? then [Release(h)] else []) &&
              (query.Failed? ==> r.status == Threw(DriverError(query.cause)))
    ensures Drains(s, acquire) && r.session.conn == None ==> r.calls == [] && r.status == Threw(TypeError)
  {
    if !Drains(s, acquire) then Step(s, [], Threw(DriverError(acquire.cause)))
    else
      var held := if s.inTransaction then s else Session(false, Some(acquire.handle));
      var taken := if s.inTransaction then [] else [GetConnection(acquire.handle)];
      match held.conn
      case None => Step(held, taken, Threw(TypeError))
      case Some(h) =>
        var run := [Query(h, text, params)] + (if query.Succeeded? then [Release(h)] else []);
        CountsOne(GetConnection(h));
        CountsOne(Query(h, text, params));
        CountsOne(Release(h));
        CountsTwo(Query(h, text, params), Release(h));
        assert [Query(h, text, params)] + [Release(h)] == [Query(h, text, params), Release(h)];
        CountsAppend(taken, run);
        Step(held, taken + run, StatusOf(query))
  }

  /** One operation of the builder's transaction and connection protocol,
      with the outcomes the pool and the driver give it. */
  datatype Op =
    | BeginOp(acquire: Acquire, begin: Outcome)
    | CommitOp(commit: Outcome)
    | RollBackOp(rollback: Outcome)
    | ExecuteOp(acquire: Acquire, text: string, params: seq<Value>, query: Outcome)

  function Apply(s: Session, op: Op): Step
  {
    match op
    case BeginOp(a, b) => Begin(s, a, b)
    case CommitOp(c) => Commit(s, c)
    case RollBackOp(rb) => RollBack(s, rb)
    case ExecuteOp(a, t, p, q) => Execute(s, a, t, p, q)
  }

  /** The operations `ops` applied in order: the final session and every
      driver call, in the order issued; the status is that of the last one. */
  function Run(s: Session, ops: seq<Op>): Step
    decreases |ops|
  {
    if ops == [] then Step(s, [], Completed)
    else
      var first := Apply(s, ops[0]);
      var rest := Run(first.session, ops[1..]);
      Step(rest.session, first.calls + rest.calls, if |ops| == 1 then first.status else rest.status)
  }

  /** Once a transaction is active nothing changes the flag or the held
      connection again, and no further connection is taken from the pool:
      `commit` and `rollBack` leave both in place and `beginTransaction`
      refuses. */
  lemma {:induction false} TransactionFreezesSession(s: Session, ops: seq<Op>)
    requires s.inTransaction
    ensures Run(s, ops).session == s
    ensures Acquisitions(Run(s, ops).calls) == 0
    decreases |ops|
  {
    if ops != [] {
      TransactionFreezesSession(Apply(s, ops[0]).session, ops[1..]);
      CountsAppend(Apply(s, ops[0]).calls, Run(s, ops[1..]).calls);
    }
  }

  /** Every driver call made while a transaction is active goes to the one
      connection the transaction holds, its releases included. */
  lemma {:induction false} TransactionUsesHeldConnection(s: Session, ops: seq<Op>, h: Handle)
    requires s.inTransaction && s.conn == Some(h)
    ensures forall c :: c in Run(s, ops).calls ==> c.h == h
    decreases |ops|
  {
    if ops != [] {
      var first := Apply(s, ops[0]);
      TransactionUsesHeldConnection(first.session, ops[1..], h);
    }
  }

  /** A transaction begun outside one, on a connection the pool gives,
      keeps every later driver call on that connection: the acquisition,
      BEGIN, and every later statement, commit, rollback and release. */
  lemma TransactionStaysOnItsConnection(s: Session, h: Handle, begin: Outcome, ops: seq<Op>)
    requires !s.inTransaction
    ensures forall c :: c in Run(s, [BeginOp(Acquired(h), begin)] + ops).calls ==> c.h == h
  {
    var all := [BeginOp(Acquired(h), begin)] + ops;
    assert all[0] == BeginOp(Acquired(h), begin) && all[1..] == ops;
    var first := Begin(s, Acquired(h), begin);
    TransactionUsesHeldConnection(first.session, ops, h);
  }

  /** Any sequence of operations containing a `beginTransaction` ends with
      the flag set, whatever the outcomes: it is never cleared. */
  lemma {:induction false} BeginIsPermanent(s: Session, ops: seq<Op>, i: nat)
    requires i < |ops| && ops[i].BeginOp?
    ensures Run(s, ops).session.inTransaction
    decreases |ops|
  {
    var first := Apply(s, ops[0]);
    if i == 0 {
      TransactionFreezesSession(first.session, ops[1..]);
    } else {
      BeginIsPermanent(first.session, ops[1..], i - 1);
    }
  }

  /** A second `beginTransaction` fails with the builder's message and
      changes nothing, even when the first one failed to get a connection. */
  lemma BeginTwiceFails(s: Session, a1: Acquire, b1: Outcome, a2: Acquire, b2: Outcome)
    ensures var first := Begin(s, a1, b1);
            Begin(first.session, a2, b2) == Step(first.session, [], Threw(Thrown(ActiveTransaction)))
  {
  }

  /** Single statements outside a transaction whose runs all succeed give
      back every connection they take. */
  lemma {:induction false} StatementsReturnConnections(s: Session, ops: seq<Op>)
    requires !s.inTransaction
    requires forall k :: 0 <= k < |ops| ==> ops[k].ExecuteOp? && ops[k].query.Succeeded?
    ensures !Run(s, ops).session.inTransaction
    ensures Acquisitions(Run(s, ops).calls) == Releases(Run(s, ops).calls)
    decreases |ops|
  {
    if ops != [] {
      var first := Apply(s, ops[0]);
      StatementsReturnConnections(first.session, ops[1..]);
      CountsAppend(first.calls, Run(first.session, ops[1..]).calls);
    }
  }

  /** A statement outside a transaction whose run fails keeps the
      connection it took: it is never released. */
  lemma FailedStatementKeepsConnection(s: Session, h: Handle, text: string, params: seq<Value>, cause: string)
    requires !s.inTransaction
    ensures var r := Execute(s, Acquired(h), text, params, Failed(cause));
            r.calls == [GetConnection(h), Query(h, text, params)] &&
            Acquisitions(r.calls) == 1 && Releases(r.calls) == 0 &&
            r.status == Threw(DriverError(cause))
  {
  }

  /** A successful statement inside a transaction releases the connection
      the transaction still holds: the session keeps a released handle. */
  lemma TransactionStatementReleasesHeldConnection(s: Session, h: Handle, a: Acquire, text: string, params: seq<Value>)
    requires s.inTransaction && s.conn == Some(h)
    ensures var r := Execute(s, a, text, params, Succeeded);
            r.calls == [Query(h, text, params), Release(h)] && r.session == s && r.status == Completed
  {
  }

  lemma StatementsCounts(h: Handle, t1: string, p1: seq<Value>, t2: string, p2: seq<Value>)
    ensures var calls := [GetConnection(h), Query(h, t1, p1), Release(h), Query(h, t2, p2), Release(h)];
            Acquisitions(calls) == 1 && Releases(calls) == 2
  {
    var first, second := [Query(h, t1, p1), Release(h)], [Query(h, t2, p2), Release(h)];
    CountsOne(GetConnection(h));
    CountsOne(Query(h, t1, p1));
    CountsOne(Query(h, t2, p2));
    CountsOne(Release(h));
    CountsTwo(Query(h, t1, p1), Release(h));
    CountsTwo(Query(h, t2, p2), Release(h));
    CountsAppend([GetConnection(h)], first);
    CountsAppend([GetConnection(h)] + first, second);
    assert [GetConnection(h)] + first + second
        == [GetConnection(h), Query(h, t1, p1), Release(h), Query(h, t2, p2), Release(h)];
  }

  /** A `beginTransaction` that gets no connection after an earlier
      statement keeps that statement's handle, which was already released:
      the next statement runs on it and releases it a second time, one
      connection taken and two given back. */
  lemma StaleHandleAfterFailedBegin(s: Session, h: Handle, t1: string, p1: seq<Value>, cause: string,
                                    begin: Outcome, a: Acquire, t2: string, p2: seq<Value>)
    requires !s.inTransaction
    ensures var r := Run(s, [ExecuteOp(Acquired(h), t1, p1, Succeeded),
                             BeginOp(AcquireFailed(cause), begin),
                             ExecuteOp(a, t2, p2, Succeeded)]);
            r.calls == [GetConnection(h), Query(h, t1, p1), Release(h), Query(h, t2, p2), Release(h)] &&
            Acquisitions(r.calls) == 1 && Releases(r.calls) == 2 &&
            r.session == Session(true, Some(h)) && r.status == Completed
  {
    var ops := [ExecuteOp(Acquired(h), t1, p1, Succeeded),
                BeginOp(AcquireFailed(cause), begin),
                ExecuteOp(a, t2, p2, Succeeded)];
    var s1 := Session(false, Some(h));
    var s2 := Session(true, Some(h));
    var c1 := [GetConnection(h), Query(h, t1, p1), Release(h)];
    var c3 := [Query(h, t2, p2), Release(h)];
    assert Execute(s, Acquired(h), t1, p1, Succeeded) == Step(s1, c1, Completed);
    assert Begin(s1, AcquireFailed(cause), begin) == Step(s2, [], Threw(DriverError(cause)));
    assert Execute(s2, a, t2, p2, Succeeded) == Step(s2, c3, Completed);
    assert ops[1..][1..] == [ExecuteOp(a, t2, p2, Succeeded)];
    assert Run(s2, ops[1..][1..]) == Step(s2, c3 + [], Completed);
    assert Run(s1, ops[1..]) == Step(s2, [] + (c3 + []), Completed);
    assert Run(s, ops) == Step(s2, c1 + ([] + (c3 + [])), Completed);
    assert c1 + ([] + (c3 + [])) == [GetConnection(h), Query(h, t1, p1), Release(h), Query(h, t2, p2), Release(h)];
    StatementsCounts(h, t1, p1, t2, p2);
  }
}
