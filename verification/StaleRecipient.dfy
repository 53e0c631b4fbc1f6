/**
 * Why drained recipients need start times in commit order: a run of one worker, in which nothing fails
 * and no record is passed over, that ends drained with a recipient row that is wrong. The exact
 * condition is that of DrainedRecipients.DrainedRecipientMatchesIff.
 */
module StaleRecipient {
  import opened Prelude
  import opened Events
  import Outbox
  import opened Polling
  import opened Projection
  import opened Pipeline
  import opened PipelineGuarantees
  import U = Users
  import N = Notifications

  const USER: Uuid := 1

  const CREATED: Envelope := Envelope(1, "user.created", USER, U.Payload(USER, Null, Bool(true)))

  const DISABLED: Envelope := Envelope(2, "user.disabled", USER, U.Payload(USER, Absent, Bool(false)))

  const ENABLED: Envelope := Envelope(3, "user.updated", USER, U.Payload(USER, Absent, Bool(true)))

  /**
   * The user is created, disabled and enabled again; the transaction that enables started before
   * the one that disables.
   */
  function StaleRun(): seq<Label> {
    [UserOp(U.Create(USER, "login", "", "name", U.Performer, 1, Committed), 1),
     UserOp(U.SetActive(USER, false, 2, Committed), 5),
     UserOp(U.SetActive(USER, true, 3, Committed), 3),
     Worker(UserTopic, Outbox.Begin(1, [0, 2, 1])),
     Worker(UserTopic, Outbox.Send(1, Outbox.Attempt(Outbox.Acked, true))),
     Worker(UserTopic, Outbox.Send(1, Outbox.Attempt(Outbox.Acked, true))),
     Worker(UserTopic, Outbox.Send(1, Outbox.Attempt(Outbox.Acked, true))),
     Worker(UserTopic, Outbox.Finish(1, Committed)),
     Consume(UserTopic, Committed, true),
     Consume(UserTopic, Committed, true),
     Consume(UserTopic, Committed, true)]
  }

  // ---------- The parts, step by step ----------

  function Account(active: bool): U.User {
    U.User(USER, "login", "", "name", U.Performer, active, None, U.CodesOf(["ORDER_READ_ASSIGNED"]))
  }

  function Accounts(active: bool, events: seq<Envelope>): U.Db {
    U.Db(map[USER := Account(active)], map[], events)
  }

  lemma UserIsCreated()
    ensures U.Apply(U.EMPTY, U.Create(USER, "login", "", "name", U.Performer, 1, Committed)).db
        == Accounts(true, [CREATED])
  {
  }

  lemma UserIsSwitched(was: bool, active: bool, events: seq<Envelope>, eventId: Uuid)
    ensures U.Apply(Accounts(was, events), U.SetActive(USER, active, eventId, Committed)).db
         == Accounts(active, events + [Envelope(eventId, if active then "user.updated" else "user.disabled", USER,
             U.Payload(USER, Absent, Bool(active)))])
  {
  }

  const ROWS: seq<Outbox.Row>
      := [Outbox.Row(USER, 1, CREATED), Outbox.Row(USER, 5, DISABLED), Outbox.Row(USER, 3, ENABLED)]

  function Record(i: nat): Outbox.Record
    requires i < 3
  {
    Outbox.Record(i, USER, ROWS[i].payload)
  }

  function Unsent(n: nat): Outbox.State
    requires n <= 3
  {
    Outbox.State(ROWS[..n], {}, seq(n, _ => 0), map[], [])
  }

  function Sending(n: nat): Outbox.State
    requires n <= 3
  {
    Outbox.State(ROWS, {}, [0, 0, 0], map[1 := Outbox.Flight([0, 2, 1], n)], [Record(0), Record(2), Record(1)][..n])
  }

  const SENT: Outbox.State := Outbox.State(ROWS, {0, 1, 2}, [1, 1, 1], map[], [Record(0), Record(2), Record(1)])

  lemma RowIsWritten(n: nat)
    requires n < 3
    ensures Outbox.Step(Unsent(n), Outbox.Write(ROWS[n])) == Unsent(n + 1)
  {
    assert ROWS[..n + 1] == ROWS[..n] + [ROWS[n]];
  }

  lemma RowsAreFree()
    ensures Outbox.FreeBatch(Unsent(3), [0, 2, 1])
    ensures forall i: nat :: Outbox.Selectable(Unsent(3), i) ==> i in [0, 2, 1]
  {
    var s := Unsent(3);
    assert s.rows == ROWS;
    assert Outbox.Selectable(s, 0) && Outbox.Selectable(s, 1) && Outbox.Selectable(s, 2);
  }

  lemma StampsOfBatch(a: nat, b: nat)
    requires a < b < 3
    ensures ROWS[[0, 2, 1][a]].createdAt <= ROWS[[0, 2, 1][b]].createdAt
  {
  }

  /** The batch is what the query answers with: all three rows, by stamp. */
  lemma BatchIsLegal()
    ensures Outbox.LegalBatch(Unsent(3), [0, 2, 1])
  {
    hide Outbox.FreeBatch, Outbox.Selectable;
    RowsAreFree();
    var s, batch := Unsent(3), [0, 2, 1];
    assert s.rows == ROWS;
    forall a, b | 0 <= a < b < |batch| && batch[a] < |s.rows| && batch[b] < |s.rows|
      ensures s.rows[batch[a]].createdAt <= s.rows[batch[b]].createdAt
    {
      StampsOfBatch(a, b);
    }
  }

  lemma BatchIsTaken()
    ensures Outbox.Step(Unsent(3), Outbox.Begin(1, [0, 2, 1])) == Sending(0)
  {
    hide Outbox.FreeBatch;
    RowsAreFree();
    assert Unsent(3).rows == ROWS && Unsent(3).attempts == [0, 0, 0];
    assert [Record(0), Record(2), Record(1)][..0] == [];
  }

  lemma RowIsSent(n: nat)
    requires n < 3
    ensures Outbox.Step(Sending(n), Outbox.Send(1, Outbox.Attempt(Outbox.Acked, true))) == Sending(n + 1)
  {
    hide Outbox.FreeBatch;
    var all := [Record(0), Record(2), Record(1)];
    assert Outbox.Sendable(Sending(n), 1);
    assert all[..n + 1] == all[..n] + [all[n]];
    assert map[1 := Outbox.Flight([0, 2, 1], n)][1 := Outbox.Flight([0, 2, 1], n + 1)]
        == map[1 := Outbox.Flight([0, 2, 1], n + 1)];
  }

  lemma BatchIsMarked()
    ensures Outbox.Step(Sending(3), Outbox.Finish(1, Committed)) == SENT
  {
    hide Outbox.FreeBatch;
    var t := Outbox.Step(Sending(3), Outbox.Finish(1, Committed));
    assert [Record(0), Record(2), Record(1)][..3] == [Record(0), Record(2), Record(1)];
    assert t.published == {0, 1, 2};
    assert t.attempts == [1, 1, 1];
    assert t.flights == map[];
  }

  function Recipients(active: bool): map<Uuid, N.Recipient> {
    map[USER := N.Recipient(None, active)]
  }

  function Sink(n: nat): N.State
    requires n <= 3
  {
    if n == 0 then N.EMPTY
    else if n == 1 then N.State({1}, Recipients(true), [])
    else if n == 2 then N.State({1, 3}, Recipients(true), [])
    else N.State({1, 2, 3}, Recipients(false), [])
  }

  lemma RecordIsRead(n: nat)
    requires n < 3
    ensures N.Deliver(Sink(n), N.Delivery(Decoded(SENT.log[n].value), Committed)) == Sink(n + 1)
    ensures N.ReportsSuccess(Sink(n), N.Delivery(Decoded(SENT.log[n].value), Committed))
  {
    UserTypes();
  }

  // ---------- The parts in the machine ----------

  /** The parts of the machine this run moves; no order operation and no dispatch is made. */
  ghost predicate At(s: State, accounts: U.Db, box: Outbox.State, position: nat, sink: N.State) {
    && s.trail != [] && s.orders == NO_STREAM
    && s.accounts == accounts && s.users == Stream(box, Cursor(position, position)) && s.desk.sink == sink
  }

  lemma Writes(s: State, op: U.Op, createdAt: nat, n: nat, active: bool)
    requires n < 3 && !op.CreateLink? && op.eventId == n + 1
    requires At(s, s.accounts, Unsent(n), 0, N.EMPTY)
    requires |s.accounts.outbox| == n
        && U.Apply(s.accounts, op).db == Accounts(active, s.accounts.outbox + [ROWS[n].payload])
    requires createdAt == ROWS[n].createdAt
    ensures At(Step(s, UserOp(op, createdAt)), Accounts(active, s.accounts.outbox + [ROWS[n].payload]), Unsent(n + 1),
        0, N.EMPTY)
  {
    hide U.Apply, Outbox.Step;
    forall i | 0 <= i < n
      ensures ROWS[..n][i].payload.eventId == i + 1
    {
    }
    assert FreshId(s, op.eventId);
    RowIsWritten(n);
  }

  lemma Works(s: State, box: Outbox.State, work: Outbox.Label)
    requires At(s, s.accounts, box, 0, N.EMPTY) && !work.Write?
    ensures At(Step(s, Worker(UserTopic, work)), s.accounts, Outbox.Step(box, work), 0, N.EMPTY)
  {
    hide Outbox.Step;
  }

  lemma Reads(s: State, n: nat)
    requires n < 3 && At(s, s.accounts, SENT, n, Sink(n))
    ensures At(Step(s, Consume(UserTopic, Committed, true)), s.accounts, SENT, n + 1, Sink(n + 1))
  {
    hide N.Deliver, N.ReportsSuccess, Sink, Record;
    assert |SENT.log| == 3;
    RecordIsRead(n);
  }

  lemma RunOneMore(ls: seq<Label>, n: nat)
    requires n < |ls|
    ensures Run(ls[..n + 1]) == Step(Run(ls[..n]), ls[n])
  {
    hide Step;
    assert ls[..n + 1][..n] == ls[..n];
  }

  lemma Starts()
    ensures At(EMPTY, U.EMPTY, Unsent(0), 0, N.EMPTY)
  {
    assert ROWS[..0] == [] && seq<nat>(0, _ => 0) == [];
  }

  lemma WritesFrom(s: State, accounts: U.Db, op: U.Op, createdAt: nat, n: nat, active: bool)
    requires n < 3 && !op.CreateLink? && op.eventId == n + 1 && createdAt == ROWS[n].createdAt
    requires At(s, accounts, Unsent(n), 0, N.EMPTY)
    requires |accounts.outbox| == n && U.Apply(accounts, op).db == Accounts(active, accounts.outbox + [ROWS[n].payload])
    ensures At(Step(s, UserOp(op, createdAt)), Accounts(active, accounts.outbox + [ROWS[n].payload]), Unsent(n + 1), 0,
        N.EMPTY)
  {
    hide U.Apply, Step, Unsent, Accounts;
    Writes(s, op, createdAt, n, active);
  }

  /** The three commits, in commit order. */
  lemma Committing()
    ensures At(Run(StaleRun()[..3]), Accounts(true, [CREATED, DISABLED, ENABLED]), Unsent(3), 0, N.EMPTY)
  {
    hide Step, Unsent, U.Apply, At;
    var ls := StaleRun();
    assert ls[..0] == [];
    assert At(Run(ls[..0]), U.EMPTY, Unsent(0), 0, N.EMPTY) by {
      Starts();
    }
    hide Run;
    RunOneMore(ls, 0);
    UserIsCreated();
    assert [] + [CREATED] == [CREATED];
    WritesFrom(Run(ls[..0]), U.EMPTY, ls[0].user, 1, 0, true);
    RunOneMore(ls, 1);
    UserIsSwitched(true, false, [CREATED], 2);
    WritesFrom(Run(ls[..1]), Accounts(true, [CREATED]), ls[1].user, 5, 1, false);
    RunOneMore(ls, 2);
    UserIsSwitched(false, true, [CREATED, DISABLED], 3);
    assert [CREATED] + [DISABLED] == [CREATED, DISABLED]
        && [CREATED, DISABLED] + [ENABLED] == [CREATED, DISABLED, ENABLED];
    WritesFrom(Run(ls[..2]), Accounts(false, [CREATED, DISABLED]), ls[2].user, 3, 2, true);
  }

  /** The batch, in the order of the stamps. */
  lemma Publishing()
    ensures At(Run(StaleRun()[..8]), Accounts(true, [CREATED, DISABLED, ENABLED]), SENT, 0, N.EMPTY)
  {
    Committing();
    BatchIsTaken();
    BatchIsMarked();
    hide Run, Step, Unsent, Sending, Accounts, Outbox.Step;
    var ls := StaleRun();
    RunOneMore(ls, 3);
    Works(Run(ls[..3]), Unsent(3), ls[3].work);
    RunOneMore(ls, 4);
    RowIsSent(0);
    Works(Run(ls[..4]), Sending(0), ls[4].work);
    RunOneMore(ls, 5);
    RowIsSent(1);
    Works(Run(ls[..5]), Sending(1), ls[5].work);
    RunOneMore(ls, 6);
    RowIsSent(2);
    Works(Run(ls[..6]), Sending(2), ls[6].work);
    RunOneMore(ls, 7);
    Works(Run(ls[..7]), Sending(3), ls[7].work);
  }

  lemma NothingRead()
    ensures Sink(0) == N.EMPTY
  {
  }

  lemma Reading()
    ensures At(Run(StaleRun()), Accounts(true, [CREATED, DISABLED, ENABLED]), SENT, 3, Sink(3))
  {
    hide Run, Step, Accounts, Sink, Recipients, Record;
    Publishing();
    NothingRead();
    var ls := StaleRun();
    RunOneMore(ls, 8);
    Reads(Run(ls[..8]), 0);
    RunOneMore(ls, 9);
    Reads(Run(ls[..9]), 1);
    RunOneMore(ls, 10);
    Reads(Run(ls[..10]), 2);
    assert ls[..11] == ls;
  }

  /** Everything is published and read, yet the recipient row is not the projection of the user's row. */
  lemma DrainedRecipientCanBeStale()
    ensures CalmRun(UserTopic, StaleRun()) && Outbox.LegalBatch(Run(StaleRun()[..3]).users.box, [0, 2, 1])
    ensures Drained(Run(StaleRun()).users)
    ensures !Matches(Run(StaleRun()).desk.sink.recipients, Run(StaleRun()).accounts.users, USER)
  {
    Committing();
    BatchIsLegal();
    Reading();
    hide Run, Outbox.LegalBatch, Unsent;
    var s := Run(StaleRun());
    assert Recipients(false)[USER] != Project(Account(true));
  }
}

