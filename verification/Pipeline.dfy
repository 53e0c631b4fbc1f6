/**
 * The whole write side as one machine: user and order operations, their outboxes and workers, the
 * two topics, the consumer with its offsets, and the dispatcher, interleaved in any order.
 */
module Pipeline {
  import opened Prelude
  import opened Events
  import opened Outbox
  import opened Polling
  import opened Projection
  import opened NoticeRows
  import U = Users
  import O = Orders
  import R = OrderRuns
  import N = Notifications
  import D = Dispatcher

  /** An outbox with its topic, and the consumer's offsets in that topic. */
  datatype Stream = Stream(box: Outbox.State, cursor: Cursor)

  /**
   * `tables` remembers the users table after each of its outbox rows and `trail` every state of
   * the order database; the latter is also what stale reads look at.
   */
  datatype State = State(
    accounts: U.Db,
    tables: seq<Table>,
    users: Stream,
    trail: seq<O.Db>,
    orders: Stream,
    desk: D.State)

  const NO_STREAM: Stream := Stream(Outbox.EMPTY, Cursor(0, 0))

  const EMPTY: State := State.State(U.EMPTY, [map[]], NO_STREAM, [O.EMPTY], NO_STREAM, D.EMPTY)

  datatype Topic = UserTopic | OrderTopic

  datatype Label =
    | UserOp(user: U.Op, createdAt: nat)
    | OrderOp(order: O.Op, createdAt: nat)
    | Worker(topic: Topic, work: Outbox.Label)
    /** The next record of a topic is handed to Process. */
    | Consume(topic: Topic, ending: Ending, stored: bool)
    /** Records are skipped unprocessed: a fetch that carries an error is dropped. */
    | PassOver(topic: Topic, records: nat)
    /** The consumer restarts from its committed offset. */
    | Restart(topic: Topic)
    | Dispatch(delivery: D.Label)

  // ---------- Steps ----------

  predicate HasId(rows: seq<Row>, id: Uuid) {
    exists i :: 0 <= i < |rows| && rows[i].payload.eventId == id
  }

  /** uuid.New: an id that no event has yet. */
  predicate FreshId(s: State, id: Uuid) {
    id != NIL && !HasId(s.users.box.rows, id) && !HasId(s.orders.box.rows, id)
  }

  function StreamOf(s: State, topic: Topic): Stream {
    if topic.UserTopic? then s.users else s.orders
  }

  function WithStream(s: State, topic: Topic, stream: Stream): State {
    if topic.UserTopic? then s.(users := stream) else s.(orders := stream)
  }

  ghost function Append(stream: Stream, row: Row): Stream {
    stream.(box := Outbox.Step(stream.box, Write(row)))
  }

  ghost function UserStep(s: State, op: U.Op, createdAt: nat): State {
    var t := U.Apply(s.accounts, op).db;
    if |t.outbox| <= |s.accounts.outbox| then s.(accounts := t)
    else
      var event := t.outbox[|t.outbox| - 1];
      s.(accounts := t, tables := s.tables + [t.users],
          users := Append(s.users, Row(event.aggregate, createdAt, event)))
  }

  ghost function OrderStep(s: State, op: O.Op, createdAt: nat): State
    requires s.trail != []
  {
    var t := O.Apply(s.trail, op).db;
    var moved := s.(trail := s.trail + [t]);
    if |t.outbox| <= |O.Last(s.trail).outbox| then moved
    else
      var event := t.outbox[|t.outbox| - 1];
      moved.(orders := Append(s.orders, Row(event.aggregate, createdAt, event)))
  }

  ghost function ConsumeStep(s: State, topic: Topic, ending: Ending, stored: bool): State
    requires StreamOf(s, topic).cursor.position < |StreamOf(s, topic).box.log|
  {
    var stream := StreamOf(s, topic);
    var d := N.Delivery(Decoded(stream.box.log[stream.cursor.position].value), ending);
    WithStream(s, topic, stream.(cursor := Advance(s.desk.sink, stream.cursor, Polled(d, stored))))
      .(desk := D.Step(s.desk, D.Consume(d)))
  }

  ghost function Step(s: State, l: Label): State
    requires s.trail != []
  {
    match l
    case UserOp(op, createdAt) => if op.CreateLink? || FreshId(s, op.eventId) then UserStep(s, op, createdAt) else s
    case OrderOp(op, createdAt) => if FreshId(s, op.eventId) then OrderStep(s, op, createdAt) else s
    case Worker(topic, work) =>
      if work.Write? then s
      else WithStream(s, topic, StreamOf(s, topic).(box := Outbox.Step(StreamOf(s, topic).box, work)))
    case Consume(topic, ending, stored) =>
      if StreamOf(s, topic).cursor.position < |StreamOf(s, topic).box.log| then ConsumeStep(s, topic, ending, stored)
      else s
    case PassOver(topic, records) =>
      var stream := StreamOf(s, topic);
      if stream.cursor.position + records <= |stream.box.log|
      then WithStream(s, topic, stream.(cursor := stream.cursor.(position := stream.cursor.position + records)))
      else s
    case Restart(topic) =>
      var stream := StreamOf(s, topic);
      WithStream(s, topic, stream.(cursor := stream.cursor.(position := stream.cursor.committed)))
    case Dispatch(delivery) => if delivery.Consume? then s else s.(desk := D.Step(s.desk, delivery))
  }

  lemma ConsumeLabel(s: State, l: Label)
    requires s.trail != [] && l.Consume?
    ensures Step(s, l) == if StreamOf(s, l.topic).cursor.position < |StreamOf(s, l.topic).box.log|
                          then ConsumeStep(s, l.topic, l.ending, l.stored) else s
  {
  }

  lemma DispatchLabel(s: State, delivery: D.Label)
    requires s.trail != []
    ensures Step(s, Dispatch(delivery)) == if delivery.Consume? then s else s.(desk := D.Step(s.desk, delivery))
  {
    hide D.Step;
  }

  ghost function Run(ls: seq<Label>): (s: State)
    ensures s.trail != []
  {
    if ls == [] then EMPTY else Step(Run(ls[..|ls| - 1]), ls[|ls| - 1])
  }

  // ---------- What every run keeps ----------

  ghost predicate IdsApart(us: seq<Row>, os: seq<Row>) {
    && DistinctIds(us) && DistinctIds(os)
    && (forall i, j :: 0 <= i < |us| && 0 <= j < |os| ==> us[i].payload.eventId != os[j].payload.eventId)
  }

  /** The outbox of users records the past of the users table. */
  ghost predicate UsersRecorded(accounts: U.Db, us: seq<Row>, tables: seq<Table>) {
    && U.WellKept(accounts)
    && Chain(us, tables)
    && tables[|us|] == accounts.users
  }

  /** The outbox of orders is that of the order database, row by row. */
  ghost predicate OrdersRecorded(trail: seq<O.Db>, os: seq<Row>) {
    && R.GoodTrail(trail)
    && |os| == |O.Last(trail).outbox|
    && (forall i :: 0 <= i < |os| ==>
          os[i].payload == O.Last(trail).outbox[i] && OrderRow(os[i]) && os[i].aggregate == os[i].payload.aggregate)
  }

  ghost predicate Known(us: seq<Row>, os: seq<Row>, processed: set<Uuid>) {
    forall id :: id in processed ==> HasId(us, id) || HasId(os, id)
  }

  ghost predicate NoticesExact(os: seq<Row>, sink: N.State) {
    Sound(os, sink.processed, sink.notices) && Complete(os, sink.processed, sink.notices)
  }

  ghost predicate Base(s: State) {
    var us, os := s.users.box.rows, s.orders.box.rows;
    && s.trail != []
    && Outbox.Safe(s.users.box) && Outbox.Safe(s.orders.box)
    && IdsApart(us, os)
    && UsersRecorded(s.accounts, us, s.tables)
    && OrdersRecorded(s.trail, os)
    && Known(us, os, s.desk.sink.processed)
    && D.Accounted(s.desk)
    && NoticesExact(os, s.desk.sink)
  }

  lemma OrderTypes(a: O.Action)
    ensures IsOrderType(O.TypeOf(a))
  {
    assert O.TypeOf(a)[..6] == "order.";
  }

  lemma AppendsId(rows: seq<Row>, row: Row, id: Uuid)
    ensures HasId(rows + [row], id) <==> HasId(rows, id) || row.payload.eventId == id
  {
    if HasId(rows, id) {
      var i :| 0 <= i < |rows| && rows[i].payload.eventId == id;
      assert (rows + [row])[i].payload.eventId == id;
    }
    assert (rows + [row])[|rows|] == row;
  }

  /** The shape of an operation's result: nothing but tokens moved, or one event with a fresh id. */
  lemma UserStepCases(s: State, op: U.Op, createdAt: nat)
    requires Base(s) && (op.CreateLink? || FreshId(s, op.eventId))
    ensures var t := U.Apply(s.accounts, op).db;
            && U.WellKept(t)
            && (|t.outbox| <= |s.accounts.outbox| ==> t.users == s.accounts.users)
            && (|t.outbox| > |s.accounts.outbox| ==>
                  var e := t.outbox[|t.outbox| - 1];
                  FreshId(s, e.eventId) && Emits(s.accounts.users, t.users, Row(e.aggregate, createdAt, e)))
  {
    U.ApplyKeeps(s.accounts, op);
    OperationHasEffect(s.accounts, op, createdAt);
  }

  lemma AppendsRow(box: Outbox.State, row: Row)
    ensures Outbox.Step(box, Write(row)).rows == box.rows + [row] && Outbox.Step(box, Write(row)).log == box.log
  {
  }

  lemma AppendKeepsIds(us: seq<Row>, os: seq<Row>, row: Row, processed: set<Uuid>)
    requires IdsApart(us, os) && Known(us, os, processed)
    requires !HasId(us, row.payload.eventId) && !HasId(os, row.payload.eventId)
    ensures IdsApart(us + [row], os) && IdsApart(us, os + [row])
    ensures Known(us + [row], os, processed) && Known(us, os + [row], processed)
    ensures row.payload.eventId !in processed
  {
    forall id
      ensures HasId(us, id) ==> HasId(us + [row], id)
      ensures HasId(os, id) ==> HasId(os + [row], id)
    {
      AppendsId(us, row, id);
      AppendsId(os, row, id);
    }
  }

  lemma ChainExtends(rows: seq<Row>, tables: seq<Table>, row: Row, t: Table)
    requires Chain(rows, tables) && Emits(tables[|rows|], t, row)
    ensures Chain(rows + [row], tables + [t])
  {
    forall i | 0 <= i < |rows + [row]|
      ensures Emits((tables + [t])[i], (tables + [t])[i + 1], (rows + [row])[i])
    {
      if i < |rows| {
        assert Emits(tables[i], tables[i + 1], rows[i]);
      }
    }
  }

  lemma UserStepKeepsBase(s: State, op: U.Op, createdAt: nat)
    requires Base(s) && (op.CreateLink? || FreshId(s, op.eventId))
    ensures Base(UserStep(s, op, createdAt))
  {
    hide Outbox.Safe, Outbox.Step, D.Accounted, OrdersRecorded, NoticesExact, IdsApart, Known, Chain, Emits, U.WellKept,
        U.Apply, HasId;
    var t := UserStep(s, op, createdAt);
    UserStepCases(s, op, createdAt);
    var db := U.Apply(s.accounts, op).db;
    if |db.outbox| > |s.accounts.outbox| {
      var event := db.outbox[|db.outbox| - 1];
      var row := Row(event.aggregate, createdAt, event);
      Outbox.StepKeepsSafe(s.users.box, Write(row));
      AppendKeepsIds(s.users.box.rows, s.orders.box.rows, row, s.desk.sink.processed);
      ChainExtends(s.users.box.rows, s.tables, row, db.users);
      AppendsRow(s.users.box, row);
    }
  }

  /** Order operations add at most one event, the last of the outbox, with the id they were given. */
  lemma OrderEvent(trail: seq<O.Db>, op: O.Op)
    requires trail != []
    ensures var t := O.Apply(trail, op).db;
            t.outbox == O.Last(trail).outbox
            || (|t.outbox| == |O.Last(trail).outbox| + 1 && t.outbox[|t.outbox| - 1].eventId == op.eventId)
  {
    hide O.Valid, O.Changes, O.ReadPerformers, O.Overwrite, O.CanTransition, O.TypeOf, O.ReadAt;
  }

  lemma RecordsExtend(trail: seq<O.Db>, os: seq<Row>, db: O.Db, row: Row)
    requires OrdersRecorded(trail, os) && R.Good(db) && R.Extends(O.Last(trail), db) && OrderRow(row)
    requires |db.outbox| == |os| + 1 && row.payload == db.outbox[|os|] && row.aggregate == row.payload.aggregate
    ensures OrdersRecorded(trail + [db], os + [row])
  {
    hide R.Good, OrderRow;
    R.TrailGrows(trail, db);
    assert forall i :: 0 <= i < |os| ==> db.outbox[i] == O.Last(trail).outbox[i];
  }

  lemma RecordsStay(trail: seq<O.Db>, os: seq<Row>, db: O.Db)
    requires OrdersRecorded(trail, os) && R.Good(db) && R.Extends(O.Last(trail), db)
        && db.outbox == O.Last(trail).outbox
    ensures OrdersRecorded(trail + [db], os)
  {
    hide R.Good, R.GoodTrail, OrderRow;
    R.TrailGrows(trail, db);
  }

  lemma NewOrderRow(db: O.Db, row: Row)
    requires R.Good(db) && db.outbox != [] && row.payload == db.outbox[|db.outbox| - 1] && row.payload.eventId != NIL
    ensures OrderRow(row)
  {
    var i := |db.outbox| - 1;
    assert R.Aligned(db.history[i], db.outbox[i]);
    OrderTypes(db.history[i].action);
  }

  lemma OrderStepKeepsBase(s: State, op: O.Op, createdAt: nat)
    requires Base(s) && FreshId(s, op.eventId)
    ensures Base(OrderStep(s, op, createdAt))
  {
    hide Outbox.Safe, Outbox.Step, D.Accounted, UsersRecorded, IdsApart, Known, HasId, O.Apply, R.Good, R.GoodTrail,
        OrderRow, Sound, Complete;
    var t := OrderStep(s, op, createdAt);
    var db := O.Apply(s.trail, op).db;
    R.ApplyKeepsGood(s.trail, op);
    OrderEvent(s.trail, op);
    var os := s.orders.box.rows;
    if |db.outbox| > |O.Last(s.trail).outbox| {
      var event := db.outbox[|db.outbox| - 1];
      var row := Row(event.aggregate, createdAt, event);
      Outbox.StepKeepsSafe(s.orders.box, Write(row));
      AppendsRow(s.orders.box, row);
      AppendKeepsIds(s.users.box.rows, os, row, s.desk.sink.processed);
      NewOrderRow(db, row);
      RecordsExtend(s.trail, os, db, row);
      CommitKeeps(os, s.desk.sink.processed, s.desk.sink.notices, row);
    } else {
      RecordsStay(s.trail, os, db);
    }
  }

  lemma ConsumeUserKeeps(us: seq<Row>, os: seq<Row>, sink: N.State, after: N.State, j: nat, ending: Ending)
    requires IdsApart(us, os) && NoticesExact(os, sink) && Known(us, os, sink.processed)
    requires j < |us| && IsUserType(us[j].payload.eventType)
    requires after == N.Deliver(sink, N.Delivery(Decoded(us[j].payload), ending)) && after != sink
    ensures after.processed == sink.processed + {us[j].payload.eventId} && after.notices == sink.notices
    ensures N.Sync(sink.recipients, us[j].payload.data) == Some(after.recipients)
    ensures NoticesExact(os, after) && Known(us, os, after.processed)
  {
    ForeignIdKeeps(os, sink.processed, sink.notices, us[j].payload.eventId);
  }

  lemma ConsumeOrderKeeps(us: seq<Row>, os: seq<Row>, sink: N.State, after: N.State, j: nat, ending: Ending)
    requires IdsApart(us, os) && NoticesExact(os, sink) && Known(us, os, sink.processed)
        && N.UniqueNotices(sink.notices)
    requires j < |os| && OrderRow(os[j])
    requires after == N.Deliver(sink, N.Delivery(Decoded(os[j].payload), ending)) && after != sink
    ensures after.processed == sink.processed + {os[j].payload.eventId} && after.recipients == sink.recipients
    ensures NoticesExact(os, after) && Known(us, os, after.processed)
  {
    if IsUserType(os[j].payload.eventType) {
      TypesAreDisjoint(os[j].payload.eventType);
    }
    ConsumeKeeps(os, sink.processed, sink.notices, j);
  }

  /** What a delivered record does to the tables, by topic. */
  lemma ConsumeKeepsBase(s: State, topic: Topic, ending: Ending, stored: bool)
    requires Base(s) && StreamOf(s, topic).cursor.position < |StreamOf(s, topic).box.log|
    ensures Base(ConsumeStep(s, topic, ending, stored))
  {
    var t := ConsumeStep(s, topic, ending, stored);
    var stream := StreamOf(s, topic);
    var record := stream.box.log[stream.cursor.position];
    D.StepKeepsAccounts(s.desk, D.Consume(N.Delivery(Decoded(record.value), ending)));
    assert record == RecordOf(stream.box, record.origin);
    var us, os := s.users.box.rows, s.orders.box.rows;
    if t.desk.sink != s.desk.sink {
      if topic.UserTopic? {
        assert Emits(s.tables[record.origin], s.tables[record.origin + 1], us[record.origin]);
        ConsumeUserKeeps(us, os, s.desk.sink, t.desk.sink, record.origin, ending);
      } else {
        ConsumeOrderKeeps(us, os, s.desk.sink, t.desk.sink, record.origin, ending);
      }
    }
  }

  lemma DispatchKeepsNotices(os: seq<Row>, desk: D.State, l: D.Label)
    requires D.Accounted(desk) && NoticesExact(os, desk.sink) && !l.Consume?
    ensures D.Accounted(D.Step(desk, l)) && NoticesExact(os, D.Step(desk, l).sink)
    ensures D.Step(desk, l).sink.processed == desk.sink.processed
        && D.Step(desk, l).sink.recipients == desk.sink.recipients
  {
    D.StepKeepsAccounts(desk, l);
    SameAddresses(os, desk.sink.processed, desk.sink.notices, D.Step(desk, l).sink.notices);
  }

  lemma StepKeepsBase(s: State, l: Label)
    requires Base(s)
    ensures Base(Step(s, l))
  {
    hide Outbox.Safe, D.Accounted, R.GoodTrail, IdsApart, UsersRecorded, OrdersRecorded, Known, NoticesExact;
    hide UserStep, OrderStep, ConsumeStep, HasId;
    match l
    case UserOp(op, createdAt) =>
      if op.CreateLink? || FreshId(s, op.eventId) {
        UserStepKeepsBase(s, op, createdAt);
      }
    case OrderOp(op, createdAt) =>
      if FreshId(s, op.eventId) {
        OrderStepKeepsBase(s, op, createdAt);
      }
    case Worker(topic, work) =>
      Outbox.StepKeepsSafe(StreamOf(s, topic).box, work);
    case Consume(topic, ending, stored) =>
      if StreamOf(s, topic).cursor.position < |StreamOf(s, topic).box.log| {
        ConsumeKeepsBase(s, topic, ending, stored);
      }
    case PassOver(topic, records) =>
    case Restart(topic) =>
    case Dispatch(delivery) =>
      if !delivery.Consume? {
        DispatchKeepsNotices(s.orders.box.rows, s.desk, delivery);
      }
  }

  lemma EmptyIsBase()
    ensures Base(EMPTY)
  {
    R.RunIsGood([]);
    assert O.Trail([]) == [O.EMPTY];
    D.DeliveriesAreAccounted([]);
  }

  lemma {:induction false} RunKeepsBase(ls: seq<Label>)
    ensures Base(Run(ls))
  {
    hide Base, Step;
    if ls == [] {
      EmptyIsBase();
    } else {
      RunKeepsBase(ls[..|ls| - 1]);
      StepKeepsBase(Run(ls[..|ls| - 1]), ls[|ls| - 1]);
    }
  }

  // ---------- The order operations of a run ----------

  /** The order operations that were carried out, with the outcome each of them had. */
  ghost function OrderOps(ls: seq<Label>): seq<O.Op> {
    if ls == [] then []
    else
      var init, last := ls[..|ls| - 1], ls[|ls| - 1];
      if last.OrderOp? && FreshId(Run(init), last.order.eventId) then OrderOps(init) + [last.order] else OrderOps(init)
  }

  lemma TrailOneMore(ops: seq<O.Op>, op: O.Op)
    ensures O.Trail(ops + [op]) == O.Trail(ops) + [O.Apply(O.Trail(ops), op).db]
  {
    hide O.Apply;
    assert (ops + [op])[..|ops|] == ops;
  }

  lemma StepKeepsTrail(s: State, l: Label)
    requires s.trail != []
    ensures Step(s, l).trail
         == if l.OrderOp? && FreshId(s, l.order.eventId) then s.trail + [O.Apply(s.trail, l.order).db] else s.trail
  {
    hide Outbox.Step, U.Apply, O.Apply, N.Deliver, D.Step, FreshId;
  }

  /** The order database of a run goes through the states of its order operations: what holds of those holds here. */
  lemma {:induction false} TrailIsOfOperations(ls: seq<Label>)
    ensures Run(ls).trail == O.Trail(OrderOps(ls))
  {
    hide Step, FreshId, O.Apply;
    if ls != [] {
      var init, last := ls[..|ls| - 1], ls[|ls| - 1];
      TrailIsOfOperations(init);
      StepKeepsTrail(Run(init), last);
      if last.OrderOp? {
        TrailOneMore(OrderOps(init), last.order);
      }
    }
  }
}

