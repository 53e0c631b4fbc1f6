/** End to end: what recipients and notifications hold in every reachable state of the pipeline. */
module PipelineGuarantees {
  import opened Prelude
  import opened Events
  import Outbox
  import opened Projection
  import opened NoticeRows
  import opened Pipeline
  import U = Users
  import O = Orders
  import R = OrderRuns
  import A = OrderAudience
  import N = Notifications
  import D = Dispatcher

  // ---------- Notifications, on every run ----------

  /** Row i of the order database's history and outbox is what a notification was made for. */
  ghost predicate MadeFor(db: O.Db, i: nat, notice: N.Notice) {
    && i < |db.history| == |db.outbox|
    && db.outbox[i].eventId == notice.eventId
    && N.Named(db.outbox[i].data).Some? && notice.recipient in N.Named(db.outbox[i].data).value
    && db.outbox[i].aggregate == db.history[i].order && db.outbox[i].eventType == O.TypeOf(db.history[i].action)
  }

  /** A notification comes from a committed order mutation whose event names its recipient. */
  lemma NoticeComesFromMutation(ls: seq<Label>, k: nat)
    requires k < |Run(ls).desk.sink.notices|
    ensures exists i: nat :: MadeFor(O.Last(Run(ls).trail), i, Run(ls).desk.sink.notices[k])
  {
    RunKeepsBase(ls);
    var s := Run(ls);
    var os := s.orders.box.rows;
    var notice := s.desk.sink.notices[k];
    var i: nat :| Justifies(os, i, notice);
    var db := O.Last(s.trail);
    assert R.Good(db);
    assert R.Aligned(db.history[i], db.outbox[i]);
    assert MadeFor(db, i, notice);
  }

  /** Operation n of the run notifies this recipient with this event. */
  ghost predicate MadeBy(ops: seq<O.Op>, n: nat, notice: N.Notice) {
    && n < |ops| && O.Trail(ops)[n + 1] != O.Trail(ops)[n]
       && |O.Trail(ops)[n + 1].outbox| == |O.Trail(ops)[n].outbox| + 1
    && O.Trail(ops)[n + 1].outbox[|O.Trail(ops)[n].outbox|].eventId == notice.eventId
    && notice.recipient in A.Audience(ops, n)
  }

  /**
   * A notification comes from an order operation of the run that took effect, and its recipient is
   * of that operation's audience.
   */
  lemma NoticeComesFromOperation(ls: seq<Label>, k: nat)
    requires k < |Run(ls).desk.sink.notices|
    ensures exists n: nat :: MadeBy(OrderOps(ls), n, Run(ls).desk.sink.notices[k])
  {
    hide Run, OrderOps, O.Trail, A.Audience;
    NoticeComesFromMutation(ls, k);
    TrailIsOfOperations(ls);
    var ops, notice := OrderOps(ls), Run(ls).desk.sink.notices[k];
    var i: nat :| MadeFor(O.Last(Run(ls).trail), i, notice);
    assert O.Last(Run(ls).trail) == O.Trail(ops)[|ops|];
    var n := A.EventHasItsOperation(ops, |ops|, i);
    assert MadeBy(ops, n, notice);
  }

  /** Every processed order event has exactly one row per recipient it names. */
  lemma ProcessedEventHasItsNotices(ls: seq<Label>, i: nat, recipient: Uuid)
    requires i < |O.Last(Run(ls).trail).outbox|
    requires var e := O.Last(Run(ls).trail).outbox[i];
             e.eventId in Run(ls).desk.sink.processed && N.Named(e.data).Some? && recipient in N.Named(e.data).value
    ensures N.HasNotice(Run(ls).desk.sink.notices, O.Last(Run(ls).trail).outbox[i].eventId, recipient)
    ensures N.UniqueNotices(Run(ls).desk.sink.notices)
  {
    RunKeepsBase(ls);
    var s := Run(ls);
    assert Names(s.orders.box.rows[i], recipient);
  }

  // ---------- Records are not lost while none is passed over ----------

  /** Every record of the topic that is handed to Process is stored, and no fetch of it is dropped. */
  predicate Calm(topic: Topic, l: Label) {
    && (l.Consume? && l.topic == topic ==> l.ending.Durable())
    && (l.PassOver? ==> l.topic != topic)
  }

  predicate CalmRun(topic: Topic, ls: seq<Label>) {
    forall n :: 0 <= n < |ls| ==> Calm(topic, ls[n])
  }

  ghost predicate Behind(stream: Stream, processed: set<Uuid>) {
    && stream.cursor.committed <= stream.cursor.position <= |stream.box.log|
    && (forall p :: 0 <= p < stream.cursor.position ==> stream.box.log[p].value.eventId in processed)
  }

  lemma EmittedIsAcceptable(a: Table, b: Table, row: Outbox.Row)
    requires Emits(a, b, row)
    ensures N.Acceptable(row.payload) && N.WellFormed(Decoded(row.payload))
  {
    hide IsOrderType, Same;
    assert row.payload.eventType != "";
  }

  lemma OrderRowIsAcceptable(row: Outbox.Row)
    requires OrderRow(row)
    ensures N.Acceptable(row.payload) && N.WellFormed(Decoded(row.payload))
  {
    if IsUserType(row.payload.eventType) {
      TypesAreDisjoint(row.payload.eventType);
    }
  }

  /** Whatever a topic holds can be processed. */
  lemma RecordIsAcceptable(s: State, topic: Topic, p: nat)
    requires Base(s) && p < |StreamOf(s, topic).box.log|
    ensures N.Acceptable(StreamOf(s, topic).box.log[p].value)
        && N.WellFormed(Decoded(StreamOf(s, topic).box.log[p].value))
  {
    hide Emits, OrderRow, N.Acceptable, N.WellFormed, IdsApart, Known, NoticesExact, U.WellKept, R.GoodTrail,
        D.Accounted;
    var stream := StreamOf(s, topic);
    var i := stream.box.log[p].origin;
    assert stream.box.log[p] == Outbox.RecordOf(stream.box, i);
    if topic.UserTopic? {
      assert Emits(s.tables[i], s.tables[i + 1], stream.box.rows[i]);
      EmittedIsAcceptable(s.tables[i], s.tables[i + 1], stream.box.rows[i]);
    } else {
      assert OrderRow(stream.box.rows[i]);
      OrderRowIsAcceptable(stream.box.rows[i]);
    }
  }

  /** A stored attempt leaves the record processed. */
  lemma StoredIsProcessed(s: State, topic: Topic, ending: Ending, stored: bool)
    requires Base(s) && ending.Durable() && StreamOf(s, topic).cursor.position < |StreamOf(s, topic).box.log|
    ensures StreamOf(s, topic).box.log[StreamOf(s, topic).cursor.position].value.eventId
         in ConsumeStep(s, topic, ending, stored).desk.sink.processed
  {
    hide Base, N.Acceptable, N.WellFormed, N.Deliver;
    var stream := StreamOf(s, topic);
    RecordIsAcceptable(s, topic, stream.cursor.position);
    N.DeliverProcesses(s.desk.sink, N.Delivery(Decoded(stream.box.log[stream.cursor.position].value), ending));
  }

  lemma ProcessedGrows(s: State, l: Label)
    requires Base(s)
    ensures s.desk.sink.processed <= Step(s, l).desk.sink.processed
  {
    if l.Dispatch? && !l.delivery.Consume? {
      DispatchKeepsNotices(s.orders.box.rows, s.desk, l.delivery);
    }
    hide Base, Outbox.Step, U.Apply, O.Apply, N.Deliver, FreshId;
    if l.Consume? && StreamOf(s, l.topic).cursor.position < |StreamOf(s, l.topic).box.log| {
      var stream := StreamOf(s, l.topic);
      N.DeliverProcesses(s.desk.sink, N.Delivery(Decoded(stream.box.log[stream.cursor.position].value), l.ending));
    }
    hide D.Step;
  }

  lemma BoxStepGrowsLog(box: Outbox.State, l: Outbox.Label)
    ensures box.log <= Outbox.Step(box, l).log
  {
    hide Outbox.FreeBatch;
  }

  lemma StepGrowsLog(s: State, topic: Topic, l: Label)
    requires s.trail != []
    ensures StreamOf(s, topic).box.log <= StreamOf(Step(s, l), topic).box.log
  {
    hide Outbox.Step, U.Apply, O.Apply, N.Deliver, D.Step, FreshId;
    if l.Worker? {
      BoxStepGrowsLog(StreamOf(s, l.topic).box, l.work);
    } else if l.UserOp? {
      var e := U.Apply(s.accounts, l.user).db.outbox;
      if e != [] {
        BoxStepGrowsLog(s.users.box, Outbox.Write(Outbox.Row(e[|e| - 1].aggregate, l.createdAt, e[|e| - 1])));
      }
    } else if l.OrderOp? {
      var e := O.Apply(s.trail, l.order).db.outbox;
      if e != [] {
        BoxStepGrowsLog(s.orders.box, Outbox.Write(Outbox.Row(e[|e| - 1].aggregate, l.createdAt, e[|e| - 1])));
      }
    }
  }

  /** The offsets of a topic after a step, for all labels but its own consumption. */
  lemma CursorMoves(s: State, topic: Topic, l: Label)
    requires s.trail != [] && Calm(topic, l)
    requires !(l.Consume? && l.topic == topic)
    ensures var c, d := StreamOf(s, topic).cursor, StreamOf(Step(s, l), topic).cursor;
            d == c || d == c.(position := c.committed)
  {
    hide Outbox.Step, U.Apply, O.Apply, N.Deliver, D.Step, FreshId;
  }

  lemma LaterStaysBehind(a: Stream, b: Stream, processed: set<Uuid>, later: set<Uuid>)
    requires Behind(a, processed) && processed <= later && a.box.log <= b.box.log
    requires b.cursor == a.cursor || b.cursor == a.cursor.(position := a.cursor.committed)
    ensures Behind(b, later)
  {
  }

  /** The record at the position was processed, and the offset moved behind it. */
  lemma ReadStaysBehind(a: Stream, b: Stream, processed: set<Uuid>, later: set<Uuid>)
    requires Behind(a, processed) && processed <= later && b.box == a.box && a.cursor.position < |a.box.log|
    requires a.box.log[a.cursor.position].value.eventId in later
    requires b.cursor.position == a.cursor.position + 1
    requires b.cursor.committed == a.cursor.committed || b.cursor.committed == b.cursor.position
    ensures Behind(b, later)
  {
  }

  /** What consumption does to the offsets of its topic. */
  lemma ConsumeMoves(s: State, topic: Topic, ending: Ending, stored: bool)
    requires s.trail != [] && StreamOf(s, topic).cursor.position < |StreamOf(s, topic).box.log|
    ensures var a, b := StreamOf(s, topic), StreamOf(ConsumeStep(s, topic, ending, stored), topic);
            && b.box == a.box && b.cursor.position == a.cursor.position + 1
            && (b.cursor.committed == a.cursor.committed || b.cursor.committed == b.cursor.position)
  {
    hide N.Deliver, N.ReportsSuccess, D.Step;
  }

  lemma CalmStepStaysBehind(s: State, topic: Topic, l: Label)
    requires Base(s) && Behind(StreamOf(s, topic), s.desk.sink.processed) && Calm(topic, l)
    ensures Behind(StreamOf(Step(s, l), topic), Step(s, l).desk.sink.processed)
  {
    ProcessedGrows(s, l);
    var processed, later := s.desk.sink.processed, Step(s, l).desk.sink.processed;
    if l.Consume? && l.topic == topic {
      hide Base, Behind, ConsumeStep, UserStep, OrderStep;
      if StreamOf(s, topic).cursor.position < |StreamOf(s, topic).box.log| {
        StoredIsProcessed(s, topic, l.ending, l.stored);
        ConsumeMoves(s, topic, l.ending, l.stored);
        ReadStaysBehind(StreamOf(s, topic), StreamOf(Step(s, l), topic), processed, later);
      }
    } else {
      StepGrowsLog(s, topic, l);
      CursorMoves(s, topic, l);
      hide Base, Behind, Step;
      LaterStaysBehind(StreamOf(s, topic), StreamOf(Step(s, l), topic), processed, later);
    }
  }

  lemma {:induction false} CalmRunStaysBehind(topic: Topic, ls: seq<Label>)
    requires CalmRun(topic, ls)
    ensures Behind(StreamOf(Run(ls), topic), Run(ls).desk.sink.processed)
  {
    if ls != [] {
      var init := ls[..|ls| - 1];
      CalmRunStaysBehind(topic, init);
      RunKeepsBase(init);
      CalmStepStaysBehind(Run(init), topic, ls[|ls| - 1]);
    }
  }

  /** Nothing is left to publish or to read. */
  ghost predicate Drained(stream: Stream) {
    && (forall i :: 0 <= i < |stream.box.rows| ==> i in stream.box.published)
    && stream.cursor.position == |stream.box.log|
  }

  lemma DrainedIsProcessed(stream: Stream, processed: set<Uuid>, i: nat)
    requires Outbox.Safe(stream.box) && Behind(stream, processed) && Drained(stream) && i < |stream.box.rows|
    ensures stream.box.rows[i].payload.eventId in processed
  {
    assert Outbox.InLog(stream.box, i);
    var p :| 0 <= p < |stream.box.log| && stream.box.log[p].origin == i;
    assert stream.box.log[p] == Outbox.RecordOf(stream.box, i);
  }

  /** Drained without a passed-over record: every committed order event notified everyone it names. */
  lemma DrainedOrdersAreNotified(ls: seq<Label>, i: nat, recipient: Uuid)
    requires CalmRun(OrderTopic, ls) && Drained(Run(ls).orders)
    requires i < |O.Last(Run(ls).trail).outbox|
    requires var e := O.Last(Run(ls).trail).outbox[i]; N.Named(e.data).Some? && recipient in N.Named(e.data).value
    ensures N.HasNotice(Run(ls).desk.sink.notices, O.Last(Run(ls).trail).outbox[i].eventId, recipient)
  {
    RunKeepsBase(ls);
    CalmRunStaysBehind(OrderTopic, ls);
    DrainedIsProcessed(Run(ls).orders, Run(ls).desk.sink.processed, i);
    ProcessedEventHasItsNotices(ls, i, recipient);
  }

  // ---------- Recipients follow users ----------

  /**
   * A user operation stamps its row later than the earlier rows of that user, and one worker is at
   * work on the users outbox.
   */
  ghost predicate Orderly(s: State, l: Label) {
    && (l.UserOp? ==>
          var t := U.Apply(s.accounts, l.user).db;
          |t.outbox| > |s.accounts.outbox| ==>
            var e := t.outbox[|t.outbox| - 1];
            Outbox.Disciplined(s.users.box, Outbox.Write(Outbox.Row(e.aggregate, l.createdAt, e))))
    && (l.Worker? && l.topic.UserTopic? ==> Outbox.Disciplined(s.users.box, l.work))
  }

  /**
   * The runs of the end-to-end result: one worker on the users outbox, start times in commit order
   * per user, and no users record passed over. Everything may crash, fail, repeat and restart.
   */
  ghost predicate Steady(ls: seq<Label>) {
    forall n :: 0 <= n < |ls| ==> Orderly(Run(ls[..n]), ls[n]) && Calm(UserTopic, ls[n])
  }

  ghost predicate AllInStep(us: seq<Outbox.Row>, tables: seq<Table>, sink: N.State) {
    && |tables| == |us| + 1
    && Closed(us, sink.processed)
    && (forall u :: InStep(us, tables, sink.processed, sink.recipients, u))
  }

  ghost predicate Followed(s: State) {
    && Outbox.Ordered(s.users.box)
    && Behind(s.users, s.desk.sink.processed)
    && AllInStep(s.users.box.rows, s.tables, s.desk.sink)
  }

  /** The event a user operation would commit. */
  function Event(s: State, l: Label): Envelope
    requires l.UserOp? && U.Apply(s.accounts, l.user).db.outbox != []
  {
    var t := U.Apply(s.accounts, l.user).db;
    t.outbox[|t.outbox| - 1]
  }

  /** A committed row of the users outbox, on the parts it touches. */
  lemma RowKeepsFollowed(box: Outbox.State, os: seq<Outbox.Row>, tables: seq<Table>, sink: N.State, row: Outbox.Row,
      after: Table)
    requires Outbox.Safe(box) && Outbox.Ordered(box) && Outbox.Disciplined(box, Outbox.Write(row))
    requires IdsApart(box.rows, os) && Known(box.rows, os, sink.processed) && AllInStep(box.rows, tables, sink)
    requires !HasId(box.rows, row.payload.eventId) && !HasId(os, row.payload.eventId)
    ensures var t := Outbox.Step(box, Outbox.Write(row));
            Outbox.Ordered(t) && AllInStep(t.rows, tables + [after], sink)
  {
    hide Outbox.Safe, Outbox.Step, Outbox.Ordered, Outbox.Disciplined, HasId, InStep, IdsApart, Known, Closed;
    Outbox.StepKeepsOrdered(box, Outbox.Write(row));
    AppendsRow(box, row);
    AppendKeepsIds(box.rows, os, row, sink.processed);
    CommitKeepsInStep(box.rows, tables, sink.processed, sink.recipients, row, after);
  }

  lemma UserRowKeepsFollowed(s: State, l: Label, row: Outbox.Row)
    requires Base(s) && Followed(s) && l.UserOp? && (l.user.CreateLink? || FreshId(s, l.user.eventId))
    requires |U.Apply(s.accounts, l.user).db.outbox| > |s.accounts.outbox|
    requires row == Outbox.Row(Event(s, l).aggregate, l.createdAt, Event(s, l))
        && Outbox.Disciplined(s.users.box, Outbox.Write(row))
    ensures var t := UserStep(s, l.user, l.createdAt);
            Outbox.Ordered(t.users.box) && AllInStep(t.users.box.rows, t.tables, t.desk.sink)
  {
    hide Outbox.Safe, Outbox.Step, Outbox.Ordered, Outbox.Disciplined, D.Accounted, OrdersRecorded, UsersRecorded,
        NoticesExact;
    hide U.Apply, U.WellKept, HasId, Emits, IdsApart, Known, AllInStep, Behind;
    UserStepCases(s, l.user, l.createdAt);
    RowKeepsFollowed(s.users.box, s.orders.box.rows, s.tables, s.desk.sink, row, U.Apply(s.accounts, l.user).db.users);
  }

  lemma UserOpKeepsFollowed(s: State, l: Label)
    requires Base(s) && Followed(s) && l.UserOp? && Orderly(s, l)
    ensures Outbox.Ordered(Step(s, l).users.box)
    ensures AllInStep(Step(s, l).users.box.rows, Step(s, l).tables, Step(s, l).desk.sink)
  {
    hide Outbox.Ordered, Outbox.Disciplined, Outbox.Step, U.Apply, AllInStep, Base, FreshId;
    if l.user.CreateLink? || FreshId(s, l.user.eventId) {
      if |U.Apply(s.accounts, l.user).db.outbox| > |s.accounts.outbox| {
        UserRowKeepsFollowed(s, l, Outbox.Row(Event(s, l).aggregate, l.createdAt, Event(s, l)));
      }
    }
  }

  /** A record of the users topic: everything committed before it for the same user was read before it. */
  lemma UserRecordKeepsInStep(s: State, ending: Ending, stored: bool)
    requires Base(s) && Followed(s) && s.users.cursor.position < |s.users.box.log|
    ensures AllInStep(s.users.box.rows, s.tables, ConsumeStep(s, UserTopic, ending, stored).desk.sink)
  {
    hide D.Accounted, OrdersRecorded;
    var us, sink := s.users.box.rows, s.desk.sink;
    var p := s.users.cursor.position;
    var r := s.users.box.log[p];
    var after := ConsumeStep(s, UserTopic, ending, stored).desk.sink;
    assert r == Outbox.RecordOf(s.users.box, r.origin);
    assert Emits(s.tables[r.origin], s.tables[r.origin + 1], us[r.origin]);
    if after != sink {
      ConsumeUserKeeps(us, s.orders.box.rows, sink, after, r.origin, ending);
      forall i | 0 <= i < r.origin && us[i].aggregate == us[r.origin].aggregate
        ensures us[i].payload.eventId in sink.processed
      {
        assert Outbox.Before(us, i, s.users.box.log[p].origin);
        assert Outbox.LoggedEarlier(s.users.box.log, i, p);
        var q :| 0 <= q < p && s.users.box.log[q].origin == i;
        assert s.users.box.log[q] == Outbox.RecordOf(s.users.box, i);
      }
      ConsumeKeepsInStep(us, s.tables, sink.processed, sink.recipients, r.origin);
    }
  }

  lemma OrderRecordKeepsInStep(s: State, ending: Ending, stored: bool)
    requires Base(s) && Followed(s) && s.orders.cursor.position < |s.orders.box.log|
    ensures AllInStep(s.users.box.rows, s.tables, ConsumeStep(s, OrderTopic, ending, stored).desk.sink)
  {
    hide Outbox.Ordered;
    var us, os, sink := s.users.box.rows, s.orders.box.rows, s.desk.sink;
    var r := s.orders.box.log[s.orders.cursor.position];
    var after := ConsumeStep(s, OrderTopic, ending, stored).desk.sink;
    assert r == Outbox.RecordOf(s.orders.box, r.origin);
    assert OrderRow(os[r.origin]);
    if after != sink {
      ConsumeOrderKeeps(us, os, sink, after, r.origin, ending);
      ForeignIdKeepsInStep(us, s.tables, sink.processed, sink.recipients, r.value.eventId);
    }
  }

  lemma WorkKeepsRows(box: Outbox.State, work: Outbox.Label)
    ensures work.Write? || Outbox.Step(box, work).rows == box.rows
  {
    hide Outbox.FreeBatch;
  }

  lemma DispatchKeepsInStep(s: State, l: D.Label)
    requires Base(s) && AllInStep(s.users.box.rows, s.tables, s.desk.sink)
    ensures AllInStep(s.users.box.rows, s.tables, Step(s, Dispatch(l)).desk.sink)
  {
    if !l.Consume? {
      DispatchKeepsNotices(s.orders.box.rows, s.desk, l);
    }
  }

  lemma StepKeepsFollowed(s: State, l: Label)
    requires Base(s) && Followed(s) && Orderly(s, l) && Calm(UserTopic, l)
    ensures Followed(Step(s, l))
  {
    hide UserStep, HasId, FreshId, D.Step, Outbox.Step, O.Apply, U.Apply, N.Deliver;
    CalmStepStaysBehind(s, UserTopic, l);
    hide Outbox.Safe, Outbox.Ordered, D.Accounted, R.GoodTrail, IdsApart, UsersRecorded, OrdersRecorded, Known,
        NoticesExact, AllInStep, Behind;
    match l
    case UserOp(_, _) => UserOpKeepsFollowed(s, l);
    case Worker(topic, work) =>
      if topic.UserTopic? {
        Outbox.StepKeepsOrdered(s.users.box, work);
        WorkKeepsRows(s.users.box, work);
      }
    case Consume(topic, ending, stored) =>
      if StreamOf(s, topic).cursor.position < |StreamOf(s, topic).box.log| {
        if topic.UserTopic? {
          UserRecordKeepsInStep(s, ending, stored);
        } else {
          OrderRecordKeepsInStep(s, ending, stored);
        }
      }
    case Dispatch(delivery) => DispatchKeepsInStep(s, delivery);
    case OrderOp(_, _) =>
    case PassOver(_, _) =>
    case Restart(_) =>
  }

  lemma EmptyIsFollowed()
    ensures Followed(EMPTY)
  {
    forall u
      ensures InStep([], [map[]], {}, map[], u)
    {
      assert CutFor([], {}, u, 0);
    }
  }

  lemma {:induction false} SteadyRunIsFollowed(ls: seq<Label>)
    requires Steady(ls)
    ensures Followed(Run(ls))
  {
    if ls == [] {
      EmptyIsFollowed();
    } else {
      var init := ls[..|ls| - 1];
      assert forall n :: 0 <= n < |init| ==> init[..n] == ls[..n] && init[n] == ls[n];
      hide Base, Followed, Orderly, Step;
      SteadyRunIsFollowed(init);
      RunKeepsBase(init);
      StepKeepsFollowed(Run(init), ls[|ls| - 1]);
    }
  }

  /**
   * In every reachable state each recipient row is the projection of that user's row after some
   * prefix of the committed mutations, over publisher crashes, republished batches and restarts.
   */
  lemma RecipientsFollowUsers(ls: seq<Label>, u: Uuid)
    requires Steady(ls)
    ensures var s := Run(ls);
            && Chain(s.users.box.rows, s.tables)
            && s.tables[|s.tables| - 1] == s.accounts.users
            && InStep(s.users.box.rows, s.tables, s.desk.sink.processed, s.desk.sink.recipients, u)
  {
    SteadyRunIsFollowed(ls);
    RunKeepsBase(ls);
  }
}
