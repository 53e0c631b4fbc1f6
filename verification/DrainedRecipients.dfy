/**
 * What a drained consumer holds, for any number of workers and any stamps: the values carried last
 * in the topic. Its rows are the projection of the users table exactly when these are the values
 * committed last.
 */
module DrainedRecipients {
  import opened Prelude
  import opened Events
  import Outbox
  import opened Projection
  import opened NoticeRows
  import opened TopicOrder
  import opened Pipeline
  import opened PipelineGuarantees
  import U = Users
  import O = Orders
  import N = Notifications
  import D = Dispatcher

  // ---------- The values carried last ----------

  /** The telegram_id of the last payload that carries one; a user starts unbound. */
  function LastTelegram(ds: seq<Data>): Option<int> {
    if ds == [] then None
    else
      var last := ds[|ds| - 1];
      if last.Object? && last.telegramId.Number? then Some(last.telegramId.n)
      else if last.Object? && last.telegramId.Null? then None
      else LastTelegram(ds[..|ds| - 1])
  }

  /** The is_active of the last payload that carries one; a recipient starts active. */
  function LastActive(ds: seq<Data>): bool {
    if ds == [] then true
    else
      var last := ds[|ds| - 1];
      if last.Object? && last.isActive.Bool? then last.isActive.b
      else if last.Object? && last.isActive.Null? then false
      else LastActive(ds[..|ds| - 1])
  }

  function LastCarried(ds: seq<Data>): N.Recipient {
    N.Recipient(LastTelegram(ds), LastActive(ds))
  }

  /** A payload syncRecipient accepts for this user. */
  predicate Syncs(data: Data, user: Uuid) {
    && N.NamesUser(data) && data.userId.id == user
    && N.NewTelegram(None, data.telegramId).Some? && N.NewActive(true, data.isActive).Some?
  }

  lemma OneMoreIsCarried(ds: seq<Data>, d: Data, user: Uuid)
    requires Syncs(d, user)
    ensures N.SyncRow(LastCarried(ds), d) == Some(LastCarried(ds + [d]))
  {
    assert (ds + [d])[..|ds|] == ds;
  }

  /** The payloads of these rows of an outbox. */
  function DataOf(rows: seq<Outbox.Row>, list: seq<nat>): (ds: seq<Data>)
    requires Within(rows, list)
    ensures |ds| == |list| && forall k :: 0 <= k < |list| ==> ds[k] == rows[list[k]].payload.data
  {
    seq(|list|, k requires 0 <= k < |list| => rows[list[k]].payload.data)
  }

  lemma DataOneMore(rows: seq<Outbox.Row>, list: seq<nat>, i: nat)
    requires Within(rows, list) && i < |rows|
    ensures Within(rows, list + [i]) && DataOf(rows, list + [i]) == DataOf(rows, list) + [rows[i].payload.data]
  {
  }

  // ---------- The recipients a stretch of the topic leaves ----------

  ghost predicate Occurs(log: seq<Outbox.Record>, i: nat) {
    exists p :: 0 <= p < |log| && log[p].origin == i
  }

  /** The recipients after every record of a log was processed, repeats without effect. */
  ghost function Replay(log: seq<Outbox.Record>): map<Uuid, N.Recipient> {
    if log == [] then map[]
    else
      var init, last := log[..|log| - 1], log[|log| - 1];
      if Occurs(init, last.origin) || N.Sync(Replay(init), last.value.data).None? then Replay(init)
      else N.Sync(Replay(init), last.value.data).value
  }

  ghost predicate UserRows(rows: seq<Outbox.Row>) {
    forall i :: 0 <= i < |rows| ==> Syncs(rows[i].payload.data, rows[i].aggregate)
  }

  ghost predicate Copied(rows: seq<Outbox.Row>, log: seq<Outbox.Record>) {
    forall p :: 0 <= p < |log| ==>
      log[p].origin < |rows|
          && log[p] == Outbox.Record(log[p].origin, rows[log[p].origin].aggregate, rows[log[p].origin].payload)
  }

  lemma CopiesAreWithin(rows: seq<Outbox.Row>, log: seq<Outbox.Record>, u: Uuid)
    requires Copied(rows, log)
    ensures Within(rows, FirstCopies(log, u))
  {
    var list := FirstCopies(log, u);
    forall b | 0 <= b < |list|
      ensures list[b] < |rows|
    {
      assert list[b] in list;
    }
  }

  lemma OccursIffCopied(rows: seq<Outbox.Row>, log: seq<Outbox.Record>, i: nat)
    requires Copied(rows, log) && i < |rows|
    ensures Occurs(log, i) <==> i in FirstCopies(log, rows[i].aggregate)
  {
  }

  lemma FirstCopiesOneMore(log: seq<Outbox.Record>, u: Uuid)
    requires log != []
    ensures var init, last := log[..|log| - 1], log[|log| - 1];
            FirstCopies(log, u) == if last.key == u && last.origin !in FirstCopies(init, u)
                then FirstCopies(init, u) + [last.origin] else FirstCopies(init, u)
  {
  }

  lemma NothingCarried(ds: seq<Data>)
    requires ds == []
    ensures LastCarried(ds) == N.Recipient(None, true)
  {
  }

  lemma SyncedRow(rs: map<Uuid, N.Recipient>, data: Data, user: Uuid, u: Uuid)
    requires Syncs(data, user)
    ensures N.Sync(rs, data).Some?
    ensures u != user ==> (u in N.Sync(rs, data).value <==> u in rs) && (u in rs ==> N.Sync(rs, data).value[u] == rs[u])
    ensures u == user
        ==> u in N.Sync(rs, data).value && N.SyncRow(N.RowOrNew(rs, u), data) == Some(N.Sync(rs, data).value[u])
  {
  }

  /** Replaying the topic leaves each user the values its first copies carry last. */
  lemma {:induction false} ReplayIsLastCarried(rows: seq<Outbox.Row>, log: seq<Outbox.Record>, u: Uuid)
    requires Copied(rows, log) && UserRows(rows)
    ensures Within(rows, FirstCopies(log, u))
    ensures u in Replay(log) <==> FirstCopies(log, u) != []
    ensures u in Replay(log) ==> Replay(log)[u] == LastCarried(DataOf(rows, FirstCopies(log, u)))
  {
    CopiesAreWithin(rows, log, u);
    if log != [] {
      var init, last := log[..|log| - 1], log[|log| - 1];
      ReplayIsLastCarried(rows, init, u);
      var i := last.origin;
      OccursIffCopied(rows, init, i);
      var copies := FirstCopies(init, u);
      hide Occurs, LastCarried, DataOf, Syncs, FirstCopies, N.SyncRow;
      SyncedRow(Replay(init), last.value.data, last.key, u);
      if last.key == u && !Occurs(init, i) {
        FirstCopiesOneMore(log, u);
        DataOneMore(rows, copies, i);
        OneMoreIsCarried(DataOf(rows, copies), last.value.data, u);
        if copies == [] {
          NothingCarried(DataOf(rows, copies));
        }
      } else {
        FirstCopiesOneMore(log, u);
      }
    }
  }

  // ---------- The users table ----------

  lemma EmittedSyncs(a: Table, b: Table, row: Outbox.Row)
    requires Emits(a, b, row)
    ensures Syncs(row.payload.data, row.aggregate)
  {
    hide IsUserType, Same;
  }

  lemma EmitsOwn(a: Table, b: Table, row: Outbox.Row)
    requires Emits(a, b, row)
    ensures row.aggregate in b && row.payload.data.Object?
    ensures N.SyncRow(ProjectOrNew(a, row.aggregate), row.payload.data) == Some(Project(b[row.aggregate]))
  {
  }

  lemma ChainSyncs(rows: seq<Outbox.Row>, tables: seq<Table>)
    requires Chain(rows, tables)
    ensures UserRows(rows)
  {
    hide Emits, Syncs;
    forall i | 0 <= i < |rows|
      ensures Syncs(rows[i].payload.data, rows[i].aggregate)
    {
      EmittedSyncs(tables[i], tables[i + 1], rows[i]);
    }
  }

  lemma RowsOneMore(rows: seq<Outbox.Row>, n: nat, u: Uuid)
    requires n < |rows|
    ensures RowsOf(rows[..n + 1], u) == RowsOf(rows[..n], u) + if rows[n].aggregate == u then [n] else []
  {
    assert rows[..n + 1][..n] == rows[..n];
  }

  lemma RowsAreWithin(rows: seq<Outbox.Row>, n: nat, u: Uuid)
    requires n <= |rows|
    ensures Within(rows, RowsOf(rows[..n], u))
  {
  }

  /** The row of a user holds the values these payloads carry last; without payloads there is no row. */
  predicate Holds(t: Table, u: Uuid, ds: seq<Data>) {
    (u in t <==> ds != []) && (u in t ==> Project(t[u]) == LastCarried(ds))
  }

  lemma RowKeepsHolding(a: Table, b: Table, row: Outbox.Row, u: Uuid, ds: seq<Data>)
    requires Emits(a, b, row) && Holds(a, u, ds)
    ensures Holds(b, u, if row.aggregate == u then ds + [row.payload.data] else ds)
  {
    hide Emits, LastCarried, Syncs, N.SyncRow;
    if row.aggregate == u {
      EmitsOwn(a, b, row);
      EmittedSyncs(a, b, row);
      OneMoreIsCarried(ds, row.payload.data, u);
      NothingCarried([]);
    } else {
      EmitsNoOther(a, b, row, u);
    }
  }

  lemma NoRows(rows: seq<Outbox.Row>, t: Table, u: Uuid)
    requires t == map[]
    ensures RowsOf(rows[..0], u) == [] && Within(rows, RowsOf(rows[..0], u))
        && Holds(t, u, DataOf(rows, RowsOf(rows[..0], u)))
  {
  }

  lemma ChainAt(rows: seq<Outbox.Row>, tables: seq<Table>, i: nat)
    requires Chain(rows, tables) && i < |rows|
    ensures i + 1 < |tables| && Emits(tables[i], tables[i + 1], rows[i])
  {
    hide Emits;
  }

  /** The users table holds, for each user, the values its committed events carry last. */
  lemma {:induction false} TableIsLastCarried(rows: seq<Outbox.Row>, tables: seq<Table>, n: nat, u: Uuid)
    requires Chain(rows, tables) && |tables| == |rows| + 1 && tables[0] == map[] && n <= |rows|
    ensures Within(rows, RowsOf(rows[..n], u)) && Holds(tables[n], u, DataOf(rows, RowsOf(rows[..n], u)))
  {
    hide RowsOf, Holds, Emits, Chain;
    RowsAreWithin(rows, n, u);
    if n == 0 {
      NoRows(rows, tables[0], u);
    } else {
      TableIsLastCarried(rows, tables, n - 1, u);
      RowsOneMore(rows, n - 1, u);
      ChainAt(rows, tables, n - 1);
      var list := RowsOf(rows[..n - 1], u);
      if rows[n - 1].aggregate == u {
        DataOneMore(rows, list, n - 1);
      } else {
        assert RowsOf(rows[..n], u) == list;
      }
      RowKeepsHolding(tables[n - 1], tables[n], rows[n - 1], u, DataOf(rows, list));
    }
  }

  // ---------- How far a calm consumer has read ----------

  /**
   * The users rows that are processed are those in the first h records, and these are what the
   * recipients come from.
   */
  ghost predicate ReadTo(us: seq<Outbox.Row>, log: seq<Outbox.Record>, sink: N.State, h: nat) {
    && h <= |log|
    && (forall i :: 0 <= i < |us| ==> (us[i].payload.eventId in sink.processed <==> Occurs(log[..h], i)))
    && sink.recipients == Replay(log[..h])
  }

  ghost predicate Reached(s: State, h: nat) {
    && s.users.cursor.committed <= s.users.cursor.position <= h
    && ReadTo(s.users.box.rows, s.users.box.log, s.desk.sink, h)
  }

  lemma OccursOneMore(log: seq<Outbox.Record>, r: Outbox.Record, i: nat)
    ensures Occurs(log + [r], i) <==> Occurs(log, i) || i == r.origin
  {
    if Occurs(log, i) {
      var p :| 0 <= p < |log| && log[p].origin == i;
      assert (log + [r])[p].origin == i;
    }
    assert (log + [r])[|log|] == r;
  }

  lemma IdOf(us: seq<Outbox.Row>, i: nat, j: nat)
    requires DistinctIds(us) && i < |us| && j < |us|
    ensures us[i].payload.eventId == us[j].payload.eventId <==> i == j
  {
  }

  lemma RecordRead(us: seq<Outbox.Row>, log: seq<Outbox.Record>, sink: N.State, after: N.State, h: nat)
    requires ReadTo(us, log, sink, h) && h < |log| && DistinctIds(us) && Copied(us, log) && UserRows(us)
    requires IsUserType(log[h].value.eventType) && N.WellFormed(Decoded(log[h].value))
    requires exists ending: Ending ::
        ending.Durable() && after == N.Deliver(sink, N.Delivery(Decoded(log[h].value), ending))
    ensures ReadTo(us, log, after, h + 1)
  {
    hide DistinctIds, Syncs, IsUserType;
    var part, r := log[..h], log[h];
    assert log[..h + 1] == part + [r];
    assert (part + [r])[..h] == part;
    SyncedRow(sink.recipients, r.value.data, r.key, r.key);
    forall i | 0 <= i < |us|
      ensures Occurs(log[..h + 1], i) <==> Occurs(part, i) || i == r.origin
    {
      OccursOneMore(part, r, i);
    }
    forall i | 0 <= i < |us|
      ensures us[i].payload.eventId in after.processed <==> Occurs(log[..h + 1], i)
    {
      IdOf(us, i, r.origin);
    }
  }

  lemma RepeatRead(us: seq<Outbox.Row>, log: seq<Outbox.Record>, sink: N.State, h: nat, p: nat, ending: Ending)
    requires ReadTo(us, log, sink, h) && p < h && Copied(us, log)
    ensures N.Deliver(sink, N.Delivery(Decoded(log[p].value), ending)) == sink
  {
    assert log[..h][p] == log[p];
    assert Occurs(log[..h], log[p].origin);
  }

  lemma RowIsAppended(us: seq<Outbox.Row>, log: seq<Outbox.Record>, sink: N.State, h: nat, row: Outbox.Row)
    requires ReadTo(us, log, sink, h) && Copied(us, log) && row.payload.eventId !in sink.processed
    ensures ReadTo(us + [row], log, sink, h)
  {
    hide Replay;
    assert forall p :: 0 <= p < h ==> log[..h][p].origin == log[p].origin < |us|;
  }

  lemma LogIsAppended(us: seq<Outbox.Row>, log: seq<Outbox.Record>, longer: seq<Outbox.Record>, sink: N.State, h: nat)
    requires ReadTo(us, log, sink, h) && log <= longer
    ensures ReadTo(us, longer, sink, h)
  {
    assert longer[..h] == log[..h];
  }

  lemma ForeignIsProcessed(us: seq<Outbox.Row>, log: seq<Outbox.Record>, sink: N.State, after: N.State, h: nat,
      id: Uuid)
    requires ReadTo(us, log, sink, h) && after.recipients == sink.recipients && after.processed == sink.processed + {id}
    requires forall i :: 0 <= i < |us| ==> us[i].payload.eventId != id
    ensures ReadTo(us, log, after, h)
  {
    hide Replay, Occurs;
  }

  lemma SafeIsCopied(box: Outbox.State)
    requires Outbox.Safe(box)
    ensures Copied(box.rows, box.log)
  {
    forall p | 0 <= p < |box.log|
      ensures box.log[p].origin < |box.rows|
      ensures box.log[p] == Outbox.Record(box.log[p].origin, box.rows[box.log[p].origin].aggregate,
          box.rows[box.log[p].origin].payload)
    {
      assert box.log[p] == Outbox.RecordOf(box, box.log[p].origin);
    }
  }

  // ---------- Every label ----------

  lemma UserTypeOf(s: State, p: nat)
    requires Base(s) && p < |s.users.box.log|
    ensures IsUserType(s.users.box.log[p].value.eventType) && N.WellFormed(Decoded(s.users.box.log[p].value))
  {
    RecordIsAcceptable(s, UserTopic, p);
    hide IdsApart, Known, NoticesExact, U.WellKept, OrdersRecorded, D.Accounted, IsUserType, N.WellFormed, N.Acceptable;
    var i := s.users.box.log[p].origin;
    assert s.users.box.log[p] == Outbox.RecordOf(s.users.box, i);
    assert Emits(s.tables[i], s.tables[i + 1], s.users.box.rows[i]);
  }

  lemma PartsOfBase(s: State)
    requires Base(s)
    ensures s.trail != []
    ensures Copied(s.users.box.rows, s.users.box.log) && UserRows(s.users.box.rows) && DistinctIds(s.users.box.rows)
    ensures IdsApart(s.users.box.rows, s.orders.box.rows)
        && Known(s.users.box.rows, s.orders.box.rows, s.desk.sink.processed)
  {
    hide Outbox.Safe, OrdersRecorded, NoticesExact, D.Accounted, U.WellKept, Chain, Known, DistinctIds;
    SafeIsCopied(s.users.box);
    ChainSyncs(s.users.box.rows, s.tables);
  }

  lemma UserRecordReaches(s: State, ending: Ending, stored: bool, h: nat)
    requires Base(s) && Reached(s, h) && ending.Durable() && s.users.cursor.position < |s.users.box.log|
    ensures exists k: nat :: Reached(ConsumeStep(s, UserTopic, ending, stored), k)
  {
    hide Base, Replay, Occurs, DistinctIds, Copied, UserRows, N.Deliver, N.WellFormed, N.ReportsSuccess, IsUserType;
    PartsOfBase(s);
    var p := s.users.cursor.position;
    var t := ConsumeStep(s, UserTopic, ending, stored);
    ConsumeMoves(s, UserTopic, ending, stored);
    assert t.desk.sink == N.Deliver(s.desk.sink, N.Delivery(Decoded(s.users.box.log[p].value), ending));
    if p < h {
      RepeatRead(s.users.box.rows, s.users.box.log, s.desk.sink, h, p, ending);
      assert Reached(t, h);
    } else {
      UserTypeOf(s, p);
      hide ReadTo;
      RecordRead(s.users.box.rows, s.users.box.log, s.desk.sink, t.desk.sink, h);
      assert Reached(t, h + 1);
    }
  }

  lemma OrderRecordReaches(s: State, ending: Ending, stored: bool, h: nat)
    requires Base(s) && Reached(s, h) && s.orders.cursor.position < |s.orders.box.log|
    ensures Reached(ConsumeStep(s, OrderTopic, ending, stored), h)
  {
    var us, os, sink := s.users.box.rows, s.orders.box.rows, s.desk.sink;
    var r := s.orders.box.log[s.orders.cursor.position];
    var after := ConsumeStep(s, OrderTopic, ending, stored).desk.sink;
    assert r == Outbox.RecordOf(s.orders.box, r.origin);
    assert OrderRow(os[r.origin]);
    hide ReadTo;
    if after != sink {
      ConsumeOrderKeeps(us, os, sink, after, r.origin, ending);
      ForeignIsProcessed(us, s.users.box.log, sink, after, h, r.value.eventId);
    }
  }

  lemma UserOpReaches(s: State, l: Label, h: nat)
    requires Base(s) && Reached(s, h) && l.UserOp?
    ensures Reached(Step(s, l), h)
  {
    hide U.Apply, Outbox.Step, ReadTo;
    if l.user.CreateLink? || FreshId(s, l.user.eventId) {
      UserStepCases(s, l.user, l.createdAt);
      PartsOfBase(s);
      hide Base, HasId, Emits, U.WellKept, IdsApart, Known, Copied, UserRows, DistinctIds;
      var t := U.Apply(s.accounts, l.user).db;
      if |t.outbox| > |s.accounts.outbox| {
        var row := Outbox.Row(Event(s, l).aggregate, l.createdAt, Event(s, l));
        AppendsRow(s.users.box, row);
        AppendKeepsIds(s.users.box.rows, s.orders.box.rows, row, s.desk.sink.processed);
        RowIsAppended(s.users.box.rows, s.users.box.log, s.desk.sink, h, row);
      }
    }
  }

  lemma WorkerReaches(s: State, work: Outbox.Label, h: nat)
    requires s.trail != [] && Reached(s, h)
    ensures Reached(Step(s, Worker(UserTopic, work)), h)
  {
    hide Outbox.Step, ReadTo;
    WorkKeepsRows(s.users.box, work);
    BoxStepGrowsLog(s.users.box, work);
    LogIsAppended(s.users.box.rows, s.users.box.log, Outbox.Step(s.users.box, work).log, s.desk.sink, h);
  }

  lemma BaseHasTrail(s: State)
    requires Base(s)
    ensures s.trail != []
  {
  }

  lemma DeskOfBase(s: State)
    requires Base(s)
    ensures D.Accounted(s.desk) && NoticesExact(s.orders.box.rows, s.desk.sink)
  {
    hide D.Accounted, NoticesExact, OrdersRecorded, UsersRecorded, IdsApart, Known, Outbox.Safe;
  }

  lemma DispatchKeepsTables(s: State, delivery: D.Label)
    requires Base(s)
    ensures var t := Step(s, Dispatch(delivery));
            t.users == s.users && t.desk.sink.processed == s.desk.sink.processed
                && t.desk.sink.recipients == s.desk.sink.recipients
  {
    BaseHasTrail(s);
    DispatchLabel(s, delivery);
    if !delivery.Consume? {
      DeskOfBase(s);
      DispatchKeepsNotices(s.orders.box.rows, s.desk, delivery);
    }
    hide Base, Step, D.Step, D.Accounted, NoticesExact;
  }

  lemma DispatchReaches(s: State, delivery: D.Label, h: nat)
    requires Base(s) && Reached(s, h)
    ensures Reached(Step(s, Dispatch(delivery)), h)
  {
    DispatchKeepsTables(s, delivery);
    hide Base, Step, Replay, Occurs;
  }

  lemma OtherLabelReaches(s: State, l: Label, h: nat)
    requires s.trail != [] && Reached(s, h) && Calm(UserTopic, l)
    requires l.OrderOp? || l.PassOver? || l.Restart? || (l.Worker? && l.topic.OrderTopic?)
             || (l.Consume? && !(StreamOf(s, l.topic).cursor.position < |StreamOf(s, l.topic).box.log|))
    ensures Reached(Step(s, l), h)
  {
    hide ReadTo, O.Apply, Outbox.Step, FreshId;
  }

  lemma ConsumeReaches(s: State, topic: Topic, ending: Ending, stored: bool, h: nat)
    requires Base(s) && Reached(s, h) && (topic.UserTopic? ==> ending.Durable())
    requires StreamOf(s, topic).cursor.position < |StreamOf(s, topic).box.log|
    ensures exists k: nat :: Reached(ConsumeStep(s, topic, ending, stored), k)
  {
    hide Base, Reached, ConsumeStep;
    if topic.UserTopic? {
      UserRecordReaches(s, ending, stored, h);
    } else {
      OrderRecordReaches(s, ending, stored, h);
    }
  }

  lemma StepReaches(s: State, l: Label, h: nat)
    requires Base(s) && Reached(s, h) && Calm(UserTopic, l)
    ensures exists k: nat :: Reached(Step(s, l), k)
  {
    hide Base, Reached, ConsumeStep, Step;
    BaseHasTrail(s);
    match l
    case Consume(topic, ending, stored) =>
      if StreamOf(s, topic).cursor.position < |StreamOf(s, topic).box.log| {
        ConsumeLabel(s, l);
        ConsumeReaches(s, topic, ending, stored, h);
      } else {
        OtherLabelReaches(s, l, h);
      }
    case UserOp(_, _) => UserOpReaches(s, l, h);
    case Dispatch(delivery) => DispatchReaches(s, delivery, h);
    case Worker(topic, work) =>
      if topic.UserTopic? {
        WorkerReaches(s, work, h);
      } else {
        OtherLabelReaches(s, l, h);
      }
    case OrderOp(_, _) => OtherLabelReaches(s, l, h);
    case PassOver(_, _) => OtherLabelReaches(s, l, h);
    case Restart(_) => OtherLabelReaches(s, l, h);
  }

  lemma {:induction false} CalmRunReaches(ls: seq<Label>) returns (h: nat)
    requires CalmRun(UserTopic, ls)
    ensures Reached(Run(ls), h)
  {
    if ls == [] {
      h := 0;
    } else {
      hide Base, Reached, Step;
      var k := CalmRunReaches(ls[..|ls| - 1]);
      RunKeepsBase(ls[..|ls| - 1]);
      StepReaches(Run(ls[..|ls| - 1]), ls[|ls| - 1], k);
      h :| Reached(Run(ls), h);
    }
  }

  lemma StepKeepsFirstTable(s: State, l: Label)
    requires s.trail != [] && s.tables != []
    ensures Step(s, l).tables != [] && Step(s, l).tables[0] == s.tables[0]
  {
    hide Outbox.Step, U.Apply, O.Apply, N.Deliver, D.Step, FreshId;
  }

  lemma {:induction false} FirstTableIsEmpty(ls: seq<Label>)
    ensures Run(ls).tables != [] && Run(ls).tables[0] == map[]
  {
    hide Step;
    if ls != [] {
      FirstTableIsEmpty(ls[..|ls| - 1]);
      StepKeepsFirstTable(Run(ls[..|ls| - 1]), ls[|ls| - 1]);
    }
  }

  // ---------- Drained ----------

  /** What the topic carries for a user, repeats left out, and what was committed for it. */
  ghost function Sent(s: State, u: Uuid): seq<Data>
    requires Within(s.users.box.rows, FirstCopies(s.users.box.log, u))
  {
    DataOf(s.users.box.rows, FirstCopies(s.users.box.log, u))
  }

  ghost function CommittedFor(s: State, u: Uuid): seq<Data>
    requires Within(s.users.box.rows, RowsOf(s.users.box.rows, u))
  {
    DataOf(s.users.box.rows, RowsOf(s.users.box.rows, u))
  }

  /** Once everything is published, a user has a copy in the topic exactly when it has a row in the outbox. */
  lemma AllRowsAreCopied(box: Outbox.State, u: Uuid)
    requires Outbox.Safe(box) && forall i :: 0 <= i < |box.rows| ==> i in box.published
    ensures forall i :: i in FirstCopies(box.log, u) <==> i in RowsOf(box.rows, u)
  {
    SafeIsCopied(box);
    hide Copied;
    forall i | i in RowsOf(box.rows, u)
      ensures i in FirstCopies(box.log, u)
    {
      assert Outbox.InLog(box, i);
      var p :| 0 <= p < |box.log| && box.log[p].origin == i;
      assert box.log[p] == Outbox.RecordOf(box, i);
    }
    forall i | i in FirstCopies(box.log, u)
      ensures i in RowsOf(box.rows, u)
    {
      var p :| 0 <= p < |box.log| && box.log[p].key == u && box.log[p].origin == i;
      assert box.log[p] == Outbox.RecordOf(box, i);
    }
  }

  lemma NoneIn(a: seq<nat>, b: seq<nat>)
    requires forall i :: i in a <==> i in b
    ensures a == [] ==> b == []
  {
    if b != [] {
      assert b[0] in b;
    }
  }

  lemma BaseGives(s: State, u: Uuid)
    requires Base(s) && s.tables != [] && s.tables[0] == map[]
        && forall i :: 0 <= i < |s.users.box.rows| ==> i in s.users.box.published
    ensures var us, log := s.users.box.rows, s.users.box.log;
            && Within(us, FirstCopies(log, u)) && Within(us, RowsOf(us, u))
            && (u in Replay(log) <==> FirstCopies(log, u) != [])
            && (u in Replay(log) ==> Replay(log)[u] == LastCarried(Sent(s, u)))
            && (u in s.accounts.users <==> RowsOf(us, u) != [])
            && (u in s.accounts.users ==> Project(s.accounts.users[u]) == LastCarried(CommittedFor(s, u)))
            && (forall i :: i in FirstCopies(log, u) <==> i in RowsOf(us, u))
  {
    PartsOfBase(s);
    AllRowsAreCopied(s.users.box, u);
    hide LastCarried, DataOf, FirstCopies, RowsOf, Replay, Occurs, Project, Copied, UserRows, DistinctIds, IdsApart,
        Known, Outbox.Safe;
    hide OrdersRecorded, NoticesExact, D.Accounted, U.WellKept, Emits;
    var us := s.users.box.rows;
    assert us[..|us|] == us;
    ReplayIsLastCarried(us, s.users.box.log, u);
    TableIsLastCarried(us, s.tables, |us|, u);
  }

  /**
   * For every run in which no users record is passed over, with any number of workers and any stamps:
   * once outbox and topic are drained, a user has a recipient row exactly when it has a row, the
   * recipient row holds the values carried last in the topic and the user's row those committed last,
   * so the one is the projection of the other exactly when these agree.
   */
  lemma DrainedRecipientMatchesIff(ls: seq<Label>, u: Uuid)
    requires CalmRun(UserTopic, ls) && Drained(Run(ls).users)
    ensures var s := Run(ls);
            && Within(s.users.box.rows, FirstCopies(s.users.box.log, u))
               && Within(s.users.box.rows, RowsOf(s.users.box.rows, u))
            && (u in s.desk.sink.recipients <==> u in s.accounts.users)
            && (u in s.desk.sink.recipients ==> s.desk.sink.recipients[u] == LastCarried(Sent(s, u)))
            && (u in s.accounts.users ==> Project(s.accounts.users[u]) == LastCarried(CommittedFor(s, u)))
            && (Matches(s.desk.sink.recipients, s.accounts.users, u)
                <==> && LastTelegram(Sent(s, u)) == LastTelegram(CommittedFor(s, u))
                     && LastActive(Sent(s, u)) == LastActive(CommittedFor(s, u)))
  {
    hide Run, LastTelegram, LastActive, DataOf, FirstCopies, RowsOf, Replay, Occurs, Project;
    var s := Run(ls);
    RunKeepsBase(ls);
    var us, log := s.users.box.rows, s.users.box.log;
    var h := CalmRunReaches(ls);
    assert log[..h] == log && us[..|us|] == us;
    FirstTableIsEmpty(ls);
    BaseGives(s, u);
    hide Base, Reached, Chain;
    if FirstCopies(log, u) == [] {
      assert RowsOf(us, u) == [] by {
        NoneIn(FirstCopies(log, u), RowsOf(us, u));
      }
      assert Sent(s, u) == CommittedFor(s, u);
    } else {
      NoneIn(RowsOf(us, u), FirstCopies(log, u));
    }
  }

  lemma SameElementsSameList(first: seq<nat>, list: seq<nat>)
    requires first <= list && (forall i :: i in list <==> i in first) && Distinct(list)
    ensures first == list
  {
    assert Distinct(first);
    ListedSize(first);
    ListedSize(list);
    assert Elements(first) == Elements(list);
  }

  /** Once outbox and topic of a steady run are drained, every recipient row is the projection of the current row. */
  lemma RecipientsCatchUp(ls: seq<Label>, u: Uuid)
    requires Steady(ls) && Drained(Run(ls).users)
    ensures Matches(Run(ls).desk.sink.recipients, Run(ls).accounts.users, u)
  {
    SteadyRunIsFollowed(ls);
    RunKeepsBase(ls);
    var s := Run(ls);
    var box := s.users.box;
    hide Run, Matches, LastTelegram, LastActive, Behind, AllInStep, IdsApart, Known, UsersRecorded, OrdersRecorded,
        NoticesExact, D.Accounted;
    DrainedRecipientMatchesIff(ls, u);
    SafeIsKeyed(box);
    LogOrderedIffPrefixes(box.rows, box.log);
    AllRowsAreCopied(box, u);
    assert FirstCopies(box.log, u) <= RowsOf(box.rows, u);
    SameElementsSameList(FirstCopies(box.log, u), RowsOf(box.rows, u));
  }
}
