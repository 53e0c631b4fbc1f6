/**
 * The recipients table as a projection of the users table: what one user event carries over, and
 * how a consumer that has processed some rows of the outbox stands against the table's past.
 */
module Projection {
  import opened Prelude
  import opened Events
  import opened Outbox
  import U = Users
  import N = Notifications

  type Table = map<Uuid, U.User>

  function Project(u: U.User): N.Recipient {
    N.Recipient(u.telegram, u.active)
  }

  /** The projection of a user's row, or the row syncRecipient inserts for an unknown user. */
  function ProjectOrNew(t: Table, id: Uuid): N.Recipient {
    if id in t then Project(t[id]) else N.Recipient(None, true)
  }

  predicate Same(a: Table, b: Table, u: Uuid) {
    (u in a <==> u in b) && (u in a ==> a[u] == b[u])
  }

  /** The row is the event of a mutation from a to b: it touches one user and carries its projection over. */
  ghost predicate Emits(a: Table, b: Table, row: Row) {
    var e := row.payload;
    && e.eventId != NIL && IsUserType(e.eventType) && e.aggregate == row.aggregate != NIL
    && e.data.Object? && e.data.userId == Id(row.aggregate)
    && (forall u :: u != row.aggregate ==> Same(a, b, u))
    && row.aggregate in b
    && N.SyncRow(ProjectOrNew(a, row.aggregate), e.data) == Some(Project(b[row.aggregate]))
  }

  lemma UserTypes()
    ensures IsUserType("user.created") && IsUserType("user.updated")
    ensures IsUserType("user.disabled") && IsUserType("user.telegram_bound")
  {
    assert "user.created"[..5] == "user.";
    assert "user.updated"[..5] == "user.";
    assert "user.disabled"[..5] == "user.";
    assert "user.telegram_bound"[..5] == "user.";
  }

  lemma MutationEmits(db: U.Db, id: Uuid, row: U.User, eventId: Uuid, eventType: string, data: Data, ending: Ending,
      createdAt: nat)
    requires id in db.users && id != NIL && eventId != NIL && IsUserType(eventType) && ending.Durable()
    requires data.Object? && data.userId == Id(id)
    requires N.SyncRow(Project(db.users[id]), data) == Some(Project(row))
    ensures var t := U.MutateTx(db, id, row, eventId, eventType, data, ending).db;
            && t.outbox == db.outbox + [Envelope(eventId, eventType, id, data)]
            && Emits(db.users, t.users, Row(id, createdAt, Envelope(eventId, eventType, id, data)))
  {
  }

  function EventIdOf(op: U.Op): Uuid {
    if op.CreateLink? then NIL else op.eventId
  }

  /** The event of a user operation, if it wrote one. */
  ghost predicate Effect(db: U.Db, t: U.Db, eventId: Uuid, createdAt: nat) {
    || (t.outbox == db.outbox && t.users == db.users)
    || (exists e: Envelope :: t.outbox == db.outbox + [e] && e.eventId == eventId
                              && Emits(db.users, t.users, Row(e.aggregate, createdAt, e)))
  }

  lemma IdleHasEffect(db: U.Db, t: U.Db, eventId: Uuid, createdAt: nat)
    requires t.outbox == db.outbox && t.users == db.users
    ensures Effect(db, t, eventId, createdAt)
  {
  }

  lemma MutationHasEffect(db: U.Db, id: Uuid, row: U.User, eventId: Uuid, eventType: string, data: Data, ending: Ending,
      createdAt: nat)
    requires U.WellKept(db) && eventId != NIL && IsUserType(eventType)
    requires data.Object? && data.userId == Id(id)
    requires id in db.users ==> N.SyncRow(Project(db.users[id]), data) == Some(Project(row))
    ensures Effect(db, U.MutateTx(db, id, row, eventId, eventType, data, ending).db, eventId, createdAt)
  {
    if id in db.users && ending.Durable() {
      MutationEmits(db, id, row, eventId, eventType, data, ending, createdAt);
    }
  }

  lemma CreationHasEffect(db: U.Db, u: U.User, ps: seq<string>, eventId: Uuid, ending: Ending, createdAt: nat)
    requires eventId != NIL && u.id != NIL && u.telegram.None?
    ensures Effect(db, U.CreateTx(db, u, ps, eventId, ending).db, eventId, createdAt)
  {
    UserTypes();
    var t := U.CreateTx(db, u, ps, eventId, ending).db;
    if t != db {
      var e := Envelope(eventId, "user.created", u.id, U.Payload(u.id, Null, Bool(u.active)));
      assert t.outbox == db.outbox + [e];
      assert Emits(db.users, t.users, Row(u.id, createdAt, e));
    }
  }

  /**
   * The INSERT of a user leaves telegram_id out while its event carries the field, so the event
   * projects the stored row exactly when the field is nil, as Service.Create leaves it.
   */
  lemma CreationProjectsIffUnbound(db: U.Db, u: U.User, ps: seq<string>, eventId: Uuid, createdAt: nat)
    requires eventId != NIL && u.id != NIL && u.id !in db.users && !U.LoginTaken(db, u.login) && Distinct(ps)
    ensures var t := U.CreateTx(db, u, ps, eventId, Committed).db;
            var e := Envelope(eventId, "user.created", u.id,
                U.Payload(u.id, U.TelegramJson(u.telegram), Bool(u.active)));
            t.outbox == db.outbox + [e] && (Emits(db.users, t.users, Row(u.id, createdAt, e)) <==> u.telegram.None?)
  {
    UserTypes();
  }

  lemma RowEmits(a: Table, id: Uuid, row: U.User, e: Envelope, createdAt: nat)
    requires id in a && id != NIL && e.eventId != NIL && IsUserType(e.eventType) && e.aggregate == id
    requires e.data.Object? && e.data.userId == Id(id) && N.SyncRow(Project(a[id]), e.data) == Some(Project(row))
    ensures Emits(a, a[id := row], Row(id, createdAt, e))
  {
    hide IsUserType, N.SyncRow;
  }

  lemma BindingProjects(u: U.User, id: Uuid, telegramId: int)
    ensures N.SyncRow(Project(u), U.Payload(id, Number(telegramId), Absent))
        == Some(Project(u.(telegram := Some(telegramId))))
  {
  }

  lemma RedemptionWrites(db: U.Db, token: nat, telegramId: int, now: int, eventId: Uuid, ending: Ending)
    requires U.RedeemTx(db, token, telegramId, now, eventId, ending).db != db
    ensures token in db.tokens && db.tokens[token].user in db.users
    ensures var t, id := U.RedeemTx(db, token, telegramId, now, eventId, ending).db, db.tokens[token].user;
            && t.users == db.users[id := db.users[id].(telegram := Some(telegramId))]
            && t.outbox == db.outbox
               + [Envelope(eventId, "user.telegram_bound", id, U.Payload(id, Number(telegramId), Absent))]
  {
    hide U.TelegramTaken;
  }

  lemma RedemptionHasEffect(db: U.Db, token: nat, telegramId: int, now: int, eventId: Uuid, ending: Ending,
      createdAt: nat)
    requires U.WellKept(db) && eventId != NIL
    ensures Effect(db, U.RedeemTx(db, token, telegramId, now, eventId, ending).db, eventId, createdAt)
  {
    hide U.RedeemTx, U.Injective, IsUserType, N.SyncRow, Emits;
    UserTypes();
    var t := U.RedeemTx(db, token, telegramId, now, eventId, ending).db;
    if t != db {
      RedemptionWrites(db, token, telegramId, now, eventId, ending);
      var id := db.tokens[token].user;
      var e := Envelope(eventId, "user.telegram_bound", id, U.Payload(id, Number(telegramId), Absent));
      BindingProjects(db.users[id], id, telegramId);
      RowEmits(db.users, id, db.users[id].(telegram := Some(telegramId)), e, createdAt);
    }
  }

  /** Every user operation emits exactly the event that carries the projection of what it changed. */
  lemma OperationHasEffect(db: U.Db, op: U.Op, createdAt: nat)
    requires U.WellKept(db) && (!op.CreateLink? ==> op.eventId != NIL)
    ensures Effect(db, U.Apply(db, op).db, EventIdOf(op), createdAt)
  {
    hide U.WellKept, U.TelegramTaken, U.LoginTaken, IsUserType, Effect, Emits;
    UserTypes();
    if U.Apply(db, op).db == db {
      IdleHasEffect(db, db, EventIdOf(op), createdAt);
      return;
    }
    match op
    case Create(id, login, hash, fullName, role, e, ending) =>
      if id != NIL {
        CreationHasEffect(db, U.User(id, login, hash, fullName, role, true, None, {}), U.DefaultPermissions(role), e,
            ending, createdAt);
      }
    case UpdateName(id, name, e, ending) =>
      MutationHasEffect(db, id, U.Row(db, id).(fullName := name), e, "user.updated", U.About(id), ending, createdAt);
    case SetPassword(id, hash, e, ending) =>
      MutationHasEffect(db, id, U.Row(db, id).(hash := hash), e, "user.updated", U.About(id), ending, createdAt);
    case SetPermissions(id, ps, e, ending) =>
      MutationHasEffect(db, id, U.Row(db, id).(permissions := U.CodesOf(ps)), e, "user.updated", U.About(id), ending,
          createdAt);
    case SetActive(id, active, e, ending) =>
      MutationHasEffect(db, id, U.Row(db, id).(active := active), e, if active then "user.updated" else "user.disabled",
                        U.Payload(id, Absent, Bool(active)), ending, createdAt);
    case Bind(id, telegramId, e, ending) =>
      MutationHasEffect(db, id, U.Row(db, id).(telegram := Some(telegramId)), e, "user.telegram_bound",
                        U.Payload(id, Number(telegramId), Absent), ending, createdAt);
    case CreateLink(hash, id, asked, now, ending) => IdleHasEffect(db, U.Apply(db, op).db, NIL, createdAt);
    case Redeem(hash, telegramId, now, e, ending) =>
        RedemptionHasEffect(db, hash, telegramId, now, e, ending, createdAt);
  }

  // ---------- A consumer against the past of the table ----------

  /** tables[i] is the users table after the first i rows were committed. */
  ghost predicate Chain(rows: seq<Row>, tables: seq<Table>) {
    && |tables| == |rows| + 1
    && (forall i :: 0 <= i < |rows| ==> Emits(tables[i], tables[i + 1], rows[i]))
  }

  ghost predicate DistinctIds(rows: seq<Row>) {
    forall i, j :: 0 <= i < j < |rows| ==> rows[i].payload.eventId != rows[j].payload.eventId
  }

  /** Of the rows of user u, exactly those before row m were processed. */
  ghost predicate CutFor(rows: seq<Row>, processed: set<Uuid>, u: Uuid, m: nat) {
    && m <= |rows|
    && (forall i :: 0 <= i < |rows| && rows[i].aggregate == u ==> (rows[i].payload.eventId in processed <==> i < m))
  }

  predicate Matches(recipients: map<Uuid, N.Recipient>, t: Table, u: Uuid) {
    if u in t then u in recipients && recipients[u] == Project(t[u]) else u !in recipients
  }

  /** The recipient row of u is the projection of its users row after some prefix of the commits. */
  ghost predicate InStep(rows: seq<Row>, tables: seq<Table>, processed: set<Uuid>, recipients: map<Uuid, N.Recipient>,
      u: Uuid)
    requires |tables| == |rows| + 1
  {
    exists m: nat :: CutFor(rows, processed, u, m) && Matches(recipients, tables[m], u)
  }

  /** Processed rows are closed under "committed before, for the same user". */
  ghost predicate Closed(rows: seq<Row>, processed: set<Uuid>) {
    forall i, j ::
      0 <= i < j < |rows| && rows[i].aggregate == rows[j].aggregate && rows[j].payload.eventId in processed ==>
        rows[i].payload.eventId in processed
  }

  lemma EmitsNoOther(a: Table, b: Table, row: Row, u: Uuid)
    requires Emits(a, b, row) && u != row.aggregate
    ensures Same(a, b, u)
  {
  }

  lemma {:induction false} Untouched(rows: seq<Row>, tables: seq<Table>, u: Uuid, m: nat, j: nat)
    requires Chain(rows, tables) && m <= j <= |rows|
    requires forall i :: m <= i < j ==> rows[i].aggregate != u
    ensures Same(tables[m], tables[j], u)
    decreases j - m
  {
    hide Emits;
    if m < j {
      Untouched(rows, tables, u, m, j - 1);
      EmitsNoOther(tables[j - 1], tables[j], rows[j - 1], u);
    }
  }

  /** Processing the next row of a user moves its recipient row to the projection after that row. */
  lemma NextRowSteps(rows: seq<Row>, tables: seq<Table>, processed: set<Uuid>, recipients: map<Uuid, N.Recipient>,
      j: nat)
    requires Chain(rows, tables) && DistinctIds(rows) && Closed(rows, processed)
    requires j < |rows| && rows[j].payload.eventId !in processed
    requires forall i :: 0 <= i < j && rows[i].aggregate == rows[j].aggregate ==> rows[i].payload.eventId in processed
    requires InStep(rows, tables, processed, recipients, rows[j].aggregate)
    ensures N.Sync(recipients, rows[j].payload.data).Some?
    ensures InStep(rows, tables, processed + {rows[j].payload.eventId}, N.Sync(recipients, rows[j].payload.data).value,
        rows[j].aggregate)
  {
    var u := rows[j].aggregate;
    var m: nat :| CutFor(rows, processed, u, m) && Matches(recipients, tables[m], u);
    Untouched(rows, tables, u, m, j);
    assert Emits(tables[j], tables[j + 1], rows[j]);
    assert N.RowOrNew(recipients, u) == ProjectOrNew(tables[j], u);
    var after := processed + {rows[j].payload.eventId};
    forall i | 0 <= i < |rows| && rows[i].aggregate == u
      ensures rows[i].payload.eventId in after <==> i < j + 1
    {
    }
    assert CutFor(rows, after, u, j + 1);
    assert Matches(N.Sync(recipients, rows[j].payload.data).value, tables[j + 1], u);
  }

  /** Other users are not touched by it. */
  lemma OtherRowKeeps(rows: seq<Row>, tables: seq<Table>, processed: set<Uuid>, recipients: map<Uuid, N.Recipient>,
      j: nat, u: Uuid)
    requires Chain(rows, tables) && DistinctIds(rows) && j < |rows| && u != rows[j].aggregate
    requires InStep(rows, tables, processed, recipients, u) && N.Sync(recipients, rows[j].payload.data).Some?
    ensures InStep(rows, tables, processed + {rows[j].payload.eventId},
        N.Sync(recipients, rows[j].payload.data).value, u)
  {
    assert Emits(tables[j], tables[j + 1], rows[j]);
    var m: nat :| CutFor(rows, processed, u, m) && Matches(recipients, tables[m], u);
    assert CutFor(rows, processed + {rows[j].payload.eventId}, u, m);
    assert Matches(N.Sync(recipients, rows[j].payload.data).value, tables[m], u);
  }

  lemma ConsumeKeepsInStep(rows: seq<Row>, tables: seq<Table>, processed: set<Uuid>, recipients: map<Uuid, N.Recipient>,
      j: nat)
    requires Chain(rows, tables) && DistinctIds(rows) && Closed(rows, processed)
    requires j < |rows| && rows[j].payload.eventId !in processed
    requires forall i :: 0 <= i < j && rows[i].aggregate == rows[j].aggregate ==> rows[i].payload.eventId in processed
    requires forall u :: InStep(rows, tables, processed, recipients, u)
    ensures N.Sync(recipients, rows[j].payload.data).Some?
    ensures Closed(rows, processed + {rows[j].payload.eventId})
    ensures forall u ::
        InStep(rows, tables, processed + {rows[j].payload.eventId}, N.Sync(recipients, rows[j].payload.data).value, u)
  {
    NextRowSteps(rows, tables, processed, recipients, j);
    forall u
      ensures InStep(rows, tables, processed + {rows[j].payload.eventId},
          N.Sync(recipients, rows[j].payload.data).value, u)
    {
      if u != rows[j].aggregate {
        OtherRowKeeps(rows, tables, processed, recipients, j, u);
      }
    }
  }

  /** A new commit, whose event nobody has processed yet, leaves every cut where it is. */
  lemma CommitKeepsInStep(rows: seq<Row>, tables: seq<Table>, processed: set<Uuid>, recipients: map<Uuid, N.Recipient>,
      row: Row, t: Table)
    requires |tables| == |rows| + 1 && Closed(rows, processed)
    requires row.payload.eventId !in processed
    requires forall u :: InStep(rows, tables, processed, recipients, u)
    ensures Closed(rows + [row], processed)
    ensures forall u :: InStep(rows + [row], tables + [t], processed, recipients, u)
  {
    forall u
      ensures InStep(rows + [row], tables + [t], processed, recipients, u)
    {
      assert InStep(rows, tables, processed, recipients, u);
      var m: nat :| CutFor(rows, processed, u, m) && Matches(recipients, tables[m], u);
      assert CutFor(rows + [row], processed, u, m);
      assert Matches(recipients, (tables + [t])[m], u);
    }
  }

  /** Ids of other topics do not matter. */
  lemma ForeignIdKeepsInStep(rows: seq<Row>, tables: seq<Table>, processed: set<Uuid>,
      recipients: map<Uuid, N.Recipient>, id: Uuid)
    requires |tables| == |rows| + 1 && Closed(rows, processed)
    requires forall i :: 0 <= i < |rows| ==> rows[i].payload.eventId != id
    requires forall u :: InStep(rows, tables, processed, recipients, u)
    ensures Closed(rows, processed + {id})
    ensures forall u :: InStep(rows, tables, processed + {id}, recipients, u)
  {
    forall u
      ensures InStep(rows, tables, processed + {id}, recipients, u)
    {
      assert InStep(rows, tables, processed, recipients, u);
      var m: nat :| CutFor(rows, processed, u, m) && Matches(recipients, tables[m], u);
      assert CutFor(rows, processed + {id}, u, m);
    }
  }
}
