/**
 * The order aggregate on values: the tables of migrations/orders, the transactions of
 * internal/order/repository/postgres.go and the operations of internal/order/app/service.go.
 * An operation reads one state and writes to a later one.
 */
module Orders {
  import opened Prelude
  import opened Events
  import opened Money
  import opened Calendar

  // ---------- internal/order/domain/order.go ----------

  datatype Status = Planned | Completed | Cancelled | Unknown

  datatype Order = Order(
    id: Uuid,
    date: DateTime,
    location: string,
    amount: Amount,
    name: string,
    phone: string,
    contact: string,
    comment: string,
    status: Status,
    createdBy: Uuid,
    updatedBy: Uuid,
    version: int,
    performers: seq<Uuid>)

  datatype Value = Text(text: string) | Sum(amount: Amount) | StatusOf(status: Status) | Ref(id: Uuid)

  datatype Change = Change(old_: Value, new_: Value)

  datatype Field = Location | AmountField | Comment | StatusField | PerformerField

  datatype Action = OrderCreated | OrderUpdated | StatusChanged | PerformerAssigned | PerformerUnassigned

  datatype Entry = Entry(order: Uuid, actor: Uuid, action: Action, changes: map<Field, Change>)

  predicate IsSpace(c: char) {
    || 9 as char <= c <= 13 as char
    || c in [' ', 0x85 as char, 0xA0 as char, 0x1680 as char, 0x2028 as char, 0x2029 as char, 0x202F as char,
       0x205F as char, 0x3000 as char]
    || 0x2000 as char <= c <= 0x200A as char
  }

  /** strings.TrimSpace(text) == "". */
  predicate Blank(text: string) {
    forall i :: 0 <= i < |text| ==> IsSpace(text[i])
  }

  predicate Valid(o: Order) {
    o.date != ZERO_TIME && !Blank(o.location) && o.amount.positive && !Blank(o.name)
  }

  predicate CanTransition(old_: Status, next: Status) {
    old_.Planned? && (next.Completed? || next.Cancelled?)
  }

  // ---------- Tables ----------

  /** `performers` keeps each order's rows of order_performers in ascending order. */
  datatype Db = Db(
    orders: map<Uuid, Order>,
    performers: map<Uuid, seq<Uuid>>,
    history: seq<Entry>,
    outbox: seq<Envelope>)

  const EMPTY: Db := Db(map[], map[], [], [])

  datatype Outcome = Outcome(db: Db, error: Option<Error>)

  function PerformersOf(db: Db, id: Uuid): seq<Uuid> {
    if id in db.performers then db.performers[id] else []
  }

  function Get(db: Db, id: Uuid): Option<Order> {
    if id in db.orders then Some(db.orders[id].(performers := PerformersOf(db, id))) else None
  }

  predicate Ascending(s: seq<Uuid>) {
    forall i, j :: 0 <= i < j < |s| ==> s[i] < s[j]
  }

  function Insert(s: seq<Uuid>, p: Uuid): (r: seq<Uuid>)
    ensures forall x :: x in r <==> x in s || x == p
    ensures Ascending(s) && p !in s ==> Ascending(r)
  {
    if s == [] then [p]
    else if p <= s[0] then [p] + s
    else
      var rest := Insert(s[1..], p);
      assert forall i :: 0 <= i < |rest| ==> rest[i] in rest;
      [s[0]] + rest
  }

  function Remove(s: seq<Uuid>, p: Uuid): (r: seq<Uuid>)
    ensures forall x :: x in r <==> x in s && x != p
    ensures Ascending(s) ==> Ascending(r)
  {
    if s == [] then []
    else
      var rest := Remove(s[1..], p);
      assert forall i :: 0 <= i < |rest| ==> rest[i] in rest;
      if s[0] == p then rest else [s[0]] + rest
  }

  function InsertAll(ps: seq<Uuid>): (r: seq<Uuid>)
    ensures forall x :: x in r <==> x in ps
    ensures Distinct(ps) ==> Ascending(r)
  {
    if ps == [] then [] else Insert(InsertAll(ps[..|ps| - 1]), ps[|ps| - 1])
  }

  function TypeOf(action: Action): string {
    match action
    case OrderCreated => "order.created"
    case OrderUpdated => "order.updated"
    case StatusChanged => "order.status_changed"
    case PerformerAssigned => "order.performer_assigned"
    case PerformerUnassigned => "order.performer_unassigned"
  }

  /** performer_ids of an order that was read: the nil slice of an order without rows encodes as null. */
  function ReadPerformers(ps: seq<Uuid>): Data {
    NO_KEYS.(performerIds := if ps == [] then Null else Ids(ps))
  }

  // ---------- Transactions: the repository ----------

  /** The last two statements of every transaction, a history row and an outbox row, and its end. */
  function Close(db: Db, written: Db, entry: Entry, eventId: Uuid, data: Data, ending: Ending): Outcome {
    var closed := written.(
      history := written.history + [entry],
      outbox := written.outbox + [Envelope(eventId, TypeOf(entry.action), entry.order, data)]);
    match ending
    case Committed => Outcome(closed, None)
    case AckLost => Outcome(closed, Some(Database))
    case Aborted => Outcome(db, Some(Database))
  }

  function CreateTx(db: Db, o: Order, eventId: Uuid, ending: Ending): Outcome {
    if o.id in db.orders || !Storable(o.amount) || o.status.Unknown? || !Distinct(o.performers)
    then Outcome(db, Some(Database))
    else
      var row := o.(amount := Settle(o.amount), updatedBy := o.createdBy, version := 1, performers := []);
      Close(
        db,
        db.(orders := db.orders[o.id := row], performers := db.performers[o.id := InsertAll(o.performers)]),
        Entry(o.id, o.createdBy, OrderCreated, map[]),
        eventId, NO_KEYS.(performerIds := Ids(o.performers)), ending)
  }

  /** The row after UPDATE orders SET ... version=version+1. */
  function Overwrite(row: Order, o: Order): Order {
    row.(date := o.date, location := o.location, amount := Settle(o.amount), name := o.name, phone := o.phone,
         contact := o.contact, comment := o.comment, updatedBy := o.updatedBy, version := row.version + 1)
  }

  predicate VersionMatches(db: Db, o: Order) {
    o.id in db.orders && db.orders[o.id].version == o.version
  }

  function UpdateTx(db: Db, o: Order, changes: map<Field, Change>, eventId: Uuid, ending: Ending): Outcome {
    if !VersionMatches(db, o) then Outcome(db, Some(Conflict))
    else if !Storable(o.amount) then Outcome(db, Some(Database))
    else
      Close(
        db,
        db.(orders := db.orders[o.id := Overwrite(db.orders[o.id], o)]),
        Entry(o.id, o.updatedBy, OrderUpdated, changes),
        eventId, ReadPerformers(o.performers), ending)
  }

  function StatusTx(db: Db, o: Order, next: Status, eventId: Uuid, ending: Ending): Outcome {
    if !VersionMatches(db, o) then Outcome(db, Some(Conflict))
    else if next.Unknown? then Outcome(db, Some(Database))
    else
      var row := db.orders[o.id];
      Close(
        db,
        db.(orders := db.orders[o.id := row.(status := next, updatedBy := o.updatedBy, version := row.version + 1)]),
        Entry(o.id, o.updatedBy, StatusChanged, map[StatusField := Change(StatusOf(o.status), StatusOf(next))]),
        eventId, ReadPerformers(o.performers), ending)
  }

  /** PRIMARY KEY and FOREIGN KEY of order_performers refuse a repeated row and an unknown order. */
  function AssignTx(db: Db, o: Order, p: Uuid, add: bool, eventId: Uuid, ending: Ending): Outcome {
    var ps := PerformersOf(db, o.id);
    if add && (p in ps || o.id !in db.orders) then Outcome(db, Some(Database))
    else if !add && p !in ps then Outcome(db, Some(NotFound))
    else
      Close(
        db,
        db.(performers := db.performers[o.id := if add then Insert(ps, p) else Remove(ps, p)]),
        Entry(o.id, o.updatedBy, if add then PerformerAssigned else PerformerUnassigned,
              map[PerformerField := Change(Text(""), Ref(p))]),
        eventId, NO_KEYS.(performerId := Id(p)), ending)
  }

  // ---------- Operations: the service, with its read taken from an earlier state ----------

  function Differs(f: Field, a: Value, b: Value): map<Field, Change> {
    if a == b then map[] else map[f := Change(a, b)]
  }

  /** The changes of an update: location, amount (as text) and comment where they differ. */
  function Changes(current: Order, o: Order): map<Field, Change> {
    Differs(Location, Text(current.location), Text(o.location))
    + (if current.amount.text == o.amount.text then map[]
        else map[AmountField := Change(Sum(current.amount), Sum(o.amount))])
    + Differs(Comment, Text(current.comment), Text(o.comment))
  }

  function CreateOp(db: Db, o: Order, active: set<Uuid>, eventId: Uuid, ending: Ending): Outcome {
    if !Valid(o) || exists i :: 0 <= i < |o.performers| && o.performers[i] !in active then Outcome(db, Some(Validation))
    else CreateTx(db, o.(status := Planned), eventId, ending)
  }

  function UpdateOp(read: Db, db: Db, o: Order, eventId: Uuid, ending: Ending): Outcome {
    match Get(read, o.id)
    case None => Outcome(db, Some(NotFound))
    case Some(current) =>
      if !Valid(o) || o.version < 1 then Outcome(db, Some(Validation))
      else UpdateTx(db, o.(performers := current.performers), Changes(current, o), eventId, ending)
  }

  function StatusOp(read: Db, db: Db, id: Uuid, actor: Uuid, version: int, next: Status, eventId: Uuid,
      ending: Ending): Outcome {
    match Get(read, id)
    case None => Outcome(db, Some(NotFound))
    case Some(o) =>
      if !CanTransition(o.status, next) || version != o.version then Outcome(db, Some(Conflict))
      else StatusTx(db, o.(updatedBy := actor), next, eventId, ending)
  }

  function AssignOp(read: Db, db: Db, id: Uuid, actor: Uuid, p: Uuid, add: bool, active: bool, eventId: Uuid,
      ending: Ending): Outcome {
    match Get(read, id)
    case None => Outcome(db, Some(NotFound))
    case Some(o) =>
      if add && !active then Outcome(db, Some(Validation))
      else AssignTx(db, o.(updatedBy := actor), p, add, eventId, ending)
  }

  // ---------- Runs of many clients ----------

  /** `read` is the place in the run of the state that the operation's own Get saw. */
  datatype Op =
    | Create(order: Order, active: set<Uuid>, eventId: Uuid, ending: Ending)
    | Update(request: Order, read: nat, eventId: Uuid, ending: Ending)
    | ChangeStatus(id: Uuid, actor: Uuid, version: int, next: Status, read: nat, eventId: Uuid, ending: Ending)
    | Assign(id: Uuid, actor: Uuid, performer: Uuid, add: bool, isActive: bool, read: nat, eventId: Uuid,
        ending: Ending)

  function Last(trail: seq<Db>): Db
    requires trail != []
  {
    trail[|trail| - 1]
  }

  function ReadAt(trail: seq<Db>, i: nat): Db
    requires trail != []
  {
    if i < |trail| then trail[i] else Last(trail)
  }

  function Apply(trail: seq<Db>, op: Op): Outcome
    requires trail != []
  {
    var db := Last(trail);
    match op
    case Create(o, active, e, ending) => CreateOp(db, o, active, e, ending)
    case Update(o, read, e, ending) => UpdateOp(ReadAt(trail, read), db, o, e, ending)
    case ChangeStatus(id, actor, version, next, read, e, ending) =>
      StatusOp(ReadAt(trail, read), db, id, actor, version, next, e, ending)
    case Assign(id, actor, p, add, active, read, e, ending) =>
      AssignOp(ReadAt(trail, read), db, id, actor, p, add, active, e, ending)
  }

  /** Every state the database goes through under a sequence of operations. */
  function Trail(ops: seq<Op>): (trail: seq<Db>)
    ensures |trail| == |ops| + 1
  {
    if ops == [] then [EMPTY]
    else
      var earlier := Trail(ops[..|ops| - 1]);
      earlier + [Apply(earlier, ops[|ops| - 1]).db]
  }

  lemma {:induction false} TrailOfPart(ops: seq<Op>, n: nat)
    requires n <= |ops|
    ensures Trail(ops[..n]) == Trail(ops)[..n + 1]
  {
    if n == |ops| {
      assert ops[..n] == ops;
    } else {
      var init := ops[..|ops| - 1];
      TrailOfPart(init, n);
      assert init[..n] == ops[..n];
    }
  }

  lemma TrailStep(ops: seq<Op>, n: nat)
    requires n < |ops|
    ensures Trail(ops)[n + 1] == Apply(Trail(ops)[..n + 1], ops[n]).db
  {
    hide Apply;
    TrailOfPart(ops, n);
    TrailOfPart(ops, n + 1);
    assert ops[..n + 1][..n] == ops[..n];
  }
}

