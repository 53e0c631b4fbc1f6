/**
 * What each order operation does, stated over runs in terms of its request alone: when it takes
 * effect and which rows it leaves. From this follows where every cell of an order comes from.
 */
module OrderEffects {
  import opened Prelude
  import opened Events
  import opened Calendar
  import opened Money
  import opened Orders
  import opened OrderGuarantees
  import opened OrderAudience

  ghost predicate TakesEffect(ops: seq<Op>, n: nat) {
    n < |ops| && Trail(ops)[n + 1] != Trail(ops)[n]
  }

  predicate Filled(text: string) {
    exists i :: 0 <= i < |text| && !IsSpace(text[i])
  }

  /** A date, a place, a customer and a positive amount. */
  predicate Complete(o: Order) {
    o.date != ZERO_TIME && Filled(o.location) && Filled(o.name) && o.amount.positive
  }

  predicate Fits(a: Amount) {
    a.cents.Some? && a.cents.value > 0
  }

  /** The rows of other orders, and their performers, are as they were. */
  ghost predicate OthersStay(a: Db, b: Db, id: Uuid) {
    && (forall k :: k != id ==> (k in b.orders <==> k in a.orders))
    && (forall k :: k != id && k in a.orders ==> b.orders[k] == a.orders[k])
    && (forall k :: k != id ==> PerformersOf(b, k) == PerformersOf(a, k))
  }

  lemma CompleteIsValid(o: Order)
    ensures Complete(o) <==> Valid(o)
  {
  }

  // ---------- One operation on its two states ----------

  ghost predicate CreateGoes(db: Db, o: Order, active: set<Uuid>, ending: Ending) {
    && Complete(o) && Fits(o.amount) && o.id !in db.orders && ending.Durable()
    && Distinct(o.performers) && forall p :: p in o.performers ==> p in active
  }

  lemma CreateActs(db: Db, o: Order, active: set<Uuid>, eventId: Uuid, ending: Ending)
    ensures var t := CreateOp(db, o, active, eventId, ending).db;
            && (t != db <==> CreateGoes(db, o, active, ending))
            && (t != db ==>
                  && Fits(o.amount) && OthersStay(db, t, o.id) && o.id in t.orders
                  && t.orders[o.id] == o.(amount := Stored(o.amount.cents.value), status := Planned,
                       updatedBy := o.createdBy, version := 1, performers := [])
                  && (forall p :: p in PerformersOf(t, o.id) <==> p in o.performers)
                  && t.history == db.history + [Entry(o.id, o.createdBy, OrderCreated, map[])])
  {
    hide Valid, Complete, InsertAll;
    CompleteIsValid(o);
    var t := CreateOp(db, o, active, eventId, ending).db;
    CompleteIsValid(o.(status := Planned));
    if CreateGoes(db, o, active, ending) {
      assert forall i :: 0 <= i < |o.performers| ==> o.performers[i] in active;
      assert |t.history| == |db.history| + 1;
    }
  }

  lemma UpdateActs(read: Db, db: Db, o: Order, eventId: Uuid, ending: Ending)
    ensures var t := UpdateOp(read, db, o, eventId, ending).db;
            && (t != db <==> && o.id in read.orders && Complete(o) && Fits(o.amount) && ending.Durable()
                             && o.id in db.orders && db.orders[o.id].version == o.version >= 1)
            && (t != db ==>
                  && Fits(o.amount) && o.id in db.orders && t.performers == db.performers
                  && t.orders == db.orders[o.id := db.orders[o.id].(date := o.date, location := o.location,
                       amount := Stored(o.amount.cents.value), name := o.name, phone := o.phone, contact := o.contact,
                       comment := o.comment, updatedBy := o.updatedBy, version := o.version + 1)])
  {
    hide Valid, Complete, Changes;
    CompleteIsValid(o);
    var t := UpdateOp(read, db, o, eventId, ending).db;
    if o.id in read.orders && Complete(o) && Fits(o.amount) && ending.Durable()
       && o.id in db.orders && db.orders[o.id].version == o.version >= 1 {
      assert |t.history| == |db.history| + 1;
    }
  }

  lemma StatusActs(read: Db, db: Db, id: Uuid, actor: Uuid, version: int, next: Status, eventId: Uuid, ending: Ending)
    requires id in read.orders ==> read.orders[id].id == id
    ensures var t := StatusOp(read, db, id, actor, version, next, eventId, ending).db;
            && (t != db <==> && id in read.orders && read.orders[id].status == Planned
                             && read.orders[id].version == version && (next == Completed || next == Cancelled)
                             && id in db.orders && db.orders[id].version == version && ending.Durable())
            && (t != db ==>
                  && id in db.orders && t.performers == db.performers
                  && t.orders
                     == db.orders[id := db.orders[id].(status := next, updatedBy := actor, version := version + 1)]
                  && t.history == db.history
                     + [Entry(id, actor, StatusChanged, map[StatusField := Change(StatusOf(Planned), StatusOf(next))])])
  {
    var t := StatusOp(read, db, id, actor, version, next, eventId, ending).db;
    if id in read.orders && read.orders[id].status == Planned
       && read.orders[id].version == version && (next == Completed || next == Cancelled)
       && id in db.orders && db.orders[id].version == version && ending.Durable() {
      assert |t.history| == |db.history| + 1;
    }
  }

  lemma AssignActs(read: Db, db: Db, id: Uuid, actor: Uuid, p: Uuid, add: bool, active: bool, eventId: Uuid,
      ending: Ending)
    requires id in read.orders ==> read.orders[id].id == id && id in db.orders
    ensures var t := AssignOp(read, db, id, actor, p, add, active, eventId, ending).db;
            && (t != db <==> && id in read.orders && ending.Durable()
                             && (if add then active && p !in PerformersOf(db, id) else p in PerformersOf(db, id)))
            && (t != db ==>
                  && t.orders == db.orders && OthersStay(db, t, id)
                  && (p in PerformersOf(t, id) <==> add)
                  && (forall q :: q != p ==> (q in PerformersOf(t, id) <==> q in PerformersOf(db, id)))
                  && t.history == db.history + [Entry(id, actor, if add then PerformerAssigned else PerformerUnassigned,
                       map[PerformerField := Change(Text(""), Ref(p))])])
  {
    hide Insert, Remove;
    var t := AssignOp(read, db, id, actor, p, add, active, eventId, ending).db;
    if id in read.orders && ending.Durable()
       && (if add then active && p !in PerformersOf(db, id) else p in PerformersOf(db, id)) {
      assert |t.history| == |db.history| + 1;
    }
  }

  // ---------- The operations of a run ----------

  lemma ReadIsKept(ops: seq<Op>, n: nat, id: Uuid)
    requires n < |ops| && !ops[n].Create? && id in Trail(ops)[ReadIndex(ops[n], n)].orders
    ensures Trail(ops)[ReadIndex(ops[n], n)].orders[id].id == id
    ensures id in Trail(ops)[n].orders
    ensures Trail(ops)[ReadIndex(ops[n], n)].orders[id].version >= 1
  {
    hide Trail;
    RowAt(ops, ReadIndex(ops[n], n), id);
    ExtendsAt(ops, ReadIndex(ops[n], n), n);
  }

  lemma VersionIsPositive(ops: seq<Op>, n: nat, id: Uuid)
    requires n <= |ops| && id in Trail(ops)[n].orders
    ensures Trail(ops)[n].orders[id].version >= 1
  {
    hide Trail;
    RowAt(ops, n, id);
  }

  /** When a new order is stored. */
  lemma CreateTakesEffectIff(ops: seq<Op>, n: nat)
    requires n < |ops| && ops[n].Create?
    ensures var o := ops[n].order;
            TakesEffect(ops, n)
            <==> && Complete(o) && Fits(o.amount) && o.id !in Trail(ops)[n].orders && ops[n].ending.Durable()
                 && Distinct(o.performers) && forall p :: p in o.performers ==> p in ops[n].active
  {
    hide Trail, CreateOp, Complete;
    StepAt(ops, n);
    CreateActs(Trail(ops)[n], ops[n].order, ops[n].active, ops[n].eventId, ops[n].ending);
  }

  /** What is then stored: the request as a PLANNED order at version 1 with the performers it names. */
  lemma CreateStores(ops: seq<Op>, n: nat)
    requires TakesEffect(ops, n) && ops[n].Create?
    ensures var a, b, o := Trail(ops)[n], Trail(ops)[n + 1], ops[n].order;
            && Fits(o.amount) && OthersStay(a, b, o.id) && o.id in b.orders
            && b.orders[o.id] == o.(amount := Stored(o.amount.cents.value), status := Planned,
                 updatedBy := o.createdBy, version := 1, performers := [])
            && (forall p :: p in PerformersOf(b, o.id) <==> p in o.performers)
            && b.history == a.history + [Entry(o.id, o.createdBy, OrderCreated, map[])]
  {
    hide Trail, CreateOp, OthersStay, Complete;
    StepAt(ops, n);
    CreateActs(Trail(ops)[n], ops[n].order, ops[n].active, ops[n].eventId, ops[n].ending);
  }

  /** When an update is stored: whatever row the service read, it is the version at the commit that decides. */
  lemma UpdateTakesEffectIff(ops: seq<Op>, n: nat)
    requires n < |ops| && ops[n].Update?
    ensures var o := ops[n].request;
            TakesEffect(ops, n)
            <==> && o.id in Trail(ops)[ReadIndex(ops[n], n)].orders && Complete(o) && Fits(o.amount)
                 && ops[n].ending.Durable()
                 && o.id in Trail(ops)[n].orders && Trail(ops)[n].orders[o.id].version == o.version
  {
    hide Trail, UpdateOp, Complete;
    StepAt(ops, n);
    var o := ops[n].request;
    UpdateActs(Trail(ops)[ReadIndex(ops[n], n)], Trail(ops)[n], o, ops[n].eventId, ops[n].ending);
    if o.id in Trail(ops)[n].orders {
      VersionIsPositive(ops, n, o.id);
    }
  }

  /** What it then stores: seven fields of the request, its author and the next version, in that row alone. */
  lemma UpdateStores(ops: seq<Op>, n: nat)
    requires TakesEffect(ops, n) && ops[n].Update?
    ensures var a, b, o := Trail(ops)[n], Trail(ops)[n + 1], ops[n].request;
            && Fits(o.amount) && o.id in a.orders && b.performers == a.performers
            && b.orders == a.orders[o.id := a.orders[o.id].(date := o.date, location := o.location,
                 amount := Stored(o.amount.cents.value), name := o.name, phone := o.phone, contact := o.contact,
                 comment := o.comment, updatedBy := o.updatedBy, version := o.version + 1)]
  {
    hide Trail, UpdateOp, Complete;
    StepAt(ops, n);
    UpdateActs(Trail(ops)[ReadIndex(ops[n], n)], Trail(ops)[n], ops[n].request, ops[n].eventId, ops[n].ending);
  }

  /** When a status change is stored. */
  lemma StatusTakesEffectIff(ops: seq<Op>, n: nat)
    requires n < |ops| && ops[n].ChangeStatus?
    ensures var op := ops[n];
            var read, a := Trail(ops)[ReadIndex(op, n)], Trail(ops)[n];
            TakesEffect(ops, n)
            <==> && op.id in read.orders && read.orders[op.id].status == Planned
                 && read.orders[op.id].version == op.version && (op.next == Completed || op.next == Cancelled)
                 && op.id in a.orders && a.orders[op.id].version == op.version && op.ending.Durable()
  {
    hide Trail, StatusOp;
    StepAt(ops, n);
    var op, read := ops[n], Trail(ops)[ReadIndex(ops[n], n)];
    if op.id in read.orders {
      ReadIsKept(ops, n, op.id);
    }
    StatusActs(read, Trail(ops)[n], op.id, op.actor, op.version, op.next, op.eventId, op.ending);
  }

  /** What it then stores: the status asked for, in a row that was PLANNED, and that in the history. */
  lemma StatusStores(ops: seq<Op>, n: nat)
    requires TakesEffect(ops, n) && ops[n].ChangeStatus?
    ensures var a, b, op := Trail(ops)[n], Trail(ops)[n + 1], ops[n];
            && op.id in a.orders && a.orders[op.id].status == Planned && b.performers == a.performers
            && b.orders == a.orders[op.id := a.orders[op.id].(status := op.next, updatedBy := op.actor,
                 version := op.version + 1)]
            && b.history == a.history + [Entry(op.id, op.actor, StatusChanged,
                 map[StatusField := Change(StatusOf(Planned), StatusOf(op.next))])]
  {
    hide Trail, StatusOp;
    StepAt(ops, n);
    StatusTakesEffectIff(ops, n);
    var op, i := ops[n], ReadIndex(ops[n], n);
    ReadIsKept(ops, n, op.id);
    NoWriteSince(ops, i, n, op.id);
    StatusActs(Trail(ops)[i], Trail(ops)[n], op.id, op.actor, op.version, op.next, op.eventId, op.ending);
  }

  /** When a performer is assigned or removed: only an active one is assigned, only one who is there removed. */
  lemma AssignTakesEffectIff(ops: seq<Op>, n: nat)
    requires n < |ops| && ops[n].Assign?
    ensures var op := ops[n];
            TakesEffect(ops, n)
            <==> && op.id in Trail(ops)[ReadIndex(op, n)].orders && op.ending.Durable()
                 && (op.add ==> op.isActive && op.performer !in PerformersOf(Trail(ops)[n], op.id))
                 && (!op.add ==> op.performer in PerformersOf(Trail(ops)[n], op.id))
  {
    hide Trail, AssignOp;
    StepAt(ops, n);
    var op, read := ops[n], Trail(ops)[ReadIndex(ops[n], n)];
    if op.id in read.orders {
      ReadIsKept(ops, n, op.id);
    }
    AssignActs(read, Trail(ops)[n], op.id, op.actor, op.performer, op.add, op.isActive, op.eventId, op.ending);
  }

  /** What it then changes: this order gains or loses exactly this performer, and no row of an order moves. */
  lemma AssignStores(ops: seq<Op>, n: nat)
    requires TakesEffect(ops, n) && ops[n].Assign?
    ensures var a, b, op := Trail(ops)[n], Trail(ops)[n + 1], ops[n];
            && op.id in a.orders && b.orders == a.orders && OthersStay(a, b, op.id)
            && (op.performer in PerformersOf(b, op.id) <==> op.add)
            && (forall q :: q != op.performer ==> (q in PerformersOf(b, op.id) <==> q in PerformersOf(a, op.id)))
            && b.history == a.history + [Entry(op.id, op.actor,
                 if op.add then PerformerAssigned else PerformerUnassigned,
                 map[PerformerField := Change(Text(""), Ref(op.performer))])]
  {
    hide Trail, AssignOp, OthersStay;
    StepAt(ops, n);
    AssignTakesEffectIff(ops, n);
    var op, read := ops[n], Trail(ops)[ReadIndex(ops[n], n)];
    ReadIsKept(ops, n, op.id);
    AssignActs(read, Trail(ops)[n], op.id, op.actor, op.performer, op.add, op.isActive, op.eventId, op.ending);
  }

  // ---------- The event it emits ----------

  /** The event of an operation that takes effect; updates and status changes name the performers that were read. */
  function EventOf(ops: seq<Op>, n: nat): Envelope
    requires n < |ops|
  {
    match ops[n]
    case Create(o, _, e, _) =>
        Envelope(e, "order.created", o.id, Object(Absent, Absent, Absent, Ids(o.performers), Absent))
    case Update(o, _, e, _) =>
      var ps := PerformersOf(Trail(ops)[ReadIndex(ops[n], n)], o.id);
      Envelope(e, "order.updated", o.id, Object(Absent, Absent, Absent, if ps == [] then Null else Ids(ps), Absent))
    case ChangeStatus(id, _, _, _, _, e, _) =>
      var ps := PerformersOf(Trail(ops)[ReadIndex(ops[n], n)], id);
      Envelope(e, "order.status_changed", id,
          Object(Absent, Absent, Absent, if ps == [] then Null else Ids(ps), Absent))
    case Assign(id, _, p, add, _, _, e, _) =>
      Envelope(e, if add then "order.performer_assigned" else "order.performer_unassigned", id,
               Object(Absent, Absent, Absent, Absent, Id(p)))
  }

  /** One more event and one more history row, or none of either. */
  ghost predicate Emits(a: Db, b: Db, e: Envelope) {
    && b.outbox == a.outbox + (if b != a then [e] else [])
    && |b.history| == |a.history| + (if b != a then 1 else 0)
  }

  lemma CreateEmits(db: Db, o: Order, active: set<Uuid>, e: Uuid, ending: Ending)
    ensures Emits(db, CreateOp(db, o, active, e, ending).db,
                  Envelope(e, "order.created", o.id, Object(Absent, Absent, Absent, Ids(o.performers), Absent)))
  {
    hide Valid, InsertAll;
  }

  lemma UpdateEmits(read: Db, db: Db, o: Order, e: Uuid, ending: Ending)
    ensures var ps := PerformersOf(read, o.id);
            Emits(db, UpdateOp(read, db, o, e, ending).db,
                  Envelope(e, "order.updated", o.id,
                    Object(Absent, Absent, Absent, if ps == [] then Null else Ids(ps), Absent)))
  {
    hide Valid, Changes;
  }

  lemma StatusEmits(read: Db, db: Db, id: Uuid, actor: Uuid, version: int, next: Status, e: Uuid, ending: Ending)
    requires id in read.orders ==> read.orders[id].id == id
    ensures var ps := PerformersOf(read, id);
            Emits(db, StatusOp(read, db, id, actor, version, next, e, ending).db,
                  Envelope(e, "order.status_changed", id,
                    Object(Absent, Absent, Absent, if ps == [] then Null else Ids(ps), Absent)))
  {
  }

  lemma AssignEmits(read: Db, db: Db, id: Uuid, actor: Uuid, p: Uuid, add: bool, active: bool, e: Uuid, ending: Ending)
    requires id in read.orders ==> read.orders[id].id == id
    ensures Emits(db, AssignOp(read, db, id, actor, p, add, active, e, ending).db,
                  Envelope(e, if add then "order.performer_assigned" else "order.performer_unassigned", id,
                    Object(Absent, Absent, Absent, Absent, Id(p))))
  {
    hide Insert, Remove;
  }

  /**
   * Each operation that takes effect appends exactly its event, beside its history row; a refused
   * one appends nothing.
   */
  lemma EventIsWritten(ops: seq<Op>, n: nat)
    requires n < |ops|
    ensures Emits(Trail(ops)[n], Trail(ops)[n + 1], EventOf(ops, n))
  {
    hide Trail, CreateOp, UpdateOp, StatusOp, AssignOp, Emits;
    StepAt(ops, n);
    if !ops[n].Create? && Acted(ops[n]) in Trail(ops)[ReadIndex(ops[n], n)].orders {
      ReadIsKept(ops, n, Acted(ops[n]));
    }
    var a := Trail(ops)[n];
    match ops[n]
    case Create(o, active, e, ending) => CreateEmits(a, o, active, e, ending);
    case Update(o, _, e, ending) => UpdateEmits(Trail(ops)[ReadIndex(ops[n], n)], a, o, e, ending);
    case ChangeStatus(id, actor, version, next, _, e, ending) =>
      StatusEmits(Trail(ops)[ReadIndex(ops[n], n)], a, id, actor, version, next, e, ending);
    case Assign(id, actor, p, add, active, _, e, ending) =>
      AssignEmits(Trail(ops)[ReadIndex(ops[n], n)], a, id, actor, p, add, active, e, ending);
  }

  // ---------- What the client is told ----------

  function AnswerTo(ops: seq<Op>, n: nat): Option<Error>
    requires n < |ops|
  {
    Apply(Trail(ops)[..n + 1], ops[n]).error
  }

  /** A reported success took effect; an error that took effect is a lost acknowledgement. */
  lemma SuccessIsTrue(ops: seq<Op>, n: nat)
    requires n < |ops|
    ensures AnswerTo(ops, n).None? <==> TakesEffect(ops, n) && ops[n].ending.Committed?
    ensures TakesEffect(ops, n) && AnswerTo(ops, n).Some? ==>
              AnswerTo(ops, n) == Some(Database) && ops[n].ending.AckLost?
  {
    hide Trail, Valid, Changes;
    TrailStep(ops, n);
    var db, t := Trail(ops)[n], Apply(Trail(ops)[..n + 1], ops[n]);
    assert Last(Trail(ops)[..n + 1]) == db;
    if t.error.None? {
      assert |t.db.history| == |db.history| + 1;
    }
  }

  lemma AnswerAt(ops: seq<Op>, n: nat)
    requires n < |ops|
    ensures var a := Trail(ops)[n];
            AnswerTo(ops, n) ==
            match ops[n]
            case Create(o, active, e, ending) => CreateOp(a, o, active, e, ending).error
            case Update(o, read, e, ending) => UpdateOp(Trail(ops)[ReadIndex(ops[n], n)], a, o, e, ending).error
            case ChangeStatus(id, actor, version, next, read, e, ending) =>
              StatusOp(Trail(ops)[ReadIndex(ops[n], n)], a, id, actor, version, next, e, ending).error
            case Assign(id, actor, p, add, active, read, e, ending) =>
              AssignOp(Trail(ops)[ReadIndex(ops[n], n)], a, id, actor, p, add, active, e, ending).error
  {
    hide Trail, CreateOp, UpdateOp, StatusOp, AssignOp;
  }

  lemma CreateAnswers(db: Db, o: Order, active: set<Uuid>, eventId: Uuid, ending: Ending)
    ensures var error := CreateOp(db, o, active, eventId, ending).error;
            && (error == Some(Validation) <==> !Complete(o) || exists p :: p in o.performers && p !in active)
            && error != Some(NotFound) && error != Some(Conflict)
  {
    hide Valid, Complete;
    CompleteIsValid(o);
  }

  lemma UpdateAnswers(read: Db, db: Db, o: Order, eventId: Uuid, ending: Ending)
    ensures var error := UpdateOp(read, db, o, eventId, ending).error;
            && (error == Some(NotFound) <==> o.id !in read.orders)
            && (error == Some(Validation) <==> o.id in read.orders && (!Complete(o) || o.version < 1))
            && (error == Some(Conflict) <==> && o.id in read.orders && Complete(o) && o.version >= 1
                                             && (o.id in db.orders ==> db.orders[o.id].version != o.version))
  {
    hide Valid, Complete, Changes;
    CompleteIsValid(o);
  }

  lemma StatusAnswers(read: Db, db: Db, id: Uuid, actor: Uuid, version: int, next: Status, eventId: Uuid,
      ending: Ending)
    requires id in read.orders ==> read.orders[id].id == id
    ensures var error := StatusOp(read, db, id, actor, version, next, eventId, ending).error;
            && (error == Some(NotFound) <==> id !in read.orders)
            && error != Some(Validation)
            && (error == Some(Conflict) <==>
                  id in read.orders
                  && !(read.orders[id].status == Planned && read.orders[id].version == version
                       && (next == Completed || next == Cancelled)
                       && id in db.orders && db.orders[id].version == version))
  {
  }

  lemma AssignAnswers(read: Db, db: Db, id: Uuid, actor: Uuid, p: Uuid, add: bool, active: bool, eventId: Uuid,
      ending: Ending)
    requires id in read.orders ==> read.orders[id].id == id
    ensures var error := AssignOp(read, db, id, actor, p, add, active, eventId, ending).error;
            && (error == Some(NotFound) <==> id !in read.orders || (!add && p !in PerformersOf(db, id)))
            && (error == Some(Validation) <==> id in read.orders && add && !active)
            && error != Some(Conflict)
  {
  }

  /**
   * Why a request is refused. NotFound: the order was not there at the read, or the performer to
   * remove is not there now. Validation: an incomplete order, a version no row has, or a performer to
   * add who is not active. Conflict: an update of a version that is not current, or a status change
   * out of another status than PLANNED, into PLANNED, or of a version that is not current.
   */
  lemma RefusalTells(ops: seq<Op>, n: nat)
    requires n < |ops|
    ensures var error, now := AnswerTo(ops, n), Trail(ops)[n];
            match ops[n]
            case Create(o, active, _, _) =>
              && (error == Some(Validation) <==> !Complete(o) || exists p :: p in o.performers && p !in active)
              && error != Some(NotFound) && error != Some(Conflict)
            case Update(o, _, _, _) =>
              var there := o.id in Trail(ops)[ReadIndex(ops[n], n)].orders;
              && (error == Some(NotFound) <==> !there)
              && (error == Some(Validation) <==> there && (!Complete(o) || o.version < 1))
              && (error == Some(Conflict) <==> && there && Complete(o) && o.version >= 1
                                               && (o.id in now.orders ==> now.orders[o.id].version != o.version))
            case ChangeStatus(id, _, version, next, _, _, _) =>
              var read := Trail(ops)[ReadIndex(ops[n], n)].orders;
              && (error == Some(NotFound) <==> id !in read)
              && error != Some(Validation)
              && (error == Some(Conflict) <==>
                    id in read
                    && !(read[id].status == Planned && read[id].version == version
                         && (next == Completed || next == Cancelled)
                         && id in now.orders && now.orders[id].version == version))
            case Assign(id, _, p, add, active, _, _, _) =>
              var there := id in Trail(ops)[ReadIndex(ops[n], n)].orders;
              && (error == Some(NotFound) <==> !there || (!add && p !in PerformersOf(now, id)))
              && (error == Some(Validation) <==> there && add && !active)
              && error != Some(Conflict)
  {
    hide Trail, CreateOp, UpdateOp, StatusOp, AssignOp, Complete, AnswerTo;
    AnswerAt(ops, n);
    if !ops[n].Create? && Acted(ops[n]) in Trail(ops)[ReadIndex(ops[n], n)].orders {
      ReadIsKept(ops, n, Acted(ops[n]));
    }
    var a := Trail(ops)[n];
    match ops[n]
    case Create(o, active, e, ending) => CreateAnswers(a, o, active, e, ending);
    case Update(o, _, e, ending) => UpdateAnswers(Trail(ops)[ReadIndex(ops[n], n)], a, o, e, ending);
    case ChangeStatus(id, actor, version, next, _, e, ending) =>
      StatusAnswers(Trail(ops)[ReadIndex(ops[n], n)], a, id, actor, version, next, e, ending);
    case Assign(id, actor, p, add, active, _, e, ending) =>
      AssignAnswers(Trail(ops)[ReadIndex(ops[n], n)], a, id, actor, p, add, active, e, ending);
  }

  // ---------- Where the cells of an order come from ----------

  datatype Column =
    | DateColumn | LocationColumn | AmountColumn | NameColumn | PhoneColumn | ContactColumn | CommentColumn
    | StatusColumn | CreatorColumn | EditorColumn

  datatype Cell =
    | DateCell(date: DateTime) | TextCell(text: string) | AmountCell(amount: Amount) | StatusCell(status: Status)
    | UserCell(user: Uuid)

  function CellOf(o: Order, c: Column): Cell {
    match c
    case DateColumn => DateCell(o.date)
    case LocationColumn => TextCell(o.location)
    case AmountColumn => AmountCell(o.amount)
    case NameColumn => TextCell(o.name)
    case PhoneColumn => TextCell(o.phone)
    case ContactColumn => TextCell(o.contact)
    case CommentColumn => TextCell(o.comment)
    case StatusColumn => StatusCell(o.status)
    case CreatorColumn => UserCell(o.createdBy)
    case EditorColumn => UserCell(o.updatedBy)
  }

  /** The amount column holds what the database made of the text. */
  function Kept(a: Amount): Amount {
    if a.cents.Some? then Stored(a.cents.value) else a
  }

  /** What an operation writes into a column of its order; None where it leaves the column alone. */
  function Given(op: Op, c: Column): Option<Cell> {
    match op
    case Create(o, _, _, _) =>
      (match c
       case AmountColumn => Some(AmountCell(Kept(o.amount)))
       case StatusColumn => Some(StatusCell(Planned))
       case EditorColumn => Some(UserCell(o.createdBy))
       case _ => Some(CellOf(o, c)))
    case Update(o, _, _, _) =>
      (match c
       case AmountColumn => Some(AmountCell(Kept(o.amount)))
       case StatusColumn => None
       case CreatorColumn => None
       case _ => Some(CellOf(o, c)))
    case ChangeStatus(_, actor, _, next, _, _, _) =>
      (match c
       case StatusColumn => Some(StatusCell(next))
       case EditorColumn => Some(UserCell(actor))
       case _ => None)
    case Assign(_, _, _, _, _, _, _, _) => None
  }

  ghost predicate Writes(ops: seq<Op>, n: nat, id: Uuid, c: Column) {
    TakesEffect(ops, n) && Acted(ops[n]) == id && Given(ops[n], c).Some?
  }

  lemma CreateGives(ops: seq<Op>, n: nat, c: Column)
    requires TakesEffect(ops, n) && ops[n].Create?
    ensures var a, b, id := Trail(ops)[n].orders, Trail(ops)[n + 1].orders, ops[n].order.id;
            && id in b && Given(ops[n], c) == Some(CellOf(b[id], c))
            && forall k :: k in b && k != id ==> k in a && a[k] == b[k]
  {
    hide Trail, Stored;
    CreateStores(ops, n);
  }

  lemma UpdateGives(ops: seq<Op>, n: nat, c: Column)
    requires TakesEffect(ops, n) && ops[n].Update?
    ensures var a, b, id := Trail(ops)[n].orders, Trail(ops)[n + 1].orders, ops[n].request.id;
            && id in a && id in b
            && Some(CellOf(b[id], c)) == (if Given(ops[n], c).Some? then Given(ops[n], c) else Some(CellOf(a[id], c)))
            && forall k :: k in b && k != id ==> k in a && a[k] == b[k]
  {
    hide Trail, Stored;
    UpdateStores(ops, n);
  }

  lemma StatusGives(ops: seq<Op>, n: nat, c: Column)
    requires TakesEffect(ops, n) && ops[n].ChangeStatus?
    ensures var a, b, id := Trail(ops)[n].orders, Trail(ops)[n + 1].orders, ops[n].id;
            && id in a && id in b
            && Some(CellOf(b[id], c)) == (if Given(ops[n], c).Some? then Given(ops[n], c) else Some(CellOf(a[id], c)))
            && forall k :: k in b && k != id ==> k in a && a[k] == b[k]
  {
    hide Trail;
    StatusStores(ops, n);
  }

  lemma AssignGives(ops: seq<Op>, n: nat, c: Column)
    requires TakesEffect(ops, n) && ops[n].Assign?
    ensures Given(ops[n], c) == None && Trail(ops)[n + 1].orders == Trail(ops)[n].orders
  {
    hide Trail;
    AssignStores(ops, n);
  }

  lemma StepWrites(ops: seq<Op>, n: nat, id: Uuid, c: Column)
    requires n < |ops| && id in Trail(ops)[n + 1].orders
    ensures Writes(ops, n, id, c) ==> Given(ops[n], c) == Some(CellOf(Trail(ops)[n + 1].orders[id], c))
    ensures !Writes(ops, n, id, c) ==>
              id in Trail(ops)[n].orders
                  && CellOf(Trail(ops)[n + 1].orders[id], c) == CellOf(Trail(ops)[n].orders[id], c)
  {
    hide Trail, CellOf, Given, OthersStay, Stored;
    if TakesEffect(ops, n) {
      match ops[n]
      case Create(_, _, _, _) => CreateGives(ops, n, c);
      case Update(_, _, _, _) => UpdateGives(ops, n, c);
      case ChangeStatus(_, _, _, _, _, _, _) => StatusGives(ops, n, c);
      case Assign(_, _, _, _, _, _, _, _) => AssignGives(ops, n, c);
    }
  }

  /** Of the operations before n, k was the last to write the column. */
  ghost predicate LastWrites(ops: seq<Op>, k: nat, n: nat, id: Uuid, c: Column) {
    k < n && Writes(ops, k, id, c) && forall j :: k < j < n ==> !Writes(ops, j, id, c)
  }

  /** In every state of every run each cell of an order is what the last operation to write it was asked to write. */
  lemma {:induction false} CellIsLastWritten(ops: seq<Op>, n: nat, id: Uuid, c: Column)
    requires n <= |ops| && id in Trail(ops)[n].orders
    ensures exists k: nat ::
        LastWrites(ops, k, n, id, c) && Given(ops[k], c) == Some(CellOf(Trail(ops)[n].orders[id], c))
    decreases n
  {
    hide Trail, Writes, Given;
    if n == 0 {
      FirstIsEmpty(ops);
    } else {
      StepWrites(ops, n - 1, id, c);
      if Writes(ops, n - 1, id, c) {
        assert LastWrites(ops, n - 1, n, id, c);
      } else {
        CellIsLastWritten(ops, n - 1, id, c);
        var k: nat :| LastWrites(ops, k, n - 1, id, c)
            && Given(ops[k], c) == Some(CellOf(Trail(ops)[n - 1].orders[id], c));
        assert LastWrites(ops, k, n, id, c);
      }
    }
  }

  // ---------- Where the performers of an order come from ----------

  /** Whether an operation puts p among the performers of an order or takes p away; None where it does neither. */
  function Puts(op: Op, id: Uuid, p: Uuid): Option<bool> {
    match op
    case Create(o, _, _, _) => if o.id == id then Some(p in o.performers) else None
    case Update(_, _, _, _) => None
    case ChangeStatus(_, _, _, _, _, _, _) => None
    case Assign(order, _, performer, add, _, _, _, _) => if order == id && performer == p then Some(add) else None
  }

  /** The user service called p an active performer when the operation asked. */
  predicate FoundActive(op: Op, p: Uuid) {
    match op
    case Create(_, active, _, _) => p in active
    case Update(_, _, _, _) => false
    case ChangeStatus(_, _, _, _, _, _, _) => false
    case Assign(_, _, performer, _, active, _, _, _) => performer == p && active
  }

  ghost predicate Moves(ops: seq<Op>, n: nat, id: Uuid, p: Uuid) {
    TakesEffect(ops, n) && Puts(ops[n], id, p).Some?
  }

  lemma StepMoves(ops: seq<Op>, n: nat, id: Uuid, p: Uuid)
    requires n < |ops|
    ensures Moves(ops, n, id, p) ==> Puts(ops[n], id, p) == Some(p in PerformersOf(Trail(ops)[n + 1], id))
    ensures Moves(ops, n, id, p) && p in PerformersOf(Trail(ops)[n + 1], id) ==> FoundActive(ops[n], p)
    ensures !Moves(ops, n, id, p)
        ==> (p in PerformersOf(Trail(ops)[n + 1], id) <==> p in PerformersOf(Trail(ops)[n], id))
  {
    hide Trail;
    if TakesEffect(ops, n) {
      match ops[n]
      case Create(_, _, _, _) =>
        CreateStores(ops, n);
        CreateTakesEffectIff(ops, n);
      case Update(_, _, _, _) => UpdateStores(ops, n);
      case ChangeStatus(_, _, _, _, _, _, _) => StatusStores(ops, n);
      case Assign(_, _, _, _, _, _, _, _) =>
        AssignStores(ops, n);
        AssignTakesEffectIff(ops, n);
    }
  }

  /** Of the operations before n, k was the last to put or take away this performer. */
  ghost predicate LastMoves(ops: seq<Op>, k: nat, n: nat, id: Uuid, p: Uuid) {
    k < n && Moves(ops, k, id, p) && forall j :: k < j < n ==> !Moves(ops, j, id, p)
  }

  /**
   * In every state of every run someone performs an order exactly when the last operation to say so
   * put them there, and for that operation they were an active performer.
   */
  lemma {:induction false} PerformsIffLastPut(ops: seq<Op>, n: nat, id: Uuid, p: Uuid)
    requires n <= |ops|
    ensures p in PerformersOf(Trail(ops)[n], id) <==>
              exists k: nat :: LastMoves(ops, k, n, id, p) && Puts(ops[k], id, p) == Some(true)
                  && FoundActive(ops[k], p)
    decreases n
  {
    hide Trail, Moves, Puts, FoundActive;
    if n == 0 {
      FirstIsEmpty(ops);
    } else {
      StepMoves(ops, n - 1, id, p);
      PerformsIffLastPut(ops, n - 1, id, p);
      if Moves(ops, n - 1, id, p) {
        assert LastMoves(ops, n - 1, n, id, p);
      } else {
        assert forall k: nat :: LastMoves(ops, k, n, id, p) <==> LastMoves(ops, k, n - 1, id, p);
      }
    }
  }
}
