/**
 * internal/order/repository/postgres.go and internal/order/app/service.go over mutable tables,
 * proved against the transactions and operations of Orders.
 */
module OrderService {
  import opened Prelude
  import opened Events
  import opened Money
  import opened Orders

  class Repository {
    var orders: map<Uuid, Order>
    var performers: map<Uuid, seq<Uuid>>
    var history: seq<Entry>
    var outbox: seq<Envelope>

    constructor ()
      ensures Tables() == EMPTY
    {
      orders, performers, history, outbox := map[], map[], [], [];
    }

    function Tables(): Db
      reads this
    {
      Db(orders, performers, history, outbox)
    }

    /** Other clients commit: the tables become those of any later moment. */
    method Become(db: Db)
      modifies this
      ensures Tables() == db
    {
      orders, performers, history, outbox := db.orders, db.performers, db.history, db.outbox;
    }

    method Read(id: Uuid) returns (r: Option<Order>)
      ensures r == Get(Tables(), id)
    {
      if id !in orders {
        return None;
      }
      var o := orders[id];
      var rows: seq<Uuid> := [];
      var stored := PerformersOf(Tables(), id);
      for i := 0 to |stored|
        invariant rows == stored[..i]
      {
        rows := rows + [stored[i]];
      }
      assert rows == stored;
      r := Some(o.(performers := rows));
    }

    /** The end of `tx`: the history row, the outbox row, then the commit; `start` is what a rollback restores. */
    method Finish(start: Db, entry: Entry, eventId: Uuid, data: Data, ending: Ending) returns (error: Option<Error>)
      modifies this
      ensures Outcome(Tables(), error) == Close(start, old(Tables()).(history := start.history, outbox := start.outbox),
          entry, eventId, data, ending)
    {
      history := start.history + [entry];
      outbox := start.outbox + [Envelope(eventId, TypeOf(entry.action), entry.order, data)];
      if ending.Aborted? {
        Become(start);
      }
      error := if ending.Committed? then None else Some(Database);
    }

    method Create(o: Order, eventId: Uuid, ending: Ending) returns (error: Option<Error>)
      modifies this
      ensures Outcome(Tables(), error) == CreateTx(old(Tables()), o, eventId, ending)
    {
      var start := Tables();
      if o.id in orders || !Storable(o.amount) || o.status.Unknown? {
        return Some(Database);
      }
      orders := orders[o.id := o.(amount := Settle(o.amount), updatedBy := o.createdBy, version := 1,
          performers := [])];
      var rows, inserted := InsertPerformers(o.performers);
      if !inserted {
        Become(start);
        return Some(Database);
      }
      performers := performers[o.id := rows];
      error := Finish(start, Entry(o.id, o.createdBy, OrderCreated, map[]), eventId,
          NO_KEYS.(performerIds := Ids(o.performers)), ending);
    }

    /** The INSERTs into order_performers; the primary key refuses a repeated row. */
    static method InsertPerformers(ids: seq<Uuid>) returns (rows: seq<Uuid>, inserted: bool)
      ensures inserted <==> Distinct(ids)
      ensures inserted ==> rows == InsertAll(ids)
    {
      hide Insert;
      rows := [];
      for i := 0 to |ids|
        invariant rows == InsertAll(ids[..i]) && Distinct(ids[..i])
      {
        assert ids[..i + 1][..i] == ids[..i];
        if ids[i] in rows {
          var k :| 0 <= k < i && ids[..i][k] == ids[i];
          assert ids[k] == ids[i];
          return rows, false;
        }
        rows := Insert(rows, ids[i]);
      }
      assert ids[..|ids|] == ids;
      inserted := true;
    }

    method Update(o: Order, changes: map<Field, Change>, eventId: Uuid, ending: Ending) returns (error: Option<Error>)
      modifies this
      ensures Outcome(Tables(), error) == UpdateTx(old(Tables()), o, changes, eventId, ending)
    {
      var start := Tables();
      if o.id !in orders || orders[o.id].version != o.version {
        return Some(Conflict);
      }
      if !Storable(o.amount) {
        return Some(Database);
      }
      orders := orders[o.id := Overwrite(orders[o.id], o)];
      error := Finish(start, Entry(o.id, o.updatedBy, OrderUpdated, changes), eventId, ReadPerformers(o.performers),
          ending);
    }

    method Status(o: Order, next: Orders.Status, eventId: Uuid, ending: Ending) returns (error: Option<Error>)
      modifies this
      ensures Outcome(Tables(), error) == StatusTx(old(Tables()), o, next, eventId, ending)
    {
      var start := Tables();
      if o.id !in orders || orders[o.id].version != o.version {
        return Some(Conflict);
      }
      if next.Unknown? {
        return Some(Database);
      }
      var row := orders[o.id];
      orders := orders[o.id := row.(status := next, updatedBy := o.updatedBy, version := row.version + 1)];
      var changes := map[StatusField := Change(StatusOf(o.status), StatusOf(next))];
      error := Finish(start, Entry(o.id, o.updatedBy, StatusChanged, changes), eventId, ReadPerformers(o.performers),
          ending);
    }

    method Assign(o: Order, p: Uuid, add: bool, eventId: Uuid, ending: Ending) returns (error: Option<Error>)
      modifies this
      ensures Outcome(Tables(), error) == AssignTx(old(Tables()), o, p, add, eventId, ending)
    {
      var start := Tables();
      var action := if add then PerformerAssigned else PerformerUnassigned;
      var rows := PerformersOf(start, o.id);
      if add {
        if p in rows || o.id !in orders {
          return Some(Database);
        }
        performers := performers[o.id := Insert(rows, p)];
      } else {
        if p !in rows {
          return Some(NotFound);
        }
        performers := performers[o.id := Remove(rows, p)];
      }
      error := Finish(start, Entry(o.id, o.updatedBy, action, map[PerformerField := Change(Text(""), Ref(p))]),
                      eventId, NO_KEYS.(performerId := Id(p)), ending);
    }
  }

  /** The text a field is compared by. */
  function Written(v: Value): string {
    match v
    case Text(t) => t
    case Sum(a) => a.text
    case StatusOf(_) => ""
    case Ref(_) => ""
  }

  function ChangesOf(fields: seq<(Field, Value, Value)>): map<Field, Change> {
    if fields == [] then map[]
    else
      var (f, a, b) := fields[|fields| - 1];
      var earlier := ChangesOf(fields[..|fields| - 1]);
      if Written(a) != Written(b) then earlier[f := Change(a, b)] else earlier
  }

  function Compared(current: Order, o: Order): seq<(Field, Value, Value)> {
    [(Location, Text(current.location), Text(o.location)),
     (AmountField, Sum(current.amount), Sum(o.amount)),
     (Comment, Text(current.comment), Text(o.comment))]
  }

  lemma ChangesOfCompared(current: Order, o: Order)
    ensures ChangesOf(Compared(current, o)) == Changes(current, o)
  {
    var fields := Compared(current, o);
    assert fields[..2] == [fields[0], fields[1]];
    assert fields[..2][..1] == [fields[0]];
    assert fields[..2][..1][..0] == [];
    assert ChangesOf(fields[..2][..1]) == Differs(Location, Text(current.location), Text(o.location));
  }

  /** Rows stand under their own id, as they do in every run. */
  predicate UnderOwnId(orders: map<Uuid, Order>) {
    forall id :: id in orders ==> orders[id].id == id
  }

  /**
   * The service. Each operation reads, checks, lets other clients run (`later` is what they leave
   * the tables as) and then writes; with no other client `later` is the state it read.
   */
  class Service {
    const store: Repository

    constructor (store: Repository)
      ensures this.store == store
    {
      this.store := store;
    }

    method Create(o: Order, active: set<Uuid>, later: Db, eventId: Uuid, ending: Ending) returns (error: Option<Error>)
      modifies store
      ensures Outcome(store.Tables(), error) == CreateOp(later, o, active, eventId, ending)
      ensures error.None? ==> o.id !in later.orders && o.id in store.orders
                              && store.orders[o.id].status == Planned && store.orders[o.id].version == 1
                              && forall p :: p in o.performers ==> p in active
    {
      store.Become(later);
      if !Valid(o) {
        return Some(Validation);
      }
      for i := 0 to |o.performers|
        invariant forall k :: 0 <= k < i ==> o.performers[k] in active
        invariant store.Tables() == later
      {
        if o.performers[i] !in active {
          return Some(Validation);
        }
      }
      error := store.Create(o.(status := Planned), eventId, ending);
    }

    method Update(o: Order, later: Db, eventId: Uuid, ending: Ending)
        returns (error: Option<Error>, result: Option<Order>)
      modifies store
      ensures Outcome(store.Tables(), error) == UpdateOp(old(store.Tables()), later, o, eventId, ending)
      ensures error.None? ==> result == Get(store.Tables(), o.id)
      ensures error.None? ==> result.Some? && result.value.version == o.version + 1 && result.value.date == o.date
                              && result.value.location == o.location && result.value.name == o.name
                              && result.value.phone == o.phone && result.value.contact == o.contact
                              && result.value.comment == o.comment && result.value.updatedBy == o.updatedBy
    {
      var current := store.Read(o.id);
      result := current;
      store.Become(later);
      if current.None? {
        return Some(NotFound), result;
      }
      if !Valid(o) || o.version < 1 {
        return Some(Validation), result;
      }
      var request := o.(performers := current.value.performers);
      var changes: map<Field, Change> := map[];
      var fields := Compared(current.value, request);
      for i := 0 to |fields|
        invariant changes == ChangesOf(fields[..i])
        invariant store.Tables() == later
      {
        assert fields[..i + 1][..i] == fields[..i];
        var (f, a, b) := fields[i];
        if Written(a) != Written(b) {
          changes := changes[f := Change(a, b)];
        }
      }
      assert fields[..|fields|] == fields;
      ChangesOfCompared(current.value, request);
      assert Changes(current.value, request) == Changes(current.value, o);
      error := store.Update(request, changes, eventId, ending);
      if error.None? {
        result := store.Read(o.id);
      }
    }

    method ChangeStatus(id: Uuid, actor: Uuid, version: int, next: Orders.Status, later: Db, eventId: Uuid,
        ending: Ending)
      returns (error: Option<Error>, result: Option<Order>)
      modifies store
      ensures Outcome(store.Tables(), error)
          == StatusOp(old(store.Tables()), later, id, actor, version, next, eventId, ending)
      ensures error.None? ==> result == Get(store.Tables(), id)
      ensures error.None? && UnderOwnId(old(store.orders)) ==>
                && result.Some? && result.value.status == next
                && result.value.updatedBy == actor && result.value.version == version + 1
    {
      result := store.Read(id);
      store.Become(later);
      if result.None? {
        return Some(NotFound), result;
      }
      if !CanTransition(result.value.status, next) || version != result.value.version {
        return Some(Conflict), result;
      }
      error := store.Status(result.value.(updatedBy := actor), next, eventId, ending);
      if error.None? {
        result := store.Read(id);
      }
    }

    method Assign(id: Uuid, actor: Uuid, p: Uuid, add: bool, active: bool, later: Db, eventId: Uuid, ending: Ending)
      returns (error: Option<Error>, result: Option<Order>)
      modifies store
      ensures Outcome(store.Tables(), error)
          == AssignOp(old(store.Tables()), later, id, actor, p, add, active, eventId, ending)
      ensures error.None? ==> result == Get(store.Tables(), id)
      ensures error.None? && UnderOwnId(old(store.orders)) && UnderOwnId(later.orders) ==>
                && (add ==> active) && (result.Some? ==> (p in result.value.performers <==> add))
    {
      result := store.Read(id);
      store.Become(later);
      if result.None? {
        return Some(NotFound), result;
      }
      if add && !active {
        return Some(Validation), result;
      }
      error := store.Assign(result.value.(updatedBy := actor), p, add, eventId, ending);
      if error.None? {
        result := store.Read(id);
      }
    }
  }
}

