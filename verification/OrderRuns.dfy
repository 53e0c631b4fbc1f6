/**
 * What one operation keeps and what every run of concurrent clients keeps: rows, versions, history,
 * outbox and performers that agree with each other.
 */
module OrderRuns {
  import opened Prelude
  import opened Events
  import opened Money
  import opened Orders
  import N = Notifications

  // ---------- Counting and folding ----------

  predicate IsBump(e: Entry, id: Uuid) {
    e.order == id && (e.action.OrderUpdated? || e.action.StatusChanged?)
  }

  /** The committed updates and status changes of an order. */
  function Bumps(h: seq<Entry>, id: Uuid): nat {
    if h == [] then 0 else Bumps(h[..|h| - 1], id) + if IsBump(h[|h| - 1], id) then 1 else 0
  }

  function StatusChanges(h: seq<Entry>, id: Uuid): nat {
    if h == [] then 0
    else StatusChanges(h[..|h| - 1], id) + if h[|h| - 1].order == id && h[|h| - 1].action.StatusChanged? then 1 else 0
  }

  /** The performers of an order after one more of its events. */
  function FoldEvent(ps: set<Uuid>, e: Envelope, id: Uuid): set<Uuid> {
    if e.aggregate != id || !e.data.Object? then ps
    else if e.eventType == TypeOf(OrderCreated) && e.data.performerIds.Ids? then set p | p in e.data.performerIds.ids
    else if e.eventType == TypeOf(PerformerAssigned) && e.data.performerId.Id? then ps + {e.data.performerId.id}
    else if e.eventType == TypeOf(PerformerUnassigned) && e.data.performerId.Id? then ps - {e.data.performerId.id}
    else ps
  }

  function FoldPerformers(outbox: seq<Envelope>, id: Uuid): set<Uuid> {
    if outbox == [] then {} else FoldEvent(FoldPerformers(outbox[..|outbox| - 1], id), outbox[|outbox| - 1], id)
  }

  // ---------- The invariant ----------

  ghost predicate Aligned(entry: Entry, event: Envelope) {
    && event.eventType == TypeOf(entry.action)
    && event.aggregate == entry.order
    && N.Named(event.data).Some?
  }

  ghost predicate GoodRow(row: Order, history: seq<Entry>, id: Uuid) {
    && row.id == id && row.performers == []
    && row.version == 1 + Bumps(history, id)
    && Storable(row.amount) && row.amount == Settle(row.amount)
    // terminal statuses are absorbing: one status change at most, out of PLANNED, to the status of the row
    && !row.status.Unknown?
    && StatusChanges(history, id) == (if row.status.Planned? then 0 else 1)
    && (forall i :: 0 <= i < |history| && history[i].order == id && history[i].action.StatusChanged? ==>
          history[i].changes == map[StatusField := Change(StatusOf(Planned), StatusOf(row.status))])
  }

  /** order_performers is what the events of the order fold to. */
  ghost predicate GoodPerformers(performers: map<Uuid, seq<Uuid>>, outbox: seq<Envelope>, id: Uuid) {
    && id in performers && Ascending(performers[id])
    && (set p | p in performers[id]) == FoldPerformers(outbox, id)
  }

  ghost predicate GoodOrder(db: Db, id: Uuid)
    requires id in db.orders
  {
    GoodRow(db.orders[id], db.history, id) && GoodPerformers(db.performers, db.outbox, id)
  }

  ghost predicate Good(db: Db) {
    && |db.history| == |db.outbox|
    && (forall i :: 0 <= i < |db.history| ==> Aligned(db.history[i], db.outbox[i]) && db.history[i].order in db.orders)
    && (forall id :: id in db.orders ==> GoodOrder(db, id))
    && (forall id :: id in db.performers ==> id in db.orders)
  }

  /** A later state: rows stay, versions do not fall, and an unchanged version is an unchanged row. */
  ghost predicate Extends(a: Db, b: Db) {
    && a.history <= b.history && a.outbox <= b.outbox
    && (forall id :: id in a.orders ==>
          && id in b.orders
          && a.orders[id].version <= b.orders[id].version
          && (a.orders[id].version == b.orders[id].version ==> a.orders[id] == b.orders[id]))
  }

  lemma {:induction false} NoEntries(h: seq<Entry>, id: Uuid)
    requires forall i :: 0 <= i < |h| ==> h[i].order != id
    ensures Bumps(h, id) == 0 && StatusChanges(h, id) == 0
  {
    if h != [] {
      NoEntries(h[..|h| - 1], id);
    }
  }

  lemma TypesDiffer(a: Action, b: Action)
    requires TypeOf(a) == TypeOf(b)
    ensures a == b
  {
    assert TypeOf(OrderCreated)[6] == 'c';
    assert TypeOf(OrderUpdated)[6] == 'u';
    assert TypeOf(StatusChanged)[6] == 's';
    assert |TypeOf(PerformerAssigned)| != |TypeOf(PerformerUnassigned)|;
    assert TypeOf(PerformerAssigned)[6] == TypeOf(PerformerUnassigned)[6] == 'p';
  }

  /** t is db after a transaction on order `id` that appended this history row and this event. */
  ghost predicate Closes(db: Db, t: Db, id: Uuid, entry: Entry, event: Envelope) {
    && t.history == db.history + [entry] && t.outbox == db.outbox + [event]
    && entry.order == id && Aligned(entry, event)
    && t.orders.Keys == db.orders.Keys + {id}
    && t.performers.Keys == db.performers.Keys + {id}
    && (forall k :: k in db.orders && k != id ==> t.orders[k] == db.orders[k])
    && (forall k :: k in db.performers && k != id ==> t.performers[k] == db.performers[k])
  }

  /** Such a transaction adds its own row to the counts and folds of each order. */
  lemma Counted(db: Db, t: Db, id: Uuid, entry: Entry, event: Envelope, k: Uuid)
    requires Closes(db, t, id, entry, event)
    ensures Bumps(t.history, k) == Bumps(db.history, k) + (if IsBump(entry, k) then 1 else 0)
    ensures StatusChanges(t.history, k) == StatusChanges(db.history, k)
        + (if id == k && entry.action.StatusChanged? then 1 else 0)
    ensures FoldPerformers(t.outbox, k) == FoldEvent(FoldPerformers(db.outbox, k), event, k)
  {
    assert t.history[..|t.history| - 1] == db.history;
    assert t.outbox[..|t.outbox| - 1] == db.outbox;
  }

  lemma OtherOrderStaysGood(db: Db, t: Db, id: Uuid, entry: Entry, event: Envelope, k: Uuid)
    requires Closes(db, t, id, entry, event)
    requires k != id && k in db.orders && GoodOrder(db, k)
    ensures GoodOrder(t, k)
  {
    hide Bumps, StatusChanges, FoldPerformers, Settle;
    Counted(db, t, id, entry, event, k);
    assert forall i ::
        0 <= i < |t.history| && t.history[i].order == k ==> i < |db.history| && t.history[i] == db.history[i];
  }

  lemma CloseKeepsGood(db: Db, t: Db, id: Uuid, entry: Entry, event: Envelope)
    requires Good(db) && Closes(db, t, id, entry, event) && GoodOrder(t, id)
    ensures Good(t)
  {
    hide GoodOrder, Aligned;
    forall k | k in t.orders
      ensures GoodOrder(t, k)
    {
      if k != id {
        OtherOrderStaysGood(db, t, id, entry, event, k);
      }
    }
    forall i | 0 <= i < |t.history|
      ensures Aligned(t.history[i], t.outbox[i]) && t.history[i].order in t.orders
    {
      if i < |db.history| {
        assert Aligned(db.history[i], db.outbox[i]) && db.history[i].order in db.orders;
      }
    }
  }

  lemma CloseExtends(db: Db, t: Db, id: Uuid, entry: Entry, event: Envelope)
    requires Closes(db, t, id, entry, event)
    requires id in db.orders ==> db.orders[id].version < t.orders[id].version || db.orders[id] == t.orders[id]
    ensures Extends(db, t)
  {
  }

  // Each transaction that changes the state closes it, and leaves its own order good.

  lemma CreateCloses(db: Db, o: Order, eventId: Uuid, ending: Ending)
    requires CreateTx(db, o, eventId, ending).db != db
    ensures var t := CreateTx(db, o, eventId, ending).db;
            |t.history| == |db.history| + 1 && |t.outbox| == |db.outbox| + 1
            && Closes(db, t, o.id, t.history[|db.history|], t.outbox[|db.outbox|])
  {
  }

  lemma CloseAppends(db: Db, t: Db, id: Uuid, entry: Entry, event: Envelope)
    requires Closes(db, t, id, entry, event)
    ensures t.history == db.history + [entry] && t.outbox == db.outbox + [event]
  {
  }

  lemma CreatedRow(db: Db, o: Order, eventId: Uuid, ending: Ending)
    requires CreateTx(db, o, eventId, ending).db != db
    ensures var t := CreateTx(db, o, eventId, ending).db;
            && o.id !in db.orders && o.id in t.orders && Storable(o.amount)
            && t.orders[o.id]
               == o.(amount := Settle(o.amount), updatedBy := o.createdBy, version := 1, performers := [])
            && t.history == db.history + [Entry(o.id, o.createdBy, OrderCreated, map[])]
  {
  }

  lemma CreatedPerformers(db: Db, o: Order, eventId: Uuid, ending: Ending)
    requires CreateTx(db, o, eventId, ending).db != db
    ensures var t := CreateTx(db, o, eventId, ending).db;
            && o.id in t.performers && t.performers[o.id] == InsertAll(o.performers) && Ascending(t.performers[o.id])
            && t.outbox == db.outbox
               + [Envelope(eventId, TypeOf(OrderCreated), o.id, NO_KEYS.(performerIds := Ids(o.performers)))]
            && forall ps :: FoldEvent(ps, t.outbox[|db.outbox|], o.id) == set p | p in t.performers[o.id]
  {
    assert (set p | p in InsertAll(o.performers)) == set p | p in o.performers;
  }

  lemma CreatedIsGood(db: Db, t: Db, o: Order, eventId: Uuid, ending: Ending, entry: Entry, event: Envelope)
    requires t == CreateTx(db, o, eventId, ending).db && t != db && o.status.Planned?
    requires forall i :: 0 <= i < |db.history| ==> db.history[i].order in db.orders
    requires Closes(db, t, o.id, entry, event)
    ensures GoodOrder(t, o.id)
  {
    hide Bumps, StatusChanges, FoldPerformers, Aligned, Closes, CreateTx;
    CreatedRow(db, o, eventId, ending);
    NoEntries(db.history, o.id);
    Counted(db, t, o.id, entry, event, o.id);
    CreatedPerformers(db, o, eventId, ending);
    assert t.history[|db.history|] == entry && t.outbox[|db.outbox|] == event by {
      CloseAppends(db, t, o.id, entry, event);
    }
    assert forall i :: 0 <= i < |db.history| ==> t.history[i] == db.history[i];
  }

  lemma CreateKeepsGood(db: Db, o: Order, eventId: Uuid, ending: Ending)
    requires Good(db) && o.status.Planned?
    ensures Good(CreateTx(db, o, eventId, ending).db) && Extends(db, CreateTx(db, o, eventId, ending).db)
  {
    var t := CreateTx(db, o, eventId, ending).db;
    if t != db {
      CreateCloses(db, o, eventId, ending);
      var entry, event := t.history[|db.history|], t.outbox[|db.outbox|];
      CreatedIsGood(db, t, o, eventId, ending, entry, event);
      CloseKeepsGood(db, t, o.id, entry, event);
      CloseExtends(db, t, o.id, entry, event);
    }
  }

  lemma FoldIgnores(action: Action, ps: set<Uuid>, e: Envelope, id: Uuid)
    requires (action.OrderUpdated? || action.StatusChanged?) && e.eventType == TypeOf(action)
    ensures FoldEvent(ps, e, id) == ps
  {
    forall b: Action | TypeOf(b) == TypeOf(action)
      ensures b == action
    {
      TypesDiffer(b, action);
    }
  }

  lemma UpdateCloses(db: Db, o: Order, changes: map<Field, Change>, eventId: Uuid, ending: Ending)
    requires UpdateTx(db, o, changes, eventId, ending).db != db && o.id in db.performers
    ensures var t := UpdateTx(db, o, changes, eventId, ending).db;
            |t.history| == |db.history| + 1 && |t.outbox| == |db.outbox| + 1
            && Closes(db, t, o.id, t.history[|db.history|], t.outbox[|db.outbox|])
  {
  }

  lemma UpdatedIsGood(db: Db, t: Db, o: Order, changes: map<Field, Change>, eventId: Uuid, ending: Ending, entry: Entry,
      event: Envelope)
    requires t == UpdateTx(db, o, changes, eventId, ending).db && t != db && GoodOrder(db, o.id)
    requires Closes(db, t, o.id, entry, event)
    ensures GoodOrder(t, o.id)
  {
    hide Bumps, StatusChanges, FoldPerformers, Aligned;
    Counted(db, t, o.id, entry, event, o.id);
    assert t.history[|db.history|] == entry && t.outbox[|db.outbox|] == event;
    FoldIgnores(OrderUpdated, FoldPerformers(db.outbox, o.id), event, o.id);
    assert forall i :: 0 <= i < |db.history| ==> t.history[i] == db.history[i];
  }

  lemma UpdateKeepsGood(db: Db, o: Order, changes: map<Field, Change>, eventId: Uuid, ending: Ending)
    requires Good(db)
    ensures Good(UpdateTx(db, o, changes, eventId, ending).db)
        && Extends(db, UpdateTx(db, o, changes, eventId, ending).db)
  {
    var t := UpdateTx(db, o, changes, eventId, ending).db;
    if t != db {
      assert GoodOrder(db, o.id);
      UpdateCloses(db, o, changes, eventId, ending);
      var entry, event := t.history[|db.history|], t.outbox[|db.outbox|];
      UpdatedIsGood(db, t, o, changes, eventId, ending, entry, event);
      CloseKeepsGood(db, t, o.id, entry, event);
      CloseExtends(db, t, o.id, entry, event);
    }
  }

  lemma StatusCloses(db: Db, o: Order, next: Status, eventId: Uuid, ending: Ending)
    requires StatusTx(db, o, next, eventId, ending).db != db && o.id in db.performers
    ensures var t := StatusTx(db, o, next, eventId, ending).db;
            |t.history| == |db.history| + 1 && |t.outbox| == |db.outbox| + 1
            && Closes(db, t, o.id, t.history[|db.history|], t.outbox[|db.outbox|])
  {
  }

  lemma {:induction false} NoStatusEntries(h: seq<Entry>, id: Uuid)
    ensures StatusChanges(h, id) == 0 ==> forall i :: 0 <= i < |h| && h[i].order == id ==> !h[i].action.StatusChanged?
  {
    if h != [] {
      NoStatusEntries(h[..|h| - 1], id);
    }
  }

  lemma StatusIsGood(db: Db, t: Db, o: Order, next: Status, eventId: Uuid, ending: Ending, entry: Entry,
      event: Envelope)
    requires t == StatusTx(db, o, next, eventId, ending).db && t != db && GoodOrder(db, o.id)
    requires CanTransition(o.status, next) && db.orders[o.id].status == o.status
    requires Closes(db, t, o.id, entry, event)
    ensures GoodOrder(t, o.id)
  {
    hide Bumps, StatusChanges, FoldPerformers, Aligned;
    Counted(db, t, o.id, entry, event, o.id);
    assert t.history[|db.history|] == entry && t.outbox[|db.outbox|] == event;
    FoldIgnores(StatusChanged, FoldPerformers(db.outbox, o.id), event, o.id);
    NoStatusEntries(db.history, o.id);
    assert forall i :: 0 <= i < |db.history| ==> t.history[i] == db.history[i];
  }

  lemma StatusKeepsGood(db: Db, o: Order, next: Status, eventId: Uuid, ending: Ending)
    requires Good(db) && CanTransition(o.status, next)
    requires VersionMatches(db, o) ==> db.orders[o.id].status == o.status
    ensures Good(StatusTx(db, o, next, eventId, ending).db) && Extends(db, StatusTx(db, o, next, eventId, ending).db)
  {
    var t := StatusTx(db, o, next, eventId, ending).db;
    if t != db {
      assert GoodOrder(db, o.id);
      StatusCloses(db, o, next, eventId, ending);
      var entry, event := t.history[|db.history|], t.outbox[|db.outbox|];
      StatusIsGood(db, t, o, next, eventId, ending, entry, event);
      CloseKeepsGood(db, t, o.id, entry, event);
      CloseExtends(db, t, o.id, entry, event);
    }
  }

  lemma FoldAssigned(ps: set<Uuid>, e: Envelope, add: bool)
    requires e.data.Object? && e.data.performerId.Id?
    requires e.eventType == TypeOf(if add then PerformerAssigned else PerformerUnassigned)
    ensures FoldEvent(ps, e, e.aggregate) == if add then ps + {e.data.performerId.id} else ps - {e.data.performerId.id}
  {
    forall b: Action | TypeOf(b) == e.eventType
      ensures b == if add then PerformerAssigned else PerformerUnassigned
    {
      TypesDiffer(b, if add then PerformerAssigned else PerformerUnassigned);
    }
  }

  lemma AssignCloses(db: Db, o: Order, p: Uuid, add: bool, eventId: Uuid, ending: Ending)
    requires AssignTx(db, o, p, add, eventId, ending).db != db && o.id in db.orders
    ensures var t := AssignTx(db, o, p, add, eventId, ending).db;
            |t.history| == |db.history| + 1 && |t.outbox| == |db.outbox| + 1
            && Closes(db, t, o.id, t.history[|db.history|], t.outbox[|db.outbox|])
  {
  }

  lemma AssignWrites(db: Db, o: Order, p: Uuid, add: bool, eventId: Uuid, ending: Ending)
    requires AssignTx(db, o, p, add, eventId, ending).db != db && o.id in db.orders && o.id in db.performers
    ensures var t := AssignTx(db, o, p, add, eventId, ending).db;
            var event := t.outbox[|t.outbox| - 1];
            && t.orders == db.orders
            && t.performers[o.id] == (if add then Insert(db.performers[o.id], p) else Remove(db.performers[o.id], p))
            && (add ==> p !in db.performers[o.id])
            && event.aggregate == o.id && event.data == NO_KEYS.(performerId := Id(p))
            && event.eventType == TypeOf(if add then PerformerAssigned else PerformerUnassigned)
  {
  }

  lemma AssignedPerformers(was: seq<Uuid>, now: seq<Uuid>, p: Uuid, add: bool, event: Envelope)
    requires Ascending(was) && now == (if add then Insert(was, p) else Remove(was, p)) && (add ==> p !in was)
    requires event.data == NO_KEYS.(performerId := Id(p))
    requires event.eventType == TypeOf(if add then PerformerAssigned else PerformerUnassigned)
    ensures Ascending(now) && (set q | q in now) == FoldEvent((set q | q in was), event, event.aggregate)
  {
    FoldAssigned((set q | q in was), event, add);
  }

  lemma AssignedIsGood(db: Db, t: Db, id: Uuid, p: Uuid, add: bool, entry: Entry, event: Envelope)
    requires id in db.orders && GoodOrder(db, id) && Closes(db, t, id, entry, event) && t.orders == db.orders
    requires entry.action.PerformerAssigned? || entry.action.PerformerUnassigned?
    requires t.performers[id] == (if add then Insert(db.performers[id], p) else Remove(db.performers[id], p))
    requires add ==> p !in db.performers[id]
    requires event.aggregate == id && event.data == NO_KEYS.(performerId := Id(p))
    requires event.eventType == TypeOf(if add then PerformerAssigned else PerformerUnassigned)
    ensures GoodOrder(t, id)
  {
    hide Bumps, StatusChanges, FoldPerformers, Aligned, Insert, Remove, TypeOf;
    Counted(db, t, id, entry, event, id);
    assert t.history[|db.history|] == entry;
    AssignedPerformers(db.performers[id], t.performers[id], p, add, event);
    assert FoldPerformers(db.outbox, id) == set q | q in db.performers[id];
    assert FoldPerformers(t.outbox, id) == set q | q in t.performers[id];
    assert forall i :: 0 <= i < |db.history| ==> t.history[i] == db.history[i];
  }

  lemma AssignKeepsGood(db: Db, o: Order, p: Uuid, add: bool, eventId: Uuid, ending: Ending)
    requires Good(db)
    ensures Good(AssignTx(db, o, p, add, eventId, ending).db)
        && Extends(db, AssignTx(db, o, p, add, eventId, ending).db)
  {
    var t := AssignTx(db, o, p, add, eventId, ending).db;
    if t != db {
      assert o.id in db.orders && GoodOrder(db, o.id);
      AssignCloses(db, o, p, add, eventId, ending);
      var entry, event := t.history[|db.history|], t.outbox[|db.outbox|];
      AssignWrites(db, o, p, add, eventId, ending);
      AssignedIsGood(db, t, o.id, p, add, entry, event);
      CloseKeepsGood(db, t, o.id, entry, event);
      CloseExtends(db, t, o.id, entry, event);
    }
  }

  // ---------- Every run ----------

  ghost predicate GoodTrail(trail: seq<Db>) {
    && trail != []
    && (forall i :: 0 <= i < |trail| ==> Good(trail[i]))
    && (forall i, j :: 0 <= i <= j < |trail| ==> Extends(trail[i], trail[j]))
  }

  lemma CreateOpKeepsGood(db: Db, o: Order, active: set<Uuid>, e: Uuid, ending: Ending)
    requires Good(db)
    ensures Good(CreateOp(db, o, active, e, ending).db) && Extends(db, CreateOp(db, o, active, e, ending).db)
  {
    if CreateOp(db, o, active, e, ending).db != db {
      CreateKeepsGood(db, o.(status := Planned), e, ending);
    }
  }

  lemma UpdateOpKeepsGood(read: Db, db: Db, o: Order, e: Uuid, ending: Ending)
    requires Good(db)
    ensures Good(UpdateOp(read, db, o, e, ending).db) && Extends(db, UpdateOp(read, db, o, e, ending).db)
  {
    if UpdateOp(read, db, o, e, ending).db != db {
      var current := Get(read, o.id).value;
      UpdateKeepsGood(db, o.(performers := current.performers), Changes(current, o), e, ending);
    }
  }

  /** CanTransition ran on a stale read, yet the version guard makes its answer current. */
  lemma StatusOpKeepsGood(read: Db, db: Db, id: Uuid, actor: Uuid, version: int, next: Status, e: Uuid, ending: Ending)
    requires Good(db) && Extends(read, db)
    requires id in read.orders ==> GoodOrder(read, id)
    ensures Good(StatusOp(read, db, id, actor, version, next, e, ending).db)
    ensures Extends(db, StatusOp(read, db, id, actor, version, next, e, ending).db)
  {
    if StatusOp(read, db, id, actor, version, next, e, ending).db != db {
      StatusKeepsGood(db, Get(read, id).value.(updatedBy := actor), next, e, ending);
    }
  }

  lemma AssignOpKeepsGood(read: Db, db: Db, id: Uuid, actor: Uuid, p: Uuid, add: bool, active: bool, e: Uuid,
      ending: Ending)
    requires Good(db)
    ensures Good(AssignOp(read, db, id, actor, p, add, active, e, ending).db)
    ensures Extends(db, AssignOp(read, db, id, actor, p, add, active, e, ending).db)
  {
    if AssignOp(read, db, id, actor, p, add, active, e, ending).db != db {
      AssignKeepsGood(db, Get(read, id).value.(updatedBy := actor), p, add, e, ending);
    }
  }

  lemma GoodHas(db: Db, id: Uuid)
    requires Good(db) && id in db.orders
    ensures GoodOrder(db, id)
  {
  }

  lemma ExtendsOnward(a: Db, b: Db, c: Db)
    requires Extends(a, b) && Extends(b, c)
    ensures Extends(a, c)
  {
  }

  lemma ExtendsSelf(a: Db)
    ensures Extends(a, a)
  {
  }

  lemma ApplyKeepsGood(trail: seq<Db>, op: Op)
    requires GoodTrail(trail)
    ensures Good(Apply(trail, op).db) && Extends(Last(trail), Apply(trail, op).db)
  {
    hide Good, Extends, CreateOp, UpdateOp, StatusOp, AssignOp;
    var db := Last(trail);
    assert Good(db);
    match op
    case Create(o, active, e, ending) => CreateOpKeepsGood(db, o, active, e, ending);
    case Update(o, read, e, ending) => UpdateOpKeepsGood(ReadAt(trail, read), db, o, e, ending);
    case ChangeStatus(id, actor, version, next, read, e, ending) =>
      var seen := ReadAt(trail, read);
      assert Extends(seen, db) && Good(seen);
      if id in seen.orders {
        GoodHas(seen, id);
      }
      StatusOpKeepsGood(ReadAt(trail, read), db, id, actor, version, next, e, ending);
    case Assign(id, actor, p, add, active, read, e, ending) =>
      AssignOpKeepsGood(ReadAt(trail, read), db, id, actor, p, add, active, e, ending);
  }

  lemma TrailGrows(earlier: seq<Db>, next: Db)
    requires GoodTrail(earlier) && Good(next) && Extends(Last(earlier), next)
    ensures GoodTrail(earlier + [next])
  {
    hide Good, Extends;
    var trail := earlier + [next];
    forall i, j | 0 <= i <= j < |trail|
      ensures Extends(trail[i], trail[j])
    {
      if i == |earlier| {
        ExtendsSelf(next);
      } else if j == |earlier| {
        ExtendsOnward(trail[i], Last(earlier), next);
      }
    }
  }

  lemma EmptyIsGood()
    ensures GoodTrail([EMPTY])
  {
  }

  /** Every state of every run is good, and later states extend earlier ones. */
  lemma {:induction false} RunIsGood(ops: seq<Op>)
    ensures GoodTrail(Trail(ops))
  {
    hide GoodTrail, Good, Extends, Apply;
    if ops == [] {
      EmptyIsGood();
    } else {
      var earlier := Trail(ops[..|ops| - 1]);
      RunIsGood(ops[..|ops| - 1]);
      ApplyKeepsGood(earlier, ops[|ops| - 1]);
      TrailGrows(earlier, Apply(earlier, ops[|ops| - 1]).db);
    }
  }
}

