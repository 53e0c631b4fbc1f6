/** The guarantees clients of the order service rely on, over every run of concurrent operations. */
module OrderGuarantees {
  import opened Prelude
  import opened Money
  import opened Orders
  import opened OrderRuns

  // ---------- Views of a run ----------

  lemma GoodAt(ops: seq<Op>, n: nat)
    requires n <= |ops|
    ensures Good(Trail(ops)[n])
  {
    RunIsGood(ops);
  }

  lemma RowAt(ops: seq<Op>, n: nat, id: Uuid)
    requires n <= |ops| && id in Trail(ops)[n].orders
    ensures GoodOrder(Trail(ops)[n], id)
  {
    GoodAt(ops, n);
  }

  lemma ExtendsAt(ops: seq<Op>, m: nat, n: nat)
    requires m <= n <= |ops|
    ensures Extends(Trail(ops)[m], Trail(ops)[n])
  {
    RunIsGood(ops);
  }

  /** Which state an operation of a run reads. */
  function ReadIndex(op: Op, n: nat): (r: nat)
    requires !op.Create?
    ensures r <= n
  {
    if op.read <= n then op.read else n
  }

  /** The state after step n, by the kind of the operation. */
  lemma StepAt(ops: seq<Op>, n: nat)
    requires n < |ops|
    ensures var a, b := Trail(ops)[n], Trail(ops)[n + 1];
            match ops[n]
            case Create(o, active, e, ending) => b == CreateOp(a, o, active, e, ending).db
            case Update(o, read, e, ending) => b == UpdateOp(Trail(ops)[ReadIndex(ops[n], n)], a, o, e, ending).db
            case ChangeStatus(id, actor, version, next, read, e, ending) =>
              b == StatusOp(Trail(ops)[ReadIndex(ops[n], n)], a, id, actor, version, next, e, ending).db
            case Assign(id, actor, p, add, active, read, e, ending) =>
              b == AssignOp(Trail(ops)[ReadIndex(ops[n], n)], a, id, actor, p, add, active, e, ending).db
  {
    TrailStep(ops, n);
  }

  // ---------- Conservation ----------

  /** An order's version counts its committed writes, and each history row has its event beside it. */
  lemma VersionCountsWrites(ops: seq<Op>, n: nat, id: Uuid)
    requires n <= |ops| && id in Trail(ops)[n].orders
    ensures var db := Trail(ops)[n];
            && db.orders[id].version == 1 + Bumps(db.history, id)
            && |db.history| == |db.outbox|
            && forall i :: 0 <= i < |db.history| ==>
                 db.outbox[i].aggregate == db.history[i].order && db.outbox[i].eventType == TypeOf(db.history[i].action)
  {
    GoodAt(ops, n);
    RowAt(ops, n, id);
    var db := Trail(ops)[n];
    assert forall i :: 0 <= i < |db.history| ==> Aligned(db.history[i], db.outbox[i]);
  }

  predicate IsWrite(op: Op) {
    op.Update? || op.ChangeStatus?
  }

  function TargetOf(op: Op): Uuid
    requires IsWrite(op)
  {
    if op.Update? then op.request.id else op.id
  }

  /** The version a client expects when it updates an order or changes its status. */
  function ExpectedVersion(op: Op): int
    requires IsWrite(op)
  {
    if op.Update? then op.request.version else op.version
  }

  /** What an update that took effect did: it found its version and wrote a row, a history row and an event. */
  lemma UpdateWrites(read: Db, db: Db, o: Order, eventId: Uuid, ending: Ending)
    requires UpdateOp(read, db, o, eventId, ending).db != db
    ensures var t := UpdateOp(read, db, o, eventId, ending).db;
            && o.id in read.orders && o.id in db.orders && db.orders[o.id].version == o.version && Storable(o.amount)
            && t.orders == db.orders[o.id := Overwrite(db.orders[o.id], o)]
            && t.performers == db.performers
            && t.history == db.history + [Entry(o.id, o.updatedBy, OrderUpdated, Changes(read.orders[o.id], o))]
  {
    var current := Get(read, o.id).value;
    assert Changes(current, o) == Changes(read.orders[o.id], o);
    var asked := o.(performers := current.performers);
    assert Overwrite(db.orders[o.id], asked) == Overwrite(db.orders[o.id], o);
  }

  lemma StatusWrites(read: Db, db: Db, id: Uuid, actor: Uuid, version: int, next: Status, eventId: Uuid, ending: Ending)
    requires StatusOp(read, db, id, actor, version, next, eventId, ending).db != db
    requires id in read.orders ==> read.orders[id].id == id
    ensures var t := StatusOp(read, db, id, actor, version, next, eventId, ending).db;
            && id in db.orders && db.orders[id].version == version
            && id in t.orders && t.orders[id].version == version + 1
  {
  }

  lemma WriteConsumes(ops: seq<Op>, n: nat)
    requires n < |ops| && IsWrite(ops[n]) && Trail(ops)[n + 1] != Trail(ops)[n]
    ensures var id := TargetOf(ops[n]);
            && id in Trail(ops)[n].orders && id in Trail(ops)[n + 1].orders
            && Trail(ops)[n].orders[id].version == ExpectedVersion(ops[n])
            && Trail(ops)[n + 1].orders[id].version == ExpectedVersion(ops[n]) + 1
  {
    StepAt(ops, n);
    var i := ReadIndex(ops[n], n);
    match ops[n]
    case Update(o, _, e, ending) => UpdateWrites(Trail(ops)[i], Trail(ops)[n], o, e, ending);
    case ChangeStatus(id, actor, version, next, _, e, ending) =>
      if id in Trail(ops)[i].orders {
        RowAt(ops, i, id);
      }
      StatusWrites(Trail(ops)[i], Trail(ops)[n], id, actor, version, next, e, ending);
  }

  /** Each version value is consumed by at most one successful write, whatever the clients expected. */
  lemma VersionConsumedOnce(ops: seq<Op>, m: nat, n: nat)
    requires m < n < |ops| && IsWrite(ops[m]) && IsWrite(ops[n]) && TargetOf(ops[m]) == TargetOf(ops[n])
    requires Trail(ops)[m + 1] != Trail(ops)[m] && Trail(ops)[n + 1] != Trail(ops)[n]
    ensures ExpectedVersion(ops[m]) < ExpectedVersion(ops[n])
  {
    WriteConsumes(ops, m);
    WriteConsumes(ops, n);
    ExtendsAt(ops, m + 1, n);
  }

  // ---------- Terminal statuses ----------

  lemma {:induction false} FirstStatusEntry(h: seq<Entry>, id: Uuid) returns (i: nat)
    requires StatusChanges(h, id) > 0
    ensures i < |h| && h[i].order == id && h[i].action.StatusChanged?
  {
    if h[|h| - 1].order == id && h[|h| - 1].action.StatusChanged? {
      i := |h| - 1;
    } else {
      i := FirstStatusEntry(h[..|h| - 1], id);
    }
  }

  lemma {:induction false} MoreChanges(h: seq<Entry>, longer: seq<Entry>, id: Uuid)
    requires h <= longer
    ensures StatusChanges(h, id) <= StatusChanges(longer, id)
    ensures Bumps(h, id) <= Bumps(longer, id)
    decreases |longer|
  {
    if h == longer {
    } else {
      MoreChanges(h, longer[..|longer| - 1], id);
    }
  }

  /** One status change at most, out of PLANNED; and a status other than PLANNED never changes again. */
  lemma TerminalStatusAbsorbs(ops: seq<Op>, m: nat, n: nat, id: Uuid)
    requires m <= n <= |ops| && id in Trail(ops)[m].orders
    ensures id in Trail(ops)[n].orders
    ensures StatusChanges(Trail(ops)[n].history, id) <= 1
    ensures StatusChanges(Trail(ops)[n].history, id) == 0 <==> Trail(ops)[n].orders[id].status.Planned?
    ensures !Trail(ops)[m].orders[id].status.Planned?
        ==> Trail(ops)[n].orders[id].status == Trail(ops)[m].orders[id].status
    ensures var db := Trail(ops)[n];
            forall i :: 0 <= i < |db.history| && db.history[i].order == id && db.history[i].action.StatusChanged? ==>
              db.history[i].changes == map[StatusField := Change(StatusOf(Planned), StatusOf(db.orders[id].status))]
  {
    hide Bumps, FoldPerformers, Trail;
    var a, b := Trail(ops)[m], Trail(ops)[n];
    ExtendsAt(ops, m, n);
    RowAt(ops, m, id);
    RowAt(ops, n, id);
    if !a.orders[id].status.Planned? {
      var i := FirstStatusEntry(a.history, id);
      assert b.history[i] == a.history[i];
      assert b.history[i].changes[StatusField] == a.history[i].changes[StatusField];
      MoreChanges(a.history, b.history, id);
    }
  }

  // ---------- No lost update ----------

  lemma {:induction false} NoBumpBetween(h: seq<Entry>, longer: seq<Entry>, id: Uuid)
    requires h <= longer && Bumps(h, id) == Bumps(longer, id)
    ensures forall i :: |h| <= i < |longer| ==> !IsBump(longer[i], id)
    decreases |longer|
  {
    if h != longer {
      var init := longer[..|longer| - 1];
      MoreChanges(h, init, id);
      NoBumpBetween(h, init, id);
    }
  }

  /**
   * If the version an editor read is still the version when its write commits, the row is the row
   * it read and no update or status change of the order was committed in between.
   */
  lemma NoWriteSince(ops: seq<Op>, m: nat, n: nat, id: Uuid)
    requires m <= n <= |ops| && id in Trail(ops)[m].orders && id in Trail(ops)[n].orders
    requires Trail(ops)[n].orders[id].version == Trail(ops)[m].orders[id].version
    ensures Trail(ops)[n].orders[id] == Trail(ops)[m].orders[id]
    ensures Trail(ops)[m].history <= Trail(ops)[n].history
    ensures forall i :: |Trail(ops)[m].history| <= i < |Trail(ops)[n].history| ==> !IsBump(Trail(ops)[n].history[i], id)
  {
    var a, b := Trail(ops)[m], Trail(ops)[n];
    ExtendsAt(ops, m, n);
    RowAt(ops, m, id);
    RowAt(ops, n, id);
    NoBumpBetween(a.history, b.history, id);
  }

  // ---------- Performers ----------

  /** Folding the events of an order in commit order rebuilds its rows of order_performers. */
  lemma EventsRebuildPerformers(ops: seq<Op>, n: nat, id: Uuid)
    requires n <= |ops| && id in Trail(ops)[n].orders
    ensures var db := Trail(ops)[n];
            Get(db, id).Some? && (set p | p in Get(db, id).value.performers) == FoldPerformers(db.outbox, id)
            && Distinct(Get(db, id).value.performers)
  {
    RowAt(ops, n, id);
  }
}

