/** Whom the events of an order name, against the performers it has when the event is committed. */
module OrderAudience {
  import opened Prelude
  import opened Money
  import opened Orders
  import opened OrderRuns
  import opened OrderGuarantees
  import N = Notifications

  /** Whom the event of an operation notifies: the performers given, the one changed, or those the service had read. */
  function Audience(ops: seq<Op>, n: nat): seq<Uuid>
    requires n < |ops|
  {
    match ops[n]
    case Create(o, _, _, _) => o.performers
    case Update(o, _, _, _) => PerformersOf(Trail(ops)[ReadIndex(ops[n], n)], o.id)
    case ChangeStatus(id, _, _, _, _, _, _) => PerformersOf(Trail(ops)[ReadIndex(ops[n], n)], id)
    case Assign(_, _, p, _, _, _, _, _) => [p]
  }

  function Acted(op: Op): Uuid {
    match op
    case Create(o, _, _, _) => o.id
    case Update(o, _, _, _) => o.id
    case ChangeStatus(id, _, _, _, _, _, _) => id
    case Assign(id, _, _, _, _, _, _, _) => id
  }

  /** One operation's transaction appended this event and this history row. */
  ghost predicate Announces(a: Db, b: Db, id: Uuid, audience: seq<Uuid>) {
    && |b.outbox| == |a.outbox| + 1 && |b.history| == |a.history| + 1
    && b.outbox[|a.outbox|].aggregate == id && N.Named(b.outbox[|a.outbox|].data) == Some(audience)
    && b.history[|a.history|].order == id
    && (b.history[|a.history|].action.PerformerAssigned? || b.history[|a.history|].action.PerformerUnassigned? ==>
          |audience| == 1
              && b.history[|a.history|].changes == map[PerformerField := Change(Text(""), Ref(audience[0]))])
  }

  lemma CreateAnnounces(a: Db, o: Order, active: set<Uuid>, eventId: Uuid, ending: Ending)
    requires CreateOp(a, o, active, eventId, ending).db != a
    ensures Announces(a, CreateOp(a, o, active, eventId, ending).db, o.id, o.performers)
  {
  }

  lemma UpdateAnnounces(read: Db, a: Db, o: Order, eventId: Uuid, ending: Ending)
    requires UpdateOp(read, a, o, eventId, ending).db != a
    ensures Announces(a, UpdateOp(read, a, o, eventId, ending).db, o.id, PerformersOf(read, o.id))
  {
  }

  lemma StatusAnnounces(read: Db, a: Db, id: Uuid, actor: Uuid, version: int, next: Status, eventId: Uuid,
      ending: Ending)
    requires StatusOp(read, a, id, actor, version, next, eventId, ending).db != a
        && (id in read.orders ==> read.orders[id].id == id)
    ensures Announces(a, StatusOp(read, a, id, actor, version, next, eventId, ending).db, id, PerformersOf(read, id))
  {
  }

  lemma AssignAnnounces(read: Db, a: Db, id: Uuid, actor: Uuid, p: Uuid, add: bool, active: bool, eventId: Uuid,
      ending: Ending)
    requires AssignOp(read, a, id, actor, p, add, active, eventId, ending).db != a
        && (id in read.orders ==> read.orders[id].id == id)
    ensures Announces(a, AssignOp(read, a, id, actor, p, add, active, eventId, ending).db, id, [p])
  {
  }

  /**
   * Each operation that takes effect announces itself to its audience, which for updates and
   * status changes are the performers at the service's read, not those at the commit.
   */
  lemma EventsNameTheirAudience(ops: seq<Op>, n: nat)
    requires n < |ops| && Trail(ops)[n + 1] != Trail(ops)[n]
    ensures Announces(Trail(ops)[n], Trail(ops)[n + 1], Acted(ops[n]), Audience(ops, n))
  {
    hide Announces, Trail, CreateOp, UpdateOp, StatusOp, AssignOp, Bumps, StatusChanges, FoldPerformers;
    StepAt(ops, n);
    var a := Trail(ops)[n];
    if !ops[n].Create? && Acted(ops[n]) in Trail(ops)[ReadIndex(ops[n], n)].orders {
      RowAt(ops, ReadIndex(ops[n], n), Acted(ops[n]));
    }
    match ops[n]
    case Create(o, active, e, ending) => CreateAnnounces(a, o, active, e, ending);
    case Update(o, read, e, ending) => UpdateAnnounces(Trail(ops)[ReadIndex(ops[n], n)], a, o, e, ending);
    case ChangeStatus(id, actor, version, next, read, e, ending) =>
      StatusAnnounces(Trail(ops)[ReadIndex(ops[n], n)], a, id, actor, version, next, e, ending);
    case Assign(id, actor, p, add, active, read, e, ending) =>
      AssignAnnounces(Trail(ops)[ReadIndex(ops[n], n)], a, id, actor, p, add, active, e, ending);
  }

  /** Operation n of a run wrote the event at this place of the outbox. */
  ghost predicate Wrote(ops: seq<Op>, n: nat, i: nat) {
    && n < |ops| && Trail(ops)[n + 1] != Trail(ops)[n]
    && |Trail(ops)[n].outbox| == i && |Trail(ops)[n + 1].outbox| == i + 1
  }

  lemma {:induction false} FirstIsEmpty(ops: seq<Op>)
    ensures Trail(ops)[0] == EMPTY
  {
    if ops != [] {
      FirstIsEmpty(ops[..|ops| - 1]);
    }
  }

  /** Every event of an outbox was written by one operation of the run and names its audience. */
  lemma {:induction false} EventHasItsOperation(ops: seq<Op>, m: nat, i: nat) returns (n: nat)
    requires m <= |ops| && i < |Trail(ops)[m].outbox|
    ensures n < m && Wrote(ops, n, i)
    ensures Trail(ops)[m].outbox[i] == Trail(ops)[n + 1].outbox[i]
        && N.Named(Trail(ops)[m].outbox[i].data) == Some(Audience(ops, n))
    decreases m
  {
    hide Trail, Audience, Acted;
    if m == 0 {
      assert Trail(ops)[0] == EMPTY by {
        FirstIsEmpty(ops);
      }
      assert false;
    } else {
      ExtendsAt(ops, m - 1, m);
      if i < |Trail(ops)[m - 1].outbox| {
        n := EventHasItsOperation(ops, m - 1, i);
      } else {
        n := m - 1;
        EventsNameTheirAudience(ops, n);
      }
    }
  }

  /** An order is updated by a client whose service read it before a performer was assigned. */
  function OvertakenRun(o: Order, p: Uuid, moved: Order): seq<Op> {
    [Create(o, {}, 1, Committed), Assign(o.id, o.createdBy, p, true, true, 1, 2, Committed),
        Update(moved, 1, 3, Committed)]
  }

  /** Then the update commits, and its event leaves out a performer who is assigned at that moment. */
  lemma EventCanMissAPerformer(o: Order, p: Uuid, moved: Order)
    requires o.performers == [] && Valid(o) && Storable(o.amount)
    requires moved.id == o.id && moved.version == 1 && Valid(moved) && Storable(moved.amount)
    ensures var trail := Trail(OvertakenRun(o, p, moved));
            && PerformersOf(trail[2], o.id) == [p] == PerformersOf(trail[3], o.id)
            && |trail[3].outbox| == 3 && N.Named(trail[3].outbox[2].data) == Some([])
  {
    hide Blank, Render, Changes;
    var ops := OvertakenRun(o, p, moved);
    TrailStep(ops, 0);
    TrailOfPart(ops, 0);
    assert ops[..0] == [];
    hide Trail;
    var trail := Trail(ops);
    assert trail[..1] == [EMPTY];
    assert o.id in trail[1].orders && trail[1].orders[o.id].version == 1 && PerformersOf(trail[1], o.id) == [];
    TrailStep(ops, 1);
    assert trail[..2][1] == trail[1];
    assert PerformersOf(trail[2], o.id) == [p] && trail[2].orders == trail[1].orders;
    TrailStep(ops, 2);
    assert trail[..3][1] == trail[1] && trail[..3][2] == trail[2];
  }

  // ---------- The audience against the performers at the commit ----------

  /** What a history row does to performer p of an order: an assignment, an unassignment, or nothing. */
  function Touch(e: Entry, id: Uuid, p: Uuid): Option<Action> {
    if e.order == id && (e.action.PerformerAssigned? || e.action.PerformerUnassigned?)
       && e.changes == map[PerformerField := Change(Text(""), Ref(p))] then Some(e.action)
    else None
  }

  /** The first such row of a stretch of history. */
  function FirstTouch(h: seq<Entry>, id: Uuid, p: Uuid): Option<Action> {
    if h == [] then None
    else
      match FirstTouch(h[..|h| - 1], id, p)
      case Some(action) => Some(action)
      case None => Touch(h[|h| - 1], id, p)
  }

  /** The history rows committed from one state of a run to another. */
  function Since(ops: seq<Op>, r: nat, n: nat): seq<Entry>
    requires r <= n <= |ops|
  {
    if |Trail(ops)[r].history| <= |Trail(ops)[n].history| then Trail(ops)[n].history[|Trail(ops)[r].history|..] else []
  }

  ghost predicate IsAssigned(db: Db, id: Uuid, p: Uuid) {
    p in PerformersOf(db, id)
  }

  predicate Moves(touch: Option<Action>, before: bool, after: bool) {
    match touch
    case None => after == before
    case Some(action) => if action.PerformerAssigned? then !before && after else before && !after
  }

  /** b follows a: an assignment finds its performer absent, an unassignment present, and nothing else moves them. */
  ghost predicate MovesPerformers(a: Db, b: Db, id: Uuid) {
    || (b.history == a.history && PerformersOf(b, id) == PerformersOf(a, id))
    || (exists e: Entry ::
          && b.history == a.history + [e]
          && (e.order != id || !(e.action.PerformerAssigned? || e.action.PerformerUnassigned?)
             ==> PerformersOf(b, id) == PerformersOf(a, id))
          && (forall p :: Moves(Touch(e, id, p), IsAssigned(a, id, p), IsAssigned(b, id, p))))
  }

  lemma CreateMoves(a: Db, o: Order, active: set<Uuid>, eventId: Uuid, ending: Ending, id: Uuid)
    requires id in a.orders
    ensures MovesPerformers(a, CreateOp(a, o, active, eventId, ending).db, id)
  {
    var b := CreateOp(a, o, active, eventId, ending).db;
    if b != a {
      assert b.history == a.history + [Entry(o.id, o.createdBy, OrderCreated, map[])];
    }
  }

  lemma UpdateMoves(read: Db, a: Db, o: Order, eventId: Uuid, ending: Ending, id: Uuid)
    ensures MovesPerformers(a, UpdateOp(read, a, o, eventId, ending).db, id)
  {
    hide Changes, Overwrite;
    var b := UpdateOp(read, a, o, eventId, ending).db;
    if b != a {
      UpdateWrites(read, a, o, eventId, ending);
      assert b.history == a.history + [Entry(o.id, o.updatedBy, OrderUpdated, Changes(read.orders[o.id], o))];
    }
  }

  lemma StatusMoves(read: Db, a: Db, target: Uuid, actor: Uuid, version: int, next: Status, eventId: Uuid,
      ending: Ending, id: Uuid)
    ensures MovesPerformers(a, StatusOp(read, a, target, actor, version, next, eventId, ending).db, id)
  {
    var b := StatusOp(read, a, target, actor, version, next, eventId, ending).db;
    if b != a {
      var e := b.history[|a.history|];
      assert b.history == a.history + [e] && e.action.StatusChanged?;
    }
  }

  /** The entry and rows of an assignment that took effect. */
  lemma AssignWrites(read: Db, a: Db, target: Uuid, actor: Uuid, q: Uuid, add: bool, active: bool, eventId: Uuid,
      ending: Ending)
    requires AssignOp(read, a, target, actor, q, add, active, eventId, ending).db != a
    requires target in read.orders ==> read.orders[target].id == target
    ensures var b := AssignOp(read, a, target, actor, q, add, active, eventId, ending).db;
            && (add <==> !IsAssigned(a, target, q))
            && b.history == a.history + [Entry(target, actor, if add then PerformerAssigned else PerformerUnassigned,
                                               map[PerformerField := Change(Text(""), Ref(q))])]
            && b.performers == a.performers[target := if add then Insert(PerformersOf(a, target), q)
               else Remove(PerformersOf(a, target), q)]
  {
    hide Insert, Remove;
  }

  lemma TouchOfAssignment(action: Action, target: Uuid, actor: Uuid, q: Uuid, id: Uuid, p: Uuid)
    requires action.PerformerAssigned? || action.PerformerUnassigned?
    ensures Touch(Entry(target, actor, action, map[PerformerField := Change(Text(""), Ref(q))]), id, p)
         == if target == id && p == q then Some(action) else None
  {
    var x, y := map[PerformerField := Change(Text(""), Ref(q))], map[PerformerField := Change(Text(""), Ref(p))];
    if x == y {
      assert x[PerformerField] == y[PerformerField];
    }
  }

  lemma AssignMoves(read: Db, a: Db, target: Uuid, actor: Uuid, q: Uuid, add: bool, active: bool, eventId: Uuid,
      ending: Ending, id: Uuid)
    requires target in read.orders ==> read.orders[target].id == target
    ensures MovesPerformers(a, AssignOp(read, a, target, actor, q, add, active, eventId, ending).db, id)
  {
    hide AssignOp, Touch, Insert, Remove;
    var b := AssignOp(read, a, target, actor, q, add, active, eventId, ending).db;
    if b != a {
      AssignWrites(read, a, target, actor, q, add, active, eventId, ending);
      var action := if add then PerformerAssigned else PerformerUnassigned;
      var e := Entry(target, actor, action, map[PerformerField := Change(Text(""), Ref(q))]);
      forall p
        ensures Moves(Touch(e, id, p), IsAssigned(a, id, p), IsAssigned(b, id, p))
      {
        TouchOfAssignment(action, target, actor, q, id, p);
      }
      assert b.history == a.history + [e];
    }
  }

  lemma StepMovesPerformers(ops: seq<Op>, n: nat, id: Uuid)
    requires n < |ops| && id in Trail(ops)[n].orders
    ensures MovesPerformers(Trail(ops)[n], Trail(ops)[n + 1], id)
  {
    hide MovesPerformers, Trail, CreateOp, UpdateOp, StatusOp, AssignOp, Bumps, StatusChanges, FoldPerformers;
    StepAt(ops, n);
    var a := Trail(ops)[n];
    if !ops[n].Create? && Acted(ops[n]) in Trail(ops)[ReadIndex(ops[n], n)].orders {
      RowAt(ops, ReadIndex(ops[n], n), Acted(ops[n]));
    }
    match ops[n]
    case Create(o, active, e, ending) => CreateMoves(a, o, active, e, ending, id);
    case Update(o, read, e, ending) => UpdateMoves(Trail(ops)[ReadIndex(ops[n], n)], a, o, e, ending, id);
    case ChangeStatus(target, actor, version, next, read, e, ending) =>
      StatusMoves(Trail(ops)[ReadIndex(ops[n], n)], a, target, actor, version, next, e, ending, id);
    case Assign(target, actor, p, add, active, read, e, ending) =>
      AssignMoves(Trail(ops)[ReadIndex(ops[n], n)], a, target, actor, p, add, active, e, ending, id);
  }

  /** What the first touch of a stretch says of its two ends. */
  predicate Explains(first: Option<Action>, before: bool, after: bool) {
    match first
    case None => before == after
    case Some(action) => before == !action.PerformerAssigned?
  }

  lemma SinceOneMore(ops: seq<Op>, r: nat, n: nat)
    requires r <= n < |ops| && |Trail(ops)[r].history| <= |Trail(ops)[n].history|
    ensures Trail(ops)[n + 1].history == Trail(ops)[n].history ==> Since(ops, r, n + 1) == Since(ops, r, n)
    ensures forall e: Entry ::
        Trail(ops)[n + 1].history == Trail(ops)[n].history + [e] ==> Since(ops, r, n + 1) == Since(ops, r, n) + [e]
  {
    hide Trail;
  }

  lemma FirstTouchOneMore(h: seq<Entry>, e: Entry, id: Uuid, p: Uuid)
    ensures FirstTouch(h + [e], id, p) == if FirstTouch(h, id, p).Some? then FirstTouch(h, id, p) else Touch(e, id, p)
  {
    assert (h + [e])[..|h|] == h;
  }

  lemma NothingSince(ops: seq<Op>, n: nat, id: Uuid, p: Uuid)
    requires n <= |ops|
    ensures Since(ops, n, n) == [] && FirstTouch(Since(ops, n, n), id, p) == None
  {
  }

  lemma SameRows(a: Db, b: Db, id: Uuid, p: Uuid)
    requires PerformersOf(b, id) == PerformersOf(a, id)
    ensures IsAssigned(b, id, p) == IsAssigned(a, id, p)
  {
  }

  /** Whether p was assigned at the start of a stretch shows in its first touch, or nothing touched p. */
  lemma {:induction false} FirstTouchExplains(ops: seq<Op>, r: nat, n: nat, id: Uuid, p: Uuid)
    requires r <= n <= |ops| && id in Trail(ops)[r].orders
    ensures Explains(FirstTouch(Since(ops, r, n), id, p), IsAssigned(Trail(ops)[r], id, p),
        IsAssigned(Trail(ops)[n], id, p))
    decreases n
  {
    hide Trail, Since, FirstTouch, Touch, IsAssigned;
    if r == n {
      assert FirstTouch(Since(ops, r, n), id, p) == None by {
        NothingSince(ops, n, id, p);
      }
    } else {
      FirstTouchExplains(ops, r, n - 1, id, p);
      ExtendsAt(ops, r, n - 1);
      StepMovesPerformers(ops, n - 1, id);
      SinceOneMore(ops, r, n - 1);
      var a, b := Trail(ops)[n - 1], Trail(ops)[n];
      if b.history == a.history && PerformersOf(b, id) == PerformersOf(a, id) {
        SameRows(a, b, id, p);
      } else {
        var e: Entry :| b.history == a.history + [e]
            && forall q :: Moves(Touch(e, id, q), IsAssigned(a, id, q), IsAssigned(b, id, q));
        FirstTouchOneMore(Since(ops, r, n - 1), e, id, p);
        assert Moves(Touch(e, id, p), IsAssigned(a, id, p), IsAssigned(b, id, p));
      }
    }
  }

  predicate NamesReadPerformers(op: Op) {
    op.Update? || op.ChangeStatus?
  }

  lemma ReadExists(ops: seq<Op>, n: nat)
    requires n < |ops| && NamesReadPerformers(ops[n]) && Trail(ops)[n + 1] != Trail(ops)[n]
    ensures Acted(ops[n]) in Trail(ops)[ReadIndex(ops[n], n)].orders
  {
    StepAt(ops, n);
  }

  lemma {:induction false} TouchesAreAssignments(h: seq<Entry>, id: Uuid, p: Uuid)
    ensures FirstTouch(h, id, p).Some? ==> FirstTouch(h, id, p).value in {PerformerAssigned, PerformerUnassigned}
  {
    if h != [] {
      TouchesAreAssignments(h[..|h| - 1], id, p);
    }
  }

  /**
   * An update or status change that takes effect misses a performer of its commit exactly when the
   * first of that performer's assignments and unassignments since the service's read is an assignment.
   */
  lemma EventMissesPerformerIff(ops: seq<Op>, n: nat, p: Uuid)
    requires n < |ops| && NamesReadPerformers(ops[n]) && Trail(ops)[n + 1] != Trail(ops)[n]
    requires p in PerformersOf(Trail(ops)[n], Acted(ops[n]))
    ensures p !in Audience(ops, n)
        <==> FirstTouch(Since(ops, ReadIndex(ops[n], n), n), Acted(ops[n]), p) == Some(PerformerAssigned)
  {
    hide Trail, Since, FirstTouch;
    ReadExists(ops, n);
    FirstTouchExplains(ops, ReadIndex(ops[n], n), n, Acted(ops[n]), p);
    TouchesAreAssignments(Since(ops, ReadIndex(ops[n], n), n), Acted(ops[n]), p);
  }

  /** And it still names a performer removed by its commit exactly when the first of them is an unassignment. */
  lemma EventNamesRemovedIff(ops: seq<Op>, n: nat, p: Uuid)
    requires n < |ops| && NamesReadPerformers(ops[n]) && Trail(ops)[n + 1] != Trail(ops)[n]
    requires p !in PerformersOf(Trail(ops)[n], Acted(ops[n]))
    ensures p in Audience(ops, n)
        <==> FirstTouch(Since(ops, ReadIndex(ops[n], n), n), Acted(ops[n]), p) == Some(PerformerUnassigned)
  {
    hide Trail, Since, FirstTouch;
    ReadExists(ops, n);
    FirstTouchExplains(ops, ReadIndex(ops[n], n), n, Acted(ops[n]), p);
    TouchesAreAssignments(Since(ops, ReadIndex(ops[n], n), n), Acted(ops[n]), p);
  }

  ghost predicate NoAssignment(h: seq<Entry>, id: Uuid) {
    forall i :: 0 <= i < |h| && h[i].order == id
        ==> !h[i].action.PerformerAssigned? && !h[i].action.PerformerUnassigned?
  }

  lemma {:induction false} RowsStayWithoutAssignment(ops: seq<Op>, r: nat, n: nat, id: Uuid)
    requires r <= n <= |ops| && id in Trail(ops)[r].orders && NoAssignment(Since(ops, r, n), id)
    ensures PerformersOf(Trail(ops)[n], id) == PerformersOf(Trail(ops)[r], id)
    decreases n
  {
    hide Trail, Since, Touch, IsAssigned, Moves;
    if r < n {
      ExtendsAt(ops, r, n - 1);
      StepMovesPerformers(ops, n - 1, id);
      SinceOneMore(ops, r, n - 1);
      var a, b := Trail(ops)[n - 1], Trail(ops)[n];
      var h := Since(ops, r, n - 1);
      assert h <= Since(ops, r, n);
      assert forall i :: 0 <= i < |h| ==> Since(ops, r, n)[i] == h[i];
      RowsStayWithoutAssignment(ops, r, n - 1, id);
      if !(b.history == a.history && PerformersOf(b, id) == PerformersOf(a, id)) {
        var e: Entry :| b.history == a.history + [e]
          && (e.order != id || !(e.action.PerformerAssigned? || e.action.PerformerUnassigned?)
             ==> PerformersOf(b, id) == PerformersOf(a, id));
        assert Since(ops, r, n)[|h|] == e;
      }
    }
  }

  /**
   * If no assignment of the order was committed since the read, the event names exactly the
   * performers at the commit.
   */
  lemma EventNamesPerformersAtCommit(ops: seq<Op>, n: nat)
    requires n < |ops| && NamesReadPerformers(ops[n]) && Trail(ops)[n + 1] != Trail(ops)[n]
    requires NoAssignment(Since(ops, ReadIndex(ops[n], n), n), Acted(ops[n]))
    ensures Audience(ops, n) == PerformersOf(Trail(ops)[n], Acted(ops[n]))
  {
    hide Trail, Since;
    ReadExists(ops, n);
    RowsStayWithoutAssignment(ops, ReadIndex(ops[n], n), n, Acted(ops[n]));
  }
}

