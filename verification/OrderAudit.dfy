/** The audit chain: what the history of an order says of its past, and when it can be wrong. */
module OrderAudit {
  import opened Prelude
  import opened Money
  import opened Orders
  import opened OrderRuns
  import opened OrderGuarantees

  // ---------- Old values ----------

  /** What an update that took effect at n read, replaced and recorded. */
  lemma UpdateRecords(ops: seq<Op>, n: nat)
    requires n < |ops| && ops[n].Update? && Trail(ops)[n + 1] != Trail(ops)[n]
    ensures var o, read, before, after := ops[n].request, Trail(ops)[ReadIndex(ops[n], n)], Trail(ops)[n],
        Trail(ops)[n + 1];
            && o.id in read.orders && o.id in before.orders && before.orders[o.id].version == o.version
               && Storable(o.amount)
            && after.orders == before.orders[o.id := Overwrite(before.orders[o.id], o)]
            && after.history == before.history + [Entry(o.id, o.updatedBy, OrderUpdated, Changes(read.orders[o.id], o))]
  {
    hide UpdateOp, Changes, Overwrite, Trail;
    StepAt(ops, n);
    UpdateWrites(Trail(ops)[ReadIndex(ops[n], n)], Trail(ops)[n], ops[n].request, ops[n].eventId, ops[n].ending);
  }

  /**
   * Of an update that takes effect: the row the service read is the row it replaces exactly when
   * the version it read is the version the client expects, a comparison the service does not make.
   */
  lemma ReadIsCurrentIff(ops: seq<Op>, n: nat)
    requires n < |ops| && ops[n].Update? && Trail(ops)[n + 1] != Trail(ops)[n]
    ensures var id, i := ops[n].request.id, ReadIndex(ops[n], n);
            && id in Trail(ops)[i].orders && id in Trail(ops)[n].orders
            && (Trail(ops)[i].orders[id] == Trail(ops)[n].orders[id]
               <==> Trail(ops)[i].orders[id].version == ops[n].request.version)
  {
    hide Changes, Overwrite, Trail;
    UpdateRecords(ops, n);
    ExtendsAt(ops, ReadIndex(ops[n], n), n);
  }

  lemma SameTextSameAmount(a: Amount, b: Amount)
    requires Storable(a) && Storable(b) && a == Settle(a) && b == Settle(b) && a.text == b.text
    ensures a == b
  {
    RenderInjective(a.cents.value, b.cents.value);
  }

  lemma ChangesAgreeIff(read: Order, replaced: Order, o: Order)
    requires Storable(read.amount) && Storable(replaced.amount)
    requires read.amount == Settle(read.amount) && replaced.amount == Settle(replaced.amount)
    ensures Changes(read, o) == Changes(replaced, o)
            <==> && read.location == replaced.location
                 && read.amount.text == replaced.amount.text
                 && read.comment == replaced.comment
  {
    hide Render, Storable, Settle;
    if read.amount.text == replaced.amount.text {
      SameTextSameAmount(read.amount, replaced.amount);
    }
    var x, y := Changes(read, o), Changes(replaced, o);
    if x == y {
      assert Location in x <==> Location in y;
      assert Location in x ==> x[Location] == y[Location];
      assert AmountField in x <==> AmountField in y;
      assert AmountField in x ==> x[AmountField] == y[AmountField];
      assert Comment in x <==> Comment in y;
      assert Comment in x ==> x[Comment] == y[Comment];
    }
  }

  /**
   * The history row of an update describes the row it replaced exactly when the three recorded
   * fields are those that were read.
   */
  lemma OldIsCurrentIff(ops: seq<Op>, n: nat)
    requires n < |ops| && ops[n].Update? && Trail(ops)[n + 1] != Trail(ops)[n]
    ensures var o, a, b := ops[n].request, Trail(ops)[n], Trail(ops)[n + 1];
            var i := ReadIndex(ops[n], n);
            && o.id in Trail(ops)[i].orders && o.id in a.orders && |b.history| == |a.history| + 1
            && var read, replaced := Trail(ops)[i].orders[o.id], a.orders[o.id];
               (b.history[|a.history|] == Entry(o.id, o.updatedBy, OrderUpdated, Changes(replaced, o))
                <==> && read.location == replaced.location
                     && read.amount.text == replaced.amount.text
                     && read.comment == replaced.comment)
  {
    hide Changes, Overwrite, Trail, Bumps, StatusChanges, FoldPerformers, Settle, Storable;
    UpdateRecords(ops, n);
    var o, i := ops[n].request, ReadIndex(ops[n], n);
    RowAt(ops, i, o.id);
    RowAt(ops, n, o.id);
    ChangesAgreeIff(Trail(ops)[i].orders[o.id], Trail(ops)[n].orders[o.id], o);
  }

  /** The expected version of an update was read at or before the state the service itself reads. */
  ghost predicate ReadEarlier(trail: seq<Db>, op: Op) {
    op.Update? ==>
      exists seen: nat :: seen <= op.read && seen < |trail| && op.request.id in trail[seen].orders
                          && trail[seen].orders[op.request.id].version == op.request.version
  }

  /** A client that read its version is a client whose version the service's own read still shows. */
  lemma ReadEarlierIff(ops: seq<Op>, n: nat)
    requires n < |ops| && ops[n].Update? && Trail(ops)[n + 1] != Trail(ops)[n]
    ensures var id, i := ops[n].request.id, ReadIndex(ops[n], n);
            && id in Trail(ops)[i].orders
            && (ReadEarlier(Trail(ops)[..n + 1], ops[n])
               <==> Trail(ops)[i].orders[id].version == ops[n].request.version)
  {
    hide Changes, Overwrite, Trail;
    UpdateRecords(ops, n);
    var trail, op := Trail(ops)[..n + 1], ops[n];
    var id, i := op.request.id, ReadIndex(op, n);
    assert trail[i] == Trail(ops)[i];
    if ReadEarlier(trail, op) {
      var seen: nat :| seen <= op.read && seen < |trail| && id in trail[seen].orders
          && trail[seen].orders[id].version == op.request.version;
      assert trail[seen] == Trail(ops)[seen];
      ExtendsAt(ops, seen, i);
      ExtendsAt(ops, i, n);
    }
  }

  /** Changes are computed on the service's read, before the write; they still describe the row the write replaces. */
  lemma AuditIsCurrent(ops: seq<Op>, n: nat)
    requires n < |ops| && ops[n].Update? && ReadEarlier(Trail(ops)[..n + 1], ops[n])
    requires Trail(ops)[n + 1] != Trail(ops)[n]
    ensures var id := ops[n].request.id;
            var before, after := Trail(ops)[n], Trail(ops)[n + 1];
            && id in before.orders
            && after.orders == before.orders[id := Overwrite(before.orders[id], ops[n].request)]
            && Storable(ops[n].request.amount)
            && after.history == before.history
               + [Entry(id, ops[n].request.updatedBy, OrderUpdated, Changes(before.orders[id], ops[n].request))]
  {
    hide Changes, Overwrite, Trail, ReadEarlier;
    UpdateRecords(ops, n);
    ReadEarlierIff(ops, n);
    ReadIsCurrentIff(ops, n);
  }

  // ---------- Replay ----------

  datatype View = View(location: string, amount: Amount, comment: string)

  function ViewOf(o: Order): View {
    View(o.location, o.amount, o.comment)
  }

  function NewText(changes: map<Field, Change>, f: Field, current: string): string {
    if f in changes && changes[f].new_.Text? then changes[f].new_.text else current
  }

  /** One history row replayed; an amount is taken in the normal form of its column. */
  function ReplayEntry(v: View, e: Entry, id: Uuid): View {
    if e.order != id || !e.action.OrderUpdated? then v
    else
      View(
        NewText(e.changes, Location, v.location),
        if AmountField in e.changes && e.changes[AmountField].new_.Sum? then Settle(e.changes[AmountField].new_.amount)
        else v.amount,
        NewText(e.changes, Comment, v.comment))
  }

  function Replay(v: View, h: seq<Entry>, id: Uuid): View {
    if h == [] then v else ReplayEntry(Replay(v, h[..|h| - 1], id), h[|h| - 1], id)
  }

  lemma EntryReplaysIff(read: Order, replaced: Order, o: Order, actor: Uuid)
    requires Storable(read.amount) && read.amount == Settle(read.amount)
    requires Storable(replaced.amount) && replaced.amount == Settle(replaced.amount)
    requires Storable(o.amount) && WellRead(o.amount) && replaced.id == o.id
    ensures var entry := Entry(o.id, actor, OrderUpdated, Changes(read, o));
            ReplayEntry(ViewOf(replaced), entry, o.id) == ViewOf(Overwrite(replaced, o))
            <==> && (read.location == o.location ==> replaced.location == o.location)
                 && (read.amount.text == o.amount.text ==> replaced.amount.text == o.amount.text)
                 && (read.comment == o.comment ==> replaced.comment == o.comment)
  {
    if read.amount.text == o.amount.text {
      assert o.amount.text == Render(read.amount.cents.value);
      if replaced.amount.text == o.amount.text {
        SameTextSameAmount(read.amount, replaced.amount);
      }
    }
  }

  /** Each of the three fields that an update leaves as its service read it is still so in the row it replaces. */
  ghost predicate LeavesCurrent(ops: seq<Op>, n: nat)
    requires n < |ops| && ops[n].Update?
  {
    var o, i := ops[n].request, ReadIndex(ops[n], n);
    o.id in Trail(ops)[i].orders && o.id in Trail(ops)[n].orders ==>
      var read, replaced := Trail(ops)[i].orders[o.id], Trail(ops)[n].orders[o.id];
      && (read.location == o.location ==> replaced.location == o.location)
      && (read.amount.text == o.amount.text ==> replaced.amount.text == o.amount.text)
      && (read.comment == o.comment ==> replaced.comment == o.comment)
  }

  /**
   * An update replays from its history row exactly when each field it leaves as the service read it
   * is still so in the row it replaces: otherwise it silently puts back what another client changed.
   */
  lemma UpdateReplaysIff(ops: seq<Op>, n: nat)
    requires n < |ops| && ops[n].Update? && WellRead(ops[n].request.amount) && Trail(ops)[n + 1] != Trail(ops)[n]
    ensures var o, a, b := ops[n].request, Trail(ops)[n], Trail(ops)[n + 1];
            && o.id in a.orders && o.id in b.orders && |b.history| == |a.history| + 1
            && (ReplayEntry(ViewOf(a.orders[o.id]), b.history[|a.history|], o.id) == ViewOf(b.orders[o.id])
                <==> LeavesCurrent(ops, n))
  {
    hide Changes, Overwrite, Trail, Bumps, StatusChanges, FoldPerformers, Settle, Storable, ReplayEntry, ViewOf,
        WellRead;
    UpdateRecords(ops, n);
    var o, i := ops[n].request, ReadIndex(ops[n], n);
    RowAt(ops, i, o.id);
    RowAt(ops, n, o.id);
    EntryReplaysIff(Trail(ops)[i].orders[o.id], Trail(ops)[n].orders[o.id], o, o.updatedBy);
  }

  /** b follows a without an update: its rows look the same and at most one other history row is added. */
  ghost predicate KeepsViews(a: Db, b: Db, id: Uuid) {
    && id in a.orders && id in b.orders && ViewOf(b.orders[id]) == ViewOf(a.orders[id])
    && (b.history == a.history || exists e: Entry :: b.history == a.history + [e] && !e.action.OrderUpdated?)
  }

  lemma CreateKeepsViews(a: Db, o: Order, active: set<Uuid>, eventId: Uuid, ending: Ending, id: Uuid)
    requires id in a.orders
    ensures KeepsViews(a, CreateOp(a, o, active, eventId, ending).db, id)
  {
    assert CreateOp(a, o, active, eventId, ending).db.history in [a.history,
        a.history + [Entry(o.id, o.createdBy, OrderCreated, map[])]];
  }

  lemma StatusKeepsViews(read: Db, a: Db, target: Uuid, actor: Uuid, version: int, next: Status, eventId: Uuid,
      ending: Ending, id: Uuid)
    requires id in a.orders && (target in read.orders ==> read.orders[target].id == target)
    ensures KeepsViews(a, StatusOp(read, a, target, actor, version, next, eventId, ending).db, id)
  {
    var b := StatusOp(read, a, target, actor, version, next, eventId, ending).db;
    if b != a {
      var e := b.history[|a.history|];
      assert b.history == a.history + [e] && e.action.StatusChanged?;
    }
  }

  lemma AssignKeepsViews(read: Db, a: Db, target: Uuid, actor: Uuid, p: Uuid, add: bool, active: bool, eventId: Uuid,
      ending: Ending, id: Uuid)
    requires id in a.orders
    ensures KeepsViews(a, AssignOp(read, a, target, actor, p, add, active, eventId, ending).db, id)
  {
    var b := AssignOp(read, a, target, actor, p, add, active, eventId, ending).db;
    if b != a {
      var e := b.history[|a.history|];
      assert b.history == a.history + [e] && !e.action.OrderUpdated?;
    }
  }

  lemma OtherOpsKeepViews(ops: seq<Op>, n: nat, id: Uuid)
    requires n < |ops| && !ops[n].Update? && id in Trail(ops)[n].orders
    ensures KeepsViews(Trail(ops)[n], Trail(ops)[n + 1], id)
  {
    StepAt(ops, n);
    var a := Trail(ops)[n];
    match ops[n]
    case Create(o, active, e, ending) => CreateKeepsViews(a, o, active, e, ending, id);
    case ChangeStatus(target, actor, version, next, _, e, ending) =>
      var i := ReadIndex(ops[n], n);
      if target in Trail(ops)[i].orders {
        RowAt(ops, i, target);
      }
      StatusKeepsViews(Trail(ops)[i], a, target, actor, version, next, e, ending, id);
    case Assign(target, actor, p, add, active, _, e, ending) =>
      AssignKeepsViews(Trail(ops)[ReadIndex(ops[n], n)], a, target, actor, p, add, active, e, ending, id);
  }

  lemma OtherEntriesReplayNothing(v: View, e: Entry, id: Uuid)
    requires !e.action.OrderUpdated?
    ensures ReplayEntry(v, e, id) == v
  {
  }

  lemma ReplaySnoc(v: View, h: seq<Entry>, from: nat, e: Entry, id: Uuid)
    requires from <= |h|
    ensures Replay(v, (h + [e])[from..], id) == ReplayEntry(Replay(v, h[from..], id), e, id)
  {
    var part := (h + [e])[from..];
    assert part[..|part| - 1] == h[from..];
  }

  /** Operation n is no update of this order, or one whose history row replays. */
  ghost predicate Replayable(ops: seq<Op>, n: nat, id: Uuid)
    requires n < |ops|
  {
    ops[n].Update? && ops[n].request.id == id && Trail(ops)[n + 1] != Trail(ops)[n] ==>
      WellRead(ops[n].request.amount) && LeavesCurrent(ops, n)
  }

  lemma UpdateStepReplays(ops: seq<Op>, n: nat, id: Uuid)
    requires n < |ops| && Replayable(ops, n, id) && ops[n].Update? && Trail(ops)[n + 1] != Trail(ops)[n]
    requires id in Trail(ops)[n].orders
    ensures id in Trail(ops)[n + 1].orders
    ensures exists e: Entry :: Trail(ops)[n + 1].history == Trail(ops)[n].history + [e]
              && ViewOf(Trail(ops)[n + 1].orders[id]) == ReplayEntry(ViewOf(Trail(ops)[n].orders[id]), e, id)
  {
    hide Bumps, StatusChanges, FoldPerformers, Trail, Changes, Overwrite, LeavesCurrent, WellRead;
    UpdateRecords(ops, n);
    var a, b := Trail(ops)[n], Trail(ops)[n + 1];
    var e := b.history[|a.history|];
    assert b.history == a.history + [e];
    if ops[n].request.id == id {
      UpdateReplaysIff(ops, n);
    }
    assert ViewOf(b.orders[id]) == ReplayEntry(ViewOf(a.orders[id]), e, id);
  }

  lemma StepReplays(ops: seq<Op>, n: nat, v: View, from: nat, id: Uuid)
    requires n < |ops| && Replayable(ops, n, id) && id in Trail(ops)[n].orders && from <= |Trail(ops)[n].history|
    requires ViewOf(Trail(ops)[n].orders[id]) == Replay(v, Trail(ops)[n].history[from..], id)
    ensures id in Trail(ops)[n + 1].orders && from <= |Trail(ops)[n + 1].history|
    ensures ViewOf(Trail(ops)[n + 1].orders[id]) == Replay(v, Trail(ops)[n + 1].history[from..], id)
  {
    hide Trail, ViewOf, ReplayEntry, Replay, Replayable;
    var a, b := Trail(ops)[n], Trail(ops)[n + 1];
    if a != b {
      if ops[n].Update? {
        UpdateStepReplays(ops, n, id);
        var e: Entry :| b.history == a.history + [e]
            && ViewOf(b.orders[id]) == ReplayEntry(ViewOf(a.orders[id]), e, id);
        ReplaySnoc(v, a.history, from, e, id);
      } else {
        OtherOpsKeepViews(ops, n, id);
        if b.history != a.history {
          var e: Entry :| b.history == a.history + [e] && !e.action.OrderUpdated?;
          ReplaySnoc(v, a.history, from, e, id);
          OtherEntriesReplayNothing(Replay(v, a.history[from..], id), e, id);
        }
      }
    }
  }

  /**
   * Audit chain: from any state in which the order exists, replaying the New values of the history
   * rows added since gives its current location, amount and comment, when every update of the order
   * since then replays.
   */
  lemma {:induction false} HistoryReplays(ops: seq<Op>, m: nat, n: nat, id: Uuid)
    requires m <= n <= |ops| && id in Trail(ops)[m].orders
    requires forall k :: m <= k < n ==> Replayable(ops, k, id)
    ensures id in Trail(ops)[n].orders && |Trail(ops)[m].history| <= |Trail(ops)[n].history|
    ensures ViewOf(Trail(ops)[n].orders[id])
         == Replay(ViewOf(Trail(ops)[m].orders[id]), Trail(ops)[n].history[|Trail(ops)[m].history|..], id)
    decreases n - m
  {
    hide Trail, Replayable;
    if m < n {
      HistoryReplays(ops, m, n - 1, id);
      StepReplays(ops, n - 1, ViewOf(Trail(ops)[m].orders[id]), |Trail(ops)[m].history|, id);
    }
  }

  /**
   * The client of this operation read the version it expects, if it updates this order, and its
   * amount is read as it is stored.
   */
  ghost predicate Honest(ops: seq<Op>, n: nat, id: Uuid)
    requires n < |ops|
  {
    ops[n].Update? && ops[n].request.id == id ==>
      ReadEarlier(Trail(ops)[..n + 1], ops[n]) && WellRead(ops[n].request.amount)
  }

  /** An honest client's update replays, so the audit chain holds of an order whose clients since m were honest. */
  lemma HonestHistoryReplays(ops: seq<Op>, m: nat, n: nat, id: Uuid)
    requires m <= n <= |ops| && id in Trail(ops)[m].orders
    requires forall k :: m <= k < n ==> Honest(ops, k, id)
    ensures id in Trail(ops)[n].orders && |Trail(ops)[m].history| <= |Trail(ops)[n].history|
    ensures ViewOf(Trail(ops)[n].orders[id])
         == Replay(ViewOf(Trail(ops)[m].orders[id]), Trail(ops)[n].history[|Trail(ops)[m].history|..], id)
  {
    hide Trail, ReadEarlier, WellRead, Replay;
    forall k | m <= k < n
      ensures Replayable(ops, k, id)
    {
      if ops[k].Update? && ops[k].request.id == id && Trail(ops)[k + 1] != Trail(ops)[k] {
        assert Honest(ops, k, id);
        ReadEarlierIff(ops, k);
        ReadIsCurrentIff(ops, k);
      }
    }
    HistoryReplays(ops, m, n, id);
  }

  // ---------- Where the audit chain needs its assumption ----------

  /** One client creates an order, a second moves it, a third guesses the version that move will leave. */
  function GuessingRun(o: Order, moved: Order, guess: Order): seq<Op> {
    [Create(o, {}, 1, Committed), Update(moved, 1, 2, Committed), Update(guess, 1, 3, Committed)]
  }

  /** A version that was guessed, not read, lets an update commit with an Old that was already replaced. */
  lemma GuessedVersionForgesOld(o: Order, moved: Order, guess: Order)
    requires o.performers == [] && Valid(o) && Storable(o.amount)
    requires moved.id == guess.id == o.id && moved.version == 1 && guess.version == 2
    requires Valid(moved) && Storable(moved.amount) && Valid(guess) && Storable(guess.amount)
    requires o.location != moved.location && o.location != guess.location
    ensures var trail := Trail(GuessingRun(o, moved, guess));
            && o.id in trail[2].orders && trail[2].orders[o.id].location == moved.location
            && |trail[3].history| == 3
            && Location in trail[3].history[2].changes
            && trail[3].history[2].changes[Location].old_ == Text(o.location)
  {
    hide Blank, Render;
    var ops := GuessingRun(o, moved, guess);
    TrailStep(ops, 0);
    TrailOfPart(ops, 0);
    assert ops[..0] == [];
    hide Trail;
    var trail := Trail(ops);
    assert trail[..1] == [EMPTY];
    assert o.id in trail[1].orders && trail[1].orders[o.id].version == 1;
    TrailStep(ops, 1);
    assert trail[..2][1] == trail[1];
    assert trail[2].orders[o.id].version == 2;
    TrailStep(ops, 2);
    assert trail[..3][1] == trail[1] && trail[..3][2] == trail[2];
  }
}

