/**
 * What an edit through the bot guarantees, over every run of concurrent order operations: the
 * version captured when the dialogue opened meets the guard of the write that ends it.
 */
module BotGuarantees {
  import opened Prelude
  import opened Calendar
  import opened Money
  import opened Orders
  import opened OrderRuns
  import opened OrderGuarantees
  import B = Bot
  import C = BotCommands
  import E = BotEdits
  import W = BotOrders
  import F = OrderEffects
  import T = BotText

  /** No update or status change of the order was committed between two states of a run. */
  ghost predicate NoWriteBetween(a: Db, b: Db, id: Uuid) {
    a.history <= b.history && forall i :: |a.history| <= i < |b.history| ==> !IsBump(b.history[i], id)
  }

  lemma {:induction false} BumpsStay(h: seq<Entry>, longer: seq<Entry>, id: Uuid)
    requires h <= longer && forall i :: |h| <= i < |longer| ==> !IsBump(longer[i], id)
    ensures Bumps(longer, id) == Bumps(h, id)
    decreases |longer|
  {
    if h != longer {
      BumpsStay(h, longer[..|longer| - 1], id);
    }
  }

  /** The versions of an order agree at two moments exactly when nothing was written to it between them. */
  lemma SameVersionIffNoWrite(ops: seq<Op>, m: nat, n: nat, id: Uuid)
    requires m <= n <= |ops| && id in Trail(ops)[m].orders
    ensures id in Trail(ops)[n].orders
    ensures Trail(ops)[n].orders[id].version == Trail(ops)[m].orders[id].version
            <==> NoWriteBetween(Trail(ops)[m], Trail(ops)[n], id)
  {
    hide GoodOrder, Good, IsBump, Trail, TypeOf, Bumps;
    ExtendsAt(ops, m, n);
    var a, b := Trail(ops)[m], Trail(ops)[n];
    VersionCountsWrites(ops, m, id);
    VersionCountsWrites(ops, n, id);
    if b.orders[id].version == a.orders[id].version {
      NoWriteSince(ops, m, n, id);
    }
    if NoWriteBetween(a, b, id) {
      BumpsStay(a.history, b.history, id);
    }
  }

  /** An update takes effect exactly when every check and the guard pass and the transaction is durable. */
  lemma UpdateTakesEffectIff(read: Db, db: Db, o: Order, eventId: Uuid, ending: Ending)
    requires o.id in read.orders
    ensures UpdateOp(read, db, o, eventId, ending).db != db
            <==> Valid(o) && o.version >= 1 && VersionMatches(db, o) && Storable(o.amount) && ending.Durable()
  {
    var t := UpdateOp(read, db, o, eventId, ending).db;
    if Valid(o) && o.version >= 1 && VersionMatches(db, o) && Storable(o.amount) && ending.Durable() {
      assert |t.history| == |db.history| + 1;
    }
  }

  /** The order as GetOrder answered at state m of the run, opened for editing. */
  function Opened(ops: seq<Op>, m: nat, id: Uuid): B.Draft
    requires m <= |ops| && id in Trail(ops)[m].orders && B.Printable(Trail(ops)[m].orders[id])
  {
    B.StartEdit(Get(Trail(ops)[m], id).value)
  }

  /** At state m the order was read and could be printed; the messages es then led to a draft at confirm. */
  ghost predicate Edited(ops: seq<Op>, m: nat, id: Uuid, es: seq<B.Event>) {
    && m <= |ops| && id in Trail(ops)[m].orders && B.Printable(Trail(ops)[m].orders[id])
    && B.StaysOpen(Opened(ops, m, id), es)
    && B.From(Some(Opened(ops, m, id)), es).Some?
    && B.From(Some(Opened(ops, m, id)), es).value.step.ConfirmStep?
  }

  function Final(ops: seq<Op>, m: nat, id: Uuid, es: seq<B.Event>): B.Draft
    requires Edited(ops, m, id, es)
  {
    B.From(Some(Opened(ops, m, id)), es).value
  }

  function Answers(ops: seq<Op>, m: nat, id: Uuid, es: seq<B.Event>): seq<string>
    requires Edited(ops, m, id, es)
  {
    B.Accepted(Opened(ops, m, id), es)
  }

  /**
   * Every order that can be printed can be edited: any seven takable answers lead to confirm, with
   * exactly those answers.
   */
  lemma EditCanBeCompleted(ops: seq<Op>, m: nat, id: Uuid, texts: seq<string>, w: B.World)
    requires m <= |ops| && id in Trail(ops)[m].orders && B.Printable(Trail(ops)[m].orders[id])
    requires |texts| == 7 && E.Takable(texts) && w.loaded && w.stored.Durable()
    ensures Edited(ops, m, id, B.Typed(texts, w)) && Answers(ops, m, id, B.Typed(texts, w)) == texts
  {
    hide E.Takable, E.Answered, B.Accepted, B.From, B.StaysOpen, B.Measure, B.StepFits, B.Typed, Trail;
    E.AnswersAreTaken(Opened(ops, m, id), texts, w);
    E.MeasureOfEdit(B.From(Some(Opened(ops, m, id)), B.Typed(texts, w)).value);
  }

  /** The draft at confirm: the seven answers over what was read, still with the version that was read. */
  lemma FinalDraft(ops: seq<Op>, m: nat, id: Uuid, es: seq<B.Event>)
    requires Edited(ops, m, id, es)
    ensures m <= |ops| && id in Trail(ops)[m].orders
    ensures var d, row, texts := Final(ops, m, id, es), Trail(ops)[m].orders[id], Answers(ops, m, id, es);
            && |texts| == 7 && d.kind.EditKind? && d.orderId == id && d.version == row.version
            && (texts[0] != "-" ==> Parse(texts[0]).Some?)
            && Parse(d.date) == (if texts[0] != "-" then Parse(texts[0]) else Some(ToMinute(row.date)))
            && d.location == B.Keep(row.location, texts[1]) && d.amount == B.Keep(row.amount.text, texts[2])
            && d.name == B.Keep(row.name, texts[3]) && d.phone == B.Keep(row.phone, texts[4])
            && d.contact == B.Keep(row.contact, texts[5]) && d.comment == B.Keep(row.comment, texts[6])
  {
    hide Parse, Format, ValidDate, Bumps, StatusChanges, FoldPerformers, E.Answered, B.Accepted, B.From, B.StaysOpen;
    RowAt(ops, m, id);
    var start := Opened(ops, m, id);
    ParseFormat(Trail(ops)[m].orders[id].date);
    E.EditIsItsAnswers(start, es);
    E.SevenAnswers(start, Answers(ops, m, id, es));
  }

  /** The request /confirm sends; amount is how the services read the text of the draft's amount. */
  ghost predicate Confirms(ops: seq<Op>, m: nat, id: Uuid, es: seq<B.Event>, op: Op) {
    && Edited(ops, m, id, es)
    && op.Update?
    && Parse(Final(ops, m, id, es).date).Some?
    && op.request == B.RequestOf(Final(ops, m, id, es), op.request.amount, op.request.updatedBy)
    && op.request.amount.text == Final(ops, m, id, es).amount
    && WellRead(op.request.amount)
  }

  /** A '-' for the amount writes back exactly the amount that was stored. */
  lemma KeptAmount(ops: seq<Op>, m: nat, id: Uuid, amount: Amount)
    requires m <= |ops| && id in Trail(ops)[m].orders
    requires WellRead(amount) && amount.text == Trail(ops)[m].orders[id].amount.text
    ensures Settle(amount) == Trail(ops)[m].orders[id].amount && Storable(amount) && amount.positive
  {
    hide Render, Bumps, StatusChanges, FoldPerformers;
    RowAt(ops, m, id);
    var stored := Trail(ops)[m].orders[id].amount;
    assert stored == Stored(stored.cents.value);
    assert amount.text == Render(stored.cents.value);
  }

  lemma UpdateRow(ops: seq<Op>, n: nat)
    requires n < |ops| && ops[n].Update? && Trail(ops)[n + 1] != Trail(ops)[n]
    ensures var a, b, o := Trail(ops)[n], Trail(ops)[n + 1], ops[n].request;
            && o.id in a.orders && b.orders == a.orders[o.id := Overwrite(a.orders[o.id], o)]
            && b.performers == a.performers
  {
    hide UpdateOp, Overwrite, Trail;
    StepAt(ops, n);
    UpdateWrites(Trail(ops)[ReadIndex(ops[n], n)], Trail(ops)[n], ops[n].request, ops[n].eventId, ops[n].ending);
  }

  /**
   * No lost update: if a confirmed edit takes effect, the row it replaces is the row that was read
   * when the dialogue opened and nothing was written to the order in between; in the new row each
   * text answered '-' is unchanged, the date is then kept to the minute, and every other field is
   * its answer. Status, creator and performers are not touched.
   */
  lemma NoLostUpdate(ops: seq<Op>, m: nat, n: nat, id: Uuid, es: seq<B.Event>)
    requires m <= n < |ops| && Confirms(ops, m, id, es, ops[n]) && Trail(ops)[n + 1] != Trail(ops)[n]
    ensures var a, b, texts := Trail(ops)[n], Trail(ops)[n + 1], Answers(ops, m, id, es);
            && id in a.orders && id in b.orders && |texts| == 7
            && a.orders[id] == Trail(ops)[m].orders[id]
            && NoWriteBetween(Trail(ops)[m], a, id)
            && (texts[0] != "-" ==> Parse(texts[0]).Some?)
            && b.performers == a.performers
            && b.orders == a.orders[id := a.orders[id].(
                 date := if texts[0] != "-" then Parse(texts[0]).value else ToMinute(a.orders[id].date),
                 location := B.Keep(a.orders[id].location, texts[1]),
                 amount := if texts[2] != "-" then Settle(ops[n].request.amount) else a.orders[id].amount,
                 name := B.Keep(a.orders[id].name, texts[3]),
                 phone := B.Keep(a.orders[id].phone, texts[4]),
                 contact := B.Keep(a.orders[id].contact, texts[5]),
                 comment := B.Keep(a.orders[id].comment, texts[6]),
                 updatedBy := ops[n].request.updatedBy,
                 version := a.orders[id].version + 1)]
            && (texts[2] != "-" ==> ops[n].request.amount.text == texts[2])
  {
    hide Parse, Edited, Final, Answers, Settle, WellRead, Storable;
    FinalDraft(ops, m, id, es);
    WriteConsumes(ops, n);
    NoWriteSince(ops, m, n, id);
    UpdateRow(ops, n);
    if Answers(ops, m, id, es)[2] == "-" {
      KeptAmount(ops, m, id, ops[n].request.amount);
    }
  }

  /**
   * A '-' for the date keeps it exactly when the stored date is a whole minute; the dialogue drops
   * seconds otherwise.
   */
  lemma DashKeepsDateIffWholeMinute(ops: seq<Op>, m: nat, n: nat, id: Uuid, es: seq<B.Event>)
    requires m <= n < |ops| && Confirms(ops, m, id, es, ops[n]) && Trail(ops)[n + 1] != Trail(ops)[n]
    requires Answers(ops, m, id, es) != [] && Answers(ops, m, id, es)[0] == "-"
    ensures id in Trail(ops)[n].orders && id in Trail(ops)[n + 1].orders
    ensures Trail(ops)[n + 1].orders[id].date == Trail(ops)[n].orders[id].date
            <==> Trail(ops)[n].orders[id].date.second == 0 && Trail(ops)[n].orders[id].date.nano == 0
  {
    hide Parse, Edited, Final, Answers, Settle, WellRead, Storable, Confirms, Trail;
    NoLostUpdate(ops, m, n, id, es);
  }

  /**
   * When the services read the order after the bot did, a confirmed edit takes effect exactly when
   * nothing was written to the order since the dialogue opened, the edited order is valid, its
   * amount can be stored, and the transaction is durable.
   */
  lemma ConfirmTakesEffectIff(ops: seq<Op>, m: nat, n: nat, id: Uuid, es: seq<B.Event>)
    requires m <= n < |ops| && Confirms(ops, m, id, es, ops[n]) && m <= ops[n].read
    ensures Trail(ops)[n + 1] != Trail(ops)[n]
            <==> && NoWriteBetween(Trail(ops)[m], Trail(ops)[n], id)
                 && Valid(ops[n].request) && Storable(ops[n].request.amount) && ops[n].ending.Durable()
  {
    hide Parse, Edited, Final, Answers, WellRead, Valid, Storable, NoWriteBetween, UpdateOp;
    FinalDraft(ops, m, id, es);
    StepAt(ops, n);
    var i := ReadIndex(ops[n], n);
    SameVersionIffNoWrite(ops, m, n, id);
    ExtendsAt(ops, m, i);
    VersionCountsWrites(ops, m, id);
    UpdateTakesEffectIff(Trail(ops)[i], Trail(ops)[n], ops[n].request, ops[n].eventId, ops[n].ending);
  }

  /** A second /confirm of the same draft, after a lost answer or a failed delete, changes nothing. */
  lemma ConfirmedOnce(ops: seq<Op>, m: nat, n: nat, again: nat, id: Uuid, es: seq<B.Event>)
    requires m <= n < again < |ops|
    requires Confirms(ops, m, id, es, ops[n]) && Confirms(ops, m, id, es, ops[again])
    requires Trail(ops)[n + 1] != Trail(ops)[n]
    ensures Trail(ops)[again + 1] == Trail(ops)[again]
  {
    hide Edited, Final, Parse, WellRead;
    if Trail(ops)[again + 1] != Trail(ops)[again] {
      VersionConsumedOnce(ops, n, again);
    }
  }

  // ---------- New orders ----------

  lemma CreatedIsThere(db: Db, o: Order, active: set<Uuid>, eventId: Uuid, ending: Ending)
    requires CreateOp(db, o, active, eventId, ending).db != db
    ensures o.id in CreateOp(db, o, active, eventId, ending).db.orders
  {
  }

  /** The order CreateOrder makes of a confirmed draft, under the identifier the service picks. */
  function NewOrder(d: B.Draft, amount: Amount, actor: Uuid, id: Uuid): Order
    requires Parse(d.date).Some?
  {
    B.RequestOf(d, amount, actor).(id := id, createdBy := actor)
  }

  /**
   * What the dialogue checked is never the reason a confirmed order fails: it is created exactly
   * when the rest holds. Of the performers that includes being named once each.
   */
  lemma ConfirmedOrderIsCreatedIff(db: Db, d: B.Draft, amount: Amount, actor: Uuid, id: Uuid, active: set<Uuid>,
      eventId: Uuid, ending: Ending)
    requires B.Sensible(d) && d.kind.OrderKind? && d.step.ConfirmStep?
    ensures Parse(d.date).Some?
    ensures CreateOp(db, NewOrder(d, amount, actor, id), active, eventId, ending).db != db
            <==> && Parse(d.date).value != ZERO_TIME && amount.positive && Storable(amount)
                 && id !in db.orders && ending.Durable()
                 && Distinct(d.performers) && forall p :: p in d.performers ==> p in active
  {
    hide Parse, Blank;
    B.ConfirmedOrderIsValid(d, amount, actor);
    var o := NewOrder(d, amount, actor, id);
    var t := CreateOp(db, o, active, eventId, ending).db;
    assert o.performers == d.performers;
    if Valid(o) && Storable(amount) && id !in db.orders && ending.Durable() && Distinct(d.performers)
       && forall p :: p in d.performers ==> p in active {
      assert |t.history| == |db.history| + 1;
    }
    assert Valid(o) <==> Parse(d.date).value != ZERO_TIME && amount.positive;
  }

  /** A draft with one performer's login written twice reaches confirm, and no /confirm of it ever creates an order. */
  lemma RepeatedLoginNeverCreates(command: string, texts: seq<string>, login: string, w: B.World, db: Db,
      amount: Amount, actor: Uuid, id: Uuid, active: set<Uuid>, eventId: Uuid, ending: Ending)
    requires C.Calls(command, C.NEW_ORDER) && |texts| == 7 && W.Takable(texts, w) && W.Answerable(w) && w.permitted
    requires login != "" && T.Trim(login) == login && ',' !in login && T.Known(w.users.value, T.Lower(login))
    ensures var r := B.Run([B.Received(command, w)] + B.Typed(texts + [W.Twice(login)], w));
            && r.Some? && r.value.kind.OrderKind? && r.value.step.ConfirmStep? && Parse(r.value.date).Some?
            && CreateOp(db, NewOrder(r.value, amount, actor, id), active, eventId, ending).db == db
  {
    hide Parse, B.Run, B.Typed, B.Sensible, W.Takable, T.Trim, T.Known, T.Lower, W.Twice;
    W.RepeatedLoginReachesConfirm(command, texts, login, w);
    var es := [B.Received(command, w)] + B.Typed(texts + [W.Twice(login)], w);
    B.DraftsAreSensible(es);
    ConfirmedOrderIsCreatedIff(db, B.Run(es).value, amount, actor, id, active, eventId, ending);
  }

  /** The operation is a /confirm of this draft; amount is how the services read the text of its amount. */
  predicate Submits(op: Op, d: B.Draft, amount: Amount, actor: Uuid)
    requires Parse(d.date).Some?
  {
    op.Create? && op.order == NewOrder(d, amount, actor, op.order.id) && amount.text == d.amount
  }

  /**
   * The answers become the order: whatever messages led a new order to confirm, if its /confirm takes
   * effect, the row added holds the eight accepted answers, each in its column, as a PLANNED order at
   * version 1 of the sender, and its performers are those the eighth answer named.
   */
  lemma AnswersBecomeTheOrder(ops: seq<Op>, n: nat, es: seq<B.Event>, amount: Amount, actor: Uuid)
    requires B.StaysOpen(B.Blank(B.OrderKind, B.DateStep), es)
    requires B.From(Some(B.Blank(B.OrderKind, B.DateStep)), es).Some?
    requires var d := B.From(Some(B.Blank(B.OrderKind, B.DateStep)), es).value;
             d.step.ConfirmStep? && Parse(d.date).Some? && n < |ops| && Submits(ops[n], d, amount, actor)
    requires Trail(ops)[n + 1] != Trail(ops)[n]
    ensures var texts := B.Accepted(B.Blank(B.OrderKind, B.DateStep), es);
            var a, b, id := Trail(ops)[n], Trail(ops)[n + 1], ops[n].order.id;
            && |texts| == 8 && Parse(texts[0]).Some? && amount.text == texts[2] && amount.cents.Some?
            && id !in a.orders && b.orders == a.orders[id := Order(id, Parse(texts[0]).value, texts[1],
                 Stored(amount.cents.value), texts[3], texts[4], if texts[5] == "-" then "" else texts[5],
                 if texts[6] == "-" then "" else texts[6], Planned, actor, actor, 1, [])]
            && exists k :: 0 <= k < |es| && es[k].Received? && T.Trim(es[k].raw) == texts[7]
                           && T.Resolve(es[k].world.users, texts[7]).Some?
                           && forall p ::
                                p in PerformersOf(b, id) <==> p in T.Resolve(es[k].world.users, texts[7]).value
  {
    hide Parse, B.From, B.Accepted, B.StaysOpen, B.Sensible, T.Trim, T.Resolve, Trail, Stored;
    var start := B.Blank(B.OrderKind, B.DateStep);
    var d, texts := B.From(Some(start), es).value, B.Accepted(start, es);
    W.OrderIsItsAnswers(es);
    W.MeasureOfDraft(texts, d.performers);
    F.CreateStores(ops, n);
    F.CreateTakesEffectIff(ops, n);
    var k :| 0 <= k < |es| && es[k].Received? && T.Trim(es[k].raw) == texts[7]
             && T.Resolve(es[k].world.users, texts[7]) == Some(d.performers);
    var a, b, id := Trail(ops)[n], Trail(ops)[n + 1], ops[n].order.id;
    assert b.orders == a.orders[id := b.orders[id]];
  }

  lemma OrderStays(ops: seq<Op>, m: nat, n: nat, id: Uuid)
    requires m <= n <= |ops| && id in Trail(ops)[m].orders
    ensures id in Trail(ops)[n].orders
  {
    hide Trail;
    ExtendsAt(ops, m, n);
  }

  lemma SubmissionTakesEffectIff(ops: seq<Op>, n: nat, d: B.Draft, amount: Amount, actor: Uuid)
    requires n < |ops| && B.Sensible(d) && d.kind.OrderKind? && d.step.ConfirmStep? && Parse(d.date).Some?
    requires Submits(ops[n], d, amount, actor)
    ensures ops[n].Create?
    ensures Trail(ops)[n + 1] != Trail(ops)[n]
            <==> && Parse(d.date).value != ZERO_TIME && amount.positive && Storable(amount)
                 && ops[n].order.id !in Trail(ops)[n].orders && ops[n].ending.Durable()
                 && Distinct(d.performers) && forall p :: p in d.performers ==> p in ops[n].active
    ensures Trail(ops)[n + 1] != Trail(ops)[n] ==> ops[n].order.id in Trail(ops)[n + 1].orders
  {
    hide Parse, B.Sensible, Trail, CreateOp, Storable, NewOrder;
    StepAt(ops, n);
    ConfirmedOrderIsCreatedIff(Trail(ops)[n], d, amount, actor, ops[n].order.id, ops[n].active, ops[n].eventId,
        ops[n].ending);
    if Trail(ops)[n + 1] != Trail(ops)[n] {
      CreatedIsThere(Trail(ops)[n], ops[n].order, ops[n].active, ops[n].eventId, ops[n].ending);
    }
  }

  /**
   * Nothing marks a confirmed order draft as used but its deletion behind a reported success. After
   * a lost answer or a failed delete it is still there, and a second /confirm, whose order gets an
   * identifier of its own, creates a second order exactly when the performers are still active and
   * the transaction is durable.
   */
  lemma ConfirmedTwiceIsCreatedTwiceIff(ops: seq<Op>, n: nat, again: nat, d: B.Draft, amount: Amount, actor: Uuid)
    requires n < again < |ops| && B.Sensible(d) && d.kind.OrderKind? && d.step.ConfirmStep? && Parse(d.date).Some?
    requires Submits(ops[n], d, amount, actor) && Submits(ops[again], d, amount, actor)
    requires Trail(ops)[n + 1] != Trail(ops)[n] && ops[again].order.id !in Trail(ops)[again].orders
    ensures Trail(ops)[again + 1] != Trail(ops)[again]
            <==> ops[again].ending.Durable() && forall p :: p in d.performers ==> p in ops[again].active
    ensures Trail(ops)[again + 1] != Trail(ops)[again] ==>
              && ops[n].order.id != ops[again].order.id
              && ops[n].order.id in Trail(ops)[again + 1].orders && ops[again].order.id in Trail(ops)[again + 1].orders
  {
    hide Parse, B.Sensible, Trail, Submits, Storable, NewOrder, Distinct;
    SubmissionTakesEffectIff(ops, n, d, amount, actor);
    SubmissionTakesEffectIff(ops, again, d, amount, actor);
    OrderStays(ops, n + 1, again, ops[n].order.id);
    OrderStays(ops, again, again + 1, ops[n].order.id);
  }

  /** The draft survives a /confirm whose success was not reported, or whose delete fails. */
  lemma UnreportedConfirmKeepsDraft(d: B.Draft, w: B.World)
    requires d.step.ConfirmStep? && (!w.called || w.stored.Aborted?)
    ensures B.Handle(d, "/confirm", w) == Some(d)
  {
    hide Parse;
  }
}

