/** New orders through the bot: the draft holds each answer in its field, and can be completed. */
module BotOrders {
  import opened Prelude
  import opened Calendar
  import opened BotText
  import opened Bot
  import opened BotCommands

  // ---------- A draft is its answers ----------

  function Nth(texts: seq<string>, i: nat): string {
    if i < |texts| then texts[i] else ""
  }

  /** An answer that '-' leaves out. */
  function Optional(texts: seq<string>, i: nat): string {
    if i < |texts| && texts[i] != "-" then texts[i] else ""
  }

  const STEPS: seq<Step> := [
    DateStep, LocationStep, AmountStep, NameStep, PhoneStep, ContactStep, CommentStep, PerformersStep, ConfirmStep]

  /** The draft of a new order after these answers: date, location, amount, name, phone, contact, comment. */
  function DraftOf(texts: seq<string>, performers: seq<Uuid>): Draft
    requires |texts| <= 8
  {
    Draft(OrderKind, STEPS[|texts|], "", "", "", NIL, 0, Nth(texts, 0), Nth(texts, 1), Nth(texts, 2), Nth(texts, 3),
          Nth(texts, 4), Optional(texts, 5), Optional(texts, 6), performers)
  }

  lemma BlankIsDraft()
    ensures Blank(OrderKind, DateStep) == DraftOf([], []) && Sensible(Blank(OrderKind, DateStep))
  {
  }

  /** Some message of a dialogue named these performers, as the users stood then. */
  predicate NamedIn(es: seq<Event>, text: string, performers: seq<Uuid>) {
    exists k :: 0 <= k < |es| && es[k].Received? && Trim(es[k].raw) == text
                && Resolve(es[k].world.users, text) == Some(performers)
  }

  /** The draft is these answers, and the performers are those named by the eighth. */
  predicate Holds(es: seq<Event>, d: Option<Draft>, texts: seq<string>) {
    && d.Some? && |texts| <= 8 && d.value == DraftOf(texts, d.value.performers) && Sensible(d.value)
    && (if |texts| == 8 then NamedIn(es, texts[7], d.value.performers) else d.value.performers == [])
  }

  lemma StartHolds()
    ensures Holds([], Some(Blank(OrderKind, DateStep)), [])
  {
    BlankIsDraft();
  }

  lemma MeasureOfDraft(texts: seq<string>, performers: seq<Uuid>)
    requires |texts| <= 8
    ensures Measure(DraftOf(texts, performers)) == 8 - |texts|
    ensures DraftOf(texts, performers).step.ConfirmStep? <==> |texts| == 8
  {
  }

  /**
   * An answer is accepted exactly when it is not empty, the first a date, the seventh with the users
   * listed and the eighth naming performers; it goes to the field it was asked for.
   */
  lemma AnswerIsHeld(texts: seq<string>, performers: seq<Uuid>, text: string, w: World)
    requires |texts| < 8
    ensures var r := Answer(DraftOf(texts, performers), text, w);
            && (r.Some? <==> && text != "" && (|texts| == 0 ==> Parse(text).Some?) && (|texts| == 6 ==> w.users.Some?)
                             && (|texts| == 7 ==> Resolve(w.users, text).Some?))
            && (r.Some? ==>
              && r.value == DraftOf(texts + [text], r.value.performers)
              && (if |texts| == 7 then Resolve(w.users, text) == Some(r.value.performers)
                  else r.value.performers == performers))
  {
    hide Parse, Resolve;
    var all := texts + [text];
    assert forall i: nat :: i < |texts| ==> all[i] == texts[i];
  }

  lemma NamedInLonger(es: seq<Event>, e: Event, text: string, performers: seq<Uuid>)
    requires NamedIn(es, text, performers)
    ensures NamedIn(es + [e], text, performers)
  {
    var k :| 0 <= k < |es| && es[k].Received? && Trim(es[k].raw) == text
             && Resolve(es[k].world.users, text) == Some(performers);
    assert (es + [e])[k] == es[k];
  }

  lemma NamedLast(es: seq<Event>, e: Event, performers: seq<Uuid>)
    requires e.Received? && Resolve(e.world.users, Trim(e.raw)) == Some(performers)
    ensures NamedIn(es + [e], Trim(e.raw), performers)
  {
    assert (es + [e])[|es|] == e;
  }

  lemma OrderStep(texts: seq<string>, performers: seq<Uuid>, e: Event)
    requires |texts| <= 8 && Sensible(DraftOf(texts, performers)) && Next(Some(DraftOf(texts, performers)), e).Some?
    ensures var d := DraftOf(texts, performers);
            var r := Next(Some(d), e).value;
            && Sensible(r)
            && (r != d ==>
                  && |texts| < 8 && e.Received? && r == DraftOf(texts + [Trim(e.raw)], r.performers)
                  && (if |texts| == 7 then Resolve(e.world.users, Trim(e.raw)) == Some(r.performers)
                      else r.performers == performers))
  {
    hide Next, Measure, Sensible, Answer, Trim, Resolve, DraftOf;
    DialogueStep(DraftOf(texts, performers), e);
    MeasureOfDraft(texts, performers);
    if Next(Some(DraftOf(texts, performers)), e) != Some(DraftOf(texts, performers)) {
      AnswerIsHeld(texts, performers, Trim(e.raw), e.world);
    }
  }

  lemma StepHolds(es: seq<Event>, e: Event, d: Draft, texts: seq<string>)
    requires Holds(es, Some(d), texts) && Next(Some(d), e).Some?
    ensures Holds(es + [e], Next(Some(d), e),
                  if Next(Some(d), e) != Some(d) && e.Received? then texts + [Trim(e.raw)] else texts)
  {
    hide Next, Sensible, Trim, Resolve, DraftOf, NamedIn;
    OrderStep(texts, d.performers, e);
    var r := Next(Some(d), e).value;
    if r == d {
      if |texts| == 8 {
        NamedInLonger(es, e, texts[7], d.performers);
      }
    } else if |texts| == 7 {
      NamedLast(es, e, r.performers);
    }
  }

  /**
   * Whatever refused messages and failed saves come between, the draft of a new order is its accepted
   * answers, each in its own field; the eighth named the performers.
   */
  lemma {:induction false} OrderIsItsAnswers(es: seq<Event>)
    requires StaysOpen(Blank(OrderKind, DateStep), es)
    ensures Holds(es, From(Some(Blank(OrderKind, DateStep)), es), Accepted(Blank(OrderKind, DateStep), es))
  {
    hide Next, Sensible, Trim, DraftOf, Holds;
    var start := Blank(OrderKind, DateStep);
    if es == [] {
      StartHolds();
    } else {
      var init, e := es[..|es| - 1], es[|es| - 1];
      assert forall n :: 0 <= n <= |init| ==> init[..n] == es[..n];
      OrderIsItsAnswers(init);
      assert es[..|es|] == es && init + [e] == es;
      assert From(Some(start), init).Some? by {
        assert es[..|init|] == init;
      }
      StepHolds(init, e, From(Some(start), init).value, Accepted(start, init));
    }
  }

  // ---------- Every new order can be completed ----------

  /** Answers a new order takes: no command, nothing to trim, none empty, a date first and known performers last. */
  predicate Takable(texts: seq<string>, w: World) {
    && (forall i :: 0 <= i < |texts| ==> Trim(texts[i]) == texts[i] != "/cancel" && texts[i] != "")
    && (texts != [] ==> Parse(texts[0]).Some?)
    && w.users.Some? && (|texts| == 8 ==> Resolve(w.users, texts[7]).Some?)
  }

  predicate Answerable(w: World) {
    w.loaded && w.stored.Durable()
  }

  lemma OneMoreIsTaken(d: Draft, text: string, w: World)
    requires d.kind.OrderKind? && StepFits(d) && Measure(d) > 0 && Answerable(w) && w.users.Some?
    requires Trim(text) == text != "/cancel" && text != ""
    requires d.step.DateStep? ==> Parse(text).Some?
    requires d.step.PerformersStep? ==> Resolve(w.users, text).Some?
    ensures var r := Next(Some(d), Received(text, w));
            r == Answer(d, text, w) && r.Some?
  {
    hide Trim, Parse, Resolve;
  }

  lemma MeasureOfOrder(d: Draft)
    requires d.kind.OrderKind? && StepFits(d)
    ensures d.step.DateStep? <==> Measure(d) == 8
    ensures d.step.PerformersStep? <==> Measure(d) == 1
    ensures d.step.ConfirmStep? <==> Measure(d) == 0
  {
  }

  lemma DraftFits(texts: seq<string>, performers: seq<Uuid>)
    requires |texts| <= 8
    ensures DraftOf(texts, performers).kind.OrderKind? && StepFits(DraftOf(texts, performers))
  {
  }

  /** The performers the eighth answer names. */
  function Chosen(texts: seq<string>, w: World): seq<Uuid> {
    if |texts| == 8 && Resolve(w.users, texts[7]).Some? then Resolve(w.users, texts[7]).value else []
  }

  /** Up to eight such answers are all taken, each into its field. */
  lemma {:induction false} AnswersAreTaken(texts: seq<string>, w: World)
    requires |texts| <= 8 && Takable(texts, w) && Answerable(w)
    ensures From(Some(Blank(OrderKind, DateStep)), Typed(texts, w)) == Some(DraftOf(texts, Chosen(texts, w)))
  {
    hide Next, Answer, AnswerOrder, Trim, Parse, StepFits, Measure, Typed, Resolve, DraftOf;
    if texts == [] {
      BlankIsDraft();
    } else {
      var init, last := texts[..|texts| - 1], texts[|texts| - 1];
      AnswersAreTaken(init, w);
      TypedPart(texts, w, |texts| - 1);
      var d := DraftOf(init, []);
      DraftFits(init, []);
      MeasureOfDraft(init, []);
      MeasureOfOrder(d);
      OneMoreIsTaken(d, last, w);
      AnswerIsHeld(init, [], last, w);
      assert init + [last] == texts;
    }
  }

  /**
   * The dialogue a permitted user opens with /neworder reaches confirm by eight such answers, with
   * each answer in its field and the performers the last one names.
   */
  lemma NewOrderReachesConfirm(command: string, texts: seq<string>, w: World)
    requires Calls(command, NEW_ORDER) && |texts| == 8 && Takable(texts, w) && Answerable(w) && w.permitted
    ensures var r := Run([Received(command, w)] + Typed(texts, w));
            && r.Some? && r.value.kind.OrderKind? && r.value.step.ConfirmStep?
            && r.value.date == texts[0] && r.value.location == texts[1] && r.value.amount == texts[2]
            && r.value.name == texts[3] && r.value.phone == texts[4]
            && r.value.contact == (if texts[5] == "-" then "" else texts[5])
            && r.value.comment == (if texts[6] == "-" then "" else texts[6])
            && Resolve(w.users, texts[7]) == Some(r.value.performers)
  {
    hide Message, Trim, Parse, StepFits, Measure, Typed, Resolve;
    var open := [Received(command, w)];
    NewOrderOpens(command, w);
    assert open[..0] == [];
    assert From(None, open) == Some(Blank(OrderKind, DateStep));
    FromAppend(None, open, Typed(texts, w));
    AnswersAreTaken(texts, w);
  }

  // ---------- A performer named twice ----------

  function Twice(login: string): string {
    login + [','] + login
  }

  /** The login of an active performer, written twice, resolves to that performer twice. */
  lemma TwiceResolves(users: seq<Listed>, login: string)
    requires login != "" && Trim(login) == login && ',' !in login && Known(users, Lower(login))
    ensures Trim(Twice(login)) == Twice(login) != "/cancel" && Twice(login) != ""
    ensures exists id: nat :: Denotes(users, Lower(login), id) && Resolve(Some(users), Twice(login)) == Some([id, id])
  {
    hide Lower, Known, Denotes, Split;
    var text := Twice(login);
    TrimKeeps(login);
    TrimKeeps(text);
    assert text[|login|] == ',';
    assert ',' !in "/cancel" && ',' !in "-";
    hide Trim;
    SplitAtFirst(login, login, ',');
    SplitNowhere(login, ',');
    var names := Split(text, ',');
    assert names == [login, login];
    assert AllKnown(users, names);
    ResolvedArePerformers(users, text);
    var ids := Resolve(Some(users), text).value;
    ByLoginOwner(users, Lower(login));
    LookUpIsPointwise(ByLogin(users), names);
    assert ids == [ids[0], ids[0]];
  }

  /** A draft that names one performer twice is reachable, at confirm. */
  lemma RepeatedLoginReachesConfirm(command: string, texts: seq<string>, login: string, w: World)
    requires Calls(command, NEW_ORDER) && |texts| == 7 && Takable(texts, w) && Answerable(w) && w.permitted
    requires login != "" && Trim(login) == login && ',' !in login && Known(w.users.value, Lower(login))
    ensures var r := Run([Received(command, w)] + Typed(texts + [Twice(login)], w));
            r.Some? && r.value.kind.OrderKind? && r.value.step.ConfirmStep? && !Distinct(r.value.performers)
  {
    hide Trim, Parse, Known, Run, Typed, Resolve, Twice, Lower;
    TwiceResolves(w.users.value, login);
    var id: nat :| Denotes(w.users.value, Lower(login), id)
        && Resolve(Some(w.users.value), Twice(login)) == Some([id, id]);
    var all := texts + [Twice(login)];
    NewOrderReachesConfirm(command, all, w);
    assert [id, id][0] == [id, id][1];
  }
}

