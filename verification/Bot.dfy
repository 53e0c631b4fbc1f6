/**
 * The dialogues of internal/bot/service.go on values: what one message does to the stored draft
 * of its sender, and what every dialogue keeps.
 */
module Bot {
  import opened Prelude
  import opened Calendar
  import opened Money
  import opened BotText
  import O = Orders

  datatype Kind = OrderKind | EditKind | UserKind

  datatype Step =
    | DateStep | LocationStep | AmountStep | NameStep | PhoneStep | ContactStep | CommentStep | PerformersStep
    | LoginStep | FullNameStep | RoleStep
    | ConfirmStep

  datatype Draft = Draft(
    kind: Kind,
    step: Step,
    login: string, fullName: string, role: string,
    orderId: Uuid, version: int,
    date: string, location: string, amount: string, name: string, phone: string, contact: string, comment: string,
    performers: seq<Uuid>)

  function Blank(kind: Kind, step: Step): Draft {
    Draft(kind, step, "", "", "", NIL, 0, "", "", "", "", "", "", "", [])
  }

  // ---------- One answer ----------

  /** What the services answer while a message is handled. */
  datatype World = World(
    loaded: bool,                       // the draft store could be read
    permitted: bool,                    // the sender is known and may do this
    order: Option<O.Order>,             // GetOrder
    users: Option<seq<Listed>>,         // ListUsers
    called: bool,                       // CreateOrder, UpdateOrder or CreateUser succeeded
    stored: Ending)                     // the SET or DEL of the draft

  /** The draft an answer to an order dialogue leads to; None when it is refused. */
  function AnswerOrder(d: Draft, text: string, w: World): Option<Draft> {
    if d.step.ConfirmStep? || text == "" then None
    else
      match d.step
      case DateStep => if Parse(text).None? then None else Some(d.(date := text, step := LocationStep))
      case LocationStep => Some(d.(location := text, step := AmountStep))
      case AmountStep => Some(d.(amount := text, step := NameStep))
      case NameStep => Some(d.(name := text, step := PhoneStep))
      case PhoneStep => Some(d.(phone := text, step := ContactStep))
      case ContactStep => Some(d.(contact := if text != "-" then text else d.contact, step := CommentStep))
      case CommentStep =>
        if w.users.None? then None
        else Some(d.(comment := if text != "-" then text else d.comment, step := PerformersStep))
      case PerformersStep =>
        if Resolve(w.users, text).None? then None
        else Some(d.(performers := Resolve(w.users, text).value, step := ConfirmStep))
      case _ => Some(d)
  }

  function Keep(current: string, text: string): string {
    if text != "-" then text else current
  }

  function AnswerEdit(d: Draft, text: string): Option<Draft> {
    match d.step
    case DateStep =>
      if text != "-" && Parse(text).None? then None else Some(d.(date := Keep(d.date, text), step := LocationStep))
    case LocationStep => Some(d.(location := Keep(d.location, text), step := AmountStep))
    case AmountStep => Some(d.(amount := Keep(d.amount, text), step := NameStep))
    case NameStep => Some(d.(name := Keep(d.name, text), step := PhoneStep))
    case PhoneStep => Some(d.(phone := Keep(d.phone, text), step := ContactStep))
    case ContactStep => Some(d.(contact := Keep(d.contact, text), step := CommentStep))
    case CommentStep => Some(d.(comment := Keep(d.comment, text), step := ConfirmStep))
    case ConfirmStep => None
    case _ => Some(d)
  }

  function AnswerUser(d: Draft, text: string): Option<Draft> {
    match d.step
    case LoginStep => Some(d.(login := text, step := FullNameStep))
    case FullNameStep => Some(d.(fullName := text, step := RoleStep))
    case RoleStep =>
      if Lower(text) != "admin" && Lower(text) != "performer" then None
      else Some(d.(role := Lower(text), step := ConfirmStep))
    case ConfirmStep => None
    case _ => Some(d)
  }

  function Answer(d: Draft, text: string, w: World): Option<Draft> {
    match d.kind
    case OrderKind => AnswerOrder(d, text, w)
    case EditKind => AnswerEdit(d, text)
    case UserKind => AnswerUser(d, text)
  }

  /** What the store holds after a write that ends as given. */
  function After(old_: Option<Draft>, new_: Option<Draft>, ending: Ending): Option<Draft> {
    if ending.Durable() then new_ else old_
  }

  /** confirmDraft, confirmEditDraft, confirmUserDraft: the draft is deleted behind a successful call. */
  function Confirm(d: Draft, w: World): Option<Draft> {
    var parsed := d.kind.UserKind? || Parse(d.date).Some?;
    if w.permitted && parsed && w.called then After(Some(d), None, w.stored) else Some(d)
  }

  function Handle(d: Draft, text: string, w: World): Option<Draft> {
    if d.step.ConfirmStep? then (if text == "/confirm" then Confirm(d, w) else Some(d))
    else
      match Answer(d, text, w)
      case None => Some(d)
      case Some(next) => After(Some(d), Some(next), w.stored)
  }

  /** The draft startEditDraft captures: the order's fields as text, and its version. */
  function StartEdit(o: O.Order): Draft
    requires ValidDate(o.date) && o.date.year < 10000
  {
    Draft(EditKind, DateStep, "", "", "", o.id, o.version, Format(o.date), o.location, o.amount.text, o.name, o.phone,
        o.contact, o.comment, [])
  }

  predicate Printable(o: O.Order) {
    ValidDate(o.date) && o.date.year < 10000
  }

  datatype Command = NewOrder | NewUser | EditOrder | OtherCommand

  /** A command that opens a dialogue; the others leave the drafts alone. */
  function Open(c: Command, w: World): Option<Draft> {
    match c
    case NewOrder => if w.permitted then After(None, Some(Blank(OrderKind, DateStep)), w.stored) else None
    case NewUser => if w.permitted then After(None, Some(Blank(UserKind, LoginStep)), w.stored) else None
    case EditOrder =>
      if w.permitted && w.order.Some? && Printable(w.order.value)
      then After(None, Some(StartEdit(w.order.value)), w.stored) else None
    case OtherCommand => None
  }

  /** The first word up to '@'; /editorder takes exactly one more word. */
  function CommandOf(text: string): Command {
    var parts := Fields(text);
    if parts == [] then OtherCommand
    else
      var name := Split(parts[0], '@')[0];
      if name == "/neworder" then NewOrder
      else if name == "/newuser" then NewUser
      else if name == "/editorder" && |parts| == 2 then EditOrder
      else OtherCommand
  }

  /** handle: one message against the stored draft of its sender. */
  function Message(stored: Option<Draft>, raw: string, w: World): Option<Draft> {
    var text := Trim(raw);
    if text == "/cancel" then After(stored, None, w.stored)
    else if !w.loaded then stored
    else
      match stored
      case Some(d) => Handle(d, text, w)
      case None => Open(CommandOf(text), w)
  }

  // ---------- The measure ----------

  /** The answers a dialogue still needs before it can be confirmed: 8 for an order, 7 for an edit, 3 for a user. */
  function Measure(d: Draft): nat {
    match d.step
    case ConfirmStep => 0
    case PerformersStep => 1
    case CommentStep => if d.kind.EditKind? then 1 else 2
    case ContactStep => if d.kind.EditKind? then 2 else 3
    case PhoneStep => if d.kind.EditKind? then 3 else 4
    case NameStep => if d.kind.EditKind? then 4 else 5
    case AmountStep => if d.kind.EditKind? then 5 else 6
    case LocationStep => if d.kind.EditKind? then 6 else 7
    case DateStep => if d.kind.EditKind? then 7 else 8
    case LoginStep => 3
    case FullNameStep => 2
    case RoleStep => 1
  }

  predicate StepFits(d: Draft) {
    match d.kind
    case OrderKind => !d.step.LoginStep? && !d.step.FullNameStep? && !d.step.RoleStep?
    case EditKind => !d.step.LoginStep? && !d.step.FullNameStep? && !d.step.RoleStep? && !d.step.PerformersStep?
    case UserKind => d.step.LoginStep? || d.step.FullNameStep? || d.step.RoleStep? || d.step.ConfirmStep?
  }

  predicate Filled(text: string) {
    !O.Blank(text)
  }

  /** What the answers given so far guarantee. */
  predicate Sensible(d: Draft) {
    && StepFits(d)
    && (d.kind.EditKind? ==> Parse(d.date).Some?)
    && (d.kind.OrderKind? ==>
          && (Measure(d) < 8 ==> Parse(d.date).Some?)
          && (Measure(d) < 7 ==> Filled(d.location))
          && (Measure(d) < 6 ==> Filled(d.amount))
          && (Measure(d) < 5 ==> Filled(d.name))
          && (Measure(d) < 4 ==> Filled(d.phone)))
    && (d.kind.UserKind? && d.step.ConfirmStep? ==> d.role == "admin" || d.role == "performer")
  }

  lemma OrderAnswerLowers(d: Draft, text: string, w: World)
    requires Sensible(d) && d.kind.OrderKind? && (text != "" ==> Filled(text))
    requires AnswerOrder(d, text, w).Some?
    ensures Measure(AnswerOrder(d, text, w).value) == Measure(d) - 1 && Sensible(AnswerOrder(d, text, w).value)
  {
    hide Filled, Parse, Resolve;
  }

  lemma EditAnswerLowers(d: Draft, text: string)
    requires Sensible(d) && d.kind.EditKind? && AnswerEdit(d, text).Some?
    ensures Measure(AnswerEdit(d, text).value) == Measure(d) - 1 && Sensible(AnswerEdit(d, text).value)
  {
    hide Filled, Parse;
  }

  lemma UserAnswerLowers(d: Draft, text: string)
    requires Sensible(d) && d.kind.UserKind? && AnswerUser(d, text).Some?
    ensures Measure(AnswerUser(d, text).value) == Measure(d) - 1 && Sensible(AnswerUser(d, text).value)
  {
    hide Filled, Parse;
  }

  /** Every accepted answer takes the dialogue one step on, and keeps it sensible. */
  lemma AnswerLowersMeasure(d: Draft, text: string, w: World)
    requires Sensible(d) && !d.step.ConfirmStep? && (text != "" ==> Filled(text))
    requires Answer(d, text, w).Some?
    ensures Measure(Answer(d, text, w).value) == Measure(d) - 1
    ensures Sensible(Answer(d, text, w).value)
    ensures Answer(d, text, w).value.kind == d.kind
  {
    hide Filled, Parse, Measure, Sensible;
    match d.kind {
      case OrderKind => OrderAnswerLowers(d, text, w);
      case EditKind => EditAnswerLowers(d, text);
      case UserKind => UserAnswerLowers(d, text);
    }
  }

  // ---------- Every dialogue ----------

  datatype Event =
    | Received(raw: string, world: World)
    | Expired

  function Next(stored: Option<Draft>, e: Event): Option<Draft> {
    match e
    case Received(raw, w) => Message(stored, raw, w)
    case Expired => None
  }

  /** The stored draft of a user after a sequence of events. */
  function From(stored: Option<Draft>, es: seq<Event>): Option<Draft> {
    if es == [] then stored else Next(From(stored, es[..|es| - 1]), es[|es| - 1])
  }

  function Run(es: seq<Event>): Option<Draft> {
    From(None, es)
  }

  /** The messages of a user who types these answers one after the other. */
  function Typed(texts: seq<string>, w: World): (es: seq<Event>)
    ensures |es| == |texts| && forall i :: 0 <= i < |es| ==> es[i] == Received(texts[i], w)
  {
    seq(|texts|, i requires 0 <= i < |texts| => Received(texts[i], w))
  }

  lemma TypedPart(texts: seq<string>, w: World, n: nat)
    requires n <= |texts|
    ensures Typed(texts, w)[..n] == Typed(texts[..n], w)
  {
  }

  lemma FromNone(stored: Option<Draft>)
    ensures From(stored, []) == stored
  {
  }

  lemma {:induction false} FromAppend(stored: Option<Draft>, xs: seq<Event>, ys: seq<Event>)
    ensures From(stored, xs + ys) == From(From(stored, xs), ys)
    decreases |ys|
  {
    hide Next;
    if ys == [] {
      assert xs + ys == xs;
    } else {
      assert (xs + ys)[..|xs + ys| - 1] == xs + ys[..|ys| - 1];
      FromAppend(stored, xs, ys[..|ys| - 1]);
    }
  }

  lemma TrimmedIsFilled(raw: string)
    ensures Trim(raw) != "" ==> Filled(Trim(raw))
  {
  }

  lemma StartIsSensible(o: O.Order)
    requires Printable(o)
    ensures Sensible(StartEdit(o))
  {
    hide Parse, Format;
    ParseFormat(o.date);
  }

  lemma OpenedIsSensible(c: Command, w: World)
    ensures Open(c, w).Some? ==> Sensible(Open(c, w).value)
  {
    hide Parse, Format;
    if w.order.Some? && Printable(w.order.value) {
      StartIsSensible(w.order.value);
    }
  }

  lemma HandledStaysSensible(d: Draft, text: string, w: World)
    requires Sensible(d) && (text != "" ==> Filled(text))
    ensures Handle(d, text, w).Some? ==> Sensible(Handle(d, text, w).value)
  {
    hide Sensible, Answer, Filled;
    if !d.step.ConfirmStep? && Answer(d, text, w).Some? {
      AnswerLowersMeasure(d, text, w);
    }
  }

  lemma NextStaysSensible(stored: Option<Draft>, e: Event)
    requires stored.Some? ==> Sensible(stored.value)
    ensures Next(stored, e).Some? ==> Sensible(Next(stored, e).value)
  {
    hide Sensible, Handle, Open, Filled, Trim, CommandOf;
    if e.Received? {
      TrimmedIsFilled(e.raw);
      if stored.Some? {
        HandledStaysSensible(stored.value, Trim(e.raw), e.world);
      } else {
        OpenedIsSensible(CommandOf(Trim(e.raw)), e.world);
      }
    }
  }

  /**
   * In every reachable state a stored draft is sensible: at confirm an order or edit draft holds a
   * date that parses, and an order draft a non-blank location, amount, name and phone.
   */
  lemma {:induction false} DraftsAreSensible(es: seq<Event>)
    ensures Run(es).Some? ==> Sensible(Run(es).value)
  {
    if es != [] {
      DraftsAreSensible(es[..|es| - 1]);
      NextStaysSensible(Run(es[..|es| - 1]), es[|es| - 1]);
    }
  }

  /** The request a confirmed draft sends; `amount` is how the services read its amount. */
  function RequestOf(d: Draft, amount: Amount, actor: Uuid): O.Order
    requires Parse(d.date).Some?
  {
    O.Order(d.orderId, Parse(d.date).value, d.location, amount, d.name, d.phone, d.contact, d.comment,
            O.Planned, NIL, actor, d.version, d.performers)
  }

  /** The order an order draft asks for passes every check of the order service but the one on its amount. */
  lemma ConfirmedOrderIsValid(d: Draft, amount: Amount, actor: Uuid)
    requires Sensible(d) && d.kind.OrderKind? && d.step.ConfirmStep?
    ensures Parse(d.date).Some?
    ensures Parse(d.date).value != ZERO_TIME && amount.positive ==> O.Valid(RequestOf(d, amount, actor))
  {
    hide Parse, O.Blank;
  }

  /**
   * A message moves a stored draft by one accepted answer, removes it by /cancel or /confirm, or
   * leaves it exactly as it was: refused input and failed calls change nothing.
   */
  lemma MessageMovesOneStep(d: Draft, raw: string, w: World)
    requires Sensible(d)
    ensures var r := Message(Some(d), raw, w);
            var text := Trim(raw);
            || r == Some(d)
            || (r == None && w.stored.Durable()
               && (text == "/cancel" || (text == "/confirm" && d.step.ConfirmStep? && w.called && w.permitted)))
            || (r.Some? && w.stored.Durable() && Answer(d, text, w) == r && Measure(r.value) == Measure(d) - 1)
    ensures Answer(d, Trim(raw), w).None? && !d.step.ConfirmStep? && Trim(raw) != "/cancel"
        ==> Message(Some(d), raw, w) == Some(d)
    ensures w.stored.Aborted? || !w.loaded ==>
              Message(Some(d), raw, w) == Some(d) || (w.stored.Durable() && Trim(raw) == "/cancel")
  {
    var text := Trim(raw);
    if !d.step.ConfirmStep? && Answer(d, text, w).Some? {
      AnswerLowersMeasure(d, text, w);
    }
  }

  // ---------- A dialogue that stays open ----------

  /** The answers accepted since a dialogue was opened, among all the messages received. */
  function Accepted(start: Draft, es: seq<Event>): seq<string> {
    if es == [] then []
    else
      var earlier := Accepted(start, es[..|es| - 1]);
      var before := From(Some(start), es[..|es| - 1]);
      var last := es[|es| - 1];
      if before.Some? && Next(before, last).Some? && Next(before, last) != before && last.Received?
      then earlier + [Trim(last.raw)] else earlier
  }

  predicate StaysOpen(start: Draft, es: seq<Event>) {
    forall n :: 0 <= n <= |es| ==> From(Some(start), es[..n]).Some?
  }

  lemma NotAtConfirm(d: Draft, text: string, w: World)
    requires Sensible(d) && Answer(d, text, w).Some?
    ensures !d.step.ConfirmStep?
  {
    hide Parse, Filled, Resolve;
  }

  /** A step of a dialogue that stays open: nothing, or one accepted answer. */
  lemma DialogueStep(d: Draft, e: Event)
    requires Sensible(d) && Next(Some(d), e).Some?
    ensures var r := Next(Some(d), e);
            r == Some(d)
            || (e.Received? && Answer(d, Trim(e.raw), e.world) == r && !d.step.ConfirmStep?
                && Measure(r.value) == Measure(d) - 1 && Sensible(r.value) && r.value.kind == d.kind)
  {
    hide Message, Measure, Sensible, Filled, Trim, Answer;
    if e.Received? {
      MessageMovesOneStep(d, e.raw, e.world);
      if Next(Some(d), e) != Some(d) {
        TrimmedIsFilled(e.raw);
        NotAtConfirm(d, Trim(e.raw), e.world);
        AnswerLowersMeasure(d, Trim(e.raw), e.world);
      }
    }
  }

  /**
   * The draft ends by /cancel, or by /confirm behind a call that succeeded, when the store answers,
   * and in no other way.
   */
  lemma DraftEndsIff(d: Draft, raw: string, w: World)
    requires Sensible(d)
    ensures Message(Some(d), raw, w) == None
            <==> w.stored.Durable()
                 && (Trim(raw) == "/cancel"
                     || (Trim(raw) == "/confirm" && d.step.ConfirmStep? && w.loaded && w.permitted && w.called))
  {
    hide Parse, Filled, Answer;
    assert "/cancel" != "/confirm";
  }
}
