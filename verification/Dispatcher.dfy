/**
 * The delivery loop of internal/notification/service.go as a step machine next to the consumer:
 * a snapshot of at most fifty deliverable rows is sent one by one, each send outside any
 * transaction and followed by the UPDATE that marks the row.
 */
module Dispatcher {
  import opened Prelude
  import opened Events
  import N = Notifications

  const ROUND_LIMIT: nat := 50

  /** A row of the snapshot: its place in the notifications table and the chat to send to. */
  datatype Target = Target(row: nat, chat: int)

  /** A send that Telegram accepted, with the recipients table its snapshot was taken from. */
  datatype Receipt = Receipt(target: Target, seen: map<Uuid, N.Recipient>)

  /** `lost` lists the rows whose send succeeded but whose mark was not stored. */
  datatype State = State(
    sink: N.State,
    batch: seq<Target>,
    view: map<Uuid, N.Recipient>,
    receipts: seq<Receipt>,
    lost: seq<nat>)

  const EMPTY: State := State(N.EMPTY, [], map[], [], [])

  datatype SendResult =
    /** Telegram refused; the error UPDATE may itself fail, which is ignored. */
    | Refused(recorded: bool)
    /** Telegram accepted; the marking UPDATE ends as given. */
    | Accepted(marking: Ending)

  datatype Label =
    | Consume(delivery: N.Delivery)
    | Snapshot
    | Attempt(result: SendResult)
    | Stop

  // ---------- Steps ----------

  predicate Deliverable(s: N.State, i: nat)
    requires i < |s.notices|
  {
    && s.notices[i].status.Pending?
    && s.notices[i].recipient in s.recipients
    && s.recipients[s.notices[i].recipient].active
    && s.recipients[s.notices[i].recipient].telegram.Some?
  }

  predicate Bound(seen: map<Uuid, N.Recipient>, ns: seq<N.Notice>, t: Target) {
    && t.row < |ns|
    && ns[t.row].recipient in seen
    && seen[ns[t.row].recipient] == N.Recipient(Some(t.chat), true)
  }

  /** The deliverable rows from row i on, in table order. */
  function TargetsFrom(s: N.State, i: nat): (ts: seq<Target>)
    requires i <= |s.notices|
    ensures forall k :: 0 <= k < |ts| ==>
        i <= ts[k].row && Bound(s.recipients, s.notices, ts[k]) && s.notices[ts[k].row].status.Pending?
    ensures forall k, m :: 0 <= k < m < |ts| ==> ts[k].row < ts[m].row
    decreases |s.notices| - i
  {
    if i == |s.notices| then []
    else if Deliverable(s, i) then
      [Target(i, s.recipients[s.notices[i].recipient].telegram.value)] + TargetsFrom(s, i + 1)
    else TargetsFrom(s, i + 1)
  }

  /** A row is among them exactly when it is pending and its recipient is active and bound, then with that chat. */
  lemma {:induction false} TargetsFromIff(s: N.State, i: nat, t: Target)
    requires i <= |s.notices|
    ensures t in TargetsFrom(s, i) <==>
              && i <= t.row < |s.notices| && s.notices[t.row].status == N.Pending
              && s.notices[t.row].recipient in s.recipients
              && s.recipients[s.notices[t.row].recipient] == N.Recipient(Some(t.chat), true)
    decreases |s.notices| - i
  {
    if i < |s.notices| {
      TargetsFromIff(s, i + 1, t);
    }
  }

  function Targets(s: N.State): seq<Target> {
    TargetsFrom(s, 0)
  }

  function Take(ts: seq<Target>): seq<Target> {
    if |ts| <= ROUND_LIMIT then ts else ts[..ROUND_LIMIT]
  }

  function MarkSent(s: N.State, i: nat): N.State
    requires i < |s.notices|
  {
    var n := s.notices[i];
    s.(notices := s.notices[i := n.(status := N.Sent, attempts := n.attempts + 1, failed := false)])
  }

  function MarkFailed(s: N.State, i: nat): N.State
    requires i < |s.notices|
  {
    var n := s.notices[i];
    s.(notices := s.notices[i := n.(attempts := n.attempts + 1, failed := true)])
  }

  /** The loop body for the first row left in the batch. */
  function AttemptStep(s: State, result: SendResult): State
    requires s.batch != [] && s.batch[0].row < |s.sink.notices|
  {
    var t := s.batch[0];
    match result
    case Refused(recorded) =>
      s.(sink := if recorded then MarkFailed(s.sink, t.row) else s.sink, batch := s.batch[1..])
    case Accepted(marking) =>
      var sent := s.(receipts := s.receipts + [Receipt(t, s.view)]);
      match marking
      case Committed => sent.(sink := MarkSent(s.sink, t.row), batch := s.batch[1..])
      case AckLost => sent.(sink := MarkSent(s.sink, t.row), batch := [])
      case Aborted => sent.(lost := s.lost + [t.row], batch := [])
  }

  function Step(s: State, l: Label): State {
    match l
    case Consume(d) => s.(sink := N.Deliver(s.sink, d))
    case Snapshot => s.(batch := Take(Targets(s.sink)), view := s.sink.recipients)
    case Attempt(result) =>
      if s.batch != [] && s.batch[0].row < |s.sink.notices| then AttemptStep(s, result) else s
    case Stop => s.(batch := [])
  }

  function Run(s: State, ls: seq<Label>): State {
    if ls == [] then s else Step(Run(s, ls[..|ls| - 1]), ls[|ls| - 1])
  }

  // ---------- Accounting ----------

  function Sends(rs: seq<Receipt>, i: nat): nat {
    if rs == [] then 0 else Sends(rs[..|rs| - 1], i) + if rs[|rs| - 1].target.row == i then 1 else 0
  }

  function Losses(lost: seq<nat>, i: nat): nat {
    if lost == [] then 0 else Losses(lost[..|lost| - 1], i) + if lost[|lost| - 1] == i then 1 else 0
  }

  ghost predicate Balanced(s: State, i: nat) {
    i < |s.sink.notices| ==>
      Sends(s.receipts, i) == (if s.sink.notices[i].status.Sent? then 1 else 0) + Losses(s.lost, i)
  }

  ghost predicate Accounted(s: State) {
    && N.UniqueNotices(s.sink.notices)
    && (forall k :: 0 <= k < |s.batch| ==>
          Bound(s.view, s.sink.notices, s.batch[k]) && s.sink.notices[s.batch[k].row].status.Pending?)
    && (forall k, m :: 0 <= k < m < |s.batch| ==> s.batch[k].row < s.batch[m].row)
    // every send went to a chat bound and active in the snapshot of its batch
    && (forall r :: 0 <= r < |s.receipts| ==> Bound(s.receipts[r].seen, s.sink.notices, s.receipts[r].target))
    && (forall r :: 0 <= r < |s.lost| ==> s.lost[r] < |s.sink.notices|)
    // and the sends of a row are its mark plus its lost acks
    && (forall i: nat {:trigger Balanced(s, i)} :: Balanced(s, i))
  }

  lemma {:induction false} NoSendsBeyond(rs: seq<Receipt>, i: nat)
    requires forall r :: 0 <= r < |rs| ==> rs[r].target.row != i
    ensures Sends(rs, i) == 0
  {
    if rs != [] {
      NoSendsBeyond(rs[..|rs| - 1], i);
    }
  }

  lemma {:induction false} NoLossesBeyond(lost: seq<nat>, i: nat)
    requires forall r :: 0 <= r < |lost| ==> lost[r] != i
    ensures Losses(lost, i) == 0
  {
    if lost != [] {
      NoLossesBeyond(lost[..|lost| - 1], i);
    }
  }

  /** The consumer only appends pending rows that were not tried. */
  lemma DeliverAppends(s: N.State, d: N.Delivery)
    requires N.UniqueNotices(s.notices)
    ensures N.UniqueNotices(N.Deliver(s, d).notices)
    ensures s.notices <= N.Deliver(s, d).notices
    ensures forall i :: |s.notices| <= i < |N.Deliver(s, d).notices| ==>
        var n := N.Deliver(s, d).notices[i]; n.status.Pending? && n.attempts == 0 && !n.failed
  {
    if N.WellFormed(d.message) && IsOrderType(d.message.envelope.eventType) && N.Named(d.message.envelope.data).Some? {
      N.AddNoticesExactly(s.notices, d.message.envelope.eventId, N.Named(d.message.envelope.data).value);
    }
  }

  lemma ConsumeKeepsAccounts(s: State, d: N.Delivery)
    requires Accounted(s)
    ensures Accounted(Step(s, Consume(d)))
  {
    var t := Step(s, Consume(d));
    DeliverAppends(s.sink, d);
    forall i: nat
      ensures Balanced(t, i)
    {
      assert Balanced(s, i);
      if |s.sink.notices| <= i < |t.sink.notices| {
        NoSendsBeyond(s.receipts, i);
        NoLossesBeyond(s.lost, i);
      }
    }
  }

  lemma AttemptBalances(s: State, result: SendResult, i: nat)
    requires s.batch != [] && s.batch[0].row < |s.sink.notices| && s.sink.notices[s.batch[0].row].status.Pending?
        && Balanced(s, i)
    ensures Balanced(AttemptStep(s, result), i)
  {
    var t := AttemptStep(s, result);
    assert t.receipts != s.receipts ==> t.receipts[..|t.receipts| - 1] == s.receipts;
    assert t.lost != s.lost ==> t.lost[..|t.lost| - 1] == s.lost;
  }

  lemma AttemptKeepsAccounts(s: State, result: SendResult)
    requires Accounted(s) && s.batch != []
    ensures Accounted(AttemptStep(s, result))
  {
    hide Balanced;
    var t := AttemptStep(s, result);
    assert Bound(s.view, s.sink.notices, s.batch[0]);
    assert forall i :: 0 <= i < |s.sink.notices| ==>
      t.sink.notices[i].recipient == s.sink.notices[i].recipient
          && t.sink.notices[i].eventId == s.sink.notices[i].eventId;
    forall i: nat
      ensures Balanced(t, i)
    {
      assert Balanced(s, i);
      AttemptBalances(s, result, i);
    }
  }

  lemma StepKeepsAccounts(s: State, l: Label)
    requires Accounted(s)
    ensures Accounted(Step(s, l))
  {
    var t := Step(s, l);
    match l
    case Consume(d) => ConsumeKeepsAccounts(s, d);
    case Attempt(result) =>
      if s.batch != [] {
        assert Bound(s.view, s.sink.notices, s.batch[0]);
        AttemptKeepsAccounts(s, result);
      }
    case Snapshot =>
      assert forall i: nat :: Balanced(s, i) ==> Balanced(t, i);
    case Stop =>
      assert forall i: nat :: Balanced(s, i) ==> Balanced(t, i);
  }

  /** In every reachable state each row's successful sends are its mark plus its lost acks. */
  lemma {:induction false} DeliveriesAreAccounted(ls: seq<Label>)
    ensures Accounted(Run(EMPTY, ls))
  {
    if ls == [] {
      assert forall i: nat :: Balanced(EMPTY, i);
    } else {
      DeliveriesAreAccounted(ls[..|ls| - 1]);
      StepKeepsAccounts(Run(EMPTY, ls[..|ls| - 1]), ls[|ls| - 1]);
    }
  }

  /** The row keeps its address, and stays as it is once it is SENT. */
  predicate Keeps(before: N.Notice, after: N.Notice) {
    && after.eventId == before.eventId && after.recipient == before.recipient
    && (before.status.Sent? ==> after == before)
  }

  lemma StepKeepsRow(s: State, l: Label, i: nat)
    requires Accounted(s) && i < |s.sink.notices|
    ensures i < |Step(s, l).sink.notices| && Keeps(s.sink.notices[i], Step(s, l).sink.notices[i])
  {
    if l.Consume? {
      DeliverAppends(s.sink, l.delivery);
    } else if l.Attempt? && s.batch != [] {
      assert Bound(s.view, s.sink.notices, s.batch[0]) && s.sink.notices[s.batch[0].row].status.Pending?;
    }
  }

  /** SENT is never left, and rows are never removed or readdressed. */
  lemma {:induction false} SentIsFinal(ls: seq<Label>, more: seq<Label>, i: nat)
    requires i < |Run(EMPTY, ls).sink.notices|
    ensures i < |Run(EMPTY, ls + more).sink.notices|
    ensures Keeps(Run(EMPTY, ls).sink.notices[i], Run(EMPTY, ls + more).sink.notices[i])
    decreases |more|
  {
    if more == [] {
      assert ls + more == ls;
    } else {
      var shorter := ls + more[..|more| - 1];
      assert (ls + more)[..|ls + more| - 1] == shorter;
      SentIsFinal(ls, more[..|more| - 1], i);
      DeliveriesAreAccounted(shorter);
      StepKeepsRow(Run(EMPTY, shorter), more[|more| - 1], i);
    }
  }

  // ---------- What a row remembers of its attempts ----------

  /** What an attempt stores in the row: a send that was marked, or a refusal that was recorded. */
  function Stored(s: State, l: Label, i: nat): Option<N.Status> {
    if !(l.Attempt? && s.batch != [] && s.batch[0].row == i) then None
    else
      match l.result
      case Refused(recorded) => if recorded then Some(N.Pending) else None
      case Accepted(marking) => if marking.Durable() then Some(N.Sent) else None
  }

  /** How many attempts were stored in a row, and what the last of them was. */
  function Tries(ls: seq<Label>, i: nat): (nat, Option<N.Status>) {
    if ls == [] then (0, None)
    else
      var (tries, last) := Tries(ls[..|ls| - 1], i);
      var now := Stored(Run(EMPTY, ls[..|ls| - 1]), ls[|ls| - 1], i);
      if now.Some? then (tries + 1, now) else (tries, last)
  }

  /** The attempts, the status and the error of a row are what was stored. */
  predicate Remembers(notices: seq<N.Notice>, i: nat, tries: nat, last: Option<N.Status>) {
    if i < |notices| then
      && notices[i].attempts == tries
      && (notices[i].status == N.Sent <==> last == Some(N.Sent))
      && (notices[i].failed <==> last == Some(N.Pending))
    else tries == 0 && last == None
  }

  lemma StepRemembers(s: State, l: Label, i: nat, tries: nat, last: Option<N.Status>)
    requires Accounted(s) && Remembers(s.sink.notices, i, tries, last)
    ensures var now := Stored(s, l, i);
            Remembers(Step(s, l).sink.notices, i, if now.Some? then tries + 1 else tries,
                if now.Some? then now else last)
  {
    hide Balanced, N.Deliver;
    if l.Consume? {
      DeliverAppends(s.sink, l.delivery);
    } else if l.Attempt? && s.batch != [] {
      assert Bound(s.view, s.sink.notices, s.batch[0]) && s.sink.notices[s.batch[0].row].status.Pending?;
    }
  }

  /**
   * In every reachable state a row counts exactly the attempts stored in it, is SENT exactly when the
   * last of them was a mark, and carries an error exactly when it was a refusal.
   */
  lemma {:induction false} AttemptsAreCounted(ls: seq<Label>, i: nat)
    ensures Remembers(Run(EMPTY, ls).sink.notices, i, Tries(ls, i).0, Tries(ls, i).1)
  {
    if ls != [] {
      hide Step, Stored, Remembers;
      var init := ls[..|ls| - 1];
      AttemptsAreCounted(init, i);
      DeliveriesAreAccounted(init);
      StepRemembers(Run(EMPTY, init), ls[|ls| - 1], i, Tries(init, i).0, Tries(init, i).1);
    } else {
      assert Remembers([], i, 0, None);
    }
  }

  // ---------- The end of a round ----------

  predicate NoSnapshot(ls: seq<Label>) {
    forall k :: 0 <= k < |ls| ==> !ls[k].Snapshot?
  }

  lemma {:induction false} EmptyBatchSendsNothing(s: State, ls: seq<Label>)
    requires s.batch == [] && NoSnapshot(ls)
    ensures Run(s, ls).batch == [] && Run(s, ls).receipts == s.receipts
  {
    if ls != [] {
      EmptyBatchSendsNothing(s, ls[..|ls| - 1]);
    }
  }

  /**
   * A refused row is skipped and the round goes on; an accepted one whose mark fails, or is not
   * acknowledged, ends it: nothing more is sent before the next snapshot.
   */
  lemma UnmarkedEndsRound(s: State, result: SendResult, more: seq<Label>)
    requires s.batch != [] && s.batch[0].row < |s.sink.notices| && NoSnapshot(more)
    ensures var t := Step(s, Attempt(result));
            && (result.Refused? || result == Accepted(Committed) ==> t.batch == s.batch[1..])
            && (result == Accepted(Aborted) || result == Accepted(AckLost) ==> Run(t, more).receipts == t.receipts)
            && t.receipts == s.receipts + if result.Refused? then [] else [Receipt(s.batch[0], s.view)]
  {
    hide Run;
    var t := Step(s, Attempt(result));
    if t.batch == [] {
      EmptyBatchSendsNothing(t, more);
    }
  }

  // ---------- Draining ----------

  lemma {:induction false} SameBeyond(s: N.State, t: N.State, i: nat)
    requires i <= |s.notices| == |t.notices| && s.recipients == t.recipients
    requires forall k :: i <= k < |s.notices| ==> s.notices[k] == t.notices[k]
    ensures TargetsFrom(t, i) == TargetsFrom(s, i)
    decreases |s.notices| - i
  {
    if i < |s.notices| {
      SameBeyond(s, t, i + 1);
    }
  }

  /** Marking the first deliverable row removes it, and only it, from the deliverable rows. */
  lemma {:induction false} MarkHead(s: N.State, i: nat)
    requires i <= |s.notices| && TargetsFrom(s, i) != []
    ensures TargetsFrom(MarkSent(s, TargetsFrom(s, i)[0].row), i) == TargetsFrom(s, i)[1..]
    decreases |s.notices| - i
  {
    var row := TargetsFrom(s, i)[0].row;
    var t := MarkSent(s, row);
    if Deliverable(s, i) {
      SameBeyond(s, t, i + 1);
      assert TargetsFrom(s, i)[1..] == TargetsFrom(s, i + 1);
    } else {
      MarkHead(s, i + 1);
    }
  }

  /** The rest of a round in which every send and every mark succeeds. */
  function SendRest(s: State): State
    requires forall k :: 0 <= k < |s.batch| ==> s.batch[k].row < |s.sink.notices|
    decreases |s.batch|
  {
    if s.batch == [] then s else SendRest(AttemptStep(s, Accepted(Committed)))
  }

  function Round(s: State): State {
    SendRest(Step(s, Snapshot))
  }

  lemma {:induction false} SendRestDrains(s: State)
    requires s.batch <= Targets(s.sink)
    ensures Targets(SendRest(s).sink) == Targets(s.sink)[|s.batch|..]
    decreases |s.batch|
  {
    if s.batch != [] {
      assert s.batch[0] == Targets(s.sink)[0];
      MarkHead(s.sink, 0);
      var t := AttemptStep(s, Accepted(Committed));
      assert Targets(t.sink) == Targets(s.sink)[1..];
      SendRestDrains(t);
    }
  }

  function Rounds(s: State, k: nat): State {
    if k == 0 then s else Round(Rounds(s, k - 1))
  }

  function Min(a: nat, b: nat): nat {
    if a <= b then a else b
  }

  lemma RoundDelivers(s: State)
    ensures Targets(Round(s).sink) == Targets(s.sink)[Min(|Targets(s.sink)|, ROUND_LIMIT)..]
  {
    SendRestDrains(Step(s, Snapshot));
  }

  lemma DropTwice(ts: seq<Target>, k: nat)
    requires k > 0
    ensures var rest := ts[Min(|ts|, (k - 1) * ROUND_LIMIT)..];
            rest[Min(|rest|, ROUND_LIMIT)..] == ts[Min(|ts|, k * ROUND_LIMIT)..]
  {
    var a := Min(|ts|, (k - 1) * ROUND_LIMIT);
    var b := Min(|ts[a..]|, ROUND_LIMIT);
    assert a + b == Min(|ts|, k * ROUND_LIMIT);
  }

  /** k rounds of successful sends without arrivals deliver the first 50k deliverable rows. */
  lemma {:induction false} RoundsDeliver(s: State, k: nat)
    ensures Targets(Rounds(s, k).sink) == Targets(s.sink)[Min(|Targets(s.sink)|, k * ROUND_LIMIT)..]
  {
    hide Targets, Round;
    if k > 0 {
      RoundsDeliver(s, k - 1);
      RoundDelivers(Rounds(s, k - 1));
      DropTwice(Targets(s.sink), k);
    }
  }

  /** So n deliverable rows drain in exactly ceil(n/50) rounds. */
  lemma DrainsInCeilRounds(s: State, k: nat)
    ensures Targets(Rounds(s, k).sink) == [] <==> (|Targets(s.sink)| + 49) / 50 <= k
  {
    RoundsDeliver(s, k);
  }
}

