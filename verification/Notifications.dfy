/**
 * What the notification service does with one record, internal/notification/service.go, on values:
 * the processed_events, notification_recipients and notifications tables before and after.
 */
module Notifications {
  import opened Prelude
  import opened Events

  datatype Recipient = Recipient(telegram: Option<int>, active: bool)

  datatype Status = Pending | Sent

  datatype Notice = Notice(eventId: Uuid, recipient: Uuid, status: Status, attempts: nat, failed: bool)

  /** Notices are listed in order of creation. */
  datatype State = State(processed: set<Uuid>, recipients: map<Uuid, Recipient>, notices: seq<Notice>)

  const EMPTY: State := State({}, map[], [])

  // ---------- One record ----------

  /** The telegram_id column after an event: null unbinds, a missing key leaves it alone, other values are errors. */
  function NewTelegram(current: Option<int>, value: Json): Option<Option<int>> {
    match value
    case Absent => Some(current)
    case Null => Some(None)
    case Number(n) => Some(Some(n))
    case _ => None
  }

  /** The is_active column after an event; decoding null into a bool leaves false. */
  function NewActive(current: bool, value: Json): Option<bool> {
    match value
    case Absent => Some(current)
    case Null => Some(false)
    case Bool(b) => Some(b)
    case _ => None
  }

  function SyncRow(row: Recipient, data: Data): Option<Recipient>
    requires data.Object?
  {
    match (NewTelegram(row.telegram, data.telegramId), NewActive(row.active, data.isActive))
    case (Some(telegram), Some(active)) => Some(Recipient(telegram, active))
    case _ => None
  }

  /** The row of a recipient, or the one inserted when there is none. */
  function RowOrNew(rs: map<Uuid, Recipient>, u: Uuid): Recipient {
    if u in rs then rs[u] else Recipient(None, true)
  }

  predicate NamesUser(data: Data) {
    data.Object? && data.userId.Id? && data.userId.id != NIL
  }

  /** syncRecipient; None when it returns an error. */
  function Sync(rs: map<Uuid, Recipient>, data: Data): Option<map<Uuid, Recipient>> {
    if !NamesUser(data) then None
    else
      match SyncRow(RowOrNew(rs, data.userId.id), data)
      case None => None
      case Some(row) => Some(rs[data.userId.id := row])
  }

  /** The recipients an order event names; None when they cannot be decoded. */
  function Named(data: Data): Option<seq<Uuid>> {
    match data
    case NotAnObject => None
    case Object(_, _, _, performers, performer) =>
      match performers
      case Ids(ids) => Some(ids)
      case Null => Some([])
      case Absent =>
        (match performer
         case Absent => Some([])
         case Id(p) => Some([p])
         case Null => Some([NIL])
         case _ => None)
      case _ => None
  }

  predicate HasNotice(ns: seq<Notice>, eventId: Uuid, recipient: Uuid) {
    exists i :: 0 <= i < |ns| && ns[i].eventId == eventId && ns[i].recipient == recipient
  }

  /** INSERT ... ON CONFLICT(event_id,recipient_id) DO NOTHING. */
  function AddNotice(ns: seq<Notice>, eventId: Uuid, recipient: Uuid): seq<Notice> {
    if HasNotice(ns, eventId, recipient) then ns else ns + [Notice(eventId, recipient, Pending, 0, false)]
  }

  function AddNotices(ns: seq<Notice>, eventId: Uuid, recipients: seq<Uuid>): seq<Notice> {
    if recipients == [] then ns
    else AddNotice(AddNotices(ns, eventId, recipients[..|recipients| - 1]), eventId, recipients[|recipients| - 1])
  }

  /** The tables after the statements for an event not processed before; None when they return an error. */
  function Apply(s: State, e: Envelope): Option<State> {
    var seen := s.(processed := s.processed + {e.eventId});
    if IsUserType(e.eventType) then
      match Sync(s.recipients, e.data)
      case None => None
      case Some(rs) => Some(seen.(recipients := rs))
    else if IsOrderType(e.eventType) then
      match Named(e.data)
      case None => None
      case Some(ids) => Some(seen.(notices := AddNotices(s.notices, e.eventId, ids)))
    else Some(seen)
  }

  predicate WellFormed(m: Message) {
    m.Decoded? && m.envelope.eventId != NIL && m.envelope.eventType != ""
  }

  datatype Delivery = Delivery(message: Message, ending: Ending)

  /** One call of Process: an event already processed changes nothing, an error rolls everything back. */
  function Deliver(s: State, d: Delivery): State {
    if !WellFormed(d.message) || d.message.envelope.eventId in s.processed || !d.ending.Durable() then s
    else
      match Apply(s, d.message.envelope)
      case None => s
      case Some(t) => t
  }

  predicate ReportsSuccess(s: State, d: Delivery) {
    && WellFormed(d.message)
    && d.ending.Committed?
    && (d.message.envelope.eventId in s.processed || Apply(s, d.message.envelope).Some?)
  }

  function Run(s: State, ds: seq<Delivery>): State {
    if ds == [] then s else Deliver(Run(s, ds[..|ds| - 1]), ds[|ds| - 1])
  }

  // ---------- Rows stay ----------

  lemma {:induction false} AddNoticesKeeps(ns: seq<Notice>, eventId: Uuid, ids: seq<Uuid>)
    ensures ns <= AddNotices(ns, eventId, ids)
  {
    if ids != [] {
      AddNoticesKeeps(ns, eventId, ids[..|ids| - 1]);
    }
  }

  /** A delivery removes and changes no notification. */
  lemma DeliverKeepsNotices(s: State, d: Delivery)
    ensures s.notices <= Deliver(s, d).notices
  {
    if WellFormed(d.message) && Named(d.message.envelope.data).Some? {
      AddNoticesKeeps(s.notices, d.message.envelope.eventId, Named(d.message.envelope.data).value);
    }
  }

  // ---------- Exactly-once effect ----------

  /** Whether the statements for an event can succeed does not depend on the tables. */
  predicate Acceptable(e: Envelope) {
    if IsUserType(e.eventType) then
      NamesUser(e.data) && NewTelegram(None, e.data.telegramId).Some? && NewActive(true, e.data.isActive).Some?
    else if IsOrderType(e.eventType) then Named(e.data).Some?
    else true
  }

  predicate Succeeds(d: Delivery) {
    WellFormed(d.message) && Acceptable(d.message.envelope) && d.ending.Durable()
  }

  predicate HasEvent(es: seq<Envelope>, id: Uuid) {
    exists i :: 0 <= i < |es| && es[i].eventId == id
  }

  /** The events of the deliveries that succeed, each once, in order of its first success. */
  function FirstCommits(ds: seq<Delivery>): seq<Envelope> {
    if ds == [] then []
    else
      var earlier := FirstCommits(ds[..|ds| - 1]);
      var d := ds[|ds| - 1];
      if Succeeds(d) && !HasEvent(earlier, d.message.envelope.eventId) then earlier + [d.message.envelope] else earlier
  }

  /** Every event applied once and unconditionally, without looking at processed_events. */
  function ApplyAll(s: State, es: seq<Envelope>): State {
    if es == [] then s
    else
      var t := ApplyAll(s, es[..|es| - 1]);
      match Apply(t, es[|es| - 1])
      case None => t
      case Some(u) => u
  }

  lemma AcceptableApplies(s: State, e: Envelope)
    ensures Apply(s, e).Some? <==> Acceptable(e)
  {
  }

  /** What one delivery adds to processed_events: its event, when it succeeds. */
  lemma DeliverProcesses(s: State, d: Delivery)
    ensures Deliver(s, d).processed == s.processed + if Succeeds(d) then {d.message.envelope.eventId} else {}
  {
    if WellFormed(d.message) {
      AcceptableApplies(s, d.message.envelope);
    }
  }

  /**
   * Exactly-once effect: whatever is repeated, rolled back, malformed or acknowledged late, the
   * tables are those of applying each successfully committed event once, in order of first commit.
   */
  lemma {:induction false} ExactlyOnceEffect(ds: seq<Delivery>)
    ensures Run(EMPTY, ds) == ApplyAll(EMPTY, FirstCommits(ds))
    ensures forall id :: id in Run(EMPTY, ds).processed <==> HasEvent(FirstCommits(ds), id)
  {
    if ds != [] {
      var init := ds[..|ds| - 1];
      var d := ds[|ds| - 1];
      ExactlyOnceEffect(init);
      var earlier := FirstCommits(init);
      var s := Run(EMPTY, init);
      if Succeeds(d) && !HasEvent(earlier, d.message.envelope.eventId) {
        var e := d.message.envelope;
        AcceptableApplies(s, e);
        var all := earlier + [e];
        assert all[..|all| - 1] == earlier;
        forall id
          ensures HasEvent(all, id) <==> HasEvent(earlier, id) || id == e.eventId
        {
          if HasEvent(earlier, id) {
            var i :| 0 <= i < |earlier| && earlier[i].eventId == id;
            assert all[i].eventId == id;
          }
          assert all[|earlier|] == e;
        }
      } else if WellFormed(d.message) {
        AcceptableApplies(s, d.message.envelope);
      }
    }
  }

  /** Redelivering a whole history to the state it produced changes nothing. */
  lemma {:induction false} ReplayIsNoOp(s: State, ds: seq<Delivery>)
    requires forall i :: 0 <= i < |ds| && Succeeds(ds[i]) ==> ds[i].message.envelope.eventId in s.processed
    ensures Run(s, ds) == s
  {
    if ds != [] {
      ReplayIsNoOp(s, ds[..|ds| - 1]);
      if WellFormed(ds[|ds| - 1].message) {
        AcceptableApplies(s, ds[|ds| - 1].message.envelope);
      }
    }
  }

  // ---------- The two topics commute ----------

  predicate IsUserDelivery(d: Delivery) {
    d.message.Decoded? && IsUserType(d.message.envelope.eventType)
  }

  predicate IsOrderDelivery(d: Delivery) {
    d.message.Decoded? && IsOrderType(d.message.envelope.eventType)
  }

  lemma DeliveriesCommute(s: State, u: Delivery, o: Delivery)
    requires IsUserDelivery(u) && IsOrderDelivery(o)
    requires u.message.envelope.eventId != o.message.envelope.eventId
    ensures Deliver(Deliver(s, u), o) == Deliver(Deliver(s, o), u)
  {
    TypesAreDisjoint(u.message.envelope.eventType);
    if IsUserType(o.message.envelope.eventType) {
      TypesAreDisjoint(o.message.envelope.eventType);
    }
    var a := u.message.envelope.eventId;
    var b := o.message.envelope.eventId;
    assert s.processed + {a} + {b} == s.processed + {b} + {a};
  }

  /** zs interleaves us and os. */
  ghost predicate IsMerge(zs: seq<Delivery>, us: seq<Delivery>, os: seq<Delivery>) {
    if zs == [] then us == [] && os == []
    else
      var init, last := zs[..|zs| - 1], zs[|zs| - 1];
      || (us != [] && us[|us| - 1] == last && IsMerge(init, us[..|us| - 1], os))
      || (os != [] && os[|os| - 1] == last && IsMerge(init, us, os[..|os| - 1]))
  }

  ghost predicate StreamsAreDisjoint(us: seq<Delivery>, os: seq<Delivery>) {
    && (forall i :: 0 <= i < |us| ==> IsUserDelivery(us[i]))
    && (forall j :: 0 <= j < |os| ==> IsOrderDelivery(os[j]))
    && (forall i, j ::
          0 <= i < |us| && 0 <= j < |os| ==> us[i].message.envelope.eventId != os[j].message.envelope.eventId)
  }

  lemma {:induction false} UserPassesOrders(s: State, u: Delivery, os: seq<Delivery>)
    requires StreamsAreDisjoint([u], os)
    ensures Deliver(Run(s, os), u) == Run(Deliver(s, u), os)
  {
    if os != [] {
      var init := os[..|os| - 1];
      var o := os[|os| - 1];
      assert [u][0] == u;
      UserPassesOrders(s, u, init);
      DeliveriesCommute(Run(s, init), u, o);
    }
  }

  /** Every interleaving of the two topics leaves the tables that reading users first, then orders, leaves. */
  lemma {:induction false} TopicsCommute(s: State, zs: seq<Delivery>, us: seq<Delivery>, os: seq<Delivery>)
    requires IsMerge(zs, us, os) && StreamsAreDisjoint(us, os)
    ensures Run(s, zs) == Run(Run(s, us), os)
  {
    if zs != [] {
      var init, last := zs[..|zs| - 1], zs[|zs| - 1];
      if us != [] && us[|us| - 1] == last && IsMerge(init, us[..|us| - 1], os) {
        TopicsCommute(s, init, us[..|us| - 1], os);
        UserPassesOrders(Run(s, us[..|us| - 1]), last, os);
      } else {
        TopicsCommute(s, init, us, os[..|os| - 1]);
      }
    }
  }

  // ---------- Rows of notifications ----------

  ghost predicate UniqueNotices(ns: seq<Notice>) {
    forall i, j :: 0 <= i < j < |ns| ==> ns[i].eventId != ns[j].eventId || ns[i].recipient != ns[j].recipient
  }

  /**
   * Existing rows stay in place; new rows are pending, untried and unique, and exist for exactly
   * the named recipients.
   */
  lemma {:induction false} AddNoticesExactly(ns: seq<Notice>, eventId: Uuid, ids: seq<Uuid>)
    requires UniqueNotices(ns)
    ensures ns <= AddNotices(ns, eventId, ids)
    ensures UniqueNotices(AddNotices(ns, eventId, ids))
    ensures forall e, r ::
        HasNotice(AddNotices(ns, eventId, ids), e, r) <==> HasNotice(ns, e, r) || (e == eventId && r in ids)
    ensures forall i :: |ns| <= i < |AddNotices(ns, eventId, ids)| ==>
        AddNotices(ns, eventId, ids)[i] == Notice(eventId, AddNotices(ns, eventId, ids)[i].recipient, Pending, 0, false)
  {
    if ids != [] {
      var init, last := ids[..|ids| - 1], ids[|ids| - 1];
      AddNoticesExactly(ns, eventId, init);
      var before := AddNotices(ns, eventId, init);
      var after := AddNotices(ns, eventId, ids);
      forall e, r
        ensures HasNotice(after, e, r) <==> HasNotice(before, e, r) || (e == eventId && r == last)
      {
        if HasNotice(before, e, r) {
          var i :| 0 <= i < |before| && before[i].eventId == e && before[i].recipient == r;
          assert after[i] == before[i];
        }
        if after != before {
          assert after[|before|].eventId == eventId && after[|before|].recipient == last;
        }
      }
      assert forall r :: r in ids <==> r in init || r == last;
    }
  }

  // ---------- What one event does ----------

  /** A record becomes processed exactly when it decodes to what its type needs and its transaction is durable. */
  lemma BecomesProcessedIff(s: State, e: Envelope, ending: Ending)
    requires e.eventId !in s.processed
    ensures e.eventId in Deliver(s, Delivery(Decoded(e), ending)).processed
            <==> && e.eventId != NIL && e.eventType != "" && ending.Durable()
                 && (IsUserType(e.eventType) ==>
                       && e.data.Object? && e.data.userId.Id? && e.data.userId.id != NIL
                       && (e.data.telegramId.Absent? || e.data.telegramId.Null? || e.data.telegramId.Number?)
                       && (e.data.isActive.Absent? || e.data.isActive.Null? || e.data.isActive.Bool?))
                 && (IsOrderType(e.eventType) ==>
                       && e.data.Object?
                       && (e.data.performerIds.Ids? || e.data.performerIds.Null?
                           || (e.data.performerIds.Absent?
                               && (e.data.performerId.Absent? || e.data.performerId.Null? || e.data.performerId.Id?))))
  {
    hide IsUserType, IsOrderType;
    if IsUserType(e.eventType) {
      TypesAreDisjoint(e.eventType);
    }
    AcceptableApplies(s, e);
    DeliverProcesses(s, Delivery(Decoded(e), ending));
  }

  /** A user event moves the row of its user alone: a column it carries is set, null clears it, a missing one stays. */
  lemma UserEventWrites(s: State, e: Envelope, ending: Ending)
    requires e.eventId !in s.processed && IsUserType(e.eventType)
    requires e.eventId in Deliver(s, Delivery(Decoded(e), ending)).processed
    ensures e.data.Object? && e.data.userId.Id?
    ensures var t, user := Deliver(s, Delivery(Decoded(e), ending)), e.data.userId.id;
            && t.notices == s.notices
            && t.recipients == s.recipients[user := Recipient(
                 if e.data.telegramId.Number? then Some(e.data.telegramId.n)
                 else if e.data.telegramId.Null? || user !in s.recipients then None else s.recipients[user].telegram,
                 if e.data.isActive.Bool? then e.data.isActive.b
                 else if e.data.isActive.Null? then false
                 else user !in s.recipients || s.recipients[user].active)]
  {
    hide IsUserType, IsOrderType;
  }

  /** Whom an order event is for: those under performer_ids, or the one under performer_id. */
  predicate IsFor(data: Data, r: Uuid) {
    data.Object? && if data.performerIds.Absent? then data.performerId == Id(r) || (data.performerId.Null? && r == NIL)
                    else data.performerIds.Ids? && r in data.performerIds.ids
  }

  /** An order event adds one untried notification for each of these that has none, and changes nothing else. */
  lemma OrderEventWrites(s: State, e: Envelope, ending: Ending)
    requires e.eventId !in s.processed && IsOrderType(e.eventType) && UniqueNotices(s.notices)
    requires e.eventId in Deliver(s, Delivery(Decoded(e), ending)).processed
    ensures var t := Deliver(s, Delivery(Decoded(e), ending));
            && t.recipients == s.recipients && s.notices <= t.notices && UniqueNotices(t.notices)
            && (forall i :: |s.notices| <= i < |t.notices| ==>
                  t.notices[i] == Notice(e.eventId, t.notices[i].recipient, Pending, 0, false))
            && (forall r :: HasNotice(t.notices, e.eventId, r) <==>
                  HasNotice(s.notices, e.eventId, r) || IsFor(e.data, r))
  {
    hide IsUserType, IsOrderType, HasNotice, UniqueNotices, AddNotices;
    if IsUserType(e.eventType) {
      TypesAreDisjoint(e.eventType);
    }
    AddNoticesExactly(s.notices, e.eventId, Named(e.data).value);
  }
}
