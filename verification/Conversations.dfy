/**
 * The update loop of internal/bot/service.go against the getUpdates queue of Telegram: which
 * updates the bot handles, in which order, and how the drafts of different users keep apart.
 */
module Conversations {
  import opened Prelude
  import B = Bot

  /** An update; one without a message has an empty text. */
  datatype Update = Update(id: nat, from: int, text: string)

  /** An update and what the services answer to it; the drafts of `expired` users have lapsed before it. */
  datatype Turn = Turn(update: Update, world: B.World, expired: set<int>)

  // ---------- The drafts of all users ----------

  function Held(drafts: map<int, B.Draft>, user: int): Option<B.Draft> {
    if user in drafts then Some(drafts[user]) else None
  }

  function Holding(drafts: map<int, B.Draft>, user: int, d: Option<B.Draft>): (r: map<int, B.Draft>)
    ensures Held(r, user) == d
    ensures forall u :: u != user ==> Held(r, u) == Held(drafts, u)
    ensures d == Held(drafts, user) ==> r == drafts
  {
    if d.Some? then drafts[user := d.value] else drafts - {user}
  }

  predicate Ignored(u: Update) {
    u.text == "" || u.from == 0
  }

  function React(drafts: map<int, B.Draft>, t: Turn): map<int, B.Draft> {
    var live := drafts - t.expired;
    if Ignored(t.update) then live
    else Holding(live, t.update.from, B.Message(Held(live, t.update.from), t.update.text, t.world))
  }

  function Drafts(drafts: map<int, B.Draft>, ts: seq<Turn>): map<int, B.Draft> {
    if ts == [] then drafts else React(Drafts(drafts, ts[..|ts| - 1]), ts[|ts| - 1])
  }

  /** What a turn is to one user: the end of the draft's time, then a message of text from this user. */
  function EventsAt(t: Turn, user: int): seq<B.Event> {
    (if user in t.expired then [B.Expired] else [])
    + if t.update.from == user != 0 && t.update.text != "" then [B.Received(t.update.text, t.world)] else []
  }

  function EventsOf(ts: seq<Turn>, user: int): seq<B.Event> {
    if ts == [] then [] else EventsOf(ts[..|ts| - 1], user) + EventsAt(ts[|ts| - 1], user)
  }

  lemma FromOne(stored: Option<B.Draft>, e: B.Event)
    ensures B.From(stored, [e]) == B.Next(stored, e)
  {
    hide B.Next;
    assert [e][..0] == [];
  }

  lemma ReactIsLocal(drafts: map<int, B.Draft>, t: Turn, user: int)
    ensures Held(React(drafts, t), user) == B.From(Held(drafts, user), EventsAt(t, user))
  {
    hide B.Message, B.From;
    var lapse := if user in t.expired then [B.Expired] else [];
    var read := if !Ignored(t.update) && t.update.from == user then [B.Received(t.update.text, t.world)] else [];
    var d := Held(drafts, user);
    B.FromAppend(d, lapse, read);
    B.FromNone(d);
    B.FromNone(B.From(d, lapse));
    FromOne(d, B.Expired);
    FromOne(B.From(d, lapse), B.Received(t.update.text, t.world));
  }

  /**
   * Users do not disturb each other: a user's draft is what the dialogue makes of that user's
   * messages and lapses alone.
   */
  lemma {:induction false} DialoguesAreSeparate(ts: seq<Turn>, user: int)
    ensures Held(Drafts(map[], ts), user) == B.Run(EventsOf(ts, user))
  {
    hide React, EventsAt, B.Next;
    if ts == [] {
      B.FromNone(None);
    } else {
      var init := ts[..|ts| - 1];
      DialoguesAreSeparate(init, user);
      ReactIsLocal(Drafts(map[], init), ts[|ts| - 1], user);
      B.FromAppend(None, EventsOf(init, user), EventsAt(ts[|ts| - 1], user));
    }
  }

  // ---------- The queue ----------

  /** `offset` of the bot after a reply. */
  function OffsetAfter(offset: nat, reply: seq<Update>): nat {
    if reply == [] then offset else reply[|reply| - 1].id + 1
  }

  predicate Rising(queue: seq<Update>) {
    forall i, j :: 0 <= i < j < |queue| ==> queue[i].id < queue[j].id
  }

  /** How many updates of the queue lie before an offset. */
  function Below(queue: seq<Update>, offset: nat): (n: nat)
    ensures n <= |queue|
    ensures forall i :: 0 <= i < n ==> queue[i].id < offset
    ensures n < |queue| ==> queue[n].id >= offset
  {
    if queue == [] || queue[0].id >= offset then 0 else 1 + Below(queue[1..], offset)
  }

  /**
   * How a poll ends: its reply is lost, the bot handles all of it, or the bot stops after some
   * updates and starts again at 0.
   */
  datatype Ended = Lost(received: bool) | Served | Stopped(after: nat)

  datatype Label = Arrive(update: Update) | Poll(count: nat, ended: Ended)

  /** `confirmed` is the highest offset the server has been asked for; it does not return updates before it. */
  datatype State = State(queue: seq<Update>, confirmed: nat, offset: nat, handled: seq<Update>)

  const START: State := State([], 0, 0, [])

  function Max(a: nat, b: nat): nat {
    if a < b then b else a
  }

  function Reply(s: State, count: nat): seq<Update> {
    var first := Below(s.queue, Max(s.confirmed, s.offset));
    s.queue[first..if first + count <= |s.queue| then first + count else |s.queue|]
  }

  function Step(s: State, l: Label): State {
    match l
    case Arrive(u) => if Rising(s.queue + [u]) then s.(queue := s.queue + [u]) else s
    case Poll(count, ended) =>
      var reply := Reply(s, count);
      var asked := s.(confirmed := Max(s.confirmed, s.offset));
      match ended
      case Lost(received) => if received then asked else s
      case Served => asked.(handled := s.handled + reply, offset := OffsetAfter(s.offset, reply))
      case Stopped(after) =>
        asked.(handled := s.handled + reply[..if after <= |reply| then after else |reply|], offset := 0)
  }

  function Run(ls: seq<Label>): State {
    if ls == [] then START else Step(Run(ls[..|ls| - 1]), ls[|ls| - 1])
  }

  /** A list with its later repeats left out. */
  function Firsts(us: seq<Update>): (r: seq<Update>)
    ensures forall u :: u in r <==> u in us
  {
    if us == [] then []
    else
      var earlier := Firsts(us[..|us| - 1]);
      if us[|us| - 1] in earlier then earlier else earlier + [us[|us| - 1]]
  }

  lemma FirstsOneMore(us: seq<Update>, u: Update)
    ensures Firsts(us + [u]) == if u in us then Firsts(us) else Firsts(us) + [u]
  {
    assert (us + [u])[..|us|] == us;
  }

  /** Handling a stretch of the queue that starts among the handled updates. */
  lemma {:induction false} FirstsOfStretch(queue: seq<Update>, handled: seq<Update>, high: nat, a: nat, b: nat)
    requires Rising(queue) && a <= b <= |queue| && a <= high <= |queue| && Firsts(handled) == queue[..high]
    ensures Firsts(handled + queue[a..b]) == queue[..Max(high, b)]
    decreases b
  {
    hide Firsts;
    if a == b {
      assert handled + queue[a..b] == handled;
    } else {
      FirstsOfStretch(queue, handled, high, a, b - 1);
      var us, u := handled + queue[a..b - 1], queue[b - 1];
      assert handled + queue[a..b] == us + [u];
      FirstsOneMore(us, u);
      var m := Max(high, b - 1);
      assert u in us <==> u in queue[..m];
      assert b - 1 < m ==> queue[..m][b - 1] == u;
    }
  }

  /** Below finds the one place where the identifiers reach the offset. */
  lemma BelowIs(queue: seq<Update>, offset: nat, k: nat)
    requires Rising(queue) && k <= |queue|
    requires k > 0 ==> queue[k - 1].id < offset
    requires k < |queue| ==> queue[k].id >= offset
    ensures Below(queue, offset) == k
  {
    assert forall i :: 0 <= i < k ==> queue[i].id <= queue[k - 1].id;
  }

  /** Offsets are 0 or lie directly behind an update of the queue. */
  predicate Behind(queue: seq<Update>, offset: nat, k: nat) {
    k <= |queue| && if k == 0 then offset == 0 else offset == queue[k - 1].id + 1
  }

  ghost predicate Anchored(queue: seq<Update>, offset: nat) {
    exists k: nat :: Behind(queue, offset, k)
  }

  lemma BelowBehind(queue: seq<Update>, offset: nat, k: nat)
    requires Rising(queue) && Behind(queue, offset, k)
    ensures Below(queue, offset) == k
  {
    BelowIs(queue, offset, k);
  }

  lemma ArrivalKeepsBelow(queue: seq<Update>, u: Update, offset: nat)
    requires Rising(queue + [u]) && Anchored(queue, offset)
    ensures Below(queue + [u], offset) == Below(queue, offset) && Anchored(queue + [u], offset)
  {
    var longer := queue + [u];
    assert forall i :: 0 <= i < |queue| ==> longer[i] == queue[i];
    var k: nat :| Behind(queue, offset, k);
    assert Behind(longer, offset, k);
    BelowBehind(queue, offset, k);
    BelowBehind(longer, offset, k);
  }

  /** The updates handled at least once are the oldest of the queue, in order, and the next reply starts among them. */
  ghost predicate Sound(s: State) {
    && Rising(s.queue) && Anchored(s.queue, s.offset) && Anchored(s.queue, s.confirmed)
    && Firsts(s.handled) <= s.queue
    && Below(s.queue, Max(s.confirmed, s.offset)) <= |Firsts(s.handled)|
  }

  lemma ArrivalStaysSound(s: State, u: Update)
    requires Sound(s) && Rising(s.queue + [u])
    ensures Sound(s.(queue := s.queue + [u]))
  {
    hide Rising, Firsts, Below, Anchored;
    ArrivalKeepsBelow(s.queue, u, s.offset);
    ArrivalKeepsBelow(s.queue, u, s.confirmed);
  }

  /** The part of a reply that is handled, and the offset behind it. */
  lemma Handles(s: State, count: nat, k: nat)
    requires Sound(s) && k <= |Reply(s, count)|
    ensures var first := Below(s.queue, Max(s.confirmed, s.offset));
            var part := Reply(s, count)[..k];
            && first + k <= |s.queue| && part == s.queue[first..first + k]
            && Firsts(s.handled + part) == s.queue[..Max(|Firsts(s.handled)|, first + k)]
            && (k > 0 ==> Behind(s.queue, OffsetAfter(s.offset, part), first + k))
            && (k > 0 ==> Below(s.queue, OffsetAfter(s.offset, part)) == first + k)
  {
    hide Rising, Firsts, Anchored;
    var first := Below(s.queue, Max(s.confirmed, s.offset));
    var part := Reply(s, count)[..k];
    assert part == s.queue[first..first + k];
    FirstsOfStretch(s.queue, s.handled, |Firsts(s.handled)|, first, first + k);
    if k > 0 {
      assert part[k - 1] == s.queue[first + k - 1];
      BelowBehind(s.queue, OffsetAfter(s.offset, part), first + k);
    }
  }

  lemma OffsetRises(s: State, count: nat)
    requires Sound(s) && Reply(s, count) != []
    ensures OffsetAfter(s.offset, Reply(s, count)) > Max(s.confirmed, s.offset)
  {
    var first := Below(s.queue, Max(s.confirmed, s.offset));
    var reply := Reply(s, count);
    assert reply[|reply| - 1] == s.queue[first + |reply| - 1];
    assert |reply| > 1 ==> s.queue[first].id < s.queue[first + |reply| - 1].id;
  }

  lemma ServedStaysSound(s: State, count: nat)
    requires Sound(s)
    ensures Sound(Step(s, Poll(count, Served)))
  {
    hide Rising, Firsts, Below, Reply;
    var reply := Reply(s, count);
    Handles(s, count, |reply|);
    assert reply[..|reply|] == reply;
    if reply != [] {
      OffsetRises(s, count);
    }
  }

  lemma StoppedStaysSound(s: State, count: nat, after: nat)
    requires Sound(s)
    ensures Sound(Step(s, Poll(count, Stopped(after))))
  {
    hide Rising, Firsts, Below, Reply;
    var reply := Reply(s, count);
    assert Behind(s.queue, 0, 0);
    Handles(s, count, if after <= |reply| then after else |reply|);
  }

  lemma PollStaysSound(s: State, count: nat, ended: Ended)
    requires Sound(s)
    ensures Sound(Step(s, Poll(count, ended)))
  {
    match ended {
      case Lost(_) =>
      case Served => ServedStaysSound(s, count);
      case Stopped(after) => StoppedStaysSound(s, count, after);
    }
  }

  lemma {:induction false} RunIsSound(ls: seq<Label>)
    ensures Sound(Run(ls))
  {
    if ls != [] {
      hide Rising, Firsts, Below, Reply, Sound;
      var s := Run(ls[..|ls| - 1]);
      RunIsSound(ls[..|ls| - 1]);
      match ls[|ls| - 1] {
        case Arrive(u) =>
          if Rising(s.queue + [u]) {
            ArrivalStaysSound(s, u);
          }
        case Poll(count, ended) => PollStaysSound(s, count, ended);
      }
    } else {
      assert Behind([], 0, 0);
    }
  }

  /**
   * Whatever replies are lost and however often the bot restarts, it skips no update: the updates
   * it handled, repeats left out, are the oldest of the queue in their order, and the offset it
   * asks for next lies behind handled updates only.
   */
  lemma NoUpdateIsSkipped(ls: seq<Label>)
    ensures var s := Run(ls);
            && Firsts(s.handled) <= s.queue
            && forall u :: u in s.queue && u.id < Max(s.confirmed, s.offset) ==> u in s.handled
  {
    hide Firsts, Run;
    RunIsSound(ls);
    var s := Run(ls);
    var n := Below(s.queue, Max(s.confirmed, s.offset));
    forall u | u in s.queue && u.id < Max(s.confirmed, s.offset)
      ensures u in s.handled
    {
      var k :| 0 <= k < |s.queue| && s.queue[k] == u;
      assert forall i :: n <= i < |s.queue| ==> s.queue[n].id <= s.queue[i].id;
      assert u in Firsts(s.handled);
    }
  }

  predicate NeverStops(ls: seq<Label>) {
    forall l :: l in ls ==> !(l.Poll? && l.ended.Stopped?)
  }

  lemma OneLifeArrival(s: State, u: Update)
    requires Sound(s) && Rising(s.queue + [u]) && s.handled == s.queue[..Below(s.queue, s.offset)]
    ensures s.handled == (s.queue + [u])[..Below(s.queue + [u], s.offset)]
  {
    hide Rising, Firsts, Below, Anchored;
    ArrivalKeepsBelow(s.queue, u, s.offset);
  }

  lemma NothingHandled(offset: nat)
    ensures OffsetAfter(offset, []) == offset
  {
  }

  lemma OneLifePoll(s: State, count: nat)
    requires Sound(s) && s.confirmed <= s.offset && s.handled == s.queue[..Below(s.queue, s.offset)]
    ensures var t := Step(s, Poll(count, Served));
            t.handled == t.queue[..Below(t.queue, t.offset)] && t.confirmed <= t.offset
  {
    hide Rising, Firsts, Anchored, Reply, Below, Sound, OffsetAfter;
    var reply := Reply(s, count);
    if reply == [] {
      assert s.handled + reply == s.handled;
      NothingHandled(s.offset);
    } else {
      Handles(s, count, |reply|);
      OffsetRises(s, count);
      var first := Below(s.queue, s.offset);
      assert reply[..|reply|] == reply;
      assert s.queue[..first] + s.queue[first..first + |reply|] == s.queue[..first + |reply|];
    }
  }

  /** A bot that does not restart handles each update once: no repeats either, lost replies included. */
  lemma {:induction false} OneLifeHandlesOnce(ls: seq<Label>)
    requires NeverStops(ls)
    ensures var s := Run(ls);
            s.handled == s.queue[..Below(s.queue, s.offset)] && s.confirmed <= s.offset
  {
    if ls != [] {
      hide Rising, Firsts, Below, Reply, Anchored, OffsetAfter, Sound;
      var init := ls[..|ls| - 1];
      OneLifeHandlesOnce(init);
      RunIsSound(init);
      var s, l := Run(init), ls[|ls| - 1];
      match l {
        case Arrive(u) =>
          if Rising(s.queue + [u]) {
            OneLifeArrival(s, u);
          }
        case Poll(count, ended) =>
          assert l in ls;
          if ended.Served? {
            OneLifePoll(s, count);
          }
      }
    }
  }

  // ---------- Catching up ----------

  /** The updates of the queue that the next reply starts with, and those behind them. */
  function Waiting(s: State): nat {
    |s.queue| - Below(s.queue, Max(s.confirmed, s.offset))
  }

  lemma ServedPoll(s: State, count: nat)
    requires Sound(s)
    ensures var t := Step(s, Poll(count, Served));
            t.queue == s.queue && Waiting(t) == if Waiting(s) <= count then 0 else Waiting(s) - count
  {
    hide Rising, Firsts, Anchored, Below, Sound, OffsetAfter;
    var reply := Reply(s, count);
    if reply != [] {
      Handles(s, count, |reply|);
      OffsetRises(s, count);
      assert reply[..|reply|] == reply;
    } else {
      NothingHandled(s.offset);
    }
  }

  function ServedPolls(count: nat, k: nat): seq<Label> {
    seq(k, _ => Poll(count, Served))
  }

  lemma {:induction false} PollsHandle(ls: seq<Label>, count: nat, k: nat)
    ensures var s, t := Run(ls), Run(ls + ServedPolls(count, k));
            t.queue == s.queue && Waiting(t) == if Waiting(s) <= k * count then 0 else Waiting(s) - k * count
  {
    hide Step, Sound, Waiting;
    if k == 0 {
      assert ls + ServedPolls(count, 0) == ls;
    } else {
      var shorter := ls + ServedPolls(count, k - 1);
      PollsHandle(ls, count, k - 1);
      RunIsSound(shorter);
      ServedPoll(Run(shorter), count);
      var longer := ls + ServedPolls(count, k);
      assert longer[..|longer| - 1] == shorter && longer[|longer| - 1] == Poll(count, Served);
      assert k * count == (k - 1) * count + count;
    }
  }

  lemma CeilIff(n: nat, m: nat, k: nat)
    requires m > 0
    ensures n <= k * m <==> (n + m - 1) / m <= k
  {
    var q := (n + m - 1) / m;
    assert q * m <= n + m - 1 < q * m + m;
    if q <= k {
      assert q * m <= k * m;
    } else {
      assert (k + 1) * m <= q * m;
    }
  }

  /**
   * From every state, after lost replies and restarts too, k polls that are served with up to `count`
   * updates each leave none waiting exactly when k is at least the ceiling of what waits by `count`;
   * then every update of the queue was handled.
   */
  lemma CatchesUpInCeilPolls(ls: seq<Label>, count: nat, k: nat)
    requires count > 0
    ensures var s, t := Run(ls), Run(ls + ServedPolls(count, k));
            && (Waiting(t) == 0 <==> (Waiting(s) + count - 1) / count <= k)
            && (Waiting(t) == 0 ==> Firsts(t.handled) == s.queue)
  {
    hide Run, Firsts, ServedPolls;
    PollsHandle(ls, count, k);
    var s, t := Run(ls), Run(ls + ServedPolls(count, k));
    RunIsSound(ls + ServedPolls(count, k));
    assert Waiting(t) == 0 ==> Firsts(t.handled) == t.queue;
    CeilIff(Waiting(s), count, k);
  }
}
