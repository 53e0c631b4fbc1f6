/**
 * Which records a consumer loses, over every run of the whole machine: dropped fetches, failed
 * records, restarts and repeats.
 */
module LostRecords {
  import opened Prelude
  import opened Events
  import Outbox
  import opened Pipeline
  import opened PipelineGuarantees
  import U = Users
  import O = Orders
  import N = Notifications
  import D = Dispatcher

  /**
   * The consumer has committed an offset behind record p, and its event is not processed: no
   * restart reads the record again.
   */
  ghost predicate Lost(s: State, topic: Topic, p: nat) {
    && p < |StreamOf(s, topic).box.log|
    && p < StreamOf(s, topic).cursor.committed
    && StreamOf(s, topic).box.log[p].value.eventId !in s.desk.sink.processed
  }

  /** Label n of a run hands record q of a topic to Process. */
  ghost predicate Reads(ls: seq<Label>, n: nat, topic: Topic, q: nat) {
    && n < |ls| && ls[n].Consume? && ls[n].topic == topic
    && q == StreamOf(Run(ls[..n]), topic).cursor.position < |StreamOf(Run(ls[..n]), topic).box.log|
  }

  /** It processes that record without error and stores the offset behind it. */
  ghost predicate Commits(ls: seq<Label>, n: nat, topic: Topic, q: nat) {
    Reads(ls, n, topic, q) && ls[n].ending.Committed? && ls[n].stored
  }

  ghost predicate CommitsFrom(ls: seq<Label>, topic: Topic, p: nat) {
    exists n: nat, q: nat :: p <= q && Commits(ls, n, topic, q)
  }

  /** It stores a record with this event as processed. */
  ghost predicate Stores(ls: seq<Label>, n: nat, topic: Topic, q: nat, id: Uuid) {
    && Reads(ls, n, topic, q) && ls[n].ending.Durable()
    && StreamOf(Run(ls[..n]), topic).box.log[q].value.eventId == id
  }

  ghost predicate StoresEvent(ls: seq<Label>, id: Uuid) {
    exists n: nat, topic: Topic, q: nat :: Stores(ls, n, topic, q, id)
  }

  lemma ReadsInLonger(ls: seq<Label>, more: seq<Label>, n: nat, topic: Topic, q: nat)
    requires n < |ls|
    ensures Reads(ls + more, n, topic, q) == Reads(ls, n, topic, q)
    ensures Commits(ls + more, n, topic, q) == Commits(ls, n, topic, q)
    ensures forall id :: Stores(ls + more, n, topic, q, id) == Stores(ls, n, topic, q, id)
  {
    hide Run;
    assert (ls + more)[..n] == ls[..n];
  }

  // ---------- The committed offset ----------

  /** What a record handed to Process does to the offsets of its topic and to the processed events. */
  lemma ConsumeEnds(s: State, topic: Topic, ending: Ending, stored: bool)
    requires Base(s) && StreamOf(s, topic).cursor.position < |StreamOf(s, topic).box.log|
    ensures var c, d := StreamOf(s, topic).cursor, StreamOf(ConsumeStep(s, topic, ending, stored), topic).cursor;
            d.position == c.position + 1
                && d.committed == if ending.Committed? && stored then c.position + 1 else c.committed
    ensures ConsumeStep(s, topic, ending, stored).desk.sink.processed
         == s.desk.sink.processed
            + if ending.Durable() then {StreamOf(s, topic).box.log[StreamOf(s, topic).cursor.position].value.eventId}
                else {}
  {
    hide Base, N.Deliver, N.WellFormed, N.Acceptable;
    var stream := StreamOf(s, topic);
    var e := stream.box.log[stream.cursor.position].value;
    RecordIsAcceptable(s, topic, stream.cursor.position);
    N.AcceptableApplies(s.desk.sink, e);
    N.DeliverProcesses(s.desk.sink, N.Delivery(Decoded(e), ending));
  }

  /** No other label commits an offset of the topic or processes an event. */
  lemma OtherLabelsKeep(s: State, topic: Topic, l: Label)
    requires s.trail != [] && !(l.Consume? && l.topic == topic)
    ensures var c, d := StreamOf(s, topic).cursor, StreamOf(Step(s, l), topic).cursor;
            d.committed == c.committed && (c.committed <= c.position ==> d.committed <= d.position)
  {
    hide Outbox.Step, U.Apply, O.Apply, N.Deliver, D.Step, FreshId;
  }

  lemma StepCommits(ls: seq<Label>, topic: Topic, p: nat)
    requires ls != []
    ensures var init := ls[..|ls| - 1];
            var c := StreamOf(Run(init), topic).cursor;
            var d := StreamOf(Run(ls), topic).cursor;
            && (c.committed <= c.position ==> d.committed <= d.position)
            && (Commits(ls, |init|, topic, c.position) ==> d.committed == c.position + 1)
            && (!Commits(ls, |init|, topic, c.position) ==> d.committed == c.committed)
  {
    hide Base, Step;
    var init, l := ls[..|ls| - 1], ls[|ls| - 1];
    var s := Run(init);
    RunKeepsBase(init);
    assert ls[..|init|] == init;
    if l.Consume? && l.topic == topic {
      ConsumeLabel(s, l);
      if StreamOf(s, topic).cursor.position < |StreamOf(s, topic).box.log| {
        ConsumeEnds(s, topic, l.ending, l.stored);
      }
    } else {
      OtherLabelsKeep(s, topic, l);
    }
  }

  lemma CommitsWhere(ls: seq<Label>, n: nat, topic: Topic, q: nat)
    requires Commits(ls, n, topic, q)
    ensures n < |ls| && q == StreamOf(Run(ls[..n]), topic).cursor.position
  {
    hide Run;
  }

  lemma CommitsOneMore(ls: seq<Label>, topic: Topic, p: nat)
    requires ls != []
    ensures var init := ls[..|ls| - 1];
            var q := StreamOf(Run(init), topic).cursor.position;
            CommitsFrom(ls, topic, p) <==> CommitsFrom(init, topic, p) || (p <= q && Commits(ls, |init|, topic, q))
  {
    hide Run, Commits;
    var init := ls[..|ls| - 1];
    var q := StreamOf(Run(init), topic).cursor.position;
    assert init + [ls[|ls| - 1]] == ls;
    assert ls[..|init|] == init;
    forall n: nat, r: nat
      ensures n < |init| ==> Commits(ls, n, topic, r) == Commits(init, n, topic, r)
    {
      if n < |init| {
        ReadsInLonger(init, [ls[|ls| - 1]], n, topic, r);
      }
    }
    if CommitsFrom(ls, topic, p) {
      var n: nat, r: nat :| p <= r && Commits(ls, n, topic, r);
      CommitsWhere(ls, n, topic, r);
      assert n < |init| || (n == |init| && r == q);
    }
    if CommitsFrom(init, topic, p) {
      var n: nat, r: nat :| p <= r && Commits(init, n, topic, r);
      CommitsWhere(init, n, topic, r);
      assert Commits(ls, n, topic, r);
    }
  }

  /**
   * On every run the committed offset lies behind a record exactly when some record at its place or
   * later committed it.
   */
  lemma {:induction false} CommittedIff(ls: seq<Label>, topic: Topic, p: nat)
    ensures p < StreamOf(Run(ls), topic).cursor.committed <==> CommitsFrom(ls, topic, p)
    ensures StreamOf(Run(ls), topic).cursor.committed <= StreamOf(Run(ls), topic).cursor.position
  {
    if ls == [] {
    } else {
      hide Run, Commits, CommitsFrom;
      CommittedIff(ls[..|ls| - 1], topic, p);
      StepCommits(ls, topic, p);
      CommitsOneMore(ls, topic, p);
    }
  }

  // ---------- The processed events ----------

  lemma OthersProcessNothing(s: State, l: Label)
    requires Base(s) && !l.Consume?
    ensures Step(s, l).desk.sink.processed == s.desk.sink.processed
  {
    if l.Dispatch? && !l.delivery.Consume? {
      DispatchKeepsNotices(s.orders.box.rows, s.desk, l.delivery);
    }
    hide Base, Outbox.Step, U.Apply, O.Apply, D.Step, FreshId;
  }

  lemma StepStores(ls: seq<Label>, id: Uuid)
    requires ls != []
    ensures var init := ls[..|ls| - 1];
            id in Run(ls).desk.sink.processed <==>
              || id in Run(init).desk.sink.processed
              || exists topic: Topic, q: nat :: Stores(ls, |init|, topic, q, id)
  {
    hide Base, Step;
    var init, l := ls[..|ls| - 1], ls[|ls| - 1];
    var s := Run(init);
    RunKeepsBase(init);
    assert ls[..|init|] == init;
    if l.Consume? {
      ConsumeLabel(s, l);
      var q := StreamOf(s, l.topic).cursor.position;
      if q < |StreamOf(s, l.topic).box.log| {
        ConsumeEnds(s, l.topic, l.ending, l.stored);
        assert Stores(ls, |init|, l.topic, q, id)
            <==> l.ending.Durable() && StreamOf(s, l.topic).box.log[q].value.eventId == id;
      }
    } else {
      OthersProcessNothing(s, l);
    }
  }

  lemma StoresWhere(ls: seq<Label>, n: nat, topic: Topic, q: nat, id: Uuid)
    requires Stores(ls, n, topic, q, id)
    ensures n < |ls|
  {
    hide Run;
  }

  lemma StoresOneMore(ls: seq<Label>, id: Uuid)
    requires ls != []
    ensures var init := ls[..|ls| - 1];
            StoresEvent(ls, id) <==>
              || StoresEvent(init, id)
              || exists topic: Topic, q: nat :: Stores(ls, |init|, topic, q, id)
  {
    hide Run, Stores;
    var init := ls[..|ls| - 1];
    assert init + [ls[|ls| - 1]] == ls;
    forall n: nat, topic: Topic, q: nat
      ensures n < |init| ==> Stores(ls, n, topic, q, id) == Stores(init, n, topic, q, id)
    {
      if n < |init| {
        ReadsInLonger(init, [ls[|ls| - 1]], n, topic, q);
      }
    }
    if StoresEvent(ls, id) {
      var n: nat, topic: Topic, q: nat :| Stores(ls, n, topic, q, id);
      StoresWhere(ls, n, topic, q, id);
      assert n < |init| || n == |init|;
    }
    if StoresEvent(init, id) {
      var n: nat, topic: Topic, q: nat :| Stores(init, n, topic, q, id);
      StoresWhere(init, n, topic, q, id);
      assert Stores(ls, n, topic, q, id);
    }
  }

  /** On every run an event is processed exactly when a delivery of it, from either topic, was stored. */
  lemma {:induction false} ProcessedIff(ls: seq<Label>, id: Uuid)
    ensures id in Run(ls).desk.sink.processed <==> StoresEvent(ls, id)
  {
    if ls == [] {
    } else {
      hide Run, Stores, StoresEvent;
      ProcessedIff(ls[..|ls| - 1], id);
      StepStores(ls, id);
      StoresOneMore(ls, id);
    }
  }

  // ---------- Lost records ----------

  /**
   * On every run a record is lost exactly when a record at its place or later was processed with its
   * offset stored, and no delivery of its event, from this record or any copy, was ever stored.
   */
  lemma RecordIsLostIff(ls: seq<Label>, topic: Topic, p: nat)
    requires p < |StreamOf(Run(ls), topic).box.log|
    ensures Lost(Run(ls), topic, p)
            <==> CommitsFrom(ls, topic, p) && !StoresEvent(ls, StreamOf(Run(ls), topic).box.log[p].value.eventId)
  {
    hide Run, CommitsFrom, StoresEvent;
    CommittedIff(ls, topic, p);
    ProcessedIff(ls, StreamOf(Run(ls), topic).box.log[p].value.eventId);
  }

  lemma {:induction false} LogStays(ls: seq<Label>, more: seq<Label>, topic: Topic)
    ensures StreamOf(Run(ls), topic).box.log <= StreamOf(Run(ls + more), topic).box.log
    decreases |more|
  {
    hide Step;
    if more == [] {
      assert ls + more == ls;
    } else {
      var shorter := ls + more[..|more| - 1];
      assert (ls + more)[..|ls + more| - 1] == shorter;
      LogStays(ls, more[..|more| - 1], topic);
      StepGrowsLog(Run(shorter), topic, more[|more| - 1]);
    }
  }

  lemma CommittedStaysBehind(ls: seq<Label>, more: seq<Label>, topic: Topic, p: nat)
    requires p < StreamOf(Run(ls), topic).cursor.committed
    ensures p < StreamOf(Run(ls + more), topic).cursor.committed <= StreamOf(Run(ls + more), topic).cursor.position
  {
    hide Run, Commits;
    CommittedIff(ls, topic, p);
    var n: nat, q: nat :| p <= q && Commits(ls, n, topic, q);
    CommitsWhere(ls, n, topic, q);
    ReadsInLonger(ls, more, n, topic, q);
    assert Commits(ls + more, n, topic, q);
    CommittedIff(ls + more, topic, p);
  }

  /** Behind a committed offset records are not read again, whatever restarts follow. */
  lemma OnlyLaterAreRead(ls: seq<Label>, more: seq<Label>, topic: Topic, p: nat, n: nat, q: nat)
    requires p < StreamOf(Run(ls), topic).cursor.committed
    requires |ls| <= n && Reads(ls + more, n, topic, q)
    ensures p < q
  {
    hide Run;
    assert (ls + more)[..n] == ls + more[..n - |ls|];
    CommittedStaysBehind(ls, more[..n - |ls|], topic, p);
  }

  /** From label `from` on the event is stored, from a later record of the topic than p or from the other topic. */
  ghost predicate StoresCopy(ls: seq<Label>, from: nat, topic: Topic, p: nat, id: Uuid) {
    exists n: nat, t: Topic, q: nat :: from <= n && (t == topic ==> p < q) && Stores(ls, n, t, q, id)
  }

  lemma CopyIsStored(ls: seq<Label>, more: seq<Label>, topic: Topic, p: nat, id: Uuid)
    requires p < StreamOf(Run(ls), topic).cursor.committed && !StoresEvent(ls, id)
    ensures StoresEvent(ls + more, id) <==> StoresCopy(ls + more, |ls|, topic, p, id)
  {
    hide Run;
    if StoresEvent(ls + more, id) {
      var n: nat, t: Topic, q: nat :| Stores(ls + more, n, t, q, id);
      if n < |ls| {
        ReadsInLonger(ls, more, n, t, q);
      } else if t == topic {
        OnlyLaterAreRead(ls, more, topic, p, n, q);
      }
    }
  }

  /**
   * Whatever follows, restarts included, a lost record stays lost exactly as long as no other copy
   * of its event, later in the topic or in the other one, is stored.
   */
  lemma LostStaysLost(ls: seq<Label>, more: seq<Label>, topic: Topic, p: nat)
    requires Lost(Run(ls), topic, p)
    ensures p < |StreamOf(Run(ls + more), topic).box.log|
    ensures Lost(Run(ls + more), topic, p)
            <==> !StoresCopy(ls + more, |ls|, topic, p, StreamOf(Run(ls), topic).box.log[p].value.eventId)
  {
    hide Run, StoresEvent, StoresCopy;
    var id := StreamOf(Run(ls), topic).box.log[p].value.eventId;
    LogStays(ls, more, topic);
    ProcessedIff(ls, id);
    ProcessedIff(ls + more, id);
    CommittedStaysBehind(ls, more, topic, p);
    CopyIsStored(ls, more, topic, p, id);
  }

  // ---------- What is not lost can be recovered ----------

  function Reading(topic: Topic, k: nat): seq<Label> {
    seq(k, _ => Consume(topic, Committed, true))
  }

  lemma RestartMoves(ls: seq<Label>, topic: Topic)
    ensures var s, t := Run(ls), Run(ls + [Restart(topic)]);
            && StreamOf(t, topic).cursor.position == StreamOf(s, topic).cursor.committed
            && StreamOf(t, topic).box.log == StreamOf(s, topic).box.log
            && t.desk.sink.processed == s.desk.sink.processed
  {
    assert (ls + [Restart(topic)])[..|ls|] == ls;
  }

  lemma ReadingMoves(s: State, topic: Topic)
    requires Base(s) && s.trail != [] && StreamOf(s, topic).cursor.position < |StreamOf(s, topic).box.log|
    ensures var l := Consume(topic, Committed, true);
            var c, d := StreamOf(s, topic), StreamOf(Step(s, l), topic);
            && d.box.log == c.box.log && d.cursor.position == c.cursor.position + 1
            && Step(s, l).desk.sink.processed == s.desk.sink.processed + {c.box.log[c.cursor.position].value.eventId}
  {
    hide Base, N.Deliver;
    ConsumeLabel(s, Consume(topic, Committed, true));
    ConsumeEnds(s, topic, Committed, true);
  }

  lemma {:induction false} ReadingProcesses(ls: seq<Label>, topic: Topic, k: nat)
    requires StreamOf(Run(ls), topic).cursor.position + k <= |StreamOf(Run(ls), topic).box.log|
    ensures var s, t := StreamOf(Run(ls), topic), Run(ls + Reading(topic, k));
            && StreamOf(t, topic).box.log == s.box.log
            && StreamOf(t, topic).cursor.position == s.cursor.position + k
            && forall p :: s.cursor.position <= p < s.cursor.position + k ==>
                 s.box.log[p].value.eventId in t.desk.sink.processed
  {
    hide Step, Base;
    if k == 0 {
      assert ls + Reading(topic, 0) == ls;
    } else {
      var shorter := ls + Reading(topic, k - 1);
      ReadingProcesses(ls, topic, k - 1);
      RunKeepsBase(shorter);
      ReadingMoves(Run(shorter), topic);
      var longer := ls + Reading(topic, k);
      assert longer[..|longer| - 1] == shorter && longer[|longer| - 1] == Consume(topic, Committed, true);
    }
  }

  lemma ProcessedStays(ls: seq<Label>, more: seq<Label>, id: Uuid)
    requires id in Run(ls).desk.sink.processed
    ensures id in Run(ls + more).desk.sink.processed
  {
    hide Run, Stores;
    ProcessedIff(ls, id);
    ProcessedIff(ls + more, id);
    var n: nat, topic: Topic, q: nat :| Stores(ls, n, topic, q, id);
    StoresWhere(ls, n, topic, q, id);
    ReadsInLonger(ls, more, n, topic, q);
    assert Stores(ls + more, n, topic, q, id);
  }

  lemma CommitIsWithin(ls: seq<Label>, n: nat, topic: Topic, q: nat)
    requires Commits(ls, n, topic, q)
    ensures q < |StreamOf(Run(ls), topic).box.log|
  {
    hide Run;
    LogStays(ls[..n], ls[n..], topic);
    assert ls[..n] + ls[n..] == ls;
  }

  lemma CommittedWithin(ls: seq<Label>, topic: Topic)
    ensures StreamOf(Run(ls), topic).cursor.committed <= |StreamOf(Run(ls), topic).box.log|
  {
    hide Run, Commits;
    var p := |StreamOf(Run(ls), topic).box.log|;
    CommittedIff(ls, topic, p);
    forall n: nat, q: nat | Commits(ls, n, topic, q)
      ensures q < p
    {
      CommitIsWithin(ls, n, topic, q);
    }
  }

  /**
   * What is not lost can be recovered: from every state a restart, followed by reading the topic to
   * its end, processes the event of every record that is not lost.
   */
  lemma RestartRecovers(ls: seq<Label>, topic: Topic, p: nat)
    requires p < |StreamOf(Run(ls), topic).box.log| && !Lost(Run(ls), topic, p)
    ensures var s := StreamOf(Run(ls), topic);
            && s.cursor.committed <= |s.box.log|
            && s.box.log[p].value.eventId
               in Run(ls + [Restart(topic)] + Reading(topic, |s.box.log| - s.cursor.committed)).desk.sink.processed
  {
    hide Run, Reading;
    CommittedWithin(ls, topic);
    var s := StreamOf(Run(ls), topic);
    RestartMoves(ls, topic);
    ReadingProcesses(ls + [Restart(topic)], topic, |s.box.log| - s.cursor.committed);
    var id := s.box.log[p].value.eventId;
    if id in Run(ls).desk.sink.processed {
      ProcessedStays(ls + [Restart(topic)], Reading(topic, |s.box.log| - s.cursor.committed), id);
    }
  }
}
