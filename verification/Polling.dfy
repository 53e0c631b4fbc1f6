/** The offsets of one topic as the poll loop of cmd/notification-service/main.go moves them. */
module Polling {
  import opened Prelude
  import opened Events
  import N = Notifications

  /** Where the client reads next, and where a restarted client would. */
  datatype Cursor = Cursor(position: nat, committed: nat)

  /** A record handed to Process: how its transaction ends, and whether the offset commit is stored. */
  datatype Polled = Polled(delivery: N.Delivery, stored: bool)

  /** The offset is committed only behind a record that was processed without error. */
  function Advance(s: N.State, c: Cursor, r: Polled): Cursor {
    Cursor(c.position + 1, if N.ReportsSuccess(s, r.delivery) && r.stored then c.position + 1 else c.committed)
  }

  function Tables(s: N.State, rs: seq<Polled>): N.State {
    if rs == [] then s else N.Deliver(Tables(s, rs[..|rs| - 1]), rs[|rs| - 1].delivery)
  }

  function Cursors(s: N.State, c: Cursor, rs: seq<Polled>): Cursor {
    if rs == [] then c
    else Advance(Tables(s, rs[..|rs| - 1]), Cursors(s, c, rs[..|rs| - 1]), rs[|rs| - 1])
  }

  // ---------- The committed offset ----------

  lemma {:induction false} PositionCounts(s: N.State, c: Cursor, rs: seq<Polled>)
    ensures Cursors(s, c, rs).position == c.position + |rs|
  {
    if rs != [] {
      PositionCounts(s, c, rs[..|rs| - 1]);
    }
  }

  /** Record j of a fetch is one behind which the offset is committed. */
  predicate Commits(s: N.State, rs: seq<Polled>, j: nat) {
    j < |rs| && N.ReportsSuccess(Tables(s, rs[..j]), rs[j].delivery) && rs[j].stored
  }

  lemma CommitsInPart(s: N.State, rs: seq<Polled>, n: nat, j: nat)
    requires j < n <= |rs|
    ensures Commits(s, rs[..n], j) == Commits(s, rs, j)
  {
    assert rs[..n][..j] == rs[..j];
  }

  lemma {:induction false} CommittedStaysBehind(s: N.State, c: Cursor, rs: seq<Polled>)
    requires c.committed <= c.position
    ensures Cursors(s, c, rs).committed <= Cursors(s, c, rs).position
  {
    if rs != [] {
      CommittedStaysBehind(s, c, rs[..|rs| - 1]);
    }
  }

  /**
   * The offset committed by a fetch lies behind record k exactly when it was committed behind that
   * record or a later one.
   */
  lemma {:induction false} LastSuccessCovers(s: N.State, c: Cursor, rs: seq<Polled>, k: nat)
    requires c.committed <= c.position && k < |rs|
    ensures c.position + k < Cursors(s, c, rs).committed <==> exists j: nat :: k <= j && Commits(s, rs, j)
    ensures Cursors(s, c, rs).committed <= Cursors(s, c, rs).position == c.position + |rs|
  {
    hide N.ReportsSuccess, N.Deliver;
    var init := rs[..|rs| - 1];
    PositionCounts(s, c, init);
    if k < |init| {
      LastSuccessCovers(s, c, init, k);
      forall j: nat | j < |init|
        ensures Commits(s, init, j) == Commits(s, rs, j)
      {
        CommitsInPart(s, rs, |init|, j);
      }
    } else {
      CommittedStaysBehind(s, c, init);
    }
    if Commits(s, rs, |init|) {
      assert Cursors(s, c, rs).committed == c.position + |rs|;
    }
  }

  // ---------- Which records are lost ----------

  /** This delivery stores this event as processed. */
  predicate Stores(r: Polled, id: Uuid) {
    N.Succeeds(r.delivery) && r.delivery.message.envelope.eventId == id
  }

  /** An event is processed after a fetch exactly when it was before or a delivery of the fetch stored it. */
  lemma {:induction false} ProcessedIff(s: N.State, rs: seq<Polled>, id: Uuid)
    ensures id in Tables(s, rs).processed <==> id in s.processed || exists j :: 0 <= j < |rs| && Stores(rs[j], id)
  {
    hide N.Deliver, N.Succeeds;
    if rs != [] {
      var init, last := rs[..|rs| - 1], rs[|rs| - 1];
      ProcessedIff(s, init, id);
      N.DeliverProcesses(Tables(s, init), last.delivery);
      assert forall j :: 0 <= j < |init| ==> init[j] == rs[j];
    }
  }

  /**
   * After the fetch the offset has passed record k, and its event is not processed: a restart does
   * not read it again.
   */
  predicate LostByFetch(s: N.State, c: Cursor, rs: seq<Polled>, k: nat)
    requires k < |rs| && rs[k].delivery.message.Decoded?
  {
    && c.position + k < Cursors(s, c, rs).committed
    && rs[k].delivery.message.envelope.eventId !in Tables(s, rs).processed
  }

  /**
   * A record of a fetch is lost exactly when its event was not processed before, no delivery of it
   * in the fetch succeeds, and a record at its place or later is processed and its offset stored.
   */
  lemma FetchLosesRecordIff(s: N.State, c: Cursor, rs: seq<Polled>, k: nat)
    requires c.committed <= c.position && k < |rs| && N.WellFormed(rs[k].delivery.message)
    ensures var id := rs[k].delivery.message.envelope.eventId;
            LostByFetch(s, c, rs, k)
            <==> && id !in s.processed
                 && (forall j :: 0 <= j < |rs| ==> !Stores(rs[j], id))
                 && exists j: nat :: k <= j && Commits(s, rs, j)
  {
    hide Tables, Cursors, Commits, Stores;
    LastSuccessCovers(s, c, rs, k);
    ProcessedIff(s, rs, rs[k].delivery.message.envelope.eventId);
  }

  /** A record whose transaction is rolled back, and the next, which succeeds. */
  function LosingFetch(first: Envelope, second: Envelope): seq<Polled> {
    [Polled(N.Delivery(Decoded(first), Aborted), true), Polled(N.Delivery(Decoded(second), Committed), true)]
  }

  /** The first of two good records is lost when its transaction fails and the second is processed. */
  lemma FailedRecordIsLost(first: Envelope, second: Envelope)
    requires N.WellFormed(Decoded(first)) && N.WellFormed(Decoded(second)) && N.Acceptable(second)
    requires first.eventId != second.eventId
    ensures LostByFetch(N.EMPTY, Cursor(0, 0), LosingFetch(first, second), 0)
    ensures Cursors(N.EMPTY, Cursor(0, 0), LosingFetch(first, second)) == Cursor(2, 2)
  {
    hide N.Acceptable;
    var rs := LosingFetch(first, second);
    FetchLosesRecordIff(N.EMPTY, Cursor(0, 0), rs, 0);
    assert Tables(N.EMPTY, rs[..1]) == N.EMPTY by {
      assert rs[..1][..0] == [];
    }
    N.AcceptableApplies(N.EMPTY, second);
    assert Commits(N.EMPTY, rs, 1);
    LastSuccessCovers(N.EMPTY, Cursor(0, 0), rs, 1);
  }
}

