/** How many undisturbed calls of the worker empty an outbox. */
module OutboxDraining {
  import opened Prelude
  import opened Outbox
  import opened OutboxWorker
  import opened TopicOrder

  ghost function AllAcked(n: nat): (attempts: seq<Attempt>)
    ensures |attempts| == n && forall i :: 0 <= i < n ==> attempts[i] == Attempt(Acked, true)
  {
    seq(n, _ => Attempt(Acked, true))
  }

  /** The steps of a call of Process in which every produce, mark and commit succeeds. */
  ghost function Undisturbed(w: nat, batch: seq<nat>): seq<Label> {
    Trace(w, batch, AllAcked(|batch|), Committed)
  }

  /** A worker's batch after its first n rows were produced and marked. */
  ghost function Halfway(s: State, w: nat, batch: seq<nat>, n: nat): State
    requires n <= |batch| && Within(s.rows, batch)
  {
    s.(flights := s.flights[w := Flight(batch, n)], log := s.log + RecordsOf(s, batch[..n]))
  }

  lemma OneMoreSent(s: State, w: nat, batch: seq<nat>, n: nat)
    requires n < |batch| && Within(s.rows, batch)
    ensures Step(Halfway(s, w, batch, n), Send(w, Attempt(Acked, true))) == Halfway(s, w, batch, n + 1)
  {
    hide FreeBatch;
    var h := Halfway(s, w, batch, n);
    assert Sendable(h, w);
    assert RecordsOf(s, batch[..n + 1]) == RecordsOf(s, batch[..n]) + [RecordOf(s, batch[n])];
    assert h.flights[w := Flight(batch, n + 1)] == s.flights[w := Flight(batch, n + 1)];
  }

  lemma {:induction false} RowsAreSent(s: State, w: nat, batch: seq<nat>, n: nat)
    requires n <= |batch| && Within(s.rows, batch)
    ensures Run(Halfway(s, w, batch, 0), Sends(w, AllAcked(n))) == Halfway(s, w, batch, n)
  {
    hide Step, Halfway;
    if n > 0 {
      RowsAreSent(s, w, batch, n - 1);
      var all := Sends(w, AllAcked(n));
      assert all[..n - 1] == Sends(w, AllAcked(n - 1));
      OneMoreSent(s, w, batch, n - 1);
    }
  }

  /** The state an undisturbed call leaves: its batch is in the topic, in order, and marked. */
  ghost function Published(s: State, batch: seq<nat>): State
    requires Within(s.rows, batch)
  {
    s.(published := s.published + Elements(batch), attempts := Bumped(s.attempts, batch),
        log := s.log + RecordsOf(s, batch))
  }

  lemma FreeIsWithin(s: State, batch: seq<nat>)
    requires FreeBatch(s, batch)
    ensures Within(s.rows, batch)
  {
    forall b | 0 <= b < |batch|
      ensures batch[b] < |s.rows|
    {
      assert Selectable(s, batch[b]);
    }
  }

  lemma BatchIsLocked(s: State, w: nat, batch: seq<nat>)
    requires FreeBatch(s, batch) && w !in s.flights
    ensures Within(s.rows, batch) && Step(s, Begin(w, batch)) == Halfway(s, w, batch, 0)
  {
    hide Selectable;
    FreeIsWithin(s, batch);
    assert RecordsOf(s, batch[..0]) == [];
  }

  lemma BatchIsMarked(s: State, w: nat, batch: seq<nat>)
    requires Within(s.rows, batch) && w !in s.flights
    ensures Step(Halfway(s, w, batch, |batch|), Finish(w, Committed)) == Published(s, batch)
  {
    assert batch[..|batch|] == batch;
    assert (set i | i in batch) == Elements(batch);
    assert s.flights[w := Flight(batch, |batch|)] - {w} == s.flights;
  }

  lemma CallPublishes(s: State, w: nat, batch: seq<nat>)
    requires FreeBatch(s, batch) && w !in s.flights
    ensures Within(s.rows, batch) && Run(s, Undisturbed(w, batch)) == Published(s, batch)
  {
    hide Step, Run, FreeBatch, Halfway, Published;
    BatchIsLocked(s, w, batch);
    CompleteTrace(s, w, batch, AllAcked(|batch|), Committed);
    assert AllAcked(|batch|)[..|batch|] == AllAcked(|batch|);
    RowsAreSent(s, w, batch, |batch|);
    BatchIsMarked(s, w, batch);
  }

  // ---------- Calls one after the other ----------

  ghost function After(s: State, w: nat, batches: seq<seq<nat>>): State
    decreases |batches|
  {
    if batches == [] then s
    else Run(After(s, w, batches[..|batches| - 1]), Undisturbed(w, batches[|batches| - 1]))
  }

  /** Calls of one worker, each with the answer the query gives it. */
  ghost predicate Calls(s: State, w: nat, batches: seq<seq<nat>>)
    decreases |batches|
  {
    batches == [] ||
    (var init := batches[..|batches| - 1];
     Calls(s, w, init) && LegalBatch(After(s, w, init), batches[|batches| - 1]))
  }

  lemma WaitingAfter(s: State, batch: seq<nat>)
    requires FreeBatch(s, batch) && Within(s.rows, batch)
    ensures |Waiting(Published(s, batch))| == |Waiting(s)| - |batch|
  {
    forall b | 0 <= b < |batch|
      ensures batch[b] in Waiting(s)
    {
      assert Selectable(s, batch[b]);
    }
    ListedSize(batch);
    assert Waiting(Published(s, batch)) == Waiting(s) - Elements(batch);
    assert Elements(batch) <= Waiting(s);
  }

  lemma SubsetSize(part: set<nat>, all: set<nat>)
    requires part <= all
    ensures |part| <= |all|
  {
    assert all == part + (all - part);
  }

  /** The query answers with fifty rows, or with all that wait. */
  lemma LegalSize(s: State, batch: seq<nat>)
    requires s.flights == map[] && LegalBatch(s, batch)
    ensures |batch| == if |Waiting(s)| < BATCH_LIMIT then |Waiting(s)| else BATCH_LIMIT
  {
    WaitingIsSelectable(s);
    ListedSize(batch);
    assert forall b :: 0 <= b < |batch| ==> Selectable(s, batch[b]);
    assert Elements(batch) <= Waiting(s);
    SubsetSize(Elements(batch), Waiting(s));
    if |batch| < BATCH_LIMIT {
      forall x | x in Waiting(s)
        ensures x in batch
      {
        assert Selectable(s, x);
      }
      assert Waiting(s) == Elements(batch);
    }
  }

  /** After k undisturbed calls fifty rows fewer wait for each of them, as long as there are so many. */
  lemma {:induction false} CallsDrain(s: State, w: nat, batches: seq<seq<nat>>)
    requires s.flights == map[] && Calls(s, w, batches)
    ensures After(s, w, batches).flights == map[]
    ensures |Waiting(After(s, w, batches))|
         == if |Waiting(s)| < |batches| * BATCH_LIMIT then 0 else |Waiting(s)| - |batches| * BATCH_LIMIT
  {
    if batches != [] {
      var init, batch := batches[..|batches| - 1], batches[|batches| - 1];
      CallsDrain(s, w, init);
      var t := After(s, w, init);
      hide Run, Undisturbed, Waiting, FreeBatch;
      LegalSize(t, batch);
      CallPublishes(t, w, batch);
      WaitingAfter(t, batch);
    }
  }

  lemma {:induction false} RowsStay(s: State, w: nat, batches: seq<seq<nat>>)
    requires s.flights == map[] && Calls(s, w, batches)
    ensures After(s, w, batches).rows == s.rows
  {
    if batches != [] {
      var init, batch := batches[..|batches| - 1], batches[|batches| - 1];
      RowsStay(s, w, init);
      CallsDrain(s, w, init);
      var t := After(s, w, init);
      hide Run, Undisturbed, FreeBatch;
      CallPublishes(t, w, batch);
    }
  }

  /** So n unpublished rows are published by k undisturbed calls exactly when k is at least ceil(n/50). */
  lemma DrainsInCeilCalls(s: State, w: nat, batches: seq<seq<nat>>)
    requires s.flights == map[] && Calls(s, w, batches)
    ensures (forall i :: 0 <= i < |s.rows| ==> i in After(s, w, batches).published)
            <==> (|Waiting(s)| + 49) / 50 <= |batches|
  {
    CallsDrain(s, w, batches);
    RowsStay(s, w, batches);
    hide Run, Undisturbed, Calls, After;
    var t := After(s, w, batches);
    if Waiting(t) == {} {
      assert forall i :: 0 <= i < |s.rows| && i !in t.published ==> i in Waiting(t);
    } else {
      var x :| x in Waiting(t);
    }
  }

  /** And any number of such calls can be made: the query always has an answer. */
  lemma {:induction false} CallsExist(s: State, w: nat, k: nat) returns (batches: seq<seq<nat>>)
    requires s.flights == map[]
    ensures |batches| == k && Calls(s, w, batches)
  {
    if k == 0 {
      batches := [];
    } else {
      var init := CallsExist(s, w, k - 1);
      CallsDrain(s, w, init);
      var t := After(s, w, init);
      OldestIsLegal(t, 0);
      var batch := Oldest(t.rows, Waiting(t), 0, BATCH_LIMIT);
      hide Run, Undisturbed, LegalBatch;
      batches := init + [batch];
      assert batches[..|batches| - 1] == init;
    }
  }
}
