/** The worker of internal/outbox/worker.go over its database, proved against the machine of Outbox. */
module OutboxWorker {
  import opened Prelude
  import opened Outbox

  ghost function Sends(w: nat, attempts: seq<Attempt>): (r: seq<Label>)
    ensures |r| == |attempts|
  {
    seq(|attempts|, i requires 0 <= i < |attempts| => Send(w, attempts[i]))
  }

  /** The labels one call of Process goes through; those after a failure find no open batch and change nothing. */
  ghost function Trace(w: nat, batch: seq<nat>, attempts: seq<Attempt>, ending: Ending): seq<Label>
    requires |attempts| == |batch|
  {
    [Begin(w, batch)] + Sends(w, attempts) + [Finish(w, ending)]
  }

  predicate AllGood(attempts: seq<Attempt>) {
    forall i :: 0 <= i < |attempts| ==> attempts[i].Good()
  }

  lemma NothingSent(start: State, w: nat, outcomes: seq<Attempt>)
    requires outcomes == []
    ensures Run(start, Sends(w, outcomes)) == start
  {
  }

  lemma SendsExtend(start: State, w: nat, outcomes: seq<Attempt>, i: nat)
    requires i < |outcomes|
    ensures Run(start, Sends(w, outcomes[..i + 1])) == Step(Run(start, Sends(w, outcomes[..i])), Send(w, outcomes[i]))
  {
    hide Step;
    var longer := Sends(w, outcomes[..i + 1]);
    assert longer[..i] == Sends(w, outcomes[..i]);
  }

  /** Labels of a worker without an open batch change nothing. */
  lemma {:induction false} IdleLabels(s: State, ls: seq<Label>, w: nat)
    requires w !in s.flights
    requires forall l :: l in ls ==> (l.Send? || l.Finish?) && l.worker == w
    ensures Run(s, ls) == s
  {
    if ls != [] {
      IdleLabels(s, ls[..|ls| - 1], w);
      assert ls[|ls| - 1] in ls;
    }
  }

  /** The labels behind the first `tried` sends. */
  ghost function Remaining(w: nat, attempts: seq<Attempt>, tried: nat, ending: Ending): (r: seq<Label>)
    requires tried <= |attempts|
    ensures forall l :: l in r ==> (l.Send? || l.Finish?) && l.worker == w
  {
    Sends(w, attempts[tried..]) + [Finish(w, ending)]
  }

  lemma RunOne(s: State, l: Label)
    ensures Run(s, [l]) == Step(s, l)
  {
    assert [l][..0] == [];
  }

  lemma TraceSplits(w: nat, batch: seq<nat>, attempts: seq<Attempt>, tried: nat, ending: Ending)
    requires |attempts| == |batch| && tried <= |batch|
    ensures Trace(w, batch, attempts, ending)
         == [Begin(w, batch)] + (Sends(w, attempts[..tried]) + Remaining(w, attempts, tried, ending))
  {
    assert Sends(w, attempts) == Sends(w, attempts[..tried]) + Sends(w, attempts[tried..]);
  }

  lemma RunSplits(start: State, w: nat, batch: seq<nat>, attempts: seq<Attempt>, tried: nat, ending: Ending)
    requires |attempts| == |batch| && tried <= |batch|
    ensures Run(start, Trace(w, batch, attempts, ending))
         == Run(Run(Step(start, Begin(w, batch)), Sends(w, attempts[..tried])), Remaining(w, attempts, tried, ending))
  {
    hide Step, Run, Trace, Sends, Remaining;
    TraceSplits(w, batch, attempts, tried, ending);
    var rest := Remaining(w, attempts, tried, ending);
    RunAppend(start, [Begin(w, batch)], Sends(w, attempts[..tried]) + rest);
    RunOne(start, Begin(w, batch));
    RunAppend(Step(start, Begin(w, batch)), Sends(w, attempts[..tried]), rest);
  }

  lemma FailureEndsTrace(start: State, w: nat, batch: seq<nat>, outcomes: seq<Attempt>, tried: nat, ending: Ending)
    requires |outcomes| == |batch| && tried <= |batch|
    requires w !in Run(Step(start, Begin(w, batch)), Sends(w, outcomes[..tried])).flights
    ensures Run(start, Trace(w, batch, outcomes, ending))
        == Run(Step(start, Begin(w, batch)), Sends(w, outcomes[..tried]))
  {
    hide Step, Run, Trace, Sends, Remaining;
    RunSplits(start, w, batch, outcomes, tried, ending);
    IdleLabels(Run(Step(start, Begin(w, batch)), Sends(w, outcomes[..tried])),
        Remaining(w, outcomes, tried, ending), w);
  }

  lemma CompleteTrace(start: State, w: nat, batch: seq<nat>, outcomes: seq<Attempt>, ending: Ending)
    requires |outcomes| == |batch|
    ensures Run(start, Trace(w, batch, outcomes, ending))
         == Step(Run(Step(start, Begin(w, batch)), Sends(w, outcomes[..|batch|])), Finish(w, ending))
  {
    hide Step, Run, Trace;
    RunSplits(start, w, batch, outcomes, |batch|, ending);
    assert Remaining(w, outcomes, |batch|, ending) == [Finish(w, ending)];
    RunOne(Run(Step(start, Begin(w, batch)), Sends(w, outcomes[..|batch|])), Finish(w, ending));
  }

  /** The outbox table with its row locks, and the topic the workers produce to. */
  class OutboxDb {
    var rows: seq<Row>
    var published: set<nat>
    var attempts: seq<nat>
    var flights: map<nat, Flight>
    var log: seq<Record>

    constructor ()
      ensures State() == EMPTY
    {
      rows, published, attempts, flights, log := [], {}, [], map[], [];
    }

    ghost function State(): Outbox.State
      reads this
    {
      Outbox.State(rows, published, attempts, flights, log)
    }

    /**
     * One call of Process by worker w. `queried` is whether Begin, the query and the scans
     * succeed, `batch` the answer of the SELECT, `outcomes` what each produce and mark would
     * report, and `ending` how the final commit ends.
     */
    method Process(w: nat, queried: bool, batch: seq<nat>, outcomes: seq<Attempt>, ending: Ending) returns (ok: bool)
      requires w !in flights && FreeBatch(State(), batch) && |outcomes| == |batch|
      modifies this
      ensures queried ==> State() == Run(old(State()), Trace(w, batch, outcomes, ending))
      ensures !queried ==> State() == old(State())
      // no error is reported exactly when all rows were produced, marked and committed
      ensures ok <==> queried && AllGood(outcomes) && ending.Committed?
      // all of the batch is marked, or none of it
      ensures published == old(published)
          + (if queried && AllGood(outcomes) && ending.Durable() then set i | i in batch else {})
      // and no lock outlives the call
      ensures flights == old(flights)
    {
      if !queried {
        return false;
      }
      ghost var start := State();
      Lock(w, batch);
      ghost var tried;
      ok, tried := PublishAll(w, outcomes);
      if !ok {
        FailureEndsTrace(start, w, batch, outcomes, tried, ending);
        return;
      }
      Commit(w, ending);
      CompleteTrace(start, w, batch, outcomes, ending);
      ok := ending.Committed?;
    }

    /** The produce loop; it stops at the first row that fails. */
    method PublishAll(w: nat, outcomes: seq<Attempt>) returns (ok: bool, ghost tried: nat)
      requires w in flights && flights[w].at == 0 && |flights[w].batch| == |outcomes|
      requires forall x :: x in flights[w].batch ==> x < |rows|
      modifies this
      ensures tried <= |outcomes| && State() == Run(old(State()), Sends(w, outcomes[..tried]))
      ensures ok <==> AllGood(outcomes)
      ensures ok ==> tried == |outcomes| && flights == old(flights)[w := Flight(old(flights)[w].batch, tried)]
      ensures !ok ==> flights == old(flights) - {w}
      ensures rows == old(rows) && published == old(published)
    {
      hide Step, Run;
      tried := 0;
      assert State() == Run(State(), Sends(w, outcomes[..0])) by {
        NothingSent(State(), w, outcomes[..0]);
      }
      var next := 0;
      while next < |outcomes|
        invariant tried == next <= |outcomes| && AllGood(outcomes[..tried])
        invariant State() == Run(old(State()), Sends(w, outcomes[..tried]))
        invariant flights == old(flights)[w := Flight(old(flights)[w].batch, tried)]
        invariant rows == old(rows) && published == old(published)
      {
        ghost var i := tried;
        SendsExtend(old(State()), w, outcomes, i);
        assert flights[w].batch[i] in flights[w].batch;
        ok := Publish(w, outcomes[next]);
        next := next + 1;
        tried := next;
        if !ok {
          assert !outcomes[i].Good();
          return;
        }
        assert outcomes[..tried] == outcomes[..i] + [outcomes[i]];
      }
      assert outcomes[..tried] == outcomes;
      ok := true;
    }

    /**
     * The SELECT ... FOR UPDATE SKIP LOCKED, which locks the rows it answers with, and the scan of
     * its answer into the batch.
     */
    method Lock(w: nat, answer: seq<nat>)
      requires w !in flights && FreeBatch(State(), answer)
      modifies this
      ensures State() == Step(old(State()), Begin(w, answer))
      ensures flights == old(flights)[w := Flight(answer, 0)]
      ensures rows == old(rows) && published == old(published)
      ensures forall x :: x in answer ==> x < |rows|
    {
      assert forall x :: x in answer ==> Selectable(State(), x);
      var batch: seq<nat> := [];
      for i := 0 to |answer|
        invariant batch == answer[..i] && State() == old(State())
      {
        batch := batch + [answer[i]];
      }
      assert batch == answer;
      flights := flights[w := Flight(batch, 0)];
    }

    /** The body of the produce loop, for the next row of the open batch; a failure rolls everything back. */
    method Publish(w: nat, outcome: Attempt) returns (marked: bool)
      requires Sendable(State(), w)
      modifies this
      ensures State() == Step(old(State()), Send(w, outcome))
      ensures marked <==> outcome.Good()
      ensures flights == if marked then old(flights)[w := old(flights)[w].(at := old(flights)[w].at + 1)]
          else old(flights) - {w}
      ensures rows == old(rows) && published == old(published)
    {
      var flight := flights[w];
      var x := flight.batch[flight.at];
      if !outcome.produce.Failed? {
        log := log + [Record(x, rows[x].aggregate, rows[x].payload)];
      }
      marked := outcome.produce.Acked? && outcome.markOk;
      if marked {
        flights := flights[w := flight.(at := flight.at + 1)];
      } else {
        flights := flights - {w};
      }
    }

    /** The commit of a batch that was produced to its end. */
    method Commit(w: nat, ending: Ending)
      requires w in flights && flights[w].at == |flights[w].batch|
      modifies this
      ensures State() == Step(old(State()), Finish(w, ending))
      ensures flights == old(flights) - {w}
      ensures published == old(published) + (if ending.Durable() then set i | i in old(flights)[w].batch else {})
    {
      var batch := flights[w].batch;
      if ending.Durable() {
        published := published + set j | j in batch;
        attempts := Bumped(attempts, batch);
      }
      flights := flights - {w};
    }
  }
}

