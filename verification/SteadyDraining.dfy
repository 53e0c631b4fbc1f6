/** Every steady run can go on to a drained one, in which the recipients have caught up with the users. */
module SteadyDraining {
  import opened Prelude
  import Outbox
  import W = OutboxWorker
  import T = TopicOrder
  import OutboxDraining
  import opened Projection
  import opened Pipeline
  import opened PipelineGuarantees
  import R = DrainedRecipients
  import N = Notifications
  import D = Dispatcher

  lemma RunOneMore(ls: seq<Label>, l: Label)
    ensures Run(ls + [l]) == Step(Run(ls), l)
  {
    hide Step;
    assert (ls + [l])[..|ls|] == ls;
  }

  lemma SteadyOneMore(ls: seq<Label>, l: Label)
    requires Steady(ls) && Orderly(Run(ls), l) && Calm(UserTopic, l)
    ensures Steady(ls + [l])
  {
    hide Orderly, Run;
    forall n | 0 <= n < |ls + [l]|
      ensures Orderly(Run((ls + [l])[..n]), (ls + [l])[n]) && Calm(UserTopic, (ls + [l])[n])
    {
      if n < |ls| {
        assert (ls + [l])[..n] == ls[..n];
      } else {
        assert (ls + [l])[..n] == ls;
      }
    }
  }

  // ---------- The worker at work ----------

  function Works(works: seq<Outbox.Label>): (ls: seq<Label>)
    ensures |ls| == |works| && forall k :: 0 <= k < |works| ==> ls[k] == Worker(UserTopic, works[k])
  {
    seq(|works|, k requires 0 <= k < |works| => Worker(UserTopic, works[k]))
  }

  ghost predicate DisciplinedFrom(box: Outbox.State, works: seq<Outbox.Label>) {
    forall k :: 0 <= k < |works| ==> !works[k].Write? && Outbox.Disciplined(Outbox.Run(box, works[..k]), works[k])
  }

  lemma PartIsDisciplined(box: Outbox.State, works: seq<Outbox.Label>)
    requires works != [] && DisciplinedFrom(box, works)
    ensures var init := works[..|works| - 1];
            && DisciplinedFrom(box, init)
            && !works[|init|].Write? && Outbox.Disciplined(Outbox.Run(box, init), works[|init|])
  {
    hide Outbox.Run, Outbox.Disciplined;
    var init := works[..|works| - 1];
    assert works[..|init|] == init;
    forall k | 0 <= k < |init|
      ensures !init[k].Write? && Outbox.Disciplined(Outbox.Run(box, init[..k]), init[k])
    {
      assert init[..k] == works[..k] && init[k] == works[k];
    }
  }

  lemma WorkerStep(s: State, work: Outbox.Label)
    requires s.trail != [] && !work.Write?
    ensures Step(s, Worker(UserTopic, work)) == s.(users := s.users.(box := Outbox.Step(s.users.box, work)))
  {
    hide Outbox.Step;
  }

  lemma WorkIsOrderly(s: State, work: Outbox.Label)
    requires Outbox.Disciplined(s.users.box, work)
    ensures Orderly(s, Worker(UserTopic, work)) && Calm(UserTopic, Worker(UserTopic, work))
  {
    hide Outbox.Disciplined;
  }

  /** Disciplined work on the users outbox can follow a steady run, and moves nothing else. */
  lemma {:induction false} WorkIsSteady(ls: seq<Label>, works: seq<Outbox.Label>)
    requires Steady(ls) && DisciplinedFrom(Run(ls).users.box, works)
    ensures Steady(ls + Works(works))
    ensures Run(ls + Works(works)) == Run(ls).(users := Run(ls).users.(box := Outbox.Run(Run(ls).users.box, works)))
    decreases |works|
  {
    hide Step, Outbox.Step, Outbox.Disciplined, Steady, DisciplinedFrom, Run, Orderly;
    if works == [] {
      assert ls + Works(works) == ls;
    } else {
      var init, work := works[..|works| - 1], works[|works| - 1];
      PartIsDisciplined(Run(ls).users.box, works);
      WorkIsSteady(ls, init);
      assert ls + Works(works) == ls + Works(init) + [Worker(UserTopic, work)];
      RunOneMore(ls + Works(init), Worker(UserTopic, work));
      WorkerStep(Run(ls + Works(init)), work);
      WorkIsOrderly(Run(ls + Works(init)), work);
      SteadyOneMore(ls + Works(init), Worker(UserTopic, work));
    }
  }

  lemma CrashStep(box: Outbox.State, w: nat)
    ensures Outbox.Step(box, Outbox.Crash(w)) == box.(flights := box.flights - {w})
  {
    hide Outbox.FreeBatch;
  }

  /** A batch that is open is given up. */
  lemma CrashIsDisciplined(box: Outbox.State, w: nat)
    ensures DisciplinedFrom(box, [Outbox.Crash(w)])
        && Outbox.Run(box, [Outbox.Crash(w)]) == box.(flights := box.flights - {w})
  {
    hide Outbox.Step;
    W.RunOne(box, Outbox.Crash(w));
    CrashStep(box, w);
  }

  lemma FewerFlights(flights: map<nat, Outbox.Flight>, w: nat)
    requires w in flights
    ensures |flights - {w}| < |flights|
  {
    assert (flights - {w}).Keys == flights.Keys - {w};
    assert flights.Keys == (flights.Keys - {w}) + {w};
    assert |flights - {w}| == |(flights - {w}).Keys| && |flights| == |flights.Keys|;
  }

  lemma {:induction false} FlightsCanClose(ls: seq<Label>) returns (more: seq<Label>)
    requires Steady(ls)
    ensures Steady(ls + more) && Run(ls + more).users.box.flights == map[]
    ensures Run(ls + more) == Run(ls).(users := Run(ls + more).users)
    decreases |Run(ls).users.box.flights|
  {
    hide Run, Steady, DisciplinedFrom;
    var box := Run(ls).users.box;
    if box.flights == map[] {
      more := [];
      assert ls + more == ls;
    } else {
      var w :| w in box.flights;
      CrashIsDisciplined(box, w);
      WorkIsSteady(ls, [Outbox.Crash(w)]);
      var next := ls + Works([Outbox.Crash(w)]);
      FewerFlights(box.flights, w);
      var rest := FlightsCanClose(next);
      more := Works([Outbox.Crash(w)]) + rest;
      assert ls + more == next + rest;
    }
  }

  lemma RunNone(box: Outbox.State, works: seq<Outbox.Label>)
    requires works == []
    ensures Outbox.Run(box, works) == box
  {
  }

  /** An undisturbed call is disciplined when its batch is the query's answer. */
  lemma CallIsDisciplined(box: Outbox.State, batch: seq<nat>)
    requires box.flights == map[] && Outbox.LegalBatch(box, batch)
    ensures DisciplinedFrom(box, OutboxDraining.Undisturbed(0, batch))
  {
    hide Outbox.LegalBatch, Outbox.Run;
    var works := OutboxDraining.Undisturbed(0, batch);
    assert Outbox.Run(box, works[..0]) == box by {
      RunNone(box, works[..0]);
    }
    assert works[0] == Outbox.Begin(0, batch);
    forall k | 0 <= k < |works|
      ensures !works[k].Write? && Outbox.Disciplined(Outbox.Run(box, works[..k]), works[k])
    {
      assert k > 0 ==> works[k].Send? || works[k].Finish?;
    }
  }

  lemma LegalIsFree(box: Outbox.State, batch: seq<nat>)
    requires Outbox.LegalBatch(box, batch)
    ensures Outbox.FreeBatch(box, batch)
  {
  }

  lemma SomeWait(waiting: set<nat>)
    requires waiting != {}
    ensures |waiting| > 0
  {
  }

  lemma {:induction false} AllCanBePublished(ls: seq<Label>) returns (more: seq<Label>)
    requires Steady(ls) && Run(ls).users.box.flights == map[]
    ensures Steady(ls + more) && T.Waiting(Run(ls + more).users.box) == {}
    ensures Run(ls + more).users.box.flights == map[] && Run(ls + more) == Run(ls).(users := Run(ls + more).users)
    decreases |T.Waiting(Run(ls).users.box)|
  {
    hide Run, Steady, DisciplinedFrom, T.Oldest, OutboxDraining.Undisturbed, Outbox.LegalBatch, Outbox.FreeBatch,
        Outbox.Run;
    var box := Run(ls).users.box;
    if T.Waiting(box) == {} {
      more := [];
      assert ls + more == ls;
    } else {
      var batch := T.Oldest(box.rows, T.Waiting(box), 0, Outbox.BATCH_LIMIT);
      T.OldestIsLegal(box, 0);
      LegalIsFree(box, batch);
      CallIsDisciplined(box, batch);
      var works := OutboxDraining.Undisturbed(0, batch);
      WorkIsSteady(ls, works);
      OutboxDraining.CallPublishes(box, 0, batch);
      OutboxDraining.WaitingAfter(box, batch);
      OutboxDraining.LegalSize(box, batch);
      SomeWait(T.Waiting(box));
      var rest := AllCanBePublished(ls + Works(works));
      more := Works(works) + rest;
      assert ls + more == ls + Works(works) + rest;
    }
  }

  // ---------- The consumer at work ----------

  lemma ReadIsOrderly(s: State)
    ensures Orderly(s, Consume(UserTopic, Committed, true)) && Calm(UserTopic, Consume(UserTopic, Committed, true))
  {
  }

  lemma ReadMoves(s: State)
    requires s.trail != [] && s.users.cursor.position < |s.users.box.log|
    ensures var t := Step(s, Consume(UserTopic, Committed, true));
            t.users.box == s.users.box && t.users.cursor.position == s.users.cursor.position + 1
                && t.accounts == s.accounts
  {
    hide N.Deliver, N.ReportsSuccess, D.Step;
  }

  lemma {:induction false} AllCanBeRead(ls: seq<Label>) returns (more: seq<Label>)
    requires Steady(ls) && Run(ls).users.cursor.position <= |Run(ls).users.box.log|
    ensures Steady(ls + more) && Run(ls + more).users.box == Run(ls).users.box
        && Run(ls + more).accounts == Run(ls).accounts
    ensures Run(ls + more).users.cursor.position == |Run(ls).users.box.log|
    decreases |Run(ls).users.box.log| - Run(ls).users.cursor.position
  {
    hide Run, Steady, Step, Orderly;
    var s := Run(ls);
    if s.users.cursor.position == |s.users.box.log| {
      more := [];
      assert ls + more == ls;
    } else {
      var l := Consume(UserTopic, Committed, true);
      ReadIsOrderly(s);
      SteadyOneMore(ls, l);
      RunOneMore(ls, l);
      ReadMoves(s);
      var rest := AllCanBeRead(ls + [l]);
      more := [l] + rest;
      assert ls + more == ls + [l] + rest;
    }
  }

  // ---------- Drained ----------

  lemma SteadyIsBehind(ls: seq<Label>)
    requires Steady(ls)
    ensures Run(ls).users.cursor.position <= |Run(ls).users.box.log|
  {
    hide Run, Steady, AllInStep;
    SteadyRunIsFollowed(ls);
  }

  lemma NothingWaits(box: Outbox.State)
    requires T.Waiting(box) == {}
    ensures forall i :: 0 <= i < |box.rows| ==> i in box.published
  {
    forall i | 0 <= i < |box.rows|
      ensures i in box.published
    {
      assert i !in T.Waiting(box);
    }
  }

  /**
   * From every steady run on, the worker can publish what waits and the consumer read it, and then
   * all recipients match.
   */
  lemma SteadyRunCanCatchUp(ls: seq<Label>) returns (more: seq<Label>)
    requires Steady(ls)
    ensures Steady(ls + more) && Drained(Run(ls + more).users) && Run(ls + more).accounts == Run(ls).accounts
    ensures forall u :: Matches(Run(ls + more).desk.sink.recipients, Run(ls).accounts.users, u)
  {
    hide Run, Steady, Matches, T.Waiting;
    var closed := FlightsCanClose(ls);
    var published := AllCanBePublished(ls + closed);
    SteadyIsBehind(ls + closed + published);
    var read := AllCanBeRead(ls + closed + published);
    more := closed + published + read;
    assert ls + more == ls + closed + published + read;
    NothingWaits(Run(ls + closed + published).users.box);
    forall u
      ensures Matches(Run(ls + more).desk.sink.recipients, Run(ls).accounts.users, u)
    {
      R.RecipientsCatchUp(ls + more, u);
    }
  }
}
