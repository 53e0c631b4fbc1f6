/** A run that loses a record of a fetch which carried an error: the record is never handed to Process. */
module DroppedFetch {
  import opened Prelude
  import opened Events
  import opened Polling
  import opened Pipeline
  import opened LostRecords
  import R = StaleRecipient
  import N = Notifications

  /** Three events of a user are published; the fetch of the first is dropped, the next record is read. */
  function DroppingRun(): seq<Label> {
    R.StaleRun()[..8] + [PassOver(UserTopic, 1), Consume(UserTopic, Committed, true)]
  }

  lemma SecondRecordIsRead()
    ensures N.Deliver(N.EMPTY, N.Delivery(Decoded(R.SENT.log[1].value), Committed)).processed == {3}
    ensures N.ReportsSuccess(N.EMPTY, N.Delivery(Decoded(R.SENT.log[1].value), Committed))
  {
    R.RecordIsRead(1);
    N.AcceptableApplies(N.EMPTY, R.SENT.log[1].value);
    N.AcceptableApplies(R.Sink(1), R.SENT.log[1].value);
    N.DeliverProcesses(N.EMPTY, N.Delivery(Decoded(R.SENT.log[1].value), Committed));
  }

  lemma Drops(s: State)
    requires s.trail != [] && s.users == Stream(R.SENT, Cursor(0, 0))
    ensures Step(s, PassOver(UserTopic, 1)) == s.(users := Stream(R.SENT, Cursor(1, 0)))
  {
    assert |R.SENT.log| == 3;
  }

  lemma ReadsNext(s: State)
    requires s.trail != [] && s.users == Stream(R.SENT, Cursor(1, 0)) && s.desk.sink == N.EMPTY
    ensures var t := Step(s, Consume(UserTopic, Committed, true));
            t.users == Stream(R.SENT, Cursor(2, 2)) && t.desk.sink.processed == {3}
  {
    hide N.Deliver, N.ReportsSuccess, R.Record;
    assert |R.SENT.log| == 3;
    SecondRecordIsRead();
  }

  /** The creation of the user is lost, although no transaction and no call to Process failed. */
  lemma DroppedRecordIsLost()
    ensures Lost(Run(DroppingRun()), UserTopic, 0)
  {
    hide Step, Run;
    R.Publishing();
    var ls, n := DroppingRun(), 8;
    assert ls[..8] == R.StaleRun()[..8];
    R.RunOneMore(ls, 8);
    Drops(Run(ls[..8]));
    R.RunOneMore(ls, 9);
    ReadsNext(Run(ls[..9]));
    assert ls[..10] == ls;
    assert R.SENT.log[0].value.eventId == 1;
  }
}
