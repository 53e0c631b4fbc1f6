/** internal/notification/service.go and its poll loop over mutable tables, proved against the machines. */
module NotificationService {
  import opened Prelude
  import opened Events
  import opened Polling
  import N = Notifications
  import D = Dispatcher

  /** A turn of the delivery loop: what the consumer processes meanwhile, then a send and its UPDATE. */
  datatype Beat = Beat(arrivals: seq<N.Delivery>, result: D.SendResult)

  function Consumes(ds: seq<N.Delivery>): (r: seq<D.Label>)
    ensures |r| == |ds|
  {
    seq(|ds|, i requires 0 <= i < |ds| => D.Consume(ds[i]))
  }

  function Labels(beats: seq<Beat>): seq<D.Label> {
    if beats == [] then []
    else
      var last := beats[|beats| - 1];
      Labels(beats[..|beats| - 1]) + Consumes(last.arrivals) + [D.Attempt(last.result)]
  }

  /** Whether the loop goes on after this row: a refused send is skipped, an accepted one must be marked. */
  predicate Marks(result: D.SendResult) {
    result.Accepted? ==> result.marking.Committed?
  }

  predicate AllMarked(beats: seq<Beat>) {
    forall i :: 0 <= i < |beats| ==> Marks(beats[i].result)
  }

  /** The turns the loop makes: all of them, or those up to the first mark that fails. */
  predicate StopsAt(beats: seq<Beat>, tried: nat) {
    && tried <= |beats|
    && (forall i :: 0 <= i < tried - 1 ==> Marks(beats[i].result))
    && (tried < |beats| ==> tried > 0 && !Marks(beats[tried - 1].result))
  }

  lemma {:induction false} RunAppend(s: D.State, xs: seq<D.Label>, ys: seq<D.Label>)
    ensures D.Run(s, xs + ys) == D.Run(D.Run(s, xs), ys)
    decreases |ys|
  {
    hide D.Step;
    if ys == [] {
      assert xs + ys == xs;
    } else {
      assert (xs + ys)[..|xs + ys| - 1] == xs + ys[..|ys| - 1];
      RunAppend(s, xs, ys[..|ys| - 1]);
    }
  }

  lemma RunOne(s: D.State, l: D.Label)
    ensures D.Run(s, [l]) == D.Step(s, l)
  {
    hide D.Step;
    assert [l][..0] == [];
  }

  lemma NothingConsumed(s: D.State, ds: seq<N.Delivery>)
    requires ds == []
    ensures D.Run(s, Consumes(ds)) == s
  {
  }

  lemma NothingSent(s: D.State, beats: seq<Beat>)
    requires beats == []
    ensures D.Run(s, Labels(beats)) == s
  {
  }

  lemma ConsumesExtend(s: D.State, ds: seq<N.Delivery>, i: nat)
    requires i < |ds|
    ensures D.Run(s, Consumes(ds[..i + 1])) == D.Step(D.Run(s, Consumes(ds[..i])), D.Consume(ds[i]))
  {
    hide D.Step;
    var longer := Consumes(ds[..i + 1]);
    assert longer[..|longer| - 1] == Consumes(ds[..i]);
  }

  lemma LabelsExtend(s: D.State, beats: seq<Beat>, i: nat)
    requires i < |beats|
    ensures D.Run(s, Labels(beats[..i + 1]))
         == D.Step(D.Run(D.Run(s, Labels(beats[..i])), Consumes(beats[i].arrivals)), D.Attempt(beats[i].result))
  {
    hide D.Step, D.Run, Consumes;
    assert beats[..i + 1][..i] == beats[..i];
    var earlier, meanwhile, last := Labels(beats[..i]), Consumes(beats[i].arrivals), [D.Attempt(beats[i].result)];
    RunAppend(s, earlier + meanwhile, last);
    RunAppend(s, earlier, meanwhile);
    RunOne(D.Run(D.Run(s, earlier), meanwhile), D.Attempt(beats[i].result));
  }

  class Service {
    // the three tables
    var processed: set<Uuid>
    var recipients: map<Uuid, N.Recipient>
    var notices: seq<N.Notice>
    // the rows of the query a dispatch is reading, and what Telegram has accepted so far
    var batch: seq<D.Target>
    var view: map<Uuid, N.Recipient>
    var receipts: seq<D.Receipt>
    var lost: seq<nat>

    constructor ()
      ensures State() == D.EMPTY
    {
      processed, recipients, notices := {}, map[], [];
      batch, view, receipts, lost := [], map[], [], [];
    }

    function Tables(): N.State
      reads this
    {
      N.State(processed, recipients, notices)
    }

    ghost function State(): D.State
      reads this
    {
      D.State(Tables(), batch, view, receipts, lost)
    }

    /** One record: the statements of its transaction, then commit or rollback. */
    method Process(message: Message, ending: Ending) returns (ok: bool)
      modifies this`processed, this`recipients, this`notices
      ensures Tables() == N.Deliver(old(Tables()), N.Delivery(message, ending))
      ensures ok == N.ReportsSuccess(old(Tables()), N.Delivery(message, ending))
    {
      if message.Garbage? {
        return false;
      }
      var event := message.envelope;
      if event.eventId == NIL || event.eventType == "" {
        return false;
      }
      var oldProcessed, oldRecipients, oldNotices := processed, recipients, notices;
      if event.eventId in processed {
        return ending.Committed?;
      }
      processed := processed + {event.eventId};
      var done := true;
      if IsUserType(event.eventType) {
        done := SyncRecipient(event.data);
      } else if IsOrderType(event.eventType) {
        done := CreateNotifications(event.eventId, event.data);
      }
      if !done || !ending.Durable() {
        processed, recipients, notices := oldProcessed, oldRecipients, oldNotices;
        return false;
      }
      ok := ending.Committed?;
    }

    method SyncRecipient(data: Data) returns (done: bool)
      modifies this`recipients
      ensures done <==> N.Sync(old(recipients), data).Some?
      ensures done ==> recipients == N.Sync(old(recipients), data).value
    {
      if !data.Object? || !data.userId.Id? || data.userId.id == NIL {
        return false;
      }
      var user := data.userId.id;
      if user !in recipients {
        recipients := recipients[user := N.Recipient(None, true)];
      }
      match data.telegramId {
        case Absent =>
        case Null => recipients := recipients[user := recipients[user].(telegram := None)];
        case Number(n) => recipients := recipients[user := recipients[user].(telegram := Some(n))];
        case _ => return false;
      }
      match data.isActive {
        case Absent =>
        case Null => recipients := recipients[user := recipients[user].(active := false)];
        case Bool(b) => recipients := recipients[user := recipients[user].(active := b)];
        case _ => return false;
      }
      assert recipients == N.Sync(old(recipients), data).value;
      done := true;
    }

    method CreateNotifications(eventId: Uuid, data: Data) returns (done: bool)
      modifies this`notices
      ensures done <==> N.Named(data).Some?
      ensures done ==> notices == N.AddNotices(old(notices), eventId, N.Named(data).value)
      ensures !done ==> notices == old(notices)
    {
      if !data.Object? {
        return false;
      }
      var named: seq<Uuid> := [];
      if !data.performerIds.Absent? {
        match data.performerIds {
          case Ids(ids) => named := ids;
          case Null => named := [];
          case _ => return false;
        }
      } else if !data.performerId.Absent? {
        match data.performerId {
          case Id(p) => named := [p];
          case Null => named := [NIL];
          case _ => return false;
        }
      }
      assert N.Named(data) == Some(named);
      for i := 0 to |named|
        invariant notices == N.AddNotices(old(notices), eventId, named[..i])
      {
        assert named[..i + 1][..i] == named[..i];
        if !N.HasNotice(notices, eventId, named[i]) {
          notices := notices + [N.Notice(eventId, named[i], N.Pending, 0, false)];
        }
      }
      assert named[..|named|] == named;
      done := true;
    }

    /** One dispatch, with the consumer at work between its sends; `beats` is what each turn brings and would report. */
    method Dispatch(beats: seq<Beat>) returns (ok: bool, ghost tried: nat)
      requires |beats| == |D.Take(D.Targets(Tables()))|
      modifies this
      ensures StopsAt(beats, tried) && State() == D.Run(old(State()), [D.Snapshot] + Labels(beats[..tried]))
      ensures ok <==> AllMarked(beats)
      ensures batch == []
    {
      batch, view := D.Take(D.Targets(Tables())), recipients;
      ghost var taken := State();
      ok, tried := SendBatch(beats);
      RunOne(old(State()), D.Snapshot);
      RunAppend(old(State()), [D.Snapshot], Labels(beats[..tried]));
    }

    /** The loop over the rows of the query; it ends early when a mark cannot be stored. */
    method SendBatch(beats: seq<Beat>) returns (ok: bool, ghost tried: nat)
      requires |beats| == |batch| && forall k :: 0 <= k < |batch| ==> batch[k].row < |notices|
      modifies this
      ensures StopsAt(beats, tried) && State() == D.Run(old(State()), Labels(beats[..tried]))
      ensures ok <==> AllMarked(beats)
      ensures batch == []
    {
      hide D.Run, D.Step, Labels, Marks;
      tried := 0;
      var next := 0;
      NothingSent(State(), beats[..0]);
      while next < |beats|
        invariant tried == next <= |beats|
        invariant |batch| == |beats| - tried
        invariant forall k :: 0 <= k < |batch| ==> batch[k].row < |notices|
        invariant State() == D.Run(old(State()), Labels(beats[..tried]))
        invariant AllMarked(beats[..tried])
      {
        LabelsExtend(old(State()), beats, tried);
        ghost var i := tried;
        Meanwhile(beats[next].arrivals);
        var go := SendNext(beats[next].result);
        next := next + 1;
        tried := next;
        if !go {
          assert forall k :: 0 <= k < i ==> beats[..i][k] == beats[k];
          assert !Marks(beats[i].result);
          return false, tried;
        }
        assert beats[..tried] == beats[..i] + [beats[i]];
      }
      assert beats[..tried] == beats;
      ok := true;
    }

    /** The consumer goroutine processes some records between two turns of the delivery loop. */
    method Meanwhile(ds: seq<N.Delivery>)
      modifies this`processed, this`recipients, this`notices
      ensures State() == D.Run(old(State()), Consumes(ds))
      ensures |notices| >= |old(notices)|
    {
      hide D.Run, Consumes;
      NothingConsumed(State(), ds[..0]);
      for i := 0 to |ds|
        invariant State() == D.Run(old(State()), Consumes(ds[..i]))
        invariant |notices| >= |old(notices)|
        invariant batch == old(batch) && view == old(view) && receipts == old(receipts) && lost == old(lost)
      {
        ConsumesExtend(old(State()), ds, i);
        N.DeliverKeepsNotices(Tables(), N.Delivery(ds[i].message, ds[i].ending));
        var ok := Process(ds[i].message, ds[i].ending);
      }
      assert ds[..|ds|] == ds;
    }

    /** The loop body of Dispatch: a send, then the UPDATE; false when the loop returns its error. */
    method SendNext(result: D.SendResult) returns (go: bool)
      requires batch != [] && batch[0].row < |notices|
      modifies this
      ensures State() == D.Step(old(State()), D.Attempt(result))
      ensures go <==> Marks(result)
      ensures batch == if go then old(batch)[1..] else []
      ensures |notices| == old(|notices|)
    {
      var target := batch[0];
      var n := notices[target.row];
      match result
      case Refused(recorded) =>
        if recorded {
          notices := notices[target.row := n.(attempts := n.attempts + 1, failed := true)];
        }
        batch := batch[1..];
        go := true;
      case Accepted(marking) =>
        receipts := receipts + [D.Receipt(target, view)];
        if marking.Durable() {
          notices := notices[target.row := n.(status := N.Sent, attempts := n.attempts + 1, failed := false)];
        } else {
          lost := lost + [target.row];
        }
        go := marking.Committed?;
        batch := if go then batch[1..] else [];
    }
  }

  /** The consumer process: the service and its offsets in one topic. */
  class Consumer {
    const service: Service
    var position: nat
    var committed: nat

    constructor (service: Service)
      ensures this.service == service && position == committed == 0
    {
      this.service := service;
      position, committed := 0, 0;
    }

    ghost function Offsets(): Cursor
      reads this
    {
      Cursor(position, committed)
    }

    /**
     * One turn of the poll loop. A fetch that carries an error is dropped with its records; a
     * record whose Process fails is passed over; the offset is committed behind each success.
     */
    method Poll(fetchFailed: bool, records: seq<Polled>)
      requires this as object != service
      modifies this, service`processed, service`recipients, service`notices
      ensures fetchFailed ==>
          service.Tables() == old(service.Tables()) && Offsets() == Cursor(old(position) + |records|, old(committed))
      ensures !fetchFailed ==> service.Tables() == Tables(old(service.Tables()), records)
      ensures !fetchFailed ==> Offsets() == Cursors(old(service.Tables()), old(Offsets()), records)
    {
      if fetchFailed {
        position := position + |records|;
        return;
      }
      for i := 0 to |records|
        invariant service.Tables() == Tables(old(service.Tables()), records[..i])
        invariant Offsets() == Cursors(old(service.Tables()), old(Offsets()), records[..i])
      {
        assert records[..i + 1][..i] == records[..i];
        var ok := service.Process(records[i].delivery.message, records[i].delivery.ending);
        position := position + 1;
        if ok {
          if records[i].stored {
            committed := position;
          }
        }
      }
      assert records[..|records|] == records;
    }
  }
}

