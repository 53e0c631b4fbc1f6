/** The notifications table against the outbox of orders: which rows it may hold and which it must. */
module NoticeRows {
  import opened Prelude
  import opened Events
  import opened Outbox
  import N = Notifications

  predicate Names(row: Row, recipient: Uuid) {
    N.Named(row.payload.data).Some? && recipient in N.Named(row.payload.data).value
  }

  ghost predicate OrderRow(row: Row) {
    row.payload.eventId != NIL && IsOrderType(row.payload.eventType) && N.Named(row.payload.data).Some?
  }

  /** Row i of the outbox is the event a notification was made for. */
  ghost predicate Justifies(rows: seq<Row>, i: nat, n: N.Notice) {
    i < |rows| && rows[i].payload.eventId == n.eventId && Names(rows[i], n.recipient)
  }

  /** Every notification was made for a processed row that names its recipient. */
  ghost predicate Sound(rows: seq<Row>, processed: set<Uuid>, ns: seq<N.Notice>) {
    forall k :: 0 <= k < |ns| ==> ns[k].eventId in processed && exists i: nat :: Justifies(rows, i, ns[k])
  }

  /** Every recipient named by a processed row has its notification. */
  ghost predicate Complete(rows: seq<Row>, processed: set<Uuid>, ns: seq<N.Notice>) {
    forall i, r :: 0 <= i < |rows| && rows[i].payload.eventId in processed && Names(rows[i], r) ==>
      N.HasNotice(ns, rows[i].payload.eventId, r)
  }

  /** Changing the delivery state of rows changes neither. */
  lemma SameAddresses(rows: seq<Row>, processed: set<Uuid>, ns: seq<N.Notice>, ms: seq<N.Notice>)
    requires |ns| == |ms|
    requires forall k :: 0 <= k < |ns| ==> ns[k].eventId == ms[k].eventId && ns[k].recipient == ms[k].recipient
    requires Sound(rows, processed, ns) && Complete(rows, processed, ns)
    ensures Sound(rows, processed, ms) && Complete(rows, processed, ms)
  {
    forall k | 0 <= k < |ms|
      ensures ms[k].eventId in processed && exists i: nat :: Justifies(rows, i, ms[k])
    {
      var i: nat :| Justifies(rows, i, ns[k]);
      assert Justifies(rows, i, ms[k]);
    }
    forall i, r | 0 <= i < |rows| && rows[i].payload.eventId in processed && Names(rows[i], r)
      ensures N.HasNotice(ms, rows[i].payload.eventId, r)
    {
      var k :| 0 <= k < |ns| && ns[k].eventId == rows[i].payload.eventId && ns[k].recipient == r;
      assert ms[k].eventId == rows[i].payload.eventId && ms[k].recipient == r;
    }
  }

  lemma CommitKeeps(rows: seq<Row>, processed: set<Uuid>, ns: seq<N.Notice>, row: Row)
    requires Sound(rows, processed, ns) && Complete(rows, processed, ns) && row.payload.eventId !in processed
    ensures Sound(rows + [row], processed, ns) && Complete(rows + [row], processed, ns)
  {
    forall k | 0 <= k < |ns|
      ensures ns[k].eventId in processed && exists i: nat :: Justifies(rows + [row], i, ns[k])
    {
      var i: nat :| Justifies(rows, i, ns[k]);
      assert Justifies(rows + [row], i, ns[k]);
    }
  }

  lemma ForeignIdKeeps(rows: seq<Row>, processed: set<Uuid>, ns: seq<N.Notice>, id: Uuid)
    requires Sound(rows, processed, ns) && Complete(rows, processed, ns)
    requires forall i :: 0 <= i < |rows| ==> rows[i].payload.eventId != id
    ensures Sound(rows, processed + {id}, ns) && Complete(rows, processed + {id}, ns)
  {
  }

  /** Processing a row for the first time adds a pending notification for exactly the recipients it names. */
  lemma ConsumeKeeps(rows: seq<Row>, processed: set<Uuid>, ns: seq<N.Notice>, j: nat)
    requires N.UniqueNotices(ns)
    requires Sound(rows, processed, ns) && Complete(rows, processed, ns)
    requires j < |rows| && OrderRow(rows[j]) && rows[j].payload.eventId !in processed
    requires forall i, k :: 0 <= i < k < |rows| ==> rows[i].payload.eventId != rows[k].payload.eventId
    ensures var id := rows[j].payload.eventId;
            var ms := N.AddNotices(ns, id, N.Named(rows[j].payload.data).value);
            Sound(rows, processed + {id}, ms) && Complete(rows, processed + {id}, ms)
  {
    var id := rows[j].payload.eventId;
    var named := N.Named(rows[j].payload.data).value;
    var ms := N.AddNotices(ns, id, named);
    N.AddNoticesExactly(ns, id, named);
    forall k | 0 <= k < |ms|
      ensures ms[k].eventId in processed + {id} && exists i: nat :: Justifies(rows, i, ms[k])
    {
      assert N.HasNotice(ms, ms[k].eventId, ms[k].recipient);
      if N.HasNotice(ns, ms[k].eventId, ms[k].recipient) {
        var h :| 0 <= h < |ns| && ns[h].eventId == ms[k].eventId && ns[h].recipient == ms[k].recipient;
        var i: nat :| Justifies(rows, i, ns[h]);
        assert Justifies(rows, i, ms[k]);
      } else {
        assert Justifies(rows, j, ms[k]);
      }
    }
  }
}

