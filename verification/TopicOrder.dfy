/**
 * The topic against the outbox, aggregate by aggregate: when it keeps the order of the commits, and
 * exactly when a batch does.
 */
module TopicOrder {
  import opened Prelude
  import opened Outbox

  /** The rows of an aggregate, in commit order. */
  ghost function RowsOf(rows: seq<Row>, a: Uuid): (r: seq<nat>)
    ensures forall k :: 0 <= k < |r| ==> r[k] < |rows| && rows[r[k]].aggregate == a
    ensures forall i :: 0 <= i < |rows| && rows[i].aggregate == a ==> i in r
    ensures forall k, m :: 0 <= k < m < |r| ==> r[k] < r[m]
  {
    if rows == [] then []
    else
      var n := |rows| - 1;
      RowsOf(rows[..n], a) + if rows[n].aggregate == a then [n] else []
  }

  /** The rows produced under key `a`, in topic order, repeats dropped. */
  ghost function FirstCopies(log: seq<Record>, a: Uuid): (r: seq<nat>)
    ensures forall i :: i in r <==> exists p :: 0 <= p < |log| && log[p].key == a && log[p].origin == i
  {
    if log == [] then []
    else
      var n := |log| - 1;
      var r := FirstCopies(log[..n], a);
      assert forall p :: 0 <= p < n ==> log[..n][p] == log[p];
      if log[n].key == a && log[n].origin !in r then r + [log[n].origin] else r
  }

  /** In an increasing list, the least element missing from a prefix is the one that extends it. */
  lemma NextOfPrefix(list: seq<nat>, prefix: seq<nat>, j: nat)
    requires forall k, m :: 0 <= k < m < |list| ==> list[k] < list[m]
    requires prefix <= list && j in list && j !in prefix
    requires forall i :: i in list && i < j ==> i in prefix
    ensures prefix + [j] <= list
  {
    var k :| 0 <= k < |list| && list[k] == j;
    assert forall m :: 0 <= m < |prefix| ==> list[m] == prefix[m] && prefix[m] != j;
    assert |prefix| <= k;
    assert forall m :: 0 <= m < |prefix| ==> prefix[m] < list[|prefix|];
    assert list[|prefix|] !in prefix;
  }

  /** Every record carries the key of the row it was produced from. */
  ghost predicate Keyed(rows: seq<Row>, log: seq<Record>) {
    forall p :: 0 <= p < |log| ==> log[p].origin < |rows| && log[p].key == rows[log[p].origin].aggregate
  }

  lemma SafeIsKeyed(s: State)
    requires Safe(s)
    ensures Keyed(s.rows, s.log)
  {
    forall p | 0 <= p < |s.log|
      ensures s.log[p].origin < |s.rows| && s.log[p].key == s.rows[s.log[p].origin].aggregate
    {
      assert s.log[p] == RecordOf(s, s.log[p].origin);
    }
  }

  lemma {:induction false} FirstCopiesOfPart(rows: seq<Row>, log: seq<Record>, n: nat, a: Uuid)
    requires Keyed(rows, log) && LogOrdered(rows, log) && n <= |log|
    ensures FirstCopies(log[..n], a) <= RowsOf(rows, a)
  {
    if n > 0 {
      var earlier := log[..n - 1];
      assert log[..n][..n - 1] == earlier;
      FirstCopiesOfPart(rows, log, n - 1, a);
      var prefix := FirstCopies(earlier, a);
      var j := log[n - 1].origin;
      if log[n - 1].key == a && j !in prefix {
        forall i | i in RowsOf(rows, a) && i < j
          ensures i in prefix
        {
          assert Before(rows, i, log[n - 1].origin);
          assert LoggedEarlier(log, i, n - 1);
          var q :| 0 <= q < n - 1 && log[q].origin == i;
          assert earlier[q].key == a && earlier[q].origin == i;
        }
        NextOfPrefix(RowsOf(rows, a), prefix, j);
      }
    }
  }

  lemma {:induction false} FirstCopiesGrow(log: seq<Record>, n: nat, a: Uuid)
    requires n <= |log|
    ensures FirstCopies(log[..n], a) <= FirstCopies(log, a)
  {
    if n < |log| {
      FirstCopiesGrow(log[..|log| - 1], n, a);
      assert log[..|log| - 1][..n] == log[..n];
    } else {
      assert log[..n] == log;
    }
  }

  lemma KeyOf(rows: seq<Row>, log: seq<Record>, p: nat)
    requires Keyed(rows, log) && p < |log|
    ensures log[p].origin < |rows| && log[p].key == rows[log[p].origin].aggregate
  {
  }

  lemma PrefixesOrderLog(rows: seq<Row>, log: seq<Record>, p: nat, i: nat)
    requires Keyed(rows, log) && p < |log| && Before(rows, i, log[p].origin)
    requires FirstCopies(log, log[p].key) <= RowsOf(rows, log[p].key)
    ensures LoggedEarlier(log, i, p)
  {
    hide Keyed;
    var a, j := log[p].key, log[p].origin;
    assert rows[j].aggregate == a by {
      KeyOf(rows, log, p);
    }
    var part := FirstCopies(log[..p + 1], a);
    FirstCopiesGrow(log, p + 1, a);
    var list := RowsOf(rows, a);
    assert part <= list;
    assert log[..p + 1][p] == log[p];
    assert j in part;
    var k :| 0 <= k < |part| && part[k] == j;
    assert i in list;
    var m :| 0 <= m < |list| && list[m] == i;
    assert list[k] == j;
    assert m < k;
    assert part[m] == i && i in part;
    var q :| 0 <= q < |log[..p + 1]| && log[..p + 1][q].key == a && log[..p + 1][q].origin == i;
    assert log[q].origin == i && q != p;
  }

  /** For every aggregate the first copies in the topic are a prefix of its outbox rows. */
  ghost predicate PrefixOfOutbox(rows: seq<Row>, log: seq<Record>) {
    forall a :: FirstCopies(log, a) <= RowsOf(rows, a)
  }

  /**
   * The topic is in order exactly when it is, aggregate by aggregate and without its repeats, a
   * prefix of the outbox.
   */
  lemma LogOrderedIffPrefixes(rows: seq<Row>, log: seq<Record>)
    requires Keyed(rows, log)
    ensures LogOrdered(rows, log) <==> PrefixOfOutbox(rows, log)
  {
    hide FirstCopies, RowsOf, Before, LoggedEarlier;
    if LogOrdered(rows, log) {
      forall a
        ensures FirstCopies(log, a) <= RowsOf(rows, a)
      {
        assert log[..|log|] == log;
        FirstCopiesOfPart(rows, log, |log|, a);
      }
    }
    if PrefixOfOutbox(rows, log) {
      forall p, i: nat | 0 <= p < |log| && log[p].origin < |rows| && Before(rows, i, log[p].origin)
        ensures LoggedEarlier(log, i, p)
      {
        assert FirstCopies(log, log[p].key) <= RowsOf(rows, log[p].key);
        PrefixesOrderLog(rows, log, p, i);
      }
    }
  }

  /** Where the elements of a down-closed set stop in a list. */
  lemma {:induction false} Cut(list: seq<nat>, chosen: set<nat>) returns (k: nat)
    requires forall m, n :: 0 <= m < n < |list| && list[n] in chosen ==> list[m] in chosen
    ensures k <= |list|
    ensures forall m :: 0 <= m < |list| ==> (list[m] in chosen <==> m < k)
  {
    if list == [] || list[|list| - 1] in chosen {
      k := |list|;
    } else {
      var init := list[..|list| - 1];
      k := Cut(init, chosen);
      assert forall m :: 0 <= m < |init| ==> list[m] == init[m];
    }
  }

  /** The first k rows in a list, and no others of it, belong to a set. */
  ghost predicate CutAt(list: seq<nat>, chosen: set<nat>, k: nat) {
    forall m :: 0 <= m < |list| ==> (list[m] in chosen <==> m < k)
  }

  lemma PublishedIsPrefix(s: State, a: Uuid) returns (k: nat)
    requires Safe(s) && Ordered(s)
    requires FirstCopies(s.log, a) <= RowsOf(s.rows, a)
    ensures k <= |FirstCopies(s.log, a)| && CutAt(RowsOf(s.rows, a), s.published, k)
  {
    var list := RowsOf(s.rows, a);
    var first := FirstCopies(s.log, a);
    forall m, n | 0 <= m < n < |list| && list[n] in s.published
      ensures list[m] in s.published
    {
      assert Before(s.rows, list[m], list[n]);
    }
    k := Cut(list, s.published);
    if k > 0 {
      var last := list[k - 1];
      assert InLog(s, last);
      var p :| 0 <= p < |s.log| && s.log[p].origin == last;
      assert last in first;
      var m :| 0 <= m < |first| && first[m] == last;
      assert list[m] == last;
    }
  }

  /**
   * One worker and stamps in commit order: reduced to first occurrences, the records of an
   * aggregate are a prefix of its outbox rows, and its published rows are a prefix no longer.
   */
  lemma TopicIsPrefixOfOutbox(ls: seq<Label>, a: Uuid)
    requires DisciplinedRun(ls)
    ensures var s := Run(EMPTY, ls);
            var first := FirstCopies(s.log, a);
            && first <= RowsOf(s.rows, a)
            && exists k: nat :: k <= |first| && CutAt(RowsOf(s.rows, a), s.published, k)
  {
    var s := Run(EMPTY, ls);
    RunIsSafe(ls);
    DisciplinedRunIsOrdered(ls);
    SafeIsKeyed(s);
    LogOrderedIffPrefixes(s.rows, s.log);
    assert FirstCopies(s.log, a) <= RowsOf(s.rows, a);
    var k := PublishedIsPrefix(s, a);
  }

  // ---------- Exactly when a batch keeps the order ----------

  predicate Within(rows: seq<Row>, batch: seq<nat>) {
    forall b :: 0 <= b < |batch| ==> batch[b] < |rows|
  }

  ghost function RecordsOf(s: State, batch: seq<nat>): (records: seq<Record>)
    requires Within(s.rows, batch)
    ensures |records| == |batch| && forall b :: 0 <= b < |batch| ==> records[b] == RecordOf(s, batch[b])
  {
    seq(|batch|, b requires 0 <= b < |batch| => RecordOf(s, batch[b]))
  }

  /** The earlier rows of each row in the batch are in the topic or stand before it in the batch. */
  ghost predicate EarlierRowsSent(s: State, batch: seq<nat>) {
    forall b, i: nat :: 0 <= b < |batch| && batch[b] < |s.rows| && Before(s.rows, i, batch[b])
        ==> InLog(s, i) || i in batch[..b]
  }

  lemma LoggedBehindBatch(s: State, batch: seq<nat>, b: nat, i: nat)
    requires b < |batch| && Within(s.rows, batch)
    ensures LoggedEarlier(s.log + RecordsOf(s, batch), i, |s.log| + b) <==> InLog(s, i) || i in batch[..b]
  {
    var log := s.log + RecordsOf(s, batch);
    if LoggedEarlier(log, i, |s.log| + b) {
      var q :| 0 <= q < |s.log| + b && log[q].origin == i;
      if q < |s.log| {
        assert s.log[q].origin == i;
      } else {
        assert batch[..b][q - |s.log|] == i;
      }
    }
    if InLog(s, i) {
      var q :| 0 <= q < |s.log| && s.log[q].origin == i;
      assert log[q].origin == i;
    }
    if i in batch[..b] {
      var c :| 0 <= c < b && batch[..b][c] == i;
      assert log[|s.log| + c].origin == i;
    }
  }

  lemma LoggedInPart(log: seq<Record>, more: seq<Record>, i: nat, p: nat)
    requires p <= |log|
    ensures LoggedEarlier(log + more, i, p) <==> LoggedEarlier(log, i, p)
  {
    forall q | 0 <= q < p
      ensures (log + more)[q] == log[q]
    {
    }
  }

  /**
   * Producing a whole batch keeps the topic in order exactly when no row of it runs ahead of an
   * earlier row of its aggregate.
   */
  lemma BatchKeepsOrderIff(s: State, batch: seq<nat>)
    requires LogOrdered(s.rows, s.log) && Within(s.rows, batch)
    ensures LogOrdered(s.rows, s.log + RecordsOf(s, batch)) <==> EarlierRowsSent(s, batch)
  {
    hide InLog, LoggedEarlier, Before;
    var log := s.log + RecordsOf(s, batch);
    if LogOrdered(s.rows, log) {
      forall b, i: nat | 0 <= b < |batch| && batch[b] < |s.rows| && Before(s.rows, i, batch[b])
        ensures InLog(s, i) || i in batch[..b]
      {
        assert log[|s.log| + b] == RecordOf(s, batch[b]);
        LoggedBehindBatch(s, batch, b, i);
      }
    }
    if EarlierRowsSent(s, batch) {
      forall p, i: nat | 0 <= p < |log| && log[p].origin < |s.rows| && Before(s.rows, i, log[p].origin)
        ensures LoggedEarlier(log, i, p)
      {
        if p < |s.log| {
          assert log[p] == s.log[p];
          LoggedInPart(s.log, RecordsOf(s, batch), i, p);
        } else {
          assert log[p] == RecordOf(s, batch[p - |s.log|]);
          LoggedBehindBatch(s, batch, p - |s.log|, i);
        }
      }
    }
  }

  lemma BatchIsKeyed(s: State, batch: seq<nat>)
    requires Keyed(s.rows, s.log) && Within(s.rows, batch)
    ensures Keyed(s.rows, s.log + RecordsOf(s, batch))
  {
    var log := s.log + RecordsOf(s, batch);
    forall p | 0 <= p < |log|
      ensures log[p].origin < |s.rows| && log[p].key == s.rows[log[p].origin].aggregate
    {
      if p < |s.log| {
        assert log[p] == s.log[p];
      } else {
        assert log[p] == RecordOf(s, batch[p - |s.log|]);
      }
    }
  }

  /**
   * The same, in terms of the prefixes consumers rely on: for any number of workers, whatever batch
   * one of them holds.
   */
  lemma BatchKeepsPrefixesIff(s: State, batch: seq<nat>)
    requires Safe(s) && PrefixOfOutbox(s.rows, s.log) && Within(s.rows, batch)
    ensures PrefixOfOutbox(s.rows, s.log + RecordsOf(s, batch)) <==> EarlierRowsSent(s, batch)
  {
    hide PrefixOfOutbox, EarlierRowsSent, LogOrdered;
    SafeIsKeyed(s);
    LogOrderedIffPrefixes(s.rows, s.log);
    BatchIsKeyed(s, batch);
    LogOrderedIffPrefixes(s.rows, s.log + RecordsOf(s, batch));
    BatchKeepsOrderIff(s, batch);
  }

  // ---------- Exactly when the query keeps the order ----------

  ghost predicate IsOldest(rows: seq<Row>, free: set<nat>, first: nat, x: nat)
    requires forall y :: y in free ==> y < |rows|
  {
    && x in free
    && (forall y :: y in free ==> rows[x].createdAt <= rows[y].createdAt)
    && (first in free && rows[first].createdAt == rows[x].createdAt ==> x == first)
  }

  lemma {:induction false} OldestExists(rows: seq<Row>, free: set<nat>, first: nat)
    requires free != {} && forall y :: y in free ==> y < |rows|
    ensures exists x: nat :: IsOldest(rows, free, first, x)
    decreases |free|
  {
    var y :| y in free;
    var rest := free - {y};
    assert free == rest + {y};
    if rest == {} {
      assert IsOldest(rows, free, first, y);
    } else {
      OldestExists(rows, rest, first);
      var x: nat :| IsOldest(rows, rest, first, x);
      if rows[y].createdAt < rows[x].createdAt || (rows[y].createdAt == rows[x].createdAt && y == first) {
        assert IsOldest(rows, free, first, y);
      } else {
        assert IsOldest(rows, free, first, x);
      }
    }
  }

  ghost function OldestOf(rows: seq<Row>, free: set<nat>, first: nat): (x: nat)
    requires free != {} && forall y :: y in free ==> y < |rows|
    ensures IsOldest(rows, free, first, x)
  {
    OldestExists(rows, free, first);
    var x: nat :| IsOldest(rows, free, first, x);
    x
  }

  /** At most n rows, an oldest one each time; on equal stamps `first` comes first. */
  ghost function Oldest(rows: seq<Row>, free: set<nat>, first: nat, n: nat): seq<nat>
    requires forall y :: y in free ==> y < |rows|
    decreases n
  {
    if free == {} || n == 0 then []
    else
      var x := OldestOf(rows, free, first);
      [x] + Oldest(rows, free - {x}, first, n - 1)
  }

  /** What is taken is distinct and in order of its stamps, and all of it when there is room. */
  lemma {:induction false} OldestIsTaken(rows: seq<Row>, free: set<nat>, first: nat, n: nat)
    requires forall y :: y in free ==> y < |rows|
    ensures var r := Oldest(rows, free, first, n);
            && |r| == (if n < |free| then n else |free|)
            && Distinct(r) && (forall a :: 0 <= a < |r| ==> r[a] in free)
            && (forall a, b :: 0 <= a < b < |r| ==> rows[r[a]].createdAt <= rows[r[b]].createdAt)
    decreases n
  {
    if free != {} && n > 0 {
      var x := OldestOf(rows, free, first);
      var rest := Oldest(rows, free - {x}, first, n - 1);
      OldestIsTaken(rows, free - {x}, first, n - 1);
      var r := Oldest(rows, free, first, n);
      hide Oldest;
      assert r == [x] + rest;
      assert |free - {x}| == |free| - 1;
      forall a, b | 0 <= a < b < |r|
        ensures r[a] != r[b] && rows[r[a]].createdAt <= rows[r[b]].createdAt
      {
        assert r[b] == rest[b - 1] && rest[b - 1] in free - {x};
        if a > 0 {
          assert r[a] == rest[a - 1];
        }
      }
    }
  }

  /** What is left is no older than what is taken. */
  lemma {:induction false} LeftIsYounger(rows: seq<Row>, free: set<nat>, first: nat, n: nat, i: nat, j: nat)
    requires (forall y :: y in free ==> y < |rows|) && i in free
    requires i !in Oldest(rows, free, first, n) && j in Oldest(rows, free, first, n)
    ensures j in free && rows[j].createdAt <= rows[i].createdAt
    decreases n
  {
    var x := OldestOf(rows, free, first);
    var rest := Oldest(rows, free - {x}, first, n - 1);
    var r := Oldest(rows, free, first, n);
    hide Oldest;
    assert r == [x] + rest && r[0] == x;
    assert forall y :: y in rest ==> y in r;
    if j != x {
      LeftIsYounger(rows, free - {x}, first, n - 1, i, j);
    }
  }

  ghost function OlderIn(rows: seq<Row>, free: set<nat>, j: nat): set<nat>
    requires j < |rows| && forall y :: y in free ==> y < |rows|
  {
    set x | x in free && rows[x].createdAt < rows[j].createdAt
  }

  /** A row with fewer than n older rows is among the n taken, behind older rows only when it wins its ties. */
  lemma {:induction false} FirstIsTaken(rows: seq<Row>, free: set<nat>, first: nat, n: nat) returns (c: nat)
    requires (forall y :: y in free ==> y < |rows|) && first in free && |OlderIn(rows, free, first)| < n
    ensures var r := Oldest(rows, free, first, n);
            && c < |r| && r[c] == first
            && forall b :: 0 <= b < c ==> r[b] in free && rows[r[b]].createdAt < rows[first].createdAt
    decreases n
  {
    var x := OldestOf(rows, free, first);
    if x == first {
      c := 0;
    } else {
      var older := OlderIn(rows, free, first);
      assert x in older;
      assert OlderIn(rows, free - {x}, first) == older - {x};
      assert |older - {x}| == |older| - 1;
      var k := FirstIsTaken(rows, free - {x}, first, n - 1);
      c := k + 1;
    }
  }

  /** The unpublished rows. */
  ghost function Waiting(s: State): (r: set<nat>)
    ensures forall x: nat :: x in r <==> x < |s.rows| && x !in s.published
  {
    set x: nat | x < |s.rows| && x !in s.published
  }

  lemma WaitingIsSelectable(s: State)
    requires s.flights == map[]
    ensures forall x: nat :: Selectable(s, x) <==> x in Waiting(s)
  {
  }

  ghost function Elements(list: seq<nat>): (r: set<nat>)
    ensures forall x :: x in r <==> x in list
  {
    set x | x in list
  }

  lemma {:induction false} ListedSize(list: seq<nat>)
    requires Distinct(list)
    ensures |Elements(list)| == |list|
  {
    if list != [] {
      var init, last := list[..|list| - 1], list[|list| - 1];
      ListedSize(init);
      assert list == init + [last];
      assert Elements(list) == Elements(init) + {last};
    }
  }

  lemma SameSize(part: set<nat>, all: set<nat>)
    requires part <= all && |part| == |all|
    ensures part == all
  {
    assert all == part + (all - part);
    assert |all - part| == 0;
  }

  lemma AllTaken(list: seq<nat>, all: set<nat>)
    requires Distinct(list) && |list| == |all| && forall x :: x in list ==> x in all
    ensures forall x :: x in all ==> x in list
  {
    ListedSize(list);
    SameSize(Elements(list), all);
  }

  /** An answer of the query: with no batch open, the oldest rows. */
  lemma OldestIsLegal(s: State, first: nat)
    requires s.flights == map[]
    ensures LegalBatch(s, Oldest(s.rows, Waiting(s), first, BATCH_LIMIT))
  {
    hide Selectable, Oldest, Distinct;
    WaitingIsSelectable(s);
    OldestIsTaken(s.rows, Waiting(s), first, BATCH_LIMIT);
    var batch := Oldest(s.rows, Waiting(s), first, BATCH_LIMIT);
    if |batch| < BATCH_LIMIT {
      AllTaken(batch, Waiting(s));
    }
    forall i: nat, j | Selectable(s, i) && i !in batch && j in batch && j < |s.rows|
      ensures s.rows[j].createdAt <= s.rows[i].createdAt
    {
      LeftIsYounger(s.rows, Waiting(s), first, BATCH_LIMIT, i, j);
    }
  }

  /**
   * An unpublished pair of an aggregate that the query can turn round: the later row has no later
   * stamp and may be among the fifty oldest.
   */
  ghost predicate Inverted(s: State, i: nat, j: nat) {
    && j < |s.rows| && Before(s.rows, i, j)
    && i !in s.published && j !in s.published
    && s.rows[j].createdAt <= s.rows[i].createdAt
    && |OlderIn(s.rows, Waiting(s), j)| < BATCH_LIMIT
  }

  /** A legal batch that takes j before i, or without it. */
  lemma InversionIsTaken(s: State, i: nat, j: nat) returns (batch: seq<nat>)
    requires s.flights == map[] && Inverted(s, i, j)
    ensures LegalBatch(s, batch) && !OrderedFlight(s.rows, s.published, batch)
  {
    hide LegalBatch, Oldest, Waiting;
    batch := Oldest(s.rows, Waiting(s), j, BATCH_LIMIT);
    OldestIsLegal(s, j);
    var c := FirstIsTaken(s.rows, Waiting(s), j, BATCH_LIMIT);
    forall b | 0 <= b < c
      ensures batch[..c][b] != i
    {
    }
    assert Before(s.rows, i, batch[c]) && i !in batch[..c];
  }

  /** The rows older than a row of a legal batch stand before it in the batch. */
  lemma OlderStandBefore(s: State, batch: seq<nat>, b: nat, x: nat)
    requires s.flights == map[] && LegalBatch(s, batch) && b < |batch| && batch[b] < |s.rows|
    requires x in Waiting(s) && s.rows[x].createdAt < s.rows[batch[b]].createdAt
    ensures x in batch[..b]
  {
    WaitingIsSelectable(s);
    assert batch[b] in batch;
    assert x in batch;
    var c :| 0 <= c < |batch| && batch[c] == x;
    assert batch[..b][c] == x;
  }

  lemma {:induction false} FewerThan(part: set<nat>, list: seq<nat>)
    requires forall x :: x in part ==> x in list
    ensures |part| <= |list|
    decreases |list|
  {
    if list == [] {
      assert part == {};
    } else {
      var init, last := list[..|list| - 1], list[|list| - 1];
      forall x | x in part - {last}
        ensures x in init
      {
        var k :| 0 <= k < |list| && list[k] == x;
        assert init[k] == x;
      }
      FewerThan(part - {last}, init);
      assert part <= (part - {last}) + {last};
      assert |part| <= |part - {last}| + 1;
    }
  }

  lemma {:induction false} DisorderIsInversion(s: State, batch: seq<nat>, b: nat, i: nat)
    requires s.flights == map[] && LegalBatch(s, batch) && b < |batch| && batch[b] < |s.rows|
    requires Before(s.rows, i, batch[b]) && i !in s.published && i !in batch[..b]
    ensures Inverted(s, i, batch[b])
  {
    var j := batch[b];
    assert Selectable(s, j);
    if s.rows[i].createdAt < s.rows[j].createdAt {
      OlderStandBefore(s, batch, b, i);
      assert false;
    }
    var older := OlderIn(s.rows, Waiting(s), j);
    forall x | x in older
      ensures x in batch[..b]
    {
      OlderStandBefore(s, batch, b, x);
    }
    FewerThan(older, batch[..b]);
  }

  /**
   * With no batch open, every answer of the query keeps an aggregate's rows in order exactly when
   * no unpublished pair can be turned round.
   */
  lemma QueryKeepsOrderIff(s: State)
    requires s.flights == map[]
    ensures (forall batch: seq<nat> :: LegalBatch(s, batch) ==> OrderedFlight(s.rows, s.published, batch))
            <==> forall i: nat, j: nat :: !Inverted(s, i, j)
  {
    hide LegalBatch, Inverted;
    if forall i: nat, j: nat :: !Inverted(s, i, j) {
      forall batch: seq<nat>, b, i: nat |
        LegalBatch(s, batch) && 0 <= b < |batch| && batch[b] < |s.rows| && Before(s.rows, i, batch[b])
        ensures i in s.published || i in batch[..b]
      {
        if i !in s.published && i !in batch[..b] {
          DisorderIsInversion(s, batch, b, i);
        }
      }
    }
    forall i: nat, j: nat | Inverted(s, i, j)
      ensures exists batch: seq<nat> :: LegalBatch(s, batch) && !OrderedFlight(s.rows, s.published, batch)
    {
      var batch := InversionIsTaken(s, i, j);
    }
  }

  // ---------- Runs that lose the order ----------

  /** The run of the counterexample: a second worker overtakes the first. */
  function OvertakingRun(first: Row, second: Row): seq<Label> {
    [Write(first), Begin(1, [0]), Write(second), Begin(2, [1]), Send(2, Attempt(Acked, true))]
  }

  lemma RunSnoc(s: State, ls: seq<Label>, n: nat)
    requires n < |ls|
    ensures Run(s, ls[..n + 1]) == Step(Run(s, ls[..n]), ls[n])
  {
    assert ls[..n + 1][..n] == ls[..n];
  }

  lemma FirstTakesRow(first: Row)
    ensures Step(State([first], {}, [0], map[], []), Begin(1, [0]))
         == State([first], {}, [0], map[1 := Flight([0], 0)], [])
  {
    assert Selectable(State([first], {}, [0], map[], []), 0);
  }

  lemma SecondTakesRow(first: Row, second: Row)
    ensures Step(State([first, second], {}, [0, 0], map[1 := Flight([0], 0)], []), Begin(2, [1]))
         == State([first, second], {}, [0, 0], map[1 := Flight([0], 0), 2 := Flight([1], 0)], [])
  {
    var s := State([first, second], {}, [0, 0], map[1 := Flight([0], 0)], []);
    assert s.flights[1].batch[0] == 0;
    assert Locked(s, 0) && Selectable(s, 1);
  }

  lemma FirstIsWritten(first: Row)
    ensures Step(EMPTY, Write(first)) == State([first], {}, [0], map[], [])
  {
  }

  lemma SecondIsWritten(first: Row, second: Row)
    ensures Step(State([first], {}, [0], map[1 := Flight([0], 0)], []), Write(second))
         == State([first, second], {}, [0, 0], map[1 := Flight([0], 0)], [])
  {
  }

  lemma SecondIsSent(first: Row, second: Row)
    ensures Step(State([first, second], {}, [0, 0], map[1 := Flight([0], 0), 2 := Flight([1], 0)], []),
        Send(2, Attempt(Acked, true)))
         == State([first, second], {}, [0, 0], map[1 := Flight([0], 0), 2 := Flight([1], 1)],
             [Record(1, second.aggregate, second.payload)])
  {
    hide Locked, Selectable, FreeBatch;
    var s := State([first, second], {}, [0, 0], map[1 := Flight([0], 0), 2 := Flight([1], 0)], []);
    assert Sendable(s, 2);
    assert s.flights[2 := Flight([1], 1)] == map[1 := Flight([0], 0), 2 := Flight([1], 1)];
  }

  lemma Overtakes(first: Row, second: Row)
    ensures Run(EMPTY, OvertakingRun(first, second))
         == State([first, second], {}, [0, 0], map[1 := Flight([0], 0), 2 := Flight([1], 1)],
             [Record(1, second.aggregate, second.payload)])
  {
    hide Step;
    var ls := OvertakingRun(first, second);
    assert Run(EMPTY, ls[..0]) == EMPTY;
    hide Run;
    RunSnoc(EMPTY, ls, 0);
    FirstIsWritten(first);
    RunSnoc(EMPTY, ls, 1);
    FirstTakesRow(first);
    RunSnoc(EMPTY, ls, 2);
    SecondIsWritten(first, second);
    RunSnoc(EMPTY, ls, 3);
    SecondTakesRow(first, second);
    RunSnoc(EMPTY, ls, 4);
    SecondIsSent(first, second);
    assert ls[..5] == ls;
  }

  /** A topic with the second of two rows of an aggregate alone is out of order. */
  lemma LaterAlone(s: State, first: Row, second: Row)
    requires first.aggregate == second.aggregate
    requires s.rows == [first, second] && s.log == [Record(1, second.aggregate, second.payload)]
    ensures !(FirstCopies(s.log, first.aggregate) <= RowsOf(s.rows, first.aggregate))
  {
    var r := FirstCopies(s.log, first.aggregate);
    assert s.log[0].key == first.aggregate && s.log[0].origin == 1;
    assert 1 in r && 0 !in r;
    var list := RowsOf(s.rows, first.aggregate);
    assert s.rows[0].aggregate == first.aggregate;
    assert 0 in list;
    assert list[0] == 0;
    assert r[0] in r;
  }

  /** With two workers the order is lost: the later row of an aggregate can be in the topic alone. */
  lemma SecondWorkerBreaksOrder(first: Row, second: Row)
    requires first.aggregate == second.aggregate && first.createdAt < second.createdAt
    ensures var s := Run(EMPTY, OvertakingRun(first, second));
            !(FirstCopies(s.log, first.aggregate) <= RowsOf(s.rows, first.aggregate))
  {
    Overtakes(first, second);
    LaterAlone(Run(EMPTY, OvertakingRun(first, second)), first, second);
  }

  /** The run of one worker in which a transaction that started earlier commits later. */
  function LateStampRun(first: Row, second: Row): seq<Label> {
    [Write(first), Write(second), Begin(1, [1, 0]), Send(1, Attempt(Acked, true))]
  }

  lemma LateRowIsFirst(first: Row, second: Row)
    requires second.createdAt < first.createdAt
    ensures var s := State([first, second], {}, [0, 0], map[], []);
            && LegalBatch(s, [1, 0])
            && Step(s, Begin(1, [1, 0])) == s.(flights := map[1 := Flight([1, 0], 0)])
  {
    var s := State([first, second], {}, [0, 0], map[], []);
    assert Selectable(s, 0) && Selectable(s, 1);
  }

  lemma LateRowIsSent(first: Row, second: Row)
    ensures Step(State([first, second], {}, [0, 0], map[1 := Flight([1, 0], 0)], []), Send(1, Attempt(Acked, true)))
         == State([first, second], {}, [0, 0], map[1 := Flight([1, 0], 1)],
             [Record(1, second.aggregate, second.payload)])
  {
    hide Locked, Selectable, FreeBatch;
    var s := State([first, second], {}, [0, 0], map[1 := Flight([1, 0], 0)], []);
    assert Sendable(s, 1);
    assert s.flights[1 := Flight([1, 0], 1)] == map[1 := Flight([1, 0], 1)];
  }

  lemma BothAreWritten(first: Row, second: Row)
    ensures Step(Step(EMPTY, Write(first)), Write(second)) == State([first, second], {}, [0, 0], map[], [])
  {
  }

  /**
   * With stamps out of commit order the order is lost too, although one worker runs and its batch
   * is the query's answer.
   */
  lemma LateStampBreaksOrder(first: Row, second: Row)
    requires first.aggregate == second.aggregate && second.createdAt < first.createdAt
    ensures var s := Run(EMPTY, LateStampRun(first, second));
            && LegalBatch(Run(EMPTY, LateStampRun(first, second)[..2]), [1, 0])
            && !(FirstCopies(s.log, first.aggregate) <= RowsOf(s.rows, first.aggregate))
  {
    hide Step, LegalBatch;
    var ls := LateStampRun(first, second);
    assert Run(EMPTY, ls[..0]) == EMPTY;
    hide Run;
    RunSnoc(EMPTY, ls, 0);
    RunSnoc(EMPTY, ls, 1);
    BothAreWritten(first, second);
    RunSnoc(EMPTY, ls, 2);
    LateRowIsFirst(first, second);
    RunSnoc(EMPTY, ls, 3);
    LateRowIsSent(first, second);
    assert ls[..4] == ls;
    LaterAlone(Run(EMPTY, ls), first, second);
  }
}

