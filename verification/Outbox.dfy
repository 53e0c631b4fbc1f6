/**
 * The transactional outbox, its publishers and the topic they fill, as a step machine:
 * internal/outbox/worker.go with any number of workers, failed and ambiguous produces,
 * failed commits and crashes. Writers append rows in commit order.
 */
module Outbox {
  import opened Prelude
  import opened Events

  const BATCH_LIMIT: nat := 50

  /** A committed row of outbox_events; `createdAt` is the start time of its transaction. */
  datatype Row = Row(aggregate: Uuid, createdAt: nat, payload: Envelope)

  /** A topic record. `origin` only names the row it was produced from; consumers read key and value. */
  datatype Record = Record(origin: nat, key: Uuid, value: Envelope)

  /** An open worker transaction: the locked batch and how many of its rows were produced and marked. */
  datatype Flight = Flight(batch: seq<nat>, at: nat)

  datatype State = State(
    rows: seq<Row>,
    published: set<nat>,
    attempts: seq<nat>,
    flights: map<nat, Flight>,
    log: seq<Record>)

  const EMPTY: State := State([], {}, [], map[], [])

  /** What ProduceSync reports, and whether the record reached the topic. */
  datatype Produce = Acked | Failed | FailedAppended

  /** The outcome for one row of a batch: the produce, then the UPDATE that marks the row. */
  datatype Attempt = Attempt(produce: Produce, markOk: bool) {
    predicate Good() {
      produce.Acked? && markOk
    }
  }

  datatype Label =
    | Write(row: Row)
    | Begin(worker: nat, batch: seq<nat>)
    | Send(worker: nat, attempt: Attempt)
    | Finish(worker: nat, ending: Ending)
    | Crash(worker: nat)

  // ---------- Steps ----------

  ghost predicate Locked(s: State, i: nat) {
    exists w :: w in s.flights && i in s.flights[w].batch
  }

  ghost predicate Selectable(s: State, i: nat) {
    i < |s.rows| && i !in s.published && !Locked(s, i)
  }

  /**
   * What a worker can lock: distinct unpublished rows that no other worker holds, at most fifty.
   * With several workers SKIP LOCKED can answer with rows that are not the oldest at any one moment.
   */
  ghost predicate FreeBatch(s: State, batch: seq<nat>) {
    && |batch| <= BATCH_LIMIT
    && Distinct(batch)
    && (forall i :: i in batch ==> Selectable(s, i))
  }

  /** The answer of SELECT ... ORDER BY created_at FOR UPDATE SKIP LOCKED LIMIT 50 when no other worker interferes. */
  ghost predicate LegalBatch(s: State, batch: seq<nat>) {
    && FreeBatch(s, batch)
    && (forall a, b :: 0 <= a < b < |batch| && batch[a] < |s.rows| && batch[b] < |s.rows| ==>
          s.rows[batch[a]].createdAt <= s.rows[batch[b]].createdAt)
    && (forall i: nat, j :: Selectable(s, i) && i !in batch && j in batch && j < |s.rows| ==>
          s.rows[j].createdAt <= s.rows[i].createdAt)
    && (forall i: nat :: Selectable(s, i) && i !in batch ==> |batch| == BATCH_LIMIT)
  }

  ghost function RecordOf(s: State, i: nat): Record
    requires i < |s.rows|
  {
    Record(i, s.rows[i].aggregate, s.rows[i].payload)
  }

  function Bumped(attempts: seq<nat>, batch: seq<nat>): (r: seq<nat>)
    ensures |r| == |attempts|
    ensures forall i :: 0 <= i < |r| ==> r[i] == attempts[i] + (if i in batch then 1 else 0)
  {
    seq(|attempts|, i requires 0 <= i < |attempts| => attempts[i] + (if i in batch then 1 else 0))
  }

  ghost predicate Sendable(s: State, w: nat) {
    w in s.flights && s.flights[w].at < |s.flights[w].batch| && s.flights[w].batch[s.flights[w].at] < |s.rows|
  }

  ghost function SendStep(s: State, w: nat, attempt: Attempt): State
    requires Sendable(s, w)
  {
    var flight := s.flights[w];
    var sent := if attempt.produce.Failed? then s else s.(log := s.log + [RecordOf(s, flight.batch[flight.at])]);
    if attempt.Good() then sent.(flights := s.flights[w := flight.(at := flight.at + 1)])
    else sent.(flights := s.flights - {w})
  }

  ghost function FinishStep(s: State, w: nat, ending: Ending): State
    requires w in s.flights
  {
    var batch := s.flights[w].batch;
    if ending.Durable()
    then s.(published := s.published + (set i | i in batch), attempts := Bumped(s.attempts, batch),
        flights := s.flights - {w})
    else s.(flights := s.flights - {w})
  }

  /** One step; a label that is not enabled changes nothing. */
  ghost function Step(s: State, l: Label): State {
    match l
    case Write(row) => s.(rows := s.rows + [row], attempts := s.attempts + [0])
    case Begin(w, batch) =>
      if w !in s.flights && FreeBatch(s, batch) then s.(flights := s.flights[w := Flight(batch, 0)]) else s
    case Send(w, attempt) => if Sendable(s, w) then SendStep(s, w, attempt) else s
    case Finish(w, ending) =>
      if w in s.flights && s.flights[w].at == |s.flights[w].batch| then FinishStep(s, w, ending) else s
    case Crash(w) => s.(flights := s.flights - {w})
  }

  ghost function Run(s: State, ls: seq<Label>): State {
    if ls == [] then s else Step(Run(s, ls[..|ls| - 1]), ls[|ls| - 1])
  }

  lemma {:induction false} RunAppend(s: State, xs: seq<Label>, ys: seq<Label>)
    ensures Run(s, xs + ys) == Run(Run(s, xs), ys)
    decreases |ys|
  {
    if ys == [] {
      assert xs + ys == xs;
    } else {
      assert (xs + ys)[..|xs + ys| - 1] == xs + ys[..|ys| - 1];
      RunAppend(s, xs, ys[..|ys| - 1]);
    }
  }

  // ---------- Safety with any number of workers ----------

  ghost predicate InLog(s: State, i: nat) {
    exists p :: 0 <= p < |s.log| && s.log[p].origin == i
  }

  /** A batch in flight: distinct unpublished rows, of which the first `at` are in the topic. */
  ghost predicate SafeFlight(s: State, f: Flight) {
    && f.at <= |f.batch|
    && Distinct(f.batch)
    && (forall i :: i in f.batch ==> i < |s.rows| && i !in s.published)
    && (forall b :: 0 <= b < f.at ==> InLog(s, f.batch[b]))
  }

  ghost predicate Safe(s: State) {
    && |s.attempts| == |s.rows|
    // every published row has its record in the topic
    && (forall i :: i in s.published ==> i < |s.rows| && InLog(s, i))
    // every record is a committed row
    && (forall p :: 0 <= p < |s.log| ==> s.log[p].origin < |s.rows| && s.log[p] == RecordOf(s, s.log[p].origin))
    && (forall w :: w in s.flights ==> SafeFlight(s, s.flights[w]))
    // no row is in two batches in flight
    && (forall v, w, i ::
          v in s.flights && w in s.flights && i in s.flights[v].batch && i in s.flights[w].batch ==> v == w)
    // only the attempt that marks a row is ever counted
    && (forall i :: 0 <= i < |s.rows| ==> s.attempts[i] == if i in s.published then 1 else 0)
  }

  lemma LogGrows(s: State, t: State, r: Record)
    requires t.log == s.log + [r] || t.log == s.log
    ensures forall i :: InLog(s, i) ==> InLog(t, i)
    ensures t.log == s.log + [r] ==> InLog(t, r.origin)
  {
    forall i | InLog(s, i)
      ensures InLog(t, i)
    {
      var p :| 0 <= p < |s.log| && s.log[p].origin == i;
      assert t.log[p].origin == i;
    }
    if t.log == s.log + [r] {
      assert t.log[|s.log|].origin == r.origin;
    }
  }

  lemma SendKeepsSafe(s: State, w: nat, attempt: Attempt)
    requires Safe(s) && Sendable(s, w)
    ensures Safe(SendStep(s, w, attempt))
  {
    var t := SendStep(s, w, attempt);
    var f := s.flights[w];
    LogGrows(s, t, RecordOf(s, f.batch[f.at]));
    forall v | v in t.flights
      ensures SafeFlight(t, t.flights[v])
    {
      assert SafeFlight(s, s.flights[v]);
    }
  }

  lemma BeginKeepsSafe(s: State, w: nat, batch: seq<nat>)
    requires Safe(s) && w !in s.flights && FreeBatch(s, batch)
    ensures Safe(Step(s, Begin(w, batch)))
  {
    var t := Step(s, Begin(w, batch));
    assert forall i :: InLog(s, i) ==> InLog(t, i);
    forall v | v in t.flights
      ensures SafeFlight(t, t.flights[v])
    {
      if v != w {
        assert SafeFlight(s, s.flights[v]);
      }
    }
    forall i | i in batch
      ensures forall v :: v in s.flights ==> i !in s.flights[v].batch
    {
      assert Selectable(s, i);
    }
  }

  lemma FinishKeepsSafe(s: State, w: nat, ending: Ending)
    requires Safe(s) && w in s.flights && s.flights[w].at == |s.flights[w].batch|
    ensures Safe(FinishStep(s, w, ending))
  {
    var t := FinishStep(s, w, ending);
    assert SafeFlight(s, s.flights[w]);
    assert forall i :: InLog(s, i) ==> InLog(t, i);
    forall v | v in t.flights
      ensures SafeFlight(t, t.flights[v])
    {
      assert SafeFlight(s, s.flights[v]);
    }
  }

  lemma StepKeepsSafe(s: State, l: Label)
    requires Safe(s)
    ensures Safe(Step(s, l))
  {
    var t := Step(s, l);
    match l
    case Write(row) =>
      assert forall i :: InLog(s, i) ==> InLog(t, i);
      forall v | v in t.flights
        ensures SafeFlight(t, t.flights[v])
      {
        assert SafeFlight(s, s.flights[v]);
      }
    case Begin(w, batch) =>
      if w !in s.flights && FreeBatch(s, batch) {
        BeginKeepsSafe(s, w, batch);
      }
    case Send(w, attempt) =>
      if Sendable(s, w) {
        SendKeepsSafe(s, w, attempt);
      }
    case Finish(w, ending) =>
      if w in s.flights && s.flights[w].at == |s.flights[w].batch| {
        FinishKeepsSafe(s, w, ending);
      }
    case Crash(w) =>
      assert forall i :: InLog(s, i) ==> InLog(t, i);
      forall v | v in t.flights
        ensures SafeFlight(t, t.flights[v])
      {
        assert SafeFlight(s, s.flights[v]);
      }
  }

  /** Every reachable state is safe, however many workers run and however they fail. */
  lemma {:induction false} RunIsSafe(ls: seq<Label>)
    ensures Safe(Run(EMPTY, ls))
  {
    if ls != [] {
      RunIsSafe(ls[..|ls| - 1]);
      StepKeepsSafe(Run(EMPTY, ls[..|ls| - 1]), ls[|ls| - 1]);
    }
  }

  /** How many copies of row `i` the topic holds. */
  ghost function Copies(log: seq<Record>, i: nat): nat {
    if log == [] then 0 else Copies(log[..|log| - 1], i) + if log[|log| - 1].origin == i then 1 else 0
  }

  /** The step hands row i to the broker, and the record reaches the topic, whatever the worker is told. */
  ghost predicate Reaches(s: State, l: Label, i: nat) {
    && l.Send? && l.worker in s.flights
    && s.flights[l.worker].at < |s.flights[l.worker].batch| && s.flights[l.worker].batch[s.flights[l.worker].at] == i
    && l.attempt.produce != Failed
  }

  /** The step commits, durably, a batch whose rows were all produced and that holds row i. */
  ghost predicate Publishes(s: State, l: Label, i: nat) {
    && l.Finish? && l.worker in s.flights && i in s.flights[l.worker].batch
    && s.flights[l.worker].at == |s.flights[l.worker].batch| && l.ending.Durable()
  }

  ghost function Produces(ls: seq<Label>, i: nat): nat {
    if ls == [] then 0
    else Produces(ls[..|ls| - 1], i) + if Reaches(Run(EMPTY, ls[..|ls| - 1]), ls[|ls| - 1], i) then 1 else 0
  }

  ghost function CommitsOf(ls: seq<Label>, i: nat): nat {
    if ls == [] then 0
    else CommitsOf(ls[..|ls| - 1], i) + if Publishes(Run(EMPTY, ls[..|ls| - 1]), ls[|ls| - 1], i) then 1 else 0
  }

  lemma SendCounts(s: State, w: nat, attempt: Attempt, i: nat)
    requires Sendable(s, w)
    ensures Copies(SendStep(s, w, attempt).log, i) == Copies(s.log, i)
        + (if Reaches(s, Send(w, attempt), i) then 1 else 0)
  {
    var t := SendStep(s, w, attempt);
    if !attempt.produce.Failed? {
      assert t.log[..|t.log| - 1] == s.log;
    }
  }

  lemma StepCounts(s: State, l: Label, i: nat)
    requires Safe(s)
    ensures Copies(Step(s, l).log, i) == Copies(s.log, i) + (if Reaches(s, l, i) then 1 else 0)
    ensures i in Step(s, l).published <==> i in s.published || Publishes(s, l, i)
    ensures i in s.published ==> !Publishes(s, l, i)
  {
    hide Copies, RecordOf, FreeBatch, InLog;
    if l.Send? && Sendable(s, l.worker) {
      SendCounts(s, l.worker, l.attempt, i);
    } else if l.Send? && l.worker in s.flights {
      var f := s.flights[l.worker];
      assert SafeFlight(s, f);
      assert f.at < |f.batch| ==> f.batch[f.at] in f.batch;
    }
  }

  /**
   * On every run of any number of workers the topic holds one copy of a row for each produce of it
   * that got through, reported or not, and the row is published exactly when a commit of its batch
   * was durable, which happens at most once.
   */
  lemma {:induction false} CopiesAreProduces(ls: seq<Label>, i: nat)
    ensures Copies(Run(EMPTY, ls).log, i) == Produces(ls, i)
    ensures CommitsOf(ls, i) == if i in Run(EMPTY, ls).published then 1 else 0
  {
    if ls != [] {
      hide Step, Safe, Copies, Publishes, Reaches;
      CopiesAreProduces(ls[..|ls| - 1], i);
      RunIsSafe(ls[..|ls| - 1]);
      StepCounts(Run(EMPTY, ls[..|ls| - 1]), ls[|ls| - 1], i);
    }
  }

  /**
   * A produce that is reported as failed although its record arrived, or whose mark fails, leaves a
   * record in the topic of a row that is still unpublished; its batch is given up.
   */
  lemma SendLeaves(ls: seq<Label>, w: nat, attempt: Attempt)
    requires Sendable(Run(EMPTY, ls), w)
    ensures var s, t := Run(EMPTY, ls), Run(EMPTY, ls + [Send(w, attempt)]);
            var i := s.flights[w].batch[s.flights[w].at];
            && t.published == s.published && i !in t.published
            && (attempt.produce == Failed ==> t.log == s.log)
            && (attempt.produce != Failed ==> t.log == s.log + [RecordOf(s, i)] && InLog(t, i))
            && (w in t.flights <==> attempt.produce == Acked && attempt.markOk)
            && (w in t.flights ==> t.flights[w] == Flight(s.flights[w].batch, s.flights[w].at + 1))
  {
    RunIsSafe(ls);
    var s, t := Run(EMPTY, ls), Run(EMPTY, ls + [Send(w, attempt)]);
    assert (ls + [Send(w, attempt)])[..|ls|] == ls;
    if attempt.produce != Failed {
      assert t.log[|s.log|].origin == s.flights[w].batch[s.flights[w].at];
    }
  }

  lemma StepAddsNoCopyOfPublished(s: State, l: Label, i: nat)
    requires Safe(s) && i in s.published
    ensures i in Step(s, l).published
    ensures Copies(Step(s, l).log, i) == Copies(s.log, i)
  {
    var t := Step(s, l);
    if l.Send? && Sendable(s, l.worker) && t.log != s.log {
      var f := s.flights[l.worker];
      assert SafeFlight(s, f);
      assert t.log[..|t.log| - 1] == s.log;
    }
  }

  /** Once the mark of a row has committed, no later step of any worker adds a copy of it. */
  lemma {:induction false} NoCopyAfterMark(ls: seq<Label>, more: seq<Label>, i: nat)
    requires i in Run(EMPTY, ls).published
    ensures i in Run(EMPTY, ls + more).published
    ensures Copies(Run(EMPTY, ls + more).log, i) == Copies(Run(EMPTY, ls).log, i)
    decreases |more|
  {
    if more == [] {
      assert ls + more == ls;
    } else {
      var shorter := ls + more[..|more| - 1];
      assert (ls + more)[..|ls + more| - 1] == shorter;
      NoCopyAfterMark(ls, more[..|more| - 1], i);
      RunIsSafe(shorter);
      StepAddsNoCopyOfPublished(Run(EMPTY, shorter), more[|more| - 1], i);
    }
  }

  // ---------- Order, with one worker and rows stamped in commit order ----------

  /** Row i was committed before row j for the same aggregate. */
  ghost predicate Before(rows: seq<Row>, i: nat, j: nat)
    requires j < |rows|
  {
    i < j && rows[i].aggregate == rows[j].aggregate
  }

  /**
   * The assumptions of the ordering results: rows of one aggregate carry increasing start times
   * in commit order, and a batch is taken only while no other worker holds one, so the query answers
   * with the oldest rows.
   */
  ghost predicate Disciplined(s: State, l: Label) {
    && (l.Write? ==> forall i ::
          0 <= i < |s.rows| && s.rows[i].aggregate == l.row.aggregate ==> s.rows[i].createdAt < l.row.createdAt)
    && (l.Begin? ==> s.flights == map[] && LegalBatch(s, l.batch))
  }

  ghost predicate DisciplinedRun(ls: seq<Label>) {
    forall n :: 0 <= n < |ls| ==> Disciplined(Run(EMPTY, ls[..n]), ls[n])
  }

  /** Rows of one aggregate carry increasing stamps. */
  ghost predicate StampsRise(rows: seq<Row>) {
    forall i, j :: 0 <= i < j < |rows| && rows[i].aggregate == rows[j].aggregate
        ==> rows[i].createdAt < rows[j].createdAt
  }

  /** With a row of an aggregate, every earlier row of it is published. */
  ghost predicate MarksOrdered(rows: seq<Row>, published: set<nat>) {
    forall j, i: nat :: j in published && j < |rows| && Before(rows, i, j) ==> i in published
  }

  /** The earlier rows of a row in the batch are published or stand before it in the batch. */
  ghost predicate OrderedFlight(rows: seq<Row>, published: set<nat>, batch: seq<nat>) {
    forall b, i: nat :: 0 <= b < |batch| && batch[b] < |rows| && Before(rows, i, batch[b]) ==>
      i in published || i in batch[..b]
  }

  ghost predicate FlightsOrdered(rows: seq<Row>, published: set<nat>, flights: map<nat, Flight>) {
    forall w :: w in flights ==> OrderedFlight(rows, published, flights[w].batch)
  }

  ghost predicate LoggedEarlier(log: seq<Record>, i: nat, p: nat)
    requires p <= |log|
  {
    exists q :: 0 <= q < p && log[q].origin == i
  }

  /** Before any copy of a row the topic holds a copy of every earlier row of its aggregate. */
  ghost predicate LogOrdered(rows: seq<Row>, log: seq<Record>) {
    forall p, i: nat :: 0 <= p < |log| && log[p].origin < |rows| && Before(rows, i, log[p].origin)
        ==> LoggedEarlier(log, i, p)
  }

  ghost predicate Ordered(s: State) {
    && StampsRise(s.rows)
    && MarksOrdered(s.rows, s.published)
    && FlightsOrdered(s.rows, s.published, s.flights)
    && LogOrdered(s.rows, s.log)
  }

  // A new row changes none of these for the rows before it.

  lemma BeforeInLonger(rows: seq<Row>, row: Row, i: nat, j: nat)
    requires j < |rows| && Before(rows + [row], i, j)
    ensures Before(rows, i, j)
  {
  }

  lemma RowKeepsFlights(rows: seq<Row>, row: Row, published: set<nat>, flights: map<nat, Flight>)
    requires FlightsOrdered(rows, published, flights)
    requires forall w :: w in flights ==> forall i :: i in flights[w].batch ==> i < |rows|
    ensures FlightsOrdered(rows + [row], published, flights)
  {
    forall w | w in flights
      ensures OrderedFlight(rows + [row], published, flights[w].batch)
    {
      var batch := flights[w].batch;
      assert OrderedFlight(rows, published, batch);
      forall b, i: nat | 0 <= b < |batch| && batch[b] < |rows + [row]| && Before(rows + [row], i, batch[b])
        ensures i in published || i in batch[..b]
      {
        assert batch[b] in batch;
        BeforeInLonger(rows, row, i, batch[b]);
      }
    }
  }

  lemma RowKeepsMarks(rows: seq<Row>, row: Row, published: set<nat>)
    requires MarksOrdered(rows, published) && forall i :: i in published ==> i < |rows|
    ensures MarksOrdered(rows + [row], published)
  {
    forall j, i: nat | j in published && Before(rows + [row], i, j)
      ensures i in published
    {
      BeforeInLonger(rows, row, i, j);
    }
  }

  lemma RowKeepsLog(rows: seq<Row>, row: Row, log: seq<Record>)
    requires LogOrdered(rows, log) && forall p :: 0 <= p < |log| ==> log[p].origin < |rows|
    ensures LogOrdered(rows + [row], log)
  {
    forall p, i: nat | 0 <= p < |log| && Before(rows + [row], i, log[p].origin)
      ensures LoggedEarlier(log, i, p)
    {
      BeforeInLonger(rows, row, i, log[p].origin);
    }
  }

  lemma WriteKeepsOrdered(s: State, row: Row)
    requires Safe(s) && Ordered(s) && Disciplined(s, Write(row))
    ensures Ordered(Step(s, Write(row)))
  {
    hide Before, MarksOrdered, FlightsOrdered, LogOrdered, InLog;
    assert forall w :: w in s.flights ==> SafeFlight(s, s.flights[w]);
    RowKeepsFlights(s.rows, row, s.published, s.flights);
    RowKeepsMarks(s.rows, row, s.published);
    RowKeepsLog(s.rows, row, s.log);
  }

  lemma SendKeepsLogOrder(s: State, w: nat)
    requires Safe(s) && Ordered(s) && Sendable(s, w)
    ensures LogOrdered(s.rows, s.log + [RecordOf(s, s.flights[w].batch[s.flights[w].at])])
  {
    hide MarksOrdered, StampsRise;
    var f := s.flights[w];
    var log := s.log + [RecordOf(s, f.batch[f.at])];
    assert SafeFlight(s, f) && OrderedFlight(s.rows, s.published, f.batch);
    forall p, i: nat | 0 <= p < |log| && log[p].origin < |s.rows| && Before(s.rows, i, log[p].origin)
      ensures LoggedEarlier(log, i, p)
    {
      if p < |s.log| {
        assert log[p] == s.log[p] && LoggedEarlier(s.log, i, p);
        var q :| 0 <= q < p && s.log[q].origin == i;
        assert log[q].origin == i;
      } else {
        assert Before(s.rows, i, f.batch[f.at]) && InLog(s, i);
        var q :| 0 <= q < |s.log| && s.log[q].origin == i;
        assert log[q].origin == i;
      }
    }
  }

  lemma SendKeepsOrdered(s: State, w: nat, attempt: Attempt)
    requires Safe(s) && Ordered(s) && Sendable(s, w)
    ensures Ordered(SendStep(s, w, attempt))
  {
    hide Safe, StampsRise, MarksOrdered, LogOrdered, OrderedFlight;
    SendKeepsLogOrder(s, w);
  }

  lemma BeginKeepsOrdered(s: State, batch: seq<nat>)
    requires Ordered(s) && s.flights == map[] && LegalBatch(s, batch)
    ensures OrderedFlight(s.rows, s.published, batch)
  {
    hide MarksOrdered, LogOrdered;
    forall b, i: nat | 0 <= b < |batch| && batch[b] < |s.rows| && Before(s.rows, i, batch[b])
      ensures i in s.published || i in batch[..b]
    {
      if i !in s.published {
        assert Selectable(s, i);
        assert s.rows[i].createdAt < s.rows[batch[b]].createdAt;
        assert i in batch;
        var c :| 0 <= c < |batch| && batch[c] == i;
        assert c < b;
        assert batch[..b][c] == i;
      }
    }
  }

  lemma FinishKeepsMarks(s: State, w: nat)
    requires Safe(s) && Ordered(s) && w in s.flights
    ensures MarksOrdered(s.rows, s.published + set i | i in s.flights[w].batch)
    ensures FlightsOrdered(s.rows, s.published + (set i | i in s.flights[w].batch), s.flights - {w})
  {
    hide StampsRise, LogOrdered, Safe;
    var batch := s.flights[w].batch;
    var marked := s.published + set i | i in batch;
    assert OrderedFlight(s.rows, s.published, batch);
    forall j, i: nat | j in marked && j < |s.rows| && Before(s.rows, i, j)
      ensures i in marked
    {
      if j !in s.published {
        var b :| 0 <= b < |batch| && batch[b] == j;
        assert Before(s.rows, i, batch[b]);
      }
    }
  }

  lemma StepKeepsOrdered(s: State, l: Label)
    requires Safe(s) && Ordered(s) && Disciplined(s, l)
    ensures Ordered(Step(s, l))
  {
    hide Safe, LegalBatch, FreeBatch, StampsRise, MarksOrdered, LogOrdered, OrderedFlight, SendStep;
    match l
    case Write(row) => WriteKeepsOrdered(s, row);
    case Begin(w, batch) =>
      if w !in s.flights && FreeBatch(s, batch) {
        BeginKeepsOrdered(s, batch);
      }
    case Send(w, attempt) =>
      if Sendable(s, w) {
        SendKeepsOrdered(s, w, attempt);
      }
    case Finish(w, ending) =>
      if w in s.flights {
        FinishKeepsMarks(s, w);
      }
    case Crash(w) =>
  }

  lemma {:induction false} DisciplinedRunIsOrdered(ls: seq<Label>)
    requires DisciplinedRun(ls)
    ensures Ordered(Run(EMPTY, ls))
  {
    if ls != [] {
      var shorter := ls[..|ls| - 1];
      forall n | 0 <= n < |shorter|
        ensures Disciplined(Run(EMPTY, shorter[..n]), shorter[n])
      {
        assert shorter[..n] == ls[..n];
      }
      DisciplinedRunIsOrdered(shorter);
      RunIsSafe(shorter);
      StepKeepsOrdered(Run(EMPTY, shorter), ls[|ls| - 1]);
    }
  }
}
