// Incremental persistence: the watermark a session keeps, and the rows its flushes leave in the store.
module Persistence {
  import opened Basics
  import opened Transcript
  import opened Slices

  /** `source` is the position in the session's log the row was written from. */
  datatype Row = Row(id: nat, source: nat, message: Message, createdAt: int)

  /** An `appendMessages` under way: how far its slice reaches, and whether its rows went in. */
  datatype Flight = Flight(upto: nat, written: bool)

  /** `mark` is `lastPersistedIndex`; `rows` is what the session has written to its conversation. */
  datatype Log = Log(messages: seq<Message>, mark: Option<nat>, flight: Option<Flight>, rows: seq<Row>)

  function From(log: Log): nat {
    if log.mark.None? then 0 else log.mark.value
  }

  /** `prepareTurnWatermark`: only the first turn of a session sets it. */
  function Prepare(log: Log, priorMessageCount: Option<nat>): Log {
    if log.mark.Some? then log
    else log.(mark := Some(if priorMessageCount.None? then |log.messages| else priorMessageCount.value))
  }

  /** The rows of one `createManyMessages`: redacted, one millisecond apart. */
  function Batch(messages: seq<Message>, from: nat, at: int, id: nat): (rows: seq<Row>)
    requires from <= |messages|
    ensures |rows| == |messages| - from
    ensures forall i :: 0 <= i < |rows| ==>
      rows[i] == Row(id + i, from + i, OnMessage(RedactReply, messages[from + i]), at + i)
  {
    seq(|messages| - from, i requires 0 <= i < |messages| - from =>
      Row(id + i, from + i, OnMessage(RedactReply, messages[from + i]), at + i))
  }

  predicate StartsFlush(log: Log) {
    log.flight.None? && From(log) < |log.messages|
  }

  /** `persistTurnSoFar` up to its `await`: the rows of the slice go in, or the store refuses them. */
  function Begin(log: Log, written: bool, at: int): Log {
    if !StartsFlush(log) then log
    else log.(
      flight := Some(Flight(|log.messages|, written)),
      rows := if written then log.rows + Batch(log.messages, From(log), at, |log.rows|) else log.rows)
  }

  /**
   * `persistTurnSoFar` after its `await`. With the conversation row touched too, the watermark moves to
   * what is the end of the log by now; else the error is swallowed and the watermark stays.
   */
  function End(log: Log, touched: bool): Log {
    if log.flight.None? then log
    else log.(
      flight := None,
      mark := if log.flight.value.written && touched then Some(|log.messages|) else log.mark)
  }

  function Push(log: Log, m: Message): Log {
    log.(messages := log.messages + [m])
  }

  /** One flush that nothing interrupts. */
  datatype Flush = Flush(written: bool, at: int, touched: bool)

  function Flushed(log: Log, f: Flush): Log {
    End(Begin(log, f.written, f.at), f.touched)
  }

  // --- Runs of a session, over any number of turns ---

  datatype Op =
    | PrepareOp(priorMessageCount: Option<nat>)
    | PushOp(message: Message)
    | BeginOp(written: bool, at: int)
    | EndOp(touched: bool)

  function Step(log: Log, op: Op): Log {
    match op
    case PrepareOp(count) => Prepare(log, count)
    case PushOp(m) => Push(log, m)
    case BeginOp(written, at) => Begin(log, written, at)
    case EndOp(touched) => End(log, touched)
  }

  function Replay(log: Log, ops: seq<Op>): Log
    decreases |ops|
  {
    if ops == [] then log else Replay(Step(log, ops[0]), ops[1..])
  }

  /** A session about to write its first row, its watermark at `start`. */
  ghost predicate Fresh(log: Log, start: nat) {
    log.mark == Some(start) && start <= |log.messages| && log.flight.None? && log.rows == []
  }

  function Sources(rows: seq<Row>): (s: seq<nat>)
    ensures |s| == |rows| && forall i :: 0 <= i < |s| ==> s[i] == rows[i].source
  {
    seq(|rows|, i requires 0 <= i < |rows| => rows[i].source)
  }

  function Contents(rows: seq<Row>): (s: seq<Message>)
    ensures |s| == |rows| && forall i :: 0 <= i < |s| ==> s[i] == rows[i].message
  {
    seq(|rows|, i requires 0 <= i < |rows| => rows[i].message)
  }

  function Range(from: nat, upto: nat): (s: seq<nat>)
    ensures from <= upto ==> |s| == upto - from && forall i :: 0 <= i < |s| ==> s[i] == from + i
  {
    if from <= upto then seq(upto - from, i requires 0 <= i < upto - from => from + i) else []
  }

  /** What holds in every run: the watermark is in the log, and each row is the redaction of its source. */
  ghost predicate Coherent(log: Log, start: nat) {
    && log.mark.Some? && start <= log.mark.value <= |log.messages|
    && (forall r :: r in log.rows ==>
          start <= r.source < |log.messages| && r.message == OnMessage(RedactReply, log.messages[r.source]))
    && (forall i :: 0 <= i < |log.rows| ==> log.rows[i].id == i)
    && (log.flight.Some? ==> FlightCoherent(log, log.flight.value))
  }

  ghost predicate FlightCoherent(log: Log, f: Flight) {
    && From(log) < f.upto <= |log.messages|
    && (forall r :: r in log.rows ==> r.source < f.upto)
    && (f.written ==> log.rows != [] && log.rows[|log.rows| - 1].source == f.upto - 1)
  }

  lemma StepCoherent(log: Log, start: nat, op: Op)
    requires Coherent(log, start)
    ensures Coherent(Step(log, op), start)
  {
    if op.BeginOp? && StartsFlush(log) && op.written {
      var batch := Batch(log.messages, From(log), op.at, |log.rows|);
      assert Step(log, op).rows == log.rows + batch;
    }
  }

  // --- Each message exactly once ---

  /** Exactly the messages up to the watermark have a row, each one row, in order. */
  ghost predicate Exact(log: Log, start: nat) {
    Sources(log.rows) == Range(start, From(log)) + Ahead(log)
  }

  /** The sources of the rows a flush under way has put in. */
  ghost function Ahead(log: Log): seq<nat> {
    if log.flight.Some? && log.flight.value.written then Range(From(log), log.flight.value.upto) else []
  }

  /** The end of a flush is clean if no row went in, or all is acknowledged and nothing was pushed since. */
  ghost predicate CleanStep(log: Log, op: Op) {
    op.EndOp? && log.flight.Some? && log.flight.value.written ==>
      op.touched && log.flight.value.upto == |log.messages|
  }

  ghost predicate CleanRun(log: Log, ops: seq<Op>)
    decreases |ops|
  {
    ops == [] || (CleanStep(log, ops[0]) && CleanRun(Step(log, ops[0]), ops[1..]))
  }

  lemma RangeJoins(a: nat, b: nat, c: nat)
    requires a <= b <= c
    ensures Range(a, b) + Range(b, c) == Range(a, c)
  {
  }

  lemma SourcesConcat(a: seq<Row>, b: seq<Row>)
    ensures Sources(a + b) == Sources(a) + Sources(b)
  {
  }

  lemma SameEnd(a: seq<nat>, b: seq<nat>, c: seq<nat>)
    ensures a + c == b + c <==> a == b
  {
    if a + c == b + c {
      assert |a| == |b|;
      assert forall i :: 0 <= i < |a| ==> a[i] == (a + c)[i] == (b + c)[i] == b[i];
    }
  }

  lemma BeginExact(log: Log, start: nat, written: bool, at: int)
    requires Coherent(log, start) && StartsFlush(log)
    ensures Exact(Begin(log, written, at), start) <==> Exact(log, start)
  {
    if written {
      var from, upto := From(log), |log.messages|;
      var batch := Batch(log.messages, from, at, |log.rows|);
      SourcesConcat(log.rows, batch);
      assert Sources(batch) == Range(from, upto);
      SameEnd(Sources(log.rows), Range(start, from), Range(from, upto));
      assert Range(start, from) + [] == Range(start, from);
    }
  }

  lemma EndExact(log: Log, start: nat, touched: bool)
    requires Coherent(log, start) && log.flight.Some?
    ensures Exact(End(log, touched), start) <==> Exact(log, start) && CleanStep(log, EndOp(touched))
  {
    var f, now := log.flight.value, From(End(log, touched));
    assert Range(start, now) + [] == Range(start, now);
    if f.written {
      RangeJoins(start, From(log), f.upto);
      assert Sources(log.rows)[|log.rows| - 1] == f.upto - 1;
      assert Range(start, now) == Sources(log.rows) ==> now == f.upto;
    }
  }

  lemma StepExact(log: Log, start: nat, op: Op)
    requires Coherent(log, start)
    ensures Exact(Step(log, op), start) <==> Exact(log, start) && CleanStep(log, op)
  {
    match op
    case BeginOp(written, at) => if StartsFlush(log) { BeginExact(log, start, written, at); }
    case EndOp(touched) => if log.flight.Some? { EndExact(log, start, touched); }
    case _ =>
  }

  lemma {:induction false} ReplayExact(log: Log, start: nat, ops: seq<Op>)
    requires Coherent(log, start)
    ensures Coherent(Replay(log, ops), start)
    ensures Exact(Replay(log, ops), start) <==> Exact(log, start) && CleanRun(log, ops)
    decreases |ops|
  {
    if ops != [] {
      StepCoherent(log, start, ops[0]);
      StepExact(log, start, ops[0]);
      ReplayExact(Step(log, ops[0]), start, ops[1..]);
    }
  }

  lemma FreshExact(log: Log, start: nat)
    requires Fresh(log, start)
    ensures Coherent(log, start) && Exact(log, start)
  {
    assert Range(start, start) == [];
  }

  /**
   * Over any run, each message up to the watermark has exactly one row, in order, precisely when every
   * flush whose rows went in was acknowledged with nothing pushed meanwhile.
   */
  lemma PersistedExactlyOnceIff(log: Log, start: nat, ops: seq<Op>)
    requires Fresh(log, start) && Replay(log, ops).flight.None?
    ensures var end := Replay(log, ops);
            && start <= From(end) <= |end.messages|
            && (Sources(end.rows) == Range(start, From(end)) <==> CleanRun(log, ops))
  {
    FreshExact(log, start);
    ReplayExact(log, start, ops);
    var end := Replay(log, ops);
    assert Range(start, From(end)) + [] == Range(start, From(end));
  }

  lemma RowsOfRange(log: Log, start: nat)
    requires Coherent(log, start) && Sources(log.rows) == Range(start, From(log))
    ensures Contents(log.rows) == Redacted(log.messages[start..From(log)])
  {
    assert |log.rows| == |Sources(log.rows)| == From(log) - start;
    forall i | 0 <= i < |log.rows| ensures log.rows[i].message == OnMessage(RedactReply, log.messages[start + i]) {
      assert Sources(log.rows)[i] == start + i;
      assert log.rows[i] in log.rows;
    }
  }

  /** The conversation then holds the redaction of the log from where the session began. */
  lemma PersistedIsRedactedLog(log: Log, start: nat, ops: seq<Op>)
    requires Fresh(log, start) && Replay(log, ops).flight.None? && CleanRun(log, ops)
    ensures var end := Replay(log, ops);
            && start <= From(end) <= |end.messages|
            && Contents(end.rows) == Redacted(end.messages[start..From(end)])
  {
    PersistedExactlyOnceIff(log, start, ops);
    FreshExact(log, start);
    ReplayExact(log, start, ops);
    RowsOfRange(Replay(log, ops), start);
  }

  // --- Each message at least once ---

  ghost predicate Covered(log: Log, start: nat) {
    forall i :: start <= i < From(log) ==> i in Sources(log.rows)
  }

  /** An acknowledged flush skips what was pushed while it was under way. */
  ghost predicate SkipsNothing(log: Log, op: Op) {
    op.EndOp? && log.flight.Some? && log.flight.value.written && op.touched ==>
      log.flight.value.upto == |log.messages|
  }

  ghost predicate SkipFreeRun(log: Log, ops: seq<Op>)
    decreases |ops|
  {
    ops == [] || (SkipsNothing(log, ops[0]) && SkipFreeRun(Step(log, ops[0]), ops[1..]))
  }

  /** The rows of a flush under way reach from the watermark to the end of its slice. */
  ghost predicate AheadWritten(log: Log) {
    forall i :: i in Ahead(log) ==> i in Sources(log.rows)
  }

  lemma StepAhead(log: Log, start: nat, op: Op)
    requires Coherent(log, start) && AheadWritten(log)
    ensures AheadWritten(Step(log, op))
  {
    if op.BeginOp? && StartsFlush(log) {
      var batch := if op.written then Batch(log.messages, From(log), op.at, |log.rows|) else [];
      SourcesConcat(log.rows, batch);
      assert Sources(batch) == Ahead(Step(log, op));
    } else {
      assert Sources(Step(log, op).rows) == Sources(log.rows);
      assert Ahead(Step(log, op)) == Ahead(log) || Ahead(Step(log, op)) == [];
    }
  }

  /** What is below the watermark gets no row any more. */
  lemma StepAddsNone(log: Log, start: nat, op: Op, i: nat)
    requires Coherent(log, start) && i < From(log)
    ensures i in Sources(Step(log, op).rows) <==> i in Sources(log.rows)
  {
    if op.BeginOp? && StartsFlush(log) && op.written {
      var batch := Batch(log.messages, From(log), op.at, |log.rows|);
      SourcesConcat(log.rows, batch);
      assert i !in Sources(batch) by { assert forall k :: 0 <= k < |batch| ==> Sources(batch)[k] == From(log) + k; }
    }
  }

  lemma StepCovered(log: Log, start: nat, op: Op)
    requires Coherent(log, start) && AheadWritten(log)
    ensures Covered(Step(log, op), start) <==> Covered(log, start) && SkipsNothing(log, op)
  {
    var log' := Step(log, op);
    forall i: nat | i < From(log) ensures i in Sources(log'.rows) <==> i in Sources(log.rows) {
      StepAddsNone(log, start, op, i);
    }
    if op.EndOp? && log.flight.Some? && log.flight.value.written && op.touched {
      var upto := log.flight.value.upto;
      forall k | 0 <= k < |log.rows| ensures Sources(log.rows)[k] != upto { assert log.rows[k] in log.rows; }
      assert log'.rows == log.rows && From(log') == |log.messages|;
      assert upto !in Sources(log.rows);
      if upto == |log.messages| {
        forall i | From(log) <= i < upto ensures i in Sources(log.rows) { assert i == Ahead(log)[i - From(log)]; }
      }
    }
  }

  lemma {:induction false} ReplayCovered(log: Log, start: nat, ops: seq<Op>)
    requires Coherent(log, start) && AheadWritten(log)
    ensures Covered(Replay(log, ops), start) <==> Covered(log, start) && SkipFreeRun(log, ops)
    decreases |ops|
  {
    if ops != [] {
      StepCoherent(log, start, ops[0]);
      StepAhead(log, start, ops[0]);
      StepCovered(log, start, ops[0]);
      ReplayCovered(Step(log, ops[0]), start, ops[1..]);
    }
  }

  /**
   * A refused or half-done flush loses nothing: every message below the watermark has a row, precisely
   * when no message was pushed while a flush that succeeded was awaited.
   */
  lemma NothingLostIff(log: Log, start: nat, ops: seq<Op>)
    requires Fresh(log, start)
    ensures Covered(Replay(log, ops), start) <==> SkipFreeRun(log, ops)
  {
    FreshExact(log, start);
    ReplayCovered(log, start, ops);
  }

  // --- The order of a reload ---

  /** `order` is one a query by ascending `createdAt` may return. */
  ghost predicate Readable(order: seq<Row>, rows: seq<Row>) {
    multiset(order) == multiset(rows) && Ascends(order)
  }

  ghost predicate Ascends(rows: seq<Row>) {
    forall i, j :: 0 <= i < j < |rows| ==> rows[i].createdAt <= rows[j].createdAt
  }

  ghost predicate Strict(rows: seq<Row>) {
    forall i, j :: 0 <= i < j < |rows| ==> rows[i].createdAt < rows[j].createdAt
  }

  /** Reading by `createdAt` gives the rows back as they were appended, and in no other order. */
  ghost predicate ReadsBack(rows: seq<Row>) {
    Readable(rows, rows) && forall order :: Readable(order, rows) ==> order == rows
  }

  lemma FirstIsLeast(order: seq<Row>, rows: seq<Row>)
    requires Readable(order, rows) && Strict(rows) && rows != []
    ensures order != [] && order[0] == rows[0]
  {
    assert |order| == |multiset(order)| == |multiset(rows)|;
    assert order[0] in multiset(rows) && rows[0] in multiset(order);
    var i :| 0 <= i < |rows| && rows[i] == order[0];
    var j :| 0 <= j < |order| && order[j] == rows[0];
  }

  lemma RestOf(rows: seq<Row>)
    requires rows != []
    ensures multiset(rows[1..]) == multiset(rows) - multiset{rows[0]}
  {
    assert rows == [rows[0]] + rows[1..];
  }

  lemma {:induction false} StrictReadsBack(order: seq<Row>, rows: seq<Row>)
    requires Readable(order, rows) && Strict(rows)
    ensures order == rows
  {
    if rows == [] {
      assert |multiset(order)| == 0;
    } else {
      FirstIsLeast(order, rows);
      RestOf(order);
      RestOf(rows);
      StrictReadsBack(order[1..], rows[1..]);
      assert order == [order[0]] + order[1..] && rows == [rows[0]] + rows[1..];
    }
  }

  lemma {:induction false} NextToNext(rows: seq<Row>)
    requires forall i :: 0 <= i < |rows| - 1 ==> rows[i].createdAt < rows[i + 1].createdAt
    ensures Strict(rows)
  {
    if |rows| > 0 {
      var front := rows[..|rows| - 1];
      NextToNext(front);
      forall i | 0 <= i < |front| ensures rows[i].createdAt < rows[|front|].createdAt {
        assert front[i].createdAt <= front[|front| - 1].createdAt;
        assert front[|front| - 1] == rows[|front| - 1];
      }
      assert forall i :: 0 <= i < |front| ==> front[i] == rows[i];
    }
  }

  lemma TieReadsTwoWays(rows: seq<Row>, i: nat)
    requires i + 1 < |rows| && Ascends(rows) && rows[i].createdAt == rows[i + 1].createdAt
    requires rows[i] != rows[i + 1]
    ensures exists order :: Readable(order, rows) && order != rows
  {
    var order := rows[i := rows[i + 1]][i + 1 := rows[i]];
    assert multiset(order) == multiset(rows);
    assert forall k :: 0 <= k < |rows| ==> order[k].createdAt == rows[k].createdAt;
    assert Readable(order, rows) && order[i] != rows[i];
  }

  lemma ReadsBackIffStrict(rows: seq<Row>)
    requires forall i :: 0 <= i < |rows| ==> rows[i].id == i
    ensures ReadsBack(rows) <==> Strict(rows)
  {
    if Strict(rows) {
      forall order | Readable(order, rows) ensures order == rows { StrictReadsBack(order, rows); }
    } else if Ascends(rows) {
      if forall i :: 0 <= i < |rows| - 1 ==> rows[i].createdAt < rows[i + 1].createdAt {
        NextToNext(rows);
      } else {
        var i :| 0 <= i < |rows| - 1 && rows[i].createdAt >= rows[i + 1].createdAt;
        TieReadsTwoWays(rows, i);
      }
    }
  }

  /** A flush whose rows go in begins after the stamp of the last row of the flush before it. */
  ghost predicate SpacedStep(log: Log, op: Op) {
    op.BeginOp? && StartsFlush(log) && op.written && log.rows != [] ==> log.rows[|log.rows| - 1].createdAt < op.at
  }

  ghost predicate SpacedRun(log: Log, ops: seq<Op>)
    decreases |ops|
  {
    ops == [] || (SpacedStep(log, ops[0]) && SpacedRun(Step(log, ops[0]), ops[1..]))
  }

  lemma StrictConcat(a: seq<Row>, b: seq<Row>)
    requires b != [] && Strict(b)
    ensures Strict(a + b) <==> Strict(a) && (a != [] ==> a[|a| - 1].createdAt < b[0].createdAt)
  {
    var rows, n := a + b, |a|;
    assert rows[n] == b[0] && (forall i :: 0 <= i < n ==> a[i] == rows[i]);
    if Strict(a) && (a != [] ==> a[n - 1].createdAt < b[0].createdAt) {
      forall i, j | 0 <= i < j < |rows| ensures rows[i].createdAt < rows[j].createdAt {
        if i < n <= j {
          assert a[i].createdAt <= a[n - 1].createdAt;
          assert b[0].createdAt <= b[j - n].createdAt;
        }
      }
    }
  }

  lemma StepStrict(log: Log, op: Op)
    ensures Strict(Step(log, op).rows) <==> Strict(log.rows) && SpacedStep(log, op)
  {
    if op.BeginOp? && StartsFlush(log) && op.written {
      var batch := Batch(log.messages, From(log), op.at, |log.rows|);
      var rows := log.rows + batch;
      assert Step(log, op).rows == rows;
      StrictConcat(log.rows, batch);
    }
  }

  lemma {:induction false} ReplayStrict(log: Log, ops: seq<Op>)
    ensures Strict(Replay(log, ops).rows) <==> Strict(log.rows) && SpacedRun(log, ops)
    decreases |ops|
  {
    if ops != [] {
      StepStrict(log, ops[0]);
      ReplayStrict(Step(log, ops[0]), ops[1..]);
    }
  }

  /**
   * A reload by `createdAt` gives the rows in the order they were written, and cannot give another one,
   * precisely when each flush starts after the last stamp of the flush before it.
   */
  lemma ReloadKeepsOrderIff(log: Log, start: nat, ops: seq<Op>)
    requires Fresh(log, start)
    ensures ReadsBack(Replay(log, ops).rows) <==> SpacedRun(log, ops)
  {
    FreshExact(log, start);
    ReplayExact(log, start, ops);
    ReplayStrict(log, ops);
    ReadsBackIffStrict(Replay(log, ops).rows);
  }

  // --- Runs that fail the conditions ---

  const EMPTY := Log([], Some(0), None, [])

  lemma ReplayOne(log: Log, op: Op, ops: seq<Op>)
    ensures Replay(log, [op] + ops) == Replay(Step(log, op), ops)
  {
    assert ([op] + ops)[1..] == ops;
  }

  /** Push, then a whole flush, then more. */
  lemma ReplayFlush(log: Log, m: Message, f: Flush, ops: seq<Op>)
    ensures Replay(log, [PushOp(m)] + ([BeginOp(f.written, f.at)] + ([EndOp(f.touched)] + ops)))
         == Replay(Flushed(Push(log, m), f), ops)
  {
    ReplayOne(log, PushOp(m), [BeginOp(f.written, f.at)] + ([EndOp(f.touched)] + ops));
    ReplayOne(Push(log, m), BeginOp(f.written, f.at), [EndOp(f.touched)] + ops);
    ReplayOne(Begin(Push(log, m), f.written, f.at), EndOp(f.touched), ops);
  }

  /** A flush that writes its row and then fails, and a second one: the message has two rows. */
  lemma HalfDoneFlushRepeats(m: Message, at: int, later: int)
    ensures var ops := [PushOp(m), BeginOp(true, at), EndOp(false), BeginOp(true, later), EndOp(true)];
            && Fresh(EMPTY, 0) && Replay(EMPTY, ops).flight.None?
            && Sources(Replay(EMPTY, ops).rows) == [0, 0] && From(Replay(EMPTY, ops)) == 1
  {
    var again := [BeginOp(true, later), EndOp(true)];
    assert [PushOp(m), BeginOp(true, at), EndOp(false), BeginOp(true, later), EndOp(true)]
        == [PushOp(m)] + ([BeginOp(true, at)] + ([EndOp(false)] + again));
    ReplayFlush(EMPTY, m, Flush(true, at, false), again);
    var log := Flushed(Push(EMPTY, m), Flush(true, at, false));
    assert again == [BeginOp(true, later)] + ([EndOp(true)] + []);
    ReplayOne(log, BeginOp(true, later), [EndOp(true)] + []);
    ReplayOne(Begin(log, true, later), EndOp(true), []);
  }

  /** A message pushed while a flush that succeeds is awaited gets no row. */
  lemma PushDuringFlushIsLost(m: Message, n: Message, at: int)
    ensures var ops := [PushOp(m), BeginOp(true, at), PushOp(n), EndOp(true)];
            && Fresh(EMPTY, 0) && Replay(EMPTY, ops).flight.None?
            && Sources(Replay(EMPTY, ops).rows) == [0] && From(Replay(EMPTY, ops)) == 2
  {
    var pushed := Push(EMPTY, m);
    assert [PushOp(m), BeginOp(true, at), PushOp(n), EndOp(true)]
        == [PushOp(m)] + ([BeginOp(true, at)] + ([PushOp(n)] + ([EndOp(true)] + [])));
    ReplayOne(EMPTY, PushOp(m), [BeginOp(true, at)] + ([PushOp(n)] + ([EndOp(true)] + [])));
    ReplayOne(pushed, BeginOp(true, at), [PushOp(n)] + ([EndOp(true)] + []));
    ReplayOne(Begin(pushed, true, at), PushOp(n), [EndOp(true)] + []);
    ReplayOne(Push(Begin(pushed, true, at), n), EndOp(true), []);
  }

  lemma TwoFlushes(m: Message, n: Message, at: int, later: int)
    ensures var ops := [PushOp(m), BeginOp(true, at), EndOp(true), PushOp(n), BeginOp(true, later), EndOp(true)];
            Replay(EMPTY, ops).rows ==
              [Row(0, 0, OnMessage(RedactReply, m), at), Row(1, 1, OnMessage(RedactReply, n), later)]
  {
    var f, g := Flush(true, at, true), Flush(true, later, true);
    var second := [PushOp(n)] + ([BeginOp(true, later)] + ([EndOp(true)] + []));
    assert [PushOp(m), BeginOp(true, at), EndOp(true), PushOp(n), BeginOp(true, later), EndOp(true)]
        == [PushOp(m)] + ([BeginOp(true, at)] + ([EndOp(true)] + second));
    ReplayFlush(EMPTY, m, f, second);
    ReplayFlush(Flushed(Push(EMPTY, m), f), n, g, []);
    FlushOne(EMPTY, m, at);
    FlushOne(Flushed(Push(EMPTY, m), f), n, later);
  }

  /** Two flushes that begin within one millisecond: a reload may swap their rows. */
  lemma SameMillisecondSwaps(m: Message, n: Message, at: int, rows: seq<Row>)
    requires rows ==
      Replay(EMPTY, [PushOp(m), BeginOp(true, at), EndOp(true), PushOp(n), BeginOp(true, at), EndOp(true)]).rows
    ensures Contents(rows) == [OnMessage(RedactReply, m), OnMessage(RedactReply, n)]
    ensures Readable([rows[1], rows[0]], rows)
  {
    TwoFlushes(m, n, at, at);
    SwapTwo(Row(0, 0, OnMessage(RedactReply, m), at), Row(1, 1, OnMessage(RedactReply, n), at));
  }

  lemma FlushOne(log: Log, m: Message, at: int)
    requires log.flight.None? && From(log) == |log.messages|
    ensures Flushed(Push(log, m), Flush(true, at, true))
         == Log(log.messages + [m], Some(|log.messages| + 1), None,
                log.rows + [Row(|log.rows|, |log.messages|, OnMessage(RedactReply, m), at)])
  {
    var batch := Batch(log.messages + [m], From(log), at, |log.rows|);
    assert batch == [batch[0]];
  }

  lemma SwapTwo(a: Row, b: Row)
    requires a.createdAt == b.createdAt
    ensures Readable([b, a], [a, b]) && Contents([a, b]) == [a.message, b.message]
  {
  }
}
