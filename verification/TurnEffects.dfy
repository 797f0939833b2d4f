// What the moves of a turn do to the session: its log, its rows in the store, its events, its requests.
module TurnEffects {
  import opened Basics
  import opened Transcript
  import opened Turn
  import opened TurnRules
  import opened TurnMeaning
  import opened TurnGuards
  import Persistence
  import Repair
  import Slices

  /** How the flushes of a session come out. One without a conversation never reaches the store. */
  datatype Disk = Disk(hasConversation: bool, flushes: nat -> Persistence.Flush)

  function FlushOutcome(d: Disk, n: nat): Persistence.Flush {
    if d.hasConversation then d.flushes(n) else Persistence.Flush(false, 0, false)
  }

  /** The log, what left the session this turn, and the number of flushes so far. */
  datatype Standing = Standing(log: Persistence.Log, events: seq<Event>, requests: seq<seq<Message>>, flushed: nat)

  /** A flush is numbered from the first one of the session. The model is sent the repaired log. */
  ghost function Apply(d: Disk, s: Standing, move: Move): Standing {
    match move
    case Say(e) => s.(events := s.events + [e])
    case Ask => s.(requests := s.requests + [Slices.ModelView(s.log.messages)])
    case Push(m) => s.(log := Persistence.Push(s.log, m))
    case Flush => s.(log := Persistence.Flushed(s.log, FlushOutcome(d, s.flushed)), flushed := s.flushed + 1)
    case _ => s
  }

  ghost function Play(d: Disk, s: Standing, trace: seq<Move>): Standing {
    if trace == [] then s else Apply(d, Play(d, s, trace[..|trace| - 1]), trace[|trace| - 1])
  }

  /** A session as a turn begins. */
  ghost predicate Begins(s: Standing) {
    s.log.flight.None? && s.events == [] && s.requests == []
  }

  lemma ApplyMeans(d: Disk, s: Standing, move: Move)
    requires s.log.flight.None?
    ensures var s' := Apply(d, s, move);
            && s'.log.flight.None?
            && s'.log.messages == s.log.messages + Logged(move)
            && s'.events == s.events + (if move.Say? then [move.event] else [])
            && s'.requests == s.requests + (if move.Ask? then [Slices.ModelView(s.log.messages)] else [])
  {
    assert s.log.messages + [] == s.log.messages && s.events + [] == s.events && s.requests + [] == s.requests;
  }

  lemma {:induction false} PlayMeans(d: Disk, s: Standing, trace: seq<Move>)
    requires Begins(s)
    ensures var s' := Play(d, s, trace);
            s'.log.flight.None? && s'.log.messages == s.log.messages + LogOf(trace) && s'.events == EventsOf(trace)
    decreases |trace|
  {
    if trace == [] {
      assert s.log.messages + [] == s.log.messages;
    } else {
      var front, move := trace[..|trace| - 1], trace[|trace| - 1];
      PlayMeans(d, s, front);
      ApplyMeans(d, Play(d, s, front), move);
      Associative(s.log.messages, LogOf(front), Logged(move));
    }
  }

  lemma CountLast(trace: seq<Move>)
    requires trace != []
    ensures Count(trace) == Count(trace[..|trace| - 1]) + if trace[|trace| - 1].Ask? then 1 else 0
  {
    var front, move := trace[..|trace| - 1], trace[|trace| - 1];
    assert trace == front + [move] && [move][1..] == [];
    CountConcat(front, [move]);
  }

  lemma {:induction false} PlayedRequests(d: Disk, s: Standing, trace: seq<Move>)
    requires s.requests == []
    ensures |Play(d, s, trace).requests| == Count(trace)
    ensures forall r :: r in Play(d, s, trace).requests ==> WellPaired(r)
    decreases |trace|
  {
    if trace != [] {
      var front := trace[..|trace| - 1];
      PlayedRequests(d, s, front);
      CountLast(trace);
      Slices.ModelViewPaired(Play(d, s, front).log.messages);
    }
  }

  /**
   * Whatever the model, the phone and the store do: one terminal event, the last; at most sixteen requests,
   * each well paired; and from a well-paired log, with no call id twice in a step, a well-paired log.
   */
  lemma TurnPromises(env: Env, d: Disk, s: Standing)
    requires Begins(s)
    ensures var s' := Play(d, s, TurnTrace(env));
            && s'.log.messages == s.log.messages + LogOf(TurnTrace(env))
            && OneTerminal(s'.events)
            && |s'.requests| <= MAX_ITERATIONS && (forall r :: r in s'.requests ==> WellPaired(r))
            && (WellPaired(s.log.messages) && TidyEnv(env) ==> WellPaired(s'.log.messages))
  {
    PlayMeans(d, s, TurnTrace(env));
    PlayedRequests(d, s, TurnTrace(env));
    ExactlyOneTerminalEvent(env);
    AtMostSixteenModelCalls(env);
    if WellPaired(s.log.messages) && TidyEnv(env) { PairedAtEveryModelCall(env, s.log.messages); }
  }

  /** Then the model is sent the log itself, but for the `display` slices. */
  lemma RequestIsWholeLog(env: Env, base: seq<Message>, i: nat)
    requires WellPaired(base) && TidyEnv(env) && i < |TurnTrace(env)| && TurnTrace(env)[i].Ask?
    ensures var log := base + LogOf(TurnTrace(env)[..i]);
            Slices.ModelView(log) == Slices.StripDisplay(log)
  {
    PairedAtEveryModelCall(env, base);
    Repair.WellPairedUnchanged(base + LogOf(TurnTrace(env)[..i]));
  }

  // --- Persistence over a turn ---

  /** Nothing below the watermark lacks a row; with no flush half done, each message has exactly one. */
  ghost predicate Kept(log: Persistence.Log, start: nat, acknowledged: bool) {
    && log.flight.None? && Persistence.Coherent(log, start) && Persistence.Covered(log, start)
    && (acknowledged ==> Persistence.Exact(log, start))
  }

  /** No flush writes its rows and then fails. */
  ghost predicate NoneHalfDone(d: Disk) {
    forall n :: FlushOutcome(d, n).written ==> FlushOutcome(d, n).touched
  }

  ghost predicate AllSucceed(d: Disk) {
    forall n :: FlushOutcome(d, n).written && FlushOutcome(d, n).touched
  }

  /** The same while a flush is under way. */
  ghost predicate KeptMidway(log: Persistence.Log, start: nat, acknowledged: bool) {
    && Persistence.Coherent(log, start) && Persistence.AheadWritten(log) && Persistence.Covered(log, start)
    && (acknowledged ==> Persistence.Exact(log, start))
  }

  lemma StepKeeps(log: Persistence.Log, start: nat, op: Persistence.Op, acknowledged: bool)
    requires KeptMidway(log, start, acknowledged)
    requires Persistence.SkipsNothing(log, op) && (acknowledged ==> Persistence.CleanStep(log, op))
    ensures KeptMidway(Persistence.Step(log, op), start, acknowledged)
  {
    Persistence.StepCoherent(log, start, op);
    Persistence.StepAhead(log, start, op);
    Persistence.StepCovered(log, start, op);
    Persistence.StepExact(log, start, op);
  }

  lemma FlushKeeps(log: Persistence.Log, start: nat, f: Persistence.Flush, acknowledged: bool)
    requires Kept(log, start, acknowledged) && (acknowledged && f.written ==> f.touched)
    ensures Kept(Persistence.Flushed(log, f), start, acknowledged)
  {
    StepKeeps(log, start, Persistence.BeginOp(f.written, f.at), acknowledged);
    StepKeeps(Persistence.Begin(log, f.written, f.at), start, Persistence.EndOp(f.touched), acknowledged);
  }

  /**
   * Whatever the store does during a turn, no message below the watermark is missing; and each has exactly
   * one row, in order, unless a flush writes its rows and then fails.
   */
  lemma {:induction false} TurnKeepsRows(d: Disk, s: Standing, trace: seq<Move>, start: nat, acknowledged: bool)
    requires Kept(s.log, start, acknowledged) && (acknowledged ==> NoneHalfDone(d))
    ensures Kept(Play(d, s, trace).log, start, acknowledged)
    decreases |trace|
  {
    if trace != [] {
      var front, move := trace[..|trace| - 1], trace[|trace| - 1];
      TurnKeepsRows(d, s, front, start, acknowledged);
      var before := Play(d, s, front);
      if move.Push? { StepKeeps(before.log, start, Persistence.PushOp(move.message), acknowledged); }
      if move.Flush? { FlushKeeps(before.log, start, FlushOutcome(d, before.flushed), acknowledged); }
    }
  }

  /** All of the log is persisted. */
  ghost predicate Synced(log: Persistence.Log) {
    Persistence.From(log) == |log.messages|
  }

  /** The watermark lies in the log, at its end unless something committed waits to be flushed. */
  ghost predicate SyncedUnless(log: Persistence.Log, waiting: bool) {
    log.flight.None? && Persistence.From(log) <= |log.messages| && (waiting || Synced(log))
  }

  /** What waits in the log before the turn begins is no concern until the turn commits something. */
  lemma SyncedStep(d: Disk, s: Standing, m: Monitor, move: Move, untouched: bool)
    requires AllSucceed(d) && SyncedUnless(s.log, untouched || m.dirty)
    ensures SyncedUnless(Apply(d, s, move).log, (untouched && !move.Push?) || Next(m, move).dirty)
  {
    DirtyStep(m, move);
    if move.Flush? { assert FlushOutcome(d, s.flushed).written && FlushOutcome(d, s.flushed).touched; }
  }

  lemma DirtyStep(m: Monitor, move: Move)
    ensures Next(m, move).dirty == if move.Push? then true else if move.Flush? then false else m.dirty
  {
  }

  lemma {:induction false} SyncedUnlessDirty(d: Disk, s: Standing, trace: seq<Move>)
    requires SyncedUnless(s.log, true) && AllSucceed(d) && Obeys(Start(false), trace)
    ensures SyncedUnless(Play(d, s, trace).log, LogOf(trace) == [] || Watch(Start(false), trace).dirty)
    decreases |trace|
  {
    if trace != [] {
      var front, move := trace[..|trace| - 1], trace[|trace| - 1];
      LastMove(Start(false), trace, front, move);
      SyncedUnlessDirty(d, s, front);
      SyncedStep(d, Play(d, s, front), Watch(Start(false), front), move, LogOf(front) == []);
    }
  }

  /**
   * With a store that works, all the turn has committed is persisted whenever an event goes out, and when
   * the turn is over. The text of a step still under way is not committed yet.
   */
  lemma PersistedBeforeShown(env: Env, d: Disk, s: Standing, i: nat)
    requires SyncedUnless(s.log, true) && AllSucceed(d)
    requires i <= |TurnTrace(env)| && (i < |TurnTrace(env)| ==> TurnTrace(env)[i].Say?)
    ensures LogOf(TurnTrace(env)[..i]) == [] || Synced(Play(d, s, TurnTrace(env)[..i]).log)
  {
    var trace, m := TurnTrace(env), Start(false);
    EveryTurnObeys(env, false);
    ObeysPrefix(m, trace, i);
    SyncedUnlessDirty(d, s, trace[..i]);
    if i < |trace| { ObeysAt(m, trace, i); } else { assert trace[..i] == trace; }
  }
}
