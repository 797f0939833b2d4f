// What the guards of the turn loop come to: its bounds, its reads, its last event and its text.
module TurnGuards {
  import opened Basics
  import opened Transcript
  import opened StreamFilter
  import opened Turn
  import opened TurnRules
  import opened TurnMeaning

  // --- The number of model calls ---

  function Count(trace: seq<Move>): nat {
    if trace == [] then 0 else (if trace[0].Ask? then 1 else 0) + Count(trace[1..])
  }

  lemma {:induction false} CountConcat(a: seq<Move>, b: seq<Move>)
    ensures Count(a + b) == Count(a) + Count(b)
  {
    if a == [] {
      assert a + b == b;
    } else {
      assert (a + b)[1..] == a[1..] + b;
      CountConcat(a[1..], b);
    }
  }

  lemma {:induction false} CountedAsks(m: Monitor, trace: seq<Move>)
    requires Obeys(m, trace) && m.asks <= MAX_ITERATIONS
    ensures Watch(m, trace).asks == m.asks + Count(trace) <= MAX_ITERATIONS
    decreases |trace|
  {
    if trace != [] { CountedAsks(Next(m, trace[0]), trace[1..]); }
  }

  lemma AtMostSixteenModelCalls(env: Env)
    ensures Count(TurnTrace(env)) <= MAX_ITERATIONS
  {
    EveryTurnObeys(env, false);
    CountedAsks(Start(false), TurnTrace(env));
  }

  // --- Steps whose every tool fails ---

  predicate Fails(move: Move) {
    move.Came? && !move.ok
  }

  predicate Progresses(move: Move) {
    (move.Came? && move.ok) || move.Repeat?
  }

  /** From the model call at `a` to the one at `b` there is none between, and every tool failed. */
  ghost predicate FailedStep(trace: seq<Move>, a: nat, b: nat) {
    && a < b < |trace| && trace[a].Ask? && trace[b].Ask?
    && (exists k :: a < k < b && Fails(trace[k]))
    && (forall k :: a < k < b ==> !trace[k].Ask? && !Progresses(trace[k]))
  }

  lemma FailingMove(m: Monitor, move: Move)
    requires !move.Ask? && !Progresses(move)
    ensures var m' := Next(m, move);
            && m'.progressed == m.progressed && m'.failures == m.failures && m'.failed == (m.failed || Fails(move))
  {
  }

  lemma {:induction false} FailingMoves(m: Monitor, moves: seq<Move>)
    requires forall k :: 0 <= k < |moves| ==> !moves[k].Ask? && !Progresses(moves[k])
    ensures var m' := Watch(m, moves);
            && m'.progressed == m.progressed && m'.failures == m.failures
            && (m.failed || (exists k :: 0 <= k < |moves| && Fails(moves[k])) ==> m'.failed)
    decreases |moves|
  {
    if moves != [] {
      assert forall k :: 0 <= k < |moves| - 1 ==> moves[1..][k] == moves[k + 1];
      FailingMove(m, moves[0]);
      FailingMoves(Next(m, moves[0]), moves[1..]);
      if k :| 0 <= k < |moves| && Fails(moves[k]) {
        if k > 0 { assert Fails(moves[1..][k - 1]); }
      }
    }
  }

  lemma SplitAt(m: Monitor, trace: seq<Move>, a: nat, b: nat)
    requires a <= b <= |trace|
    ensures Watch(m, trace[..b]) == Watch(Watch(m, trace[..a]), trace[a..b])
  {
    assert trace[..b] == trace[..a] + trace[a..b];
    ObeysConcat(m, trace[..a], trace[a..b]);
  }

  lemma AskStep(m: Monitor)
    ensures var m' := Next(m, Ask); m'.failures == Spiral(m) && !m'.failed && !m'.progressed
    ensures Allowed(m, Ask) ==> Spiral(m) < MAX_CONSECUTIVE_TOOL_FAILURES
  {
  }

  /** The monitor at the model call that ends a failed step counts one failure more. */
  lemma FailureCounts(m: Monitor, trace: seq<Move>, a: nat, b: nat)
    requires Obeys(m, trace) && FailedStep(trace, a, b)
    ensures Spiral(At(m, trace, b)) == Spiral(At(m, trace, a)) + 1
    ensures Spiral(At(m, trace, b)) < MAX_CONSECUTIVE_TOOL_FAILURES
  {
    ObeysAt(m, trace, a);
    ObeysAt(m, trace, b);
    AskStep(At(m, trace, a));
    AskStep(At(m, trace, b));
    SplitAt(m, trace, a + 1, b);
    FailedMoves(trace, a, b);
    FailingMoves(Watch(m, trace[..a + 1]), trace[a + 1..b]);
  }

  lemma FailedMoves(trace: seq<Move>, a: nat, b: nat)
    requires FailedStep(trace, a, b)
    ensures var moves := trace[a + 1..b];
            && (forall k :: 0 <= k < |moves| ==> !moves[k].Ask? && !Progresses(moves[k]))
            && (exists k :: 0 <= k < |moves| && Fails(moves[k]))
  {
    var moves := trace[a + 1..b];
    assert forall k :: 0 <= k < |moves| ==> moves[k] == trace[a + 1 + k];
    var k :| a < k < b && Fails(trace[k]);
    assert Fails(moves[k - a - 1]);
  }

  /** After three failed steps in a row the model is not called again. */
  lemma NeverAFourthTry(env: Env, a: nat, b: nat, c: nat, d: nat)
    ensures !(FailedStep(TurnTrace(env), a, b) && FailedStep(TurnTrace(env), b, c) && FailedStep(TurnTrace(env), c, d))
  {
    var trace := TurnTrace(env);
    EveryTurnObeys(env, false);
    if FailedStep(trace, a, b) && FailedStep(trace, b, c) && FailedStep(trace, c, d) {
      FailureCounts(Start(false), trace, a, b);
      FailureCounts(Start(false), trace, b, c);
      FailureCounts(Start(false), trace, c, d);
    }
  }

  // --- Reads ---

  predicate IsWrite(move: Move) {
    move.Dispatch? && move.write
  }

  predicate IsRead(move: Move) {
    move.Dispatch? && !move.write
  }

  ghost predicate NoWrite(moves: seq<Move>) {
    forall k :: 0 <= k < |moves| ==> !IsWrite(moves[k])
  }

  ghost predicate WriteBetween(trace: seq<Move>, i: nat, j: nat) {
    exists k :: i < k < j && k < |trace| && IsWrite(trace[k])
  }

  /** The same tool with the same arguments, but for the order of properties. */
  ghost predicate SameCall(c: ToolCall, d: ToolCall) {
    c.name == d.name && CallKey.Same(c.input, d.input)
  }

  /** Every input a call comes with is JSON as a parser builds it. */
  ghost predicate ProperCalls(trace: seq<Move>) {
    forall i :: 0 <= i < |trace| && (trace[i].Dispatch? || trace[i].Repeat?) ==> CallKey.Proper(trace[i].call.input)
  }

  /** The move at `i` reads what the call at `j` asks for, and no write came between. */
  ghost predicate ReadBefore(trace: seq<Move>, i: nat, j: nat, c: ToolCall) {
    i < j <= |trace| && IsRead(trace[i]) && Key(trace[i].call) == Key(c) && NoWrite(trace[i + 1..j])
  }

  lemma SeenKept(m: Monitor, move: Move)
    requires !IsWrite(move)
    ensures m.seen <= Next(m, move).seen
  {
  }

  lemma {:induction false} ReadsRemembered(m: Monitor, moves: seq<Move>)
    requires NoWrite(moves)
    ensures m.seen <= Watch(m, moves).seen
    decreases |moves|
  {
    if moves != [] {
      SeenKept(m, moves[0]);
      assert forall k :: 0 <= k < |moves| - 1 ==> moves[1..][k] == moves[k + 1];
      ReadsRemembered(Next(m, moves[0]), moves[1..]);
    }
  }

  lemma SeenStep(m: Monitor, move: Move, key: string)
    requires key in Next(m, move).seen
    ensures (IsRead(move) && Key(move.call) == key) || (key in m.seen && !IsWrite(move))
  {
  }

  lemma StillReadBefore(trace: seq<Move>, i: nat, j: nat, c: ToolCall)
    requires ReadBefore(trace, i, j, c) && j < |trace| && !IsWrite(trace[j])
    ensures ReadBefore(trace, i, j + 1, c)
  {
    assert trace[i + 1..j + 1] == trace[i + 1..j] + [trace[j]];
  }

  /** What the turn remembers at `j` was read before, with no write since. */
  lemma {:induction false} RememberedReads(m: Monitor, trace: seq<Move>, j: nat, c: ToolCall) returns (i: nat)
    requires m.seen == {} && j <= |trace|
    ensures Key(c) in At(m, trace, j).seen ==> ReadBefore(trace, i, j, c)
  {
    i := 0;
    if j == 0 {
      assert trace[..0] == [];
    } else if Key(c) in At(m, trace, j).seen {
      var move := trace[j - 1];
      SplitAt(m, trace, j - 1, j);
      assert trace[j - 1..j] == [move];
      ObeysOne(At(m, trace, j - 1), move);
      SeenStep(At(m, trace, j - 1), move, Key(c));
      if IsRead(move) && Key(move.call) == Key(c) {
        i := j - 1;
        assert trace[j..j] == [];
      } else {
        i := RememberedReads(m, trace, j - 1, c);
        StillReadBefore(trace, i, j - 1, c);
      }
    }
  }

  lemma ReadForgottenOnlyByWrites(m: Monitor, trace: seq<Move>, i: nat, j: nat, c: ToolCall)
    requires ReadBefore(trace, i, j, c)
    ensures Key(c) in At(m, trace, j).seen
  {
    SplitAt(m, trace, i, i + 1);
    assert trace[i..i + 1] == [trace[i]];
    ObeysOne(At(m, trace, i), trace[i]);
    SplitAt(m, trace, i + 1, j);
    ReadsRemembered(At(m, trace, i + 1), trace[i + 1..j]);
  }

  /**
   * A read is taken for a repeat exactly when the same tool was dispatched with the same arguments earlier
   * in the turn and nothing was written since; every other read is dispatched.
   */
  lemma RepeatIff(env: Env, j: nat)
    requires j < |TurnTrace(env)| && ProperCalls(TurnTrace(env))
    requires TurnTrace(env)[j].Repeat? || IsRead(TurnTrace(env)[j])
    ensures var trace := TurnTrace(env);
            trace[j].Repeat? <==>
            exists i :: 0 <= i < j && IsRead(trace[i]) && SameCall(trace[i].call, trace[j].call)
                        && !WriteBetween(trace, i, j)
  {
    var trace, m := TurnTrace(env), Start(false);
    var c := trace[j].call;
    EveryTurnObeys(env, false);
    ObeysAt(m, trace, j);
    if trace[j].Repeat? {
      var i := RememberedReads(m, trace, j, c);
      CallKey.KeysTellCallsApart(trace[i].call.name, trace[i].call.input, c.name, c.input);
      WritesBetween(trace, i, j);
      assert 0 <= i < j && IsRead(trace[i]) && SameCall(trace[i].call, c) && !WriteBetween(trace, i, j);
    } else {
      forall i | 0 <= i < j && IsRead(trace[i]) && SameCall(trace[i].call, c) ensures WriteBetween(trace, i, j) {
        CallKey.KeysTellCallsApart(trace[i].call.name, trace[i].call.input, c.name, c.input);
        WritesBetween(trace, i, j);
        if NoWrite(trace[i + 1..j]) { ReadForgottenOnlyByWrites(m, trace, i, j, c); }
      }
    }
  }

  lemma WritesBetween(trace: seq<Move>, i: nat, j: nat)
    requires i < j <= |trace|
    ensures NoWrite(trace[i + 1..j]) <==> !WriteBetween(trace, i, j)
  {
    var moves := trace[i + 1..j];
    assert forall k :: 0 <= k < |moves| ==> moves[k] == trace[i + 1 + k];
    if k :| i < k < j && IsWrite(trace[k]) { assert IsWrite(moves[k - i - 1]); }
  }

  lemma {:induction false} RepeatLasts(m: Monitor, moves: seq<Move>)
    requires m.repeated
    ensures Watch(m, moves).repeated
    decreases |moves|
  {
    if moves != [] { RepeatLasts(Next(m, moves[0]), moves[1..]); }
  }

  /** Once a read is repeated, the model is not called again. */
  lemma NoModelCallAfterRepeat(env: Env, i: nat, j: nat)
    requires i < j < |TurnTrace(env)| && TurnTrace(env)[i].Repeat?
    ensures !TurnTrace(env)[j].Ask?
  {
    var trace, m := TurnTrace(env), Start(false);
    EveryTurnObeys(env, false);
    ObeysAt(m, trace, i);
    ObeysAt(m, trace, j);
    SplitAt(m, trace, i + 1, j);
    RepeatLasts(At(m, trace, i + 1), trace[i + 1..j]);
  }

  // --- The last event ---

  ghost predicate OneTerminal(events: seq<Event>) {
    && events != [] && Terminal(events[|events| - 1])
    && forall i :: 0 <= i < |events| - 1 ==> !Terminal(events[i])
  }

  ghost predicate NoTerminal(events: seq<Event>) {
    forall e :: e in events ==> !Terminal(e)
  }

  lemma ClosedStep(m: Monitor, move: Move)
    requires Allowed(m, move)
    ensures if move.Say? then !m.closed && Next(m, move).closed == Terminal(move.event)
            else Next(m, move).closed == m.closed
  {
  }

  lemma {:induction false} ClosedByTerminal(trace: seq<Move>)
    requires Obeys(Start(false), trace)
    ensures if Watch(Start(false), trace).closed then OneTerminal(EventsOf(trace)) else NoTerminal(EventsOf(trace))
    decreases |trace|
  {
    if trace != [] {
      var front, move := trace[..|trace| - 1], trace[|trace| - 1];
      LastMove(Start(false), trace, front, move);
      ClosedByTerminal(front);
      ClosedStep(Watch(Start(false), front), move);
      assert move.Say? ==> EventsOf(trace) == EventsOf(front) + [move.event];
      assert !move.Say? ==> EventsOf(trace) == EventsOf(front);
    }
  }

  /** Every turn emits exactly one `done` or `error`, as its last event. */
  lemma ExactlyOneTerminalEvent(env: Env)
    ensures OneTerminal(EventsOf(TurnTrace(env)))
  {
    EveryTurnObeys(env, false);
    ClosedByTerminal(TurnTrace(env));
  }

  lemma {:induction false} ClosedLasts(m: Monitor, moves: seq<Move>)
    requires m.closed
    ensures Watch(m, moves).closed
    decreases |moves|
  {
    if moves != [] { ClosedLasts(Next(m, moves[0]), moves[1..]); }
  }

  /** After its terminal event a turn asks, runs and says nothing any more. */
  lemma NothingAfterTerminal(env: Env, i: nat, k: nat)
    requires i < k < |TurnTrace(env)| && TurnTrace(env)[i].Say? && Terminal(TurnTrace(env)[i].event)
    ensures var move := TurnTrace(env)[k]; !move.Ask? && !move.Dispatch? && !move.Repeat? && !move.Say?
  {
    var trace, m := TurnTrace(env), Start(false);
    EveryTurnObeys(env, false);
    ObeysAt(m, trace, i);
    ObeysAt(m, trace, k);
    SplitAt(m, trace, i + 1, k);
    ClosedLasts(At(m, trace, i + 1), trace[i + 1..k]);
  }

  lemma {:induction false} EventIsSaid(trace: seq<Move>, e: Event)
    ensures e in EventsOf(trace) <==> Say(e) in trace
  {
    if trace != [] {
      var front, move := trace[..|trace| - 1], trace[|trace| - 1];
      EventIsSaid(front, e);
      assert trace == front + [move];
    }
  }

  /** The last event is the terminal event that is said anywhere. */
  lemma LastEventIff(trace: seq<Move>, e: Event)
    requires OneTerminal(EventsOf(trace)) && Terminal(e)
    ensures EventsOf(trace)[|EventsOf(trace)| - 1] == e <==> Say(e) in trace
  {
    EventIsSaid(trace, e);
  }

  // --- The text ---

  /** The text shown since the last model call. */
  function SpokenSince(trace: seq<Move>): string {
    if trace == [] then []
    else
      var front, move := trace[..|trace| - 1], trace[|trace| - 1];
      if move.Ask? then []
      else if move.Say? && move.event.TextDelta? then SpokenSince(front) + move.event.content
      else SpokenSince(front)
  }

  lemma {:induction false} SpokenTracked(trace: seq<Move>)
    requires Obeys(Start(false), trace)
    ensures Watch(Start(false), trace).spoken == SpokenSince(trace)
    decreases |trace|
  {
    if trace != [] {
      var front, move := trace[..|trace| - 1], trace[|trace| - 1];
      LastMove(Start(false), trace, front, move);
      SpokenTracked(front);
    }
  }

  /** The text of every assistant message is the text the user was shown in its step, no more and no less. */
  lemma CommittedTextIsShownText(env: Env, i: nat, parts: seq<Part>)
    requires i < |TurnTrace(env)| && TurnTrace(env)[i] == Push(Assistant(parts))
    ensures TextOf(parts) == SpokenSince(TurnTrace(env)[..i])
  {
    EveryTurnObeys(env, false);
    ObeysAt(Start(false), TurnTrace(env), i);
    SpokenTracked(TurnTrace(env)[..i]);
  }

  lemma {:induction false} FilterIsStep(isLeak: string -> bool, g: Guard, buffer: string, chunks: seq<string>)
    ensures var f := Filter(isLeak, g, buffer, chunks);
            var o := EndSpec(isLeak, f.guard, f.buffer);
            var s := StepFrom(isLeak, g, buffer, chunks);
            s.guard == o.guard && Join(s.emitted) == Join(f.outs) + Join(o.emitted)
    decreases |chunks|
  {
    if chunks != [] {
      var p := PushSpec(isLeak, g, buffer, chunks[0]);
      FilterIsStep(isLeak, p.guard, p.buffer, chunks[1..]);
      var f, later := Filter(isLeak, p.guard, p.buffer, chunks[1..]), StepFrom(isLeak, p.guard, p.buffer, chunks[1..]);
      JoinConcat(p.emitted, later.emitted);
      Associative(Join(p.emitted), Join(f.outs), Join(EndSpec(isLeak, f.guard, f.buffer).emitted));
      assert ([Join(p.emitted)] + f.outs)[1..] == f.outs;
    }
  }

  lemma {:induction false} CapIsFar(text: string, outs: seq<string>)
    requires |text| + |Join(outs)| <= MAX_ASSISTANT_CHARS
    ensures Capped(text, outs) == text + Join(outs)
    decreases |outs|
  {
    if outs == [] {
      assert text + [] == text;
    } else {
      if Shown(text, outs[0]) {
        CapIsFar(text + outs[0], outs[1..]);
        Associative(text, outs[0], Join(outs[1..]));
      } else {
        CapIsFar(text, outs[1..]);
        if outs[0] == [] { assert [] + Join(outs[1..]) == Join(outs[1..]); }
      }
    }
  }

  /** A step's text and guard do not depend on how the model's text was chunked, up to the length cap. */
  lemma StepTextIsOneShot(isLeak: string -> bool, g: Guard, chunks: seq<string>)
    requires Fits(Join(chunks))
    ensures var f := FilterStep(isLeak, g, chunks);
            var once := ConsumeAll(isLeak, g, Pieces(Join(chunks)));
            && f.guard == once.guard && Join(f.outs) == Join(once.emitted)
            && (|Join(once.emitted)| <= MAX_ASSISTANT_CHARS ==> Capped([], f.outs) == Join(once.emitted))
  {
    StepIsOneShot(isLeak, g, chunks);
    FilterIsStep(isLeak, g, [], chunks);
    var f := Filter(isLeak, g, [], chunks);
    var last := Join(EndSpec(isLeak, f.guard, f.buffer).emitted);
    JoinConcat(f.outs, [last]);
    JoinOne(last);
    var outs := f.outs + [last];
    if |Join(outs)| <= MAX_ASSISTANT_CHARS { CapIsFar([], outs); }
    assert [] + Join(outs) == Join(outs);
  }
}
