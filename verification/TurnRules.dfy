// The rules every turn obeys, as a monitor that reads its moves, and what obeying them means.
module TurnRules {
  import opened Basics
  import opened Transcript
  import opened StreamFilter
  import opened Turn

  /**
   * What the monitor remembers: the calls still to be answered, the reads since the last write, whether a
   * read was repeated, how the tools of this step fared and how many steps failed before it, the number of
   * model calls, the text shown since the last one, whether a message waits to be flushed, whether the
   * turn was closed. `tidy` says that no step repeats a call id.
   */
  datatype Monitor = Monitor(
    tidy: bool, owed: seq<Id>, seen: set<string>, repeated: bool, failed: bool, progressed: bool,
    failures: nat, asks: nat, spoken: string, dirty: bool, closed: bool)

  ghost predicate Distinct(calls: seq<ToolCall>) {
    forall i, j :: 0 <= i < j < |calls| ==> calls[i].id != calls[j].id
  }

  predicate Terminal(e: Event) {
    e.Done? || e.Error?
  }

  /** The number of all-failed steps in a row, the current one included. */
  function Spiral(m: Monitor): nat {
    if m.failed && !m.progressed then m.failures + 1 else 0
  }

  function TextOf(parts: seq<Part>): string {
    if parts == [] then [] else (if parts[0].Text? then parts[0].text else []) + TextOf(parts[1..])
  }

  ghost predicate Allowed(m: Monitor, move: Move) {
    match move
    case Ask =>
      && !m.closed && m.owed == [] && !m.dirty
      && !m.repeated && Spiral(m) < MAX_CONSECUTIVE_TOOL_FAILURES && m.asks < MAX_ITERATIONS
    case Say(_) => !m.closed && !m.dirty
    case Push(Assistant(parts)) =>
      !m.closed && m.owed == [] && TextOf(parts) == m.spoken && (m.tidy ==> Distinct(Calls(parts)))
    case Push(Tool(replies)) =>
      |replies| == 1 && replies[0].Result? && m.owed != [] && replies[0].id == m.owed[0]
    case Push(Plain(_, _)) => false
    case Dispatch(c, write) => !m.closed && (write || Key(c) !in m.seen)
    case Repeat(c) => !m.closed && Key(c) in m.seen
    case _ => true
  }

  function Next(m: Monitor, move: Move): Monitor {
    match move
    case Ask => m.(failures := Spiral(m), failed := false, progressed := false, asks := m.asks + 1, spoken := [])
    case Say(e) =>
      m.(closed := m.closed || Terminal(e), spoken := if e.TextDelta? then m.spoken + e.content else m.spoken)
    case Push(Assistant(parts)) => m.(owed := CallIds(Calls(parts)), dirty := true)
    case Push(_) => m.(owed := if m.owed == [] then [] else m.owed[1..], dirty := true)
    case Flush => m.(dirty := false)
    case Dispatch(c, write) => m.(seen := if write then {} else m.seen + {Key(c)})
    case Came(ok) => if ok then m.(progressed := true) else m.(failed := true)
    case Repeat(_) => m.(repeated := true, progressed := true)
  }

  function Watch(m: Monitor, trace: seq<Move>): Monitor
    decreases |trace|
  {
    if trace == [] then m else Watch(Next(m, trace[0]), trace[1..])
  }

  ghost predicate Obeys(m: Monitor, trace: seq<Move>)
    decreases |trace|
  {
    trace == [] || (Allowed(m, trace[0]) && Obeys(Next(m, trace[0]), trace[1..]))
  }

  function Start(tidy: bool): Monitor {
    Monitor(tidy, [], {}, false, false, false, 0, 0, [], false, false)
  }

  /** Closed, every call answered, nothing left to flush. */
  predicate Finished(m: Monitor) {
    m.closed && m.owed == [] && !m.dirty
  }

  lemma {:induction false} ObeysConcat(m: Monitor, a: seq<Move>, b: seq<Move>)
    ensures Watch(m, a + b) == Watch(Watch(m, a), b)
    ensures Obeys(m, a + b) <==> Obeys(m, a) && Obeys(Watch(m, a), b)
    decreases |a|
  {
    if a == [] {
      assert a + b == b;
    } else {
      assert (a + b)[0] == a[0] && (a + b)[1..] == a[1..] + b;
      ObeysConcat(Next(m, a[0]), a[1..], b);
    }
  }

  lemma ObeysOne(m: Monitor, move: Move)
    ensures Watch(m, [move]) == Next(m, move)
    ensures Obeys(m, [move]) <==> Allowed(m, move)
  {
    assert [move][1..] == [];
  }

  lemma ObeysTwo(m: Monitor, a: Move, b: Move)
    ensures Watch(m, [a, b]) == Next(Next(m, a), b)
    ensures Obeys(m, [a, b]) <==> Allowed(m, a) && Allowed(Next(m, a), b)
  {
    assert [a, b][1..] == [b];
    ObeysOne(Next(m, a), b);
  }

  /** At every move of an obedient trace, the move is allowed by what came before it. */
  lemma ObeysAt(m: Monitor, trace: seq<Move>, i: nat)
    requires Obeys(m, trace) && i < |trace|
    ensures Obeys(m, trace[..i]) && Allowed(Watch(m, trace[..i]), trace[i])
    ensures Watch(m, trace[..i + 1]) == Next(Watch(m, trace[..i]), trace[i])
  {
    assert trace == trace[..i] + trace[i..];
    ObeysConcat(m, trace[..i], trace[i..]);
    assert trace[..i + 1] == trace[..i] + [trace[i]];
    ObeysConcat(m, trace[..i], [trace[i]]);
    ObeysOne(Watch(m, trace[..i]), trace[i]);
  }

  // --- Every turn obeys ---

  /** Where a turn stands before its next model call. */
  ghost predicate Between(m: Monitor, seen: set<string>, failures: nat, k: nat) {
    && m.owed == [] && m.seen == seen && !m.repeated && !m.dirty && !m.closed
    && Spiral(m) == failures < MAX_CONSECUTIVE_TOOL_FAILURES && m.asks == k
  }

  ghost predicate TidyEnv(env: Env) {
    forall k: nat ::
      env.model(k).Streams? && env.model(k).ending.Calling? ==> Distinct(ToolCalls(env.model(k).ending.calls))
  }

  function ToolCalls(calls: seq<Called>): (cs: seq<ToolCall>)
    ensures |cs| == |calls| && forall i :: 0 <= i < |cs| ==> cs[i] == calls[i].call
  {
    seq(|calls|, i requires 0 <= i < |calls| => calls[i].call)
  }

  /** The trace obeys the rules and the monitor ends finished. */
  ghost predicate Closes(m: Monitor, trace: seq<Move>) {
    Obeys(m, trace) && Finished(Watch(m, trace))
  }

  lemma ClosesConcat(m: Monitor, a: seq<Move>, b: seq<Move>)
    requires Obeys(m, a) && Closes(Watch(m, a), b)
    ensures Closes(m, a + b)
  {
    ObeysConcat(m, a, b);
  }

  lemma {:induction false} DeltasObey(m: Monitor, text: string, outs: seq<string>)
    requires !m.closed && !m.dirty && m.spoken == text
    ensures Obeys(m, Deltas(text, outs))
    ensures Watch(m, Deltas(text, outs)) == m.(spoken := Capped(text, outs))
    decreases |outs|
  {
    if outs != [] {
      if Shown(text, outs[0]) {
        var say := Say(TextDelta(outs[0]));
        DeltasObey(Next(m, say), text + outs[0], outs[1..]);
        ObeysOne(m, say);
        ObeysConcat(m, [say], Deltas(text + outs[0], outs[1..]));
      } else {
        DeltasObey(m, text, outs[1..]);
      }
    }
  }

  lemma {:induction false} CallParts(calls: seq<Called>)
    ensures Calls(Parts([], calls)) == ToolCalls(calls) && TextOf(Parts([], calls)) == []
  {
    if calls == [] {
      assert Parts([], calls) == [];
    } else {
      CallParts(calls[1..]);
      assert Parts([], calls)[1..] == Parts([], calls[1..]);
      assert Parts([], calls)[0] == Call(calls[0].call);
      assert ToolCalls(calls) == [calls[0].call] + ToolCalls(calls[1..]);
    }
  }

  lemma PartsOf(text: string, calls: seq<Called>)
    ensures Calls(Parts(text, calls)) == ToolCalls(calls) && TextOf(Parts(text, calls)) == text
  {
    CallParts(calls);
    if text != [] {
      assert Parts(text, calls)[0] == Text(text);
      assert Parts(text, calls)[1..] == Parts([], calls);
      assert text + [] == text;
    }
  }

  lemma CommitObeys(m: Monitor, text: string, calls: seq<Called>)
    requires !m.closed && !m.dirty && m.owed == [] && m.spoken == text
    requires m.tidy ==> Distinct(ToolCalls(calls))
    ensures Obeys(m, Commit(text, calls))
    ensures Watch(m, Commit(text, calls)) == m.(owed := CallIds(ToolCalls(calls)))
  {
    PartsOf(text, calls);
    if text != [] || calls != [] {
      ObeysTwo(m, Push(Assistant(Parts(text, calls))), Flush);
    } else {
      assert CallIds(ToolCalls(calls)) == [];
    }
  }

  lemma {:induction false} AbandonedObeys(m: Monitor, calls: seq<Called>)
    requires m.owed == CallIds(ToolCalls(calls))
    ensures Obeys(m, Abandoned(calls))
    ensures Watch(m, Abandoned(calls)) == m.(owed := [], dirty := m.dirty || calls != [])
    decreases |calls|
  {
    if calls != [] {
      var push := Push(ResultMessage(calls[0].call, Failure("interrupted")));
      assert m.owed[1..] == CallIds(ToolCalls(calls[1..]));
      AbandonedObeys(Next(m, push), calls[1..]);
      ObeysOne(m, push);
      ObeysConcat(m, [push], Abandoned(calls[1..]));
    }
  }

  lemma ObeysCons(m: Monitor, move: Move, rest: seq<Move>)
    ensures Watch(m, [move] + rest) == Watch(Next(m, move), rest)
    ensures Obeys(m, [move] + rest) <==> Allowed(m, move) && Obeys(Next(m, move), rest)
  {
    assert ([move] + rest)[1..] == rest;
  }

  lemma ObeysThree(m: Monitor, a: Move, b: Move, c: Move)
    ensures Watch(m, [a, b, c]) == Next(Next(Next(m, a), b), c)
    ensures Obeys(m, [a, b, c]) <==> Allowed(m, a) && Allowed(Next(m, a), b) && Allowed(Next(Next(m, a), b), c)
  {
    assert [a, b, c] == [a] + [b, c];
    ObeysCons(m, a, [b, c]);
    ObeysTwo(Next(m, a), b, c);
  }

  /** The next call to be answered is `id`, and the turn may go on. */
  predicate Owes(m: Monitor, id: Id) {
    !m.closed && !m.dirty && m.owed != [] && m.owed[0] == id
  }

  lemma ServerObeys(m: Monitor, c: ToolCall, o: ServerOutcome)
    requires Owes(m, c.id)
    ensures Obeys(m, ServerTrace(c, o))
    ensures Watch(m, ServerTrace(c, o))
         == m.(owed := m.owed[1..], failed := m.failed || o.Threw?, progressed := m.progressed || o.Returned?)
  {
    var push := Push(ResultMessage(c, if o.Returned? then o.value else Failure(o.message)));
    var first, last := [Say(Progress), push, Flush], [Say(ToolExecuted(c.id)), Came(o.Returned?)];
    assert ServerTrace(c, o) == first + last;
    ObeysConcat(m, first, last);
    ObeysThree(m, Say(Progress), push, Flush);
    ObeysTwo(Watch(m, first), Say(ToolExecuted(c.id)), Came(o.Returned?));
  }

  lemma PhoneObeys(m: Monitor, c: ToolCall, o: PhoneOutcome)
    requires Owes(m, c.id)
    ensures Obeys(m, PhoneTrace(c, o))
    ensures var m' := m.(owed := m.owed[1..]);
            Watch(m, PhoneTrace(c, o)) ==
              if !o.Responded? then m'.(closed := true)
              else if o.status == Failed then m'.(failed := true) else m'.(progressed := true)
  {
    var pending := Say(ToolPending(c.id));
    var rest := PhoneAnswer(c, o);
    ObeysCons(m, pending, rest);
    ObeysThree(Next(m, pending), rest[0], rest[1], rest[2]);
    assert rest == [rest[0], rest[1], rest[2]];
  }

  lemma DispatchObeys(env: Env, m: Monitor, c: Called)
    requires Owes(m, c.call.id) && !IsRepeat(env, m.seen, c.call)
    ensures var meta := MetaOf(env, c.call.name);
            var m' := Watch(m, DispatchTrace(c, meta));
            && Obeys(m, DispatchTrace(c, meta))
            && (if GivesUp(c, meta) then m'.closed && m'.owed == m.owed[1..] && !m'.dirty
                else m' == m.(owed := m.owed[1..], seen := SeenAfter(env, m.seen, c.call),
                              failed := m.failed || FailsCall(env, c),
                              progressed := m.progressed || !FailsCall(env, c)))
  {
    var meta := MetaOf(env, c.call.name);
    var dispatch := Dispatch(c.call, meta.capability == Write);
    var m1 := Next(m, dispatch);
    if meta.executor == Server {
      ObeysCons(m, dispatch, ServerTrace(c.call, c.server));
      ServerObeys(m1, c.call, c.server);
    } else {
      ObeysCons(m, dispatch, PhoneTrace(c.call, c.phone));
      PhoneObeys(m1, c.call, c.phone);
    }
  }

  /** The monitor while the tools of a step run: `from` is where it stood before them. */
  function Tracking(from: Monitor, h: Handled, owed: seq<Id>): Monitor {
    from.(owed := owed, seen := h.seen, repeated := h.repeated, failed := h.failed, progressed := h.progressed)
  }

  lemma {:induction false} HandleObeys(env: Env, from: Monitor, h: Handled, calls: seq<Called>)
    requires !from.closed && !from.dirty && !h.gaveUp
    requires Obeys(from, h.trace) && Watch(from, h.trace) == Tracking(from, h, CallIds(ToolCalls(calls)))
    ensures var h' := Handle(env, h, calls);
            && Obeys(from, h'.trace)
            && (if h'.gaveUp then Finished(Watch(from, h'.trace))
                else Watch(from, h'.trace) == Tracking(from, h', []))
    decreases |calls|
  {
    if calls == [] {
      assert CallIds(ToolCalls(calls)) == [];
    } else {
      var c, rest := calls[0], calls[1..];
      var meta, m := MetaOf(env, c.call.name), Watch(from, h.trace);
      assert m.owed[1..] == CallIds(ToolCalls(rest));
      if IsRepeat(env, h.seen, c.call) {
        ObeysThree(m, Repeat(c.call), Push(ResultMessage(c.call, DUPLICATE)), Flush);
        ObeysConcat(from, h.trace, RepeatTrace(c.call));
        HandleObeys(env, from, h.(trace := h.trace + RepeatTrace(c.call), repeated := true, progressed := true), rest);
      } else {
        DispatchObeys(env, m, c);
        ObeysConcat(from, h.trace, DispatchTrace(c, meta));
        if GivesUp(c, meta) {
          GivingUpObeys(from, h.trace + DispatchTrace(c, meta), rest);
        } else {
          var failed := FailsCall(env, c);
          HandleObeys(env, from, Handled(h.trace + DispatchTrace(c, meta), SeenAfter(env, h.seen, c.call),
                                         h.repeated, h.failed || failed, h.progressed || !failed, false), rest);
        }
      }
    }
  }

  lemma GivingUpObeys(from: Monitor, trace: seq<Move>, rest: seq<Called>)
    requires Obeys(from, trace)
    requires var m := Watch(from, trace); m.closed && !m.dirty && m.owed == CallIds(ToolCalls(rest))
    ensures var left := Abandoned(rest);
            Closes(from, trace + left + if left == [] then [] else [Flush])
  {
    var left, m := Abandoned(rest), Watch(from, trace);
    AbandonedObeys(m, rest);
    ObeysConcat(from, trace, left);
    var m' := Watch(m, left);
    ObeysOne(m', Flush);
    ObeysConcat(from, trace + left, [Flush]);
    assert trace + left + [] == trace + left;
  }

  lemma {:induction false} TurnObeys(
      env: Env, k: nat, g: Guard, seen: set<string>, failures: nat, m: Monitor)
    requires Between(m, seen, failures, k) && (m.tidy ==> TidyEnv(env)) && k <= MAX_ITERATIONS
    ensures Closes(m, TurnFrom(env, k, g, seen, failures))
    decreases MAX_ITERATIONS - k
  {
    if k >= MAX_ITERATIONS {
      ObeysOne(m, Say(Error("max_iterations")));
    } else {
      ObeysTwo(m, Say(Progress), Ask);
      var asked := Next(Next(m, Say(Progress)), Ask);
      StepObeys(env, k, g, seen, failures, asked);
      ClosesConcat(m, [Say(Progress), Ask], AnswerFrom(env, k, g, seen, failures));
    }
  }

  /** Where a turn stands after its `k`th model call. */
  ghost predicate Asked(m: Monitor, seen: set<string>, failures: nat, k: nat) {
    && m.owed == [] && m.seen == seen && !m.repeated && !m.dirty && !m.closed && !m.failed && !m.progressed
    && m.failures == failures < MAX_CONSECUTIVE_TOOL_FAILURES && m.asks == k + 1
  }

  lemma TakeObeys(isLeak: string -> bool, g: Guard, step: ModelStep, m: Monitor)
    requires !m.closed && !m.dirty && m.owed == [] && m.spoken == []
    ensures var a := Take(isLeak, g, step);
            if a.calls.None? then Closes(m, a.trace)
            else
              && Obeys(m, a.trace) && Watch(m, a.trace) == m.(spoken := a.text)
              && step.Streams? && step.ending == Calling(a.calls.value)
  {
    if step.CallThrows? {
      ObeysOne(m, MODEL_ERROR);
    } else {
      var outs := if step.ending.StreamFails? then Filter(isLeak, g, [], step.chunks).outs
                  else FilterStep(isLeak, g, step.chunks).outs;
      DeltasObey(m, [], outs);
      ObeysOne(Watch(m, Deltas([], outs)), MODEL_ERROR);
      if !step.ending.Calling? { ClosesConcat(m, Deltas([], outs), [MODEL_ERROR]); }
    }
  }

  lemma {:induction false} StepObeys(
      env: Env, k: nat, g: Guard, seen: set<string>, failures: nat, m: Monitor)
    requires Asked(m, seen, failures, k) && m.spoken == [] && (m.tidy ==> TidyEnv(env)) && k < MAX_ITERATIONS
    ensures Closes(m, AnswerFrom(env, k, g, seen, failures))
    decreases MAX_ITERATIONS - k, 2
  {
    TakeObeys(env.isLeak, g, env.model(k), m);
    var a := Take(env.isLeak, g, env.model(k));
    if a.calls.Some? {
      ConcludedObeys(env, k, a.guard, a.text, a.calls.value, seen, failures, Watch(m, a.trace));
      ClosesConcat(m, a.trace, Concluded(env, k, a.guard, a.text, a.calls.value, seen, failures));
    }
  }

  lemma EndObeys(m: Monitor, e: Event)
    requires !m.closed && m.owed == [] && Terminal(e)
    ensures Closes(m, [Flush, Say(e)])
  {
    ObeysTwo(m, Flush, Say(e));
  }

  lemma {:induction false} ConcludedObeys(env: Env, k: nat, g: Guard, text: string, calls: seq<Called>,
      seen: set<string>, failures: nat, m: Monitor)
    requires k < MAX_ITERATIONS && (m.tidy ==> TidyEnv(env))
    requires Asked(m, seen, failures, k) && m.spoken == text
    requires m.tidy ==> Distinct(ToolCalls(calls))
    ensures Closes(m, Concluded(env, k, g, text, calls, seen, failures))
    decreases MAX_ITERATIONS - k, 1
  {
    if g.stopped {
      StoppedObeys(m, text);
    } else {
      CommitObeys(m, text, calls);
      var m1 := Watch(m, Commit(text, calls));
      if calls == [] {
        EndObeys(m1, Done);
        ClosesConcat(m, Commit(text, calls), [Flush, Say(Done)]);
      } else {
        var h0 := Handled([], seen, false, false, false, false);
        HandleObeys(env, m1, h0, calls);
        var h := Handle(env, h0, calls);
        AfterToolsObeys(env, k, g, h, failures, m1);
        ClosesConcat(m, Commit(text, calls), h.trace + AfterTools(env, k, g, h, failures));
      }
    }
  }

  lemma StoppedObeys(m: Monitor, text: string)
    requires !m.closed && !m.dirty && m.owed == [] && m.spoken == text
    ensures Closes(m, (if text == [] then [] else [Push(Assistant([Text(text)]))]) + [Flush, Say(Done)])
  {
    var first := if text == [] then [] else [Push(Assistant([Text(text)]))];
    if text != [] {
      PartsOf(text, []);
      assert Parts(text, []) == [Text(text)];
      assert ToolCalls([]) == [];
      ObeysOne(m, first[0]);
    }
    EndObeys(Watch(m, first), Done);
    ClosesConcat(m, first, [Flush, Say(Done)]);
  }

  lemma {:induction false} AfterToolsObeys(env: Env, k: nat, g: Guard, h: Handled, failures: nat, m: Monitor)
    requires k < MAX_ITERATIONS && (m.tidy ==> TidyEnv(env))
    requires m.failures == failures < MAX_CONSECUTIVE_TOOL_FAILURES && m.asks == k + 1
    requires Obeys(m, h.trace) && !m.closed && !m.dirty
    requires if h.gaveUp then Finished(Watch(m, h.trace)) else Watch(m, h.trace) == Tracking(m, h, [])
    ensures Closes(m, h.trace + AfterTools(env, k, g, h, failures))
    decreases MAX_ITERATIONS - k, 0
  {
    var m' := Watch(m, h.trace);
    var last := LastEvent(h, failures);
    if h.gaveUp {
      assert h.trace + [] == h.trace;
    } else if last.Some? {
      EndObeys(m', last.value);
      ClosesConcat(m, h.trace, [Flush, Say(last.value)]);
    } else {
      TurnObeys(env, k + 1, g, h.seen, FailuresAfter(h, failures), m');
      ClosesConcat(m, h.trace, TurnFrom(env, k + 1, g, h.seen, FailuresAfter(h, failures)));
    }
  }

  /** Whatever the model, the phone and the tool server do, the whole turn obeys and closes. */
  lemma EveryTurnObeys(env: Env, tidy: bool)
    requires tidy ==> TidyEnv(env)
    ensures Closes(Start(tidy), TurnTrace(env))
  {
    TurnObeys(env, 0, Guard(None, false), {}, 0, Start(tidy));
  }
}
