// The turn loop itself: methods that update a session in place, each making the moves module Turn says.
module AgentSessions {
  import opened Basics
  import opened Json
  import opened Transcript
  import opened StreamFilter
  import opened Turn
  import opened TurnRules
  import opened TurnEffects
  import opened TurnGuards
  import Persistence
  import Rendezvous
  import Repair
  import Slices

  datatype ToolOutcome = Ok | Broken | Timeout

  class AgentSession {
    var messages: seq<Message>
    var lastPersistedIndex: Option<nat>
    var state: Rendezvous.State

    // What leaves the session: its rows in the store, the events of this turn, the requests to the model.
    var rows: seq<Persistence.Row>
    var events: seq<Event>
    var requests: seq<seq<Message>>

    // The store, and how many flushes there were.
    const disk: Disk
    var flushed: nat

    // The moves of this turn, and where the session stood before it.
    var trace: seq<Move>
    ghost var begun: Standing

    function Log(): Persistence.Log
      reads this
    {
      Persistence.Log(messages, lastPersistedIndex, None, rows)
    }

    function Now(): Standing
      reads this
    {
      Standing(Log(), events, requests, flushed)
    }

    /** The session stands where the moves of the turn have brought it. */
    ghost predicate Valid()
      reads this
    {
      Now() == Play(disk, begun, trace)
    }

    /** The turn has made these moves. */
    twostate predicate Did(moves: seq<Move>)
      reads this
    {
      Valid() && begun == old(begun) && trace == old(trace) + moves
    }

    constructor (disk: Disk)
      ensures Valid() && Log() == Persistence.Log([], None, None, []) && state == Rendezvous.Idle
      ensures this.disk == disk
    {
      this.disk := disk;
      messages, lastPersistedIndex, rows, state := [], None, [], Rendezvous.Idle;
      events, requests, flushed, trace := [], [], 0, [];
      begun := Standing(Persistence.Log([], None, None, []), [], [], 0);
    }

    method PrepareTurnWatermark(priorMessageCount: Option<nat>)
      modifies this`lastPersistedIndex
      ensures Log() == Persistence.Prepare(old(Log()), priorMessageCount)
    {
      if lastPersistedIndex.None? {
        lastPersistedIndex := Some(if priorMessageCount.None? then |messages| else priorMessageCount.value);
      }
    }

    method Say(e: Event)
      requires Valid()
      modifies this`events, this`trace
      ensures Did([Turn.Say(e)])
    {
      events := events + [e];
      trace := trace + [Turn.Say(e)];
      assert trace[..|trace| - 1] == old(trace);
    }

    method Push(m: Message)
      requires Valid()
      modifies this`messages, this`trace
      ensures Did([Turn.Push(m)])
    {
      messages := messages + [m];
      trace := trace + [Turn.Push(m)];
      assert trace[..|trace| - 1] == old(trace);
    }

    method PersistTurnSoFar()
      requires Valid()
      modifies this`lastPersistedIndex, this`rows, this`flushed, this`trace
      ensures Did([Turn.Flush])
    {
      AppendUnpersisted();
      flushed := flushed + 1;
      trace := trace + [Turn.Flush];
      assert trace[..|trace| - 1] == old(trace);
    }

    /** Write what lies beyond the watermark; the watermark moves only if all of it went well. */
    method AppendUnpersisted()
      modifies this`lastPersistedIndex, this`rows
      ensures Log() == Persistence.Flushed(old(Log()), FlushOutcome(disk, flushed))
    {
      if !disk.hasConversation { return; }
      var from := if lastPersistedIndex.None? then 0 else lastPersistedIndex.value;
      if from >= |messages| { return; }
      var f := disk.flushes(flushed);
      if f.written {
        rows := rows + Persistence.Batch(messages, from, f.at, |rows|);
        if f.touched { lastPersistedIndex := Some(|messages|); }
      }
    }

    method AskModel()
      requires Valid()
      modifies this`requests, this`trace
      ensures Did([Turn.Ask])
    {
      var repaired := Repair.RepairForModel(messages);
      requests := requests + [Slices.StripDisplay(repaired)];
      trace := trace + [Turn.Ask];
      assert trace[..|trace| - 1] == old(trace);
    }

    method Note(move: Move)
      requires Valid() && (move.Dispatch? || move.Came? || move.Repeat?)
      modifies this`trace
      ensures Did([move])
    {
      trace := trace + [move];
      assert trace[..|trace| - 1] == old(trace);
    }

    // --- One model step ---

    /** Show a piece of text, until there is too much of it. */
    method EmitText(text: string, out: string) returns (text': string)
      requires Valid()
      modifies this`events, this`trace
      ensures Did(Deltas(text, [out])) && text' == Capped(text, [out])
    {
      text' := text;
      assert [out][1..] == [];
      if out == [] || |text| >= MAX_ASSISTANT_CHARS {
        assert trace + [] == trace;
        return;
      }
      text' := text + out;
      Say(TextDelta(out));
      assert [Turn.Say(TextDelta(out))] + [] == [Turn.Say(TextDelta(out))];
    }

    /** Everything the stream yields goes through the sanitizer first. */
    method StreamText(sanitizer: StreamSanitizer, chunks: seq<string>) returns (text: string)
      requires Valid()
      modifies sanitizer, this`events, this`trace
      ensures var f := Filter(sanitizer.isLeak, old(sanitizer.State()), old(sanitizer.buffer), chunks);
              && Did(Deltas([], f.outs)) && text == Capped([], f.outs)
              && sanitizer.State() == f.guard && sanitizer.buffer == f.buffer
    {
      text := [];
      ghost var all := Filter(sanitizer.isLeak, sanitizer.State(), sanitizer.buffer, chunks);
      ghost var outs: seq<string> := [];
      assert chunks[0..] == chunks && trace + [] == trace && [] + all.outs == all.outs;
      for i := 0 to |chunks|
        invariant FilterGoesOn(all, outs, Filter(sanitizer.isLeak, sanitizer.State(), sanitizer.buffer, chunks[i..]))
        invariant Did(Deltas([], outs)) && text == Capped([], outs)
      {
        FilterMoves(sanitizer.isLeak, sanitizer.State(), sanitizer.buffer, chunks, i, all, outs);
        ghost var said := text;
        var out := sanitizer.Push(chunks[i]);
        DeltasSnoc([], outs, out);
        Associative(old(trace), Deltas([], outs), Deltas(said, [out]));
        text := EmitText(text, out);
        outs := outs + [out];
      }
      assert outs + [] == outs;
    }

    /** The rest of the buffer, at the end of the stream. */
    method EndStream(sanitizer: StreamSanitizer, said: string, ghost before: seq<Move>, ghost f: Filtered)
      returns (text: string)
      requires Valid() && sanitizer.State() == f.guard && sanitizer.buffer == f.buffer
      requires trace == before + Deltas([], f.outs) && said == Capped([], f.outs)
      modifies sanitizer, this`events, this`trace
      ensures Valid()
      ensures var o := EndSpec(sanitizer.isLeak, f.guard, f.buffer);
              var outs := f.outs + [Join(o.emitted)];
              && trace == before + Deltas([], outs) && text == Capped([], outs)
              && sanitizer.State() == o.guard && sanitizer.buffer == []
    {
      var out := sanitizer.EndStep();
      DeltasSnoc([], f.outs, out);
      Associative(before, Deltas([], f.outs), Deltas(said, [out]));
      text := EmitText(said, out);
    }

    // --- Tool calls ---

    method Fold(c: ToolCall, value: Json)
      requires Valid()
      modifies this`messages, this`lastPersistedIndex, this`rows, this`flushed, this`trace
      ensures Did([Turn.Push(ResultMessage(c, value)), Turn.Flush])
    {
      Push(ResultMessage(c, value));
      PersistTurnSoFar();
    }

    method ExecuteServerTool(c: ToolCall, server: ServerOutcome) returns (ok: bool)
      requires Valid()
      modifies this`messages, this`lastPersistedIndex, this`rows, this`flushed, this`events, this`trace
      ensures Did(ServerTrace(c, server)) && ok == server.Returned?
    {
      Say(Progress);
      ok := server.Returned?;
      if ok { Fold(c, server.value); } else { Fold(c, Failure(server.message)); }
      assert trace == old(trace) + ServerTrace(c, server)[..3];
      Say(ToolExecuted(c.id));
      Note(Came(ok));
    }

    method ExecuteMobileTool(c: ToolCall, phone: PhoneOutcome) returns (r: ToolOutcome)
      requires Valid()
      modifies this
      ensures Did(PhoneTrace(c, phone))
      ensures r == Timeout ==> state == Rendezvous.Idle
      ensures r == if !phone.Responded? then Timeout else if phone.status.Failed? then Broken else Ok
    {
      Associative(trace, [Turn.Say(ToolPending(c.id))], PhoneAnswer(c, phone));
      Say(ToolPending(c.id));
      r := TakePhoneAnswer(c, phone);
    }

    method TakePhoneAnswer(c: ToolCall, phone: PhoneOutcome) returns (r: ToolOutcome)
      requires Valid()
      modifies this
      ensures Did(PhoneAnswer(c, phone))
      ensures r == Timeout ==> state == Rendezvous.Idle
      ensures r == if !phone.Responded? then Timeout else if phone.status.Failed? then Broken else Ok
    {
      match phone
      case Responded(status, rest) =>
        state := Rendezvous.Streaming;
        Fold(c, Obj([Field("status", Str(StatusText(status)))] + rest));
        r := if status.Failed? then Broken else Ok;
        Note(Came(!status.Failed?));
      case NoResponse =>
        state := Rendezvous.Idle;
        Fold(c, Failure("interrupted"));
        Say(Error("tool_timeout"));
        r := Timeout;
      case SessionLost(message) =>
        state := Rendezvous.Idle;
        Fold(c, Failure(message));
        Say(Error("session_error"));
        r := Timeout;
    }

    /** One tool call: a repeated read is answered at once, anything else is dispatched. */
    method RunCall(env: Env, c: Called, seen: set<string>) returns (r: ToolOutcome, repeated: bool, seen': set<string>)
      requires Valid()
      modifies this
      ensures repeated == IsRepeat(env, seen, c.call)
      ensures Did(if repeated then RepeatTrace(c.call) else DispatchTrace(c, MetaOf(env, c.call.name)))
      ensures r == Timeout ==> state == Rendezvous.Idle
      ensures repeated ==> seen' == seen && r == Ok
      ensures !repeated ==> (r == Timeout <==> GivesUp(c, MetaOf(env, c.call.name)))
      ensures !repeated && r != Timeout ==>
        seen' == SeenAfter(env, seen, c.call) && (r == Broken <==> FailsCall(env, c))
    {
      var meta := MetaOf(env, c.call.name);
      seen', repeated, r := seen, false, Ok;
      if meta.capability == Read {
        if Key(c.call) in seen {
          repeated := true;
          Note(Repeat(c.call));
          Fold(c.call, DUPLICATE);
          return;
        }
        seen' := seen + {Key(c.call)};
      }
      Note(Dispatch(c.call, meta.capability == Write));
      if meta.executor == Server {
        Associative(old(trace), [Dispatch(c.call, meta.capability == Write)], ServerTrace(c.call, c.server));
        var ok := ExecuteServerTool(c.call, c.server);
        if !ok { r := Broken; }
      } else {
        Associative(old(trace), [Dispatch(c.call, meta.capability == Write)], PhoneTrace(c.call, c.phone));
        r := ExecuteMobileTool(c.call, c.phone);
        if r == Timeout { return; }
      }
      if meta.capability == Write { seen' := {}; }
    }

    /** Pair every remaining call with an interrupted marker. */
    method Abandon(calls: seq<Called>)
      requires Valid()
      modifies this`messages, this`lastPersistedIndex, this`rows, this`flushed, this`trace
      ensures Valid()
      ensures var left := Abandoned(calls); trace == old(trace) + left + if left == [] then [] else [Turn.Flush]
    {
      ghost var all := Abandoned(calls);
      assert calls[0..] == calls && trace + [] == trace;
      for i := 0 to |calls|
        invariant Valid() && old(trace) + all == trace + Abandoned(calls[i..])
      {
        AbandonNext(trace, calls, i);
        Push(ResultMessage(calls[i].call, Failure("interrupted")));
      }
      assert calls[|calls|..] == [] && trace + [] == trace && (all == [] <==> calls == []);
      assert old(trace) + all + [] == old(trace) + all;
      if calls != [] { PersistTurnSoFar(); }
    }

    method RunTools(env: Env, calls: seq<Called>, seenBefore: set<string>)
      returns (seen: set<string>, repeated: bool, failed: bool, progressed: bool, gaveUp: bool)
      requires Valid()
      modifies this
      ensures gaveUp ==> state == Rendezvous.Idle
      ensures var h := Handle(env, Handled([], seenBefore, false, false, false, false), calls);
              Did(h.trace) && h == Handled(h.trace, seen, repeated, failed, progressed, gaveUp)
    {
      seen, repeated, failed, progressed, gaveUp := seenBefore, false, false, false, false;
      ghost var all := Handle(env, Handled([], seen, false, false, false, false), calls);
      ghost var done: seq<Move> := [];
      assert calls[0..] == calls && trace + [] == trace;
      for i := 0 to |calls|
        invariant Did(done) && !gaveUp
        invariant all == Handle(env, Handled(done, seen, repeated, failed, progressed, false), calls[i..])
      {
        var c := calls[i];
        ghost var meta := MetaOf(env, c.call.name);
        HandleNext(env, Handled(done, seen, repeated, failed, progressed, false), calls, i);
        ghost var moves := if IsRepeat(env, seen, c.call) then RepeatTrace(c.call) else DispatchTrace(c, meta);
        Associative(old(trace), done, moves);
        var r, again, seen' := RunCall(env, c, seen);
        done := done + moves;
        if again {
          repeated, progressed := true, true;
        } else if r == Timeout {
          gaveUp := true;
          GiveUp(old(trace), done, Abandoned(calls[i + 1..]));
          Abandon(calls[i + 1..]);
          return;
        } else {
          seen := seen';
          if r == Broken { failed := true; } else { progressed := true; }
        }
      }
    }

    /** Commit what a step said and called, if anything. */
    method CommitStep(text: string, calls: seq<Called>)
      requires Valid()
      modifies this`messages, this`lastPersistedIndex, this`rows, this`flushed, this`trace
      ensures Did(Commit(text, calls))
    {
      if text != [] || calls != [] {
        Push(Assistant(Parts(text, calls)));
        PersistTurnSoFar();
      } else {
        assert trace + [] == trace;
      }
    }

    method Finish(e: Event)
      requires Valid()
      modifies this
      ensures Did([Turn.Flush, Turn.Say(e)]) && state == Rendezvous.Idle
    {
      state := Rendezvous.Idle;
      PersistTurnSoFar();
      Say(e);
    }

    /** The model's answer is streamed; `calls` is what it wants run, if the stream and the calls came through. */
    method TakeAnswer(sanitizer: StreamSanitizer, step: ModelStep) returns (text: string, calls: Option<seq<Called>>)
      requires Valid() && sanitizer.buffer == []
      modifies sanitizer, this
      ensures calls.None? ==> state == Rendezvous.Idle
      ensures var a := Take(sanitizer.isLeak, old(sanitizer.State()), step);
              && Did(a.trace) && calls == a.calls
              && (calls.Some? ==> text == a.text && sanitizer.State() == a.guard && sanitizer.buffer == [])
    {
      text, calls := [], None;
      if step.CallThrows? {
        FailModel();
        return;
      }
      ghost var before, g := trace, sanitizer.State();
      ghost var f := Filter(sanitizer.isLeak, g, [], step.chunks);
      text := StreamText(sanitizer, step.chunks);
      if step.ending.StreamFails? {
        Associative(before, Deltas([], f.outs), [MODEL_ERROR]);
        FailModel();
        return;
      }
      text := EndStream(sanitizer, text, before, f);
      if step.ending.CallsFail? {
        Associative(before, Deltas([], FilterStep(sanitizer.isLeak, g, step.chunks).outs), [MODEL_ERROR]);
        FailModel();
        return;
      }
      calls := Some(step.ending.calls);
    }

    method FailModel()
      requires Valid()
      modifies this`events, this`trace, this`state
      ensures Did([MODEL_ERROR]) && state == Rendezvous.Idle
    {
      Say(Error("model_error"));
      state := Rendezvous.Idle;
    }

    /** The tools of a step run, and the turn ends or goes on. */
    method ConcludeTools(env: Env, ghost k: nat, ghost g: Guard, calls: seq<Called>,
        seenBefore: set<string>, failuresBefore: nat)
      returns (over: bool, seen: set<string>, failures: nat)
      requires Valid() && k < MAX_ITERATIONS
      modifies this
      ensures Valid() && begun == old(begun)
      ensures over ==> state == Rendezvous.Idle
      ensures var h := Handle(env, Handled([], seenBefore, false, false, false, false), calls);
              GoesOn(old(trace), h.trace + AfterTools(env, k, g, h, failuresBefore),
                     trace, if over then [] else TurnFrom(env, k + 1, g, seen, failures))
    {
      over := true;
      var repeated, failed, progressed, gaveUp;
      seen, repeated, failed, progressed, gaveUp := RunTools(env, calls, seenBefore);
      ghost var h := Handle(env, Handled([], seenBefore, false, false, false, false), calls);
      ToolsConcluded(env, k, g, h, failuresBefore, old(trace));
      failures := if failed && !progressed then failuresBefore + 1 else 0;
      if gaveUp { return; }
      var last := if repeated then Some(Done)
                  else if failures >= MAX_CONSECUTIVE_TOOL_FAILURES then Some(Error("tool_failed_repeatedly"))
                  else None;
      assert last == LastEvent(h, failuresBefore);
      if last.Some? { Finish(last.value); } else { over := false; }
    }

    /** From the resolved tool calls on: the step is committed and its tools run, and the turn ends or goes on. */
    method ConcludeStep(env: Env, ghost k: nat, ghost g: Guard, stopped: bool, text: string, calls: seq<Called>,
        seenBefore: set<string>, failuresBefore: nat) returns (over: bool, seen: set<string>, failures: nat)
      requires Valid() && k < MAX_ITERATIONS && stopped == g.stopped
      modifies this
      ensures Valid() && begun == old(begun)
      ensures over ==> state == Rendezvous.Idle
      ensures GoesOn(old(trace), Concluded(env, k, g, text, calls, seenBefore, failuresBefore),
                     trace, if over then [] else TurnFrom(env, k + 1, g, seen, failures))
    {
      over, seen, failures := true, seenBefore, 0;
      if stopped {
        CommitStopped(text);
        Finish(Done);
        NothingLeft(trace);
        return;
      }
      CommitStep(text, calls);
      if calls == [] {
        Associative(old(trace), Commit(text, calls), [Turn.Flush, Turn.Say(Done)]);
        Finish(Done);
        NothingLeft(trace);
        return;
      }
      ghost var h := Handle(env, Handled([], seenBefore, false, false, false, false), calls);
      Associative(old(trace), Commit(text, calls), h.trace + AfterTools(env, k, g, h, failuresBefore));
      over, seen, failures := ConcludeTools(env, k, g, calls, seenBefore, failuresBefore);
    }

    /** A stopped step keeps its text but not its calls. */
    method CommitStopped(text: string)
      requires Valid()
      modifies this`messages, this`trace
      ensures Valid()
      ensures var first := if text == [] then [] else [Turn.Push(Assistant([Text(text)]))];
              && trace == old(trace) + first
              && trace + [Turn.Flush, Turn.Say(Done)] == old(trace) + (first + [Turn.Flush, Turn.Say(Done)])
    {
      if text != [] { Push(Assistant([Text(text)])); } else { NothingLeft(trace); }
      ghost var first := if text == [] then [] else [Turn.Push(Assistant([Text(text)]))];
      Associative(old(trace), first, [Turn.Flush, Turn.Say(Done)]);
    }

    /** One model call and all that comes of it. */
    method RunStep(env: Env, sanitizer: StreamSanitizer, k: nat, seenBefore: set<string>, failuresBefore: nat)
      returns (over: bool, seen: set<string>, failures: nat)
      requires Valid() && k < MAX_ITERATIONS && sanitizer.isLeak == env.isLeak && sanitizer.buffer == []
      modifies sanitizer, this
      ensures Valid() && begun == old(begun)
      ensures over ==> state == Rendezvous.Idle
      ensures !over ==> sanitizer.buffer == []
      ensures GoesOn(old(trace), TurnFrom(env, k, old(sanitizer.State()), seenBefore, failuresBefore),
                     trace, if over then [] else TurnFrom(env, k + 1, sanitizer.State(), seen, failures))
    {
      over, seen, failures := true, seenBefore, failuresBefore;
      ghost var g := sanitizer.State();
      Say(Progress);
      AskModel();
      ghost var a, asked := Take(env.isLeak, g, env.model(k)), [Turn.Say(Progress), Turn.Ask];
      assert trace == old(trace) + asked;
      var text, answer := TakeAnswer(sanitizer, env.model(k));
      if answer.None? {
        GoesOnAfter(old(trace), asked, a.trace, []);
        return;
      }
      GoesOnAfter(old(trace), asked, a.trace, Concluded(env, k, a.guard, text, answer.value, seen, failures));
      over, seen, failures :=
        ConcludeStep(env, k, sanitizer.State(), sanitizer.stoppedFlag, text, answer.value, seen, failures);
    }

    method RunAgentTurn(env: Env)
      modifies this
      ensures Valid() && begun == old(Now()).(events := [], requests := [])
      ensures trace == TurnTrace(env) && state == Rendezvous.Idle
      ensures messages == old(messages) + LogOf(TurnTrace(env)) && OneTerminal(events)
      ensures |requests| <= MAX_ITERATIONS && forall r :: r in requests ==> WellPaired(r)
      ensures WellPaired(old(messages)) && TidyEnv(env) ==> WellPaired(messages)
    {
      BeginTurn();
      Loop(env);
      TurnPromises(env, disk, begun);
    }

    method BeginTurn()
      modifies this
      ensures Valid() && begun == old(Now()).(events := [], requests := []) && trace == []
    {
      events, requests, trace := [], [], [];
      begun := Now();
      state := Rendezvous.Streaming;
    }

    method Loop(env: Env)
      requires Valid() && trace == []
      modifies this
      ensures Valid() && begun == old(begun)
      ensures trace == TurnTrace(env) && state == Rendezvous.Idle
    {
      var sanitizer := new StreamSanitizer(env.isLeak);
      var k, failures, seen := 0, 0, {};
      ghost var all := TurnTrace(env);
      NothingBefore(all);
      while k < MAX_ITERATIONS
        invariant Valid() && begun == old(begun)
        invariant fresh(sanitizer) && sanitizer.isLeak == env.isLeak && sanitizer.buffer == []
        invariant k <= MAX_ITERATIONS && GoesOn([], all, trace, TurnFrom(env, k, sanitizer.State(), seen, failures))
        decreases MAX_ITERATIONS - k
      {
        var over;
        NothingBefore(all);
        over, seen, failures := RunStep(env, sanitizer, k, seen, failures);
        if over {
          NothingLeft(trace);
          return;
        }
        k := k + 1;
      }
      state := Rendezvous.Idle;
      NothingBefore(all);
      Say(Error("max_iterations"));
    }
  }

  /** What was to come, `rest`, has come so far as `trace` shows, and `left` is still to come. */
  ghost predicate GoesOn(before: seq<Move>, rest: seq<Move>, trace: seq<Move>, left: seq<Move>) {
    before + rest == trace + left
  }

  /** What is left to do once the tools of a step have run. */
  lemma ToolsConcluded(env: Env, k: nat, g: Guard, h: Handled, failures: nat, before: seq<Move>)
    requires k < MAX_ITERATIONS
    ensures var all, here := before + (h.trace + AfterTools(env, k, g, h, failures)), before + h.trace;
            var last := LastEvent(h, failures);
            if h.gaveUp then all == here + []
            else if last.Some? then all == here + [Turn.Flush, Turn.Say(last.value)] + []
            else all == here + TurnFrom(env, k + 1, g, h.seen, FailuresAfter(h, failures))
  {
    Associative(before, h.trace, AfterTools(env, k, g, h, failures));
    var last := LastEvent(h, failures);
    if last.Some? { NothingLeft(before + h.trace + [Turn.Flush, Turn.Say(last.value)]); }
  }

  lemma NothingBefore(trace: seq<Move>)
    ensures [] + trace == trace
  {
  }

  lemma NothingLeft(trace: seq<Move>)
    ensures trace + [] == trace
  {
  }

  lemma GoesOnAfter(before: seq<Move>, a: seq<Move>, b: seq<Move>, rest: seq<Move>)
    ensures before + (a + (b + rest)) == before + a + b + rest
    ensures rest == [] ==> b + rest == b && before + a + b + rest == before + a + b
  {
  }

  /** `outs` came out already; the rest of the chunks give the rest. */
  ghost predicate FilterGoesOn(all: Filtered, outs: seq<string>, rest: Filtered) {
    all == rest.(outs := outs + rest.outs)
  }

  lemma FilterMoves(isLeak: string -> bool, g: Guard, buffer: string, chunks: seq<string>, i: nat,
      all: Filtered, outs: seq<string>)
    requires i < |chunks| && FilterGoesOn(all, outs, Filter(isLeak, g, buffer, chunks[i..]))
    ensures var p := PushSpec(isLeak, g, buffer, chunks[i]);
            FilterGoesOn(all, outs + [Join(p.emitted)], Filter(isLeak, p.guard, p.buffer, chunks[i + 1..]))
  {
    assert chunks[i..][1..] == chunks[i + 1..];
    var p := PushSpec(isLeak, g, buffer, chunks[i]);
    Associative(outs, [Join(p.emitted)], Filter(isLeak, p.guard, p.buffer, chunks[i + 1..]).outs);
  }

  lemma AbandonNext(trace: seq<Move>, calls: seq<Called>, i: nat)
    requires i < |calls|
    ensures var push := Turn.Push(ResultMessage(calls[i].call, Failure("interrupted")));
            trace + Abandoned(calls[i..]) == trace + [push] + Abandoned(calls[i + 1..])
  {
    assert calls[i..][1..] == calls[i + 1..];
    Associative(trace, [Turn.Push(ResultMessage(calls[i].call, Failure("interrupted")))], Abandoned(calls[i + 1..]));
  }

  lemma GiveUp(before: seq<Move>, done: seq<Move>, left: seq<Move>)
    ensures var last := if left == [] then [] else [Turn.Flush];
            before + (done + left + last) == before + done + left + last
  {
  }

  /** What handling the rest of the calls comes to, by what the next of them is. */
  lemma HandleNext(env: Env, h: Handled, calls: seq<Called>, i: nat)
    requires i < |calls|
    ensures var c, rest := calls[i], calls[i + 1..];
            var m := MetaOf(env, c.call.name);
            Handle(env, h, calls[i..]) ==
              if IsRepeat(env, h.seen, c.call) then
                Handle(env, h.(trace := h.trace + RepeatTrace(c.call), repeated := true, progressed := true), rest)
              else if GivesUp(c, m) then
                var left := Abandoned(rest);
                var last := if left == [] then [] else [Turn.Flush];
                h.(trace := h.trace + DispatchTrace(c, m) + left + last, gaveUp := true)
              else
                Handle(env, Handled(h.trace + DispatchTrace(c, m), SeenAfter(env, h.seen, c.call), h.repeated,
                                    h.failed || FailsCall(env, c), h.progressed || !FailsCall(env, c), false), rest)
  {
    assert calls[i..][0] == calls[i] && calls[i..][1..] == calls[i + 1..];
  }

  lemma {:induction false} DeltasSnoc(text: string, outs: seq<string>, out: string)
    ensures Deltas(text, outs + [out]) == Deltas(text, outs) + Deltas(Capped(text, outs), [out])
    ensures Capped(text, outs + [out]) == Capped(Capped(text, outs), [out])
    decreases |outs|
  {
    if outs == [] {
      assert outs + [out] == [out];
      assert [] + Deltas(text, [out]) == Deltas(text, [out]);
    } else {
      assert (outs + [out])[1..] == outs[1..] + [out];
      DeltasSnoc(if Shown(text, outs[0]) then text + outs[0] else text, outs[1..], out);
    }
  }
}
