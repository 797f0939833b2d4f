// What one agent turn does, move by move, for any model, any phone and any tool server.
module Turn {
  import opened Basics
  import opened Json
  import opened Transcript
  import CallKey
  import opened StreamFilter

  const MAX_ITERATIONS := 16
  const MAX_CONSECUTIVE_TOOL_FAILURES := 3
  const MAX_ASSISTANT_CHARS := 32_000

  // --- The outside: the tool registry, the model, the tool server and the phone ---

  datatype Executor = Server | Mobile
  datatype Capability = Read | Write
  datatype Meta = Meta(executor: Executor, capability: Capability)

  datatype ServerOutcome = Returned(value: Json) | Threw(message: string)

  datatype Status = Executed | Failed | Rejected

  /** The phone's answer with its agent-side status, or why there is none. */
  datatype PhoneOutcome =
    | Responded(status: Status, rest: seq<Field>)
    | NoResponse
    | SessionLost(message: string)

  /** A tool call of the model, and what its execution would come to. */
  datatype Called = Called(call: ToolCall, server: ServerOutcome, phone: PhoneOutcome)

  datatype Ending = StreamFails | CallsFail | Calling(calls: seq<Called>)

  /** One model call: it throws at once, or streams chunks and then fails or resolves its tool calls. */
  datatype ModelStep = CallThrows | Streams(chunks: seq<string>, ending: Ending)

  datatype Env = Env(isLeak: string -> bool, registry: map<string, Meta>, model: nat -> ModelStep)

  /** An unregistered tool is left to the phone, as a write. */
  function MetaOf(env: Env, name: string): Meta {
    if name in env.registry then env.registry[name] else Meta(Mobile, Write)
  }

  // --- The moves of a turn ---

  datatype Event =
    | Progress
    | TextDelta(content: string)
    | ToolPending(id: Id)
    | ToolExecuted(id: Id)
    | Done
    | Error(code: string)

  datatype Move =
    | Say(event: Event)
    | Ask
    | Push(message: Message)
    | Flush
    | Dispatch(call: ToolCall, write: bool)
    | Came(ok: bool)
    | Repeat(call: ToolCall)

  // --- The text of a step ---

  /** What the sanitizer returns for each chunk, and where that leaves it. */
  datatype Filtered = Filtered(outs: seq<string>, guard: Guard, buffer: string)

  function Filter(isLeak: string -> bool, g: Guard, buffer: string, chunks: seq<string>): Filtered
    decreases |chunks|
  {
    if chunks == [] then Filtered([], g, buffer)
    else
      var p := PushSpec(isLeak, g, buffer, chunks[0]);
      var later := Filter(isLeak, p.guard, p.buffer, chunks[1..]);
      later.(outs := [Join(p.emitted)] + later.outs)
  }

  /** A whole step: every chunk, then the end of the step. */
  function FilterStep(isLeak: string -> bool, g: Guard, chunks: seq<string>): Filtered {
    var f := Filter(isLeak, g, [], chunks);
    var o := EndSpec(isLeak, f.guard, f.buffer);
    Filtered(f.outs + [Join(o.emitted)], o.guard, [])
  }

  /** Text is shown and kept until MAX_ASSISTANT_CHARS are reached. */
  predicate Shown(text: string, out: string) {
    out != [] && |text| < MAX_ASSISTANT_CHARS
  }

  function Capped(text: string, outs: seq<string>): string
    decreases |outs|
  {
    if outs == [] then text
    else Capped(if Shown(text, outs[0]) then text + outs[0] else text, outs[1..])
  }

  function Deltas(text: string, outs: seq<string>): seq<Move>
    decreases |outs|
  {
    if outs == [] then []
    else if Shown(text, outs[0]) then [Say(TextDelta(outs[0]))] + Deltas(text + outs[0], outs[1..])
    else Deltas(text, outs[1..])
  }

  // --- The tool calls of a step ---

  function ResultMessage(c: ToolCall, value: Json): Message {
    Tool([Result(c.id, c.name, JsonOutput(value))])
  }

  function Failure(message: string): Json {
    Obj([Field("status", Str("approved_but_failed")), Field("error", Str(message))])
  }

  const DUPLICATE: Json :=
    Obj([Field("status", Str("success")), Field("data", Obj([Field("duplicate_call", Bool(true))]))])

  function StatusText(s: Status): string {
    match s
    case Executed => "approved_and_executed"
    case Failed => "approved_but_failed"
    case Rejected => "rejected"
  }

  function ServerTrace(c: ToolCall, o: ServerOutcome): seq<Move> {
    [Say(Progress), Push(ResultMessage(c, if o.Returned? then o.value else Failure(o.message))), Flush,
     Say(ToolExecuted(c.id)), Came(o.Returned?)]
  }

  /** A rejection by the user counts as progress. Without an answer the turn gives up. */
  function PhoneAnswer(c: ToolCall, o: PhoneOutcome): seq<Move> {
    match o
    case Responded(status, rest) =>
      [Push(ResultMessage(c, Obj([Field("status", Str(StatusText(status)))] + rest))), Flush, Came(!status.Failed?)]
    case NoResponse =>
      [Push(ResultMessage(c, Failure("interrupted"))), Flush, Say(Error("tool_timeout"))]
    case SessionLost(message) =>
      [Push(ResultMessage(c, Failure(message))), Flush, Say(Error("session_error"))]
  }

  function PhoneTrace(c: ToolCall, o: PhoneOutcome): seq<Move> {
    [Say(ToolPending(c.id))] + PhoneAnswer(c, o)
  }

  function DispatchTrace(c: Called, m: Meta): seq<Move> {
    [Dispatch(c.call, m.capability == Write)]
    + if m.executor == Server then ServerTrace(c.call, c.server) else PhoneTrace(c.call, c.phone)
  }

  predicate GivesUp(c: Called, m: Meta) {
    m.executor == Mobile && !c.phone.Responded?
  }

  function Key(c: ToolCall): string {
    CallKey.ReadCallKey(c.name, c.input)
  }

  /** What the calls of one step do, and what they leave behind. */
  datatype Handled = Handled(
    trace: seq<Move>, seen: set<string>, repeated: bool, failed: bool, progressed: bool, gaveUp: bool)

  /** Every call a step never got to is answered as interrupted. */
  function Abandoned(calls: seq<Called>): seq<Move> {
    if calls == [] then []
    else [Push(ResultMessage(calls[0].call, Failure("interrupted")))] + Abandoned(calls[1..])
  }

  function RepeatTrace(c: ToolCall): seq<Move> {
    [Repeat(c), Push(ResultMessage(c, DUPLICATE)), Flush]
  }

  predicate IsRepeat(env: Env, seen: set<string>, c: ToolCall) {
    MetaOf(env, c.name).capability == Read && Key(c) in seen
  }

  /** A read is remembered when it is dispatched; a write makes the turn forget every read. */
  function SeenAfter(env: Env, seen: set<string>, c: ToolCall): set<string> {
    if MetaOf(env, c.name).capability == Write then {} else seen + {Key(c)}
  }

  predicate FailsCall(env: Env, c: Called) {
    if MetaOf(env, c.call.name).executor == Server then c.server.Threw?
    else c.phone.Responded? && c.phone.status == Failed
  }

  function Handle(env: Env, h: Handled, calls: seq<Called>): Handled
    decreases |calls|
  {
    if calls == [] then h
    else
      var c := calls[0];
      var m := MetaOf(env, c.call.name);
      if IsRepeat(env, h.seen, c.call) then
        Handle(env, h.(trace := h.trace + RepeatTrace(c.call), repeated := true, progressed := true), calls[1..])
      else if GivesUp(c, m) then
        var left := Abandoned(calls[1..]);
        h.(trace := h.trace + DispatchTrace(c, m) + left + (if left == [] then [] else [Flush]), gaveUp := true)
      else
        var failed := FailsCall(env, c);
        Handle(env, Handled(h.trace + DispatchTrace(c, m), SeenAfter(env, h.seen, c.call), h.repeated,
                            h.failed || failed, h.progressed || !failed, false), calls[1..])
  }

  // --- The whole turn ---

  function Parts(text: string, calls: seq<Called>): seq<Part> {
    (if text == [] then [] else [Text(text)]) + seq(|calls|, i requires 0 <= i < |calls| => Call(calls[i].call))
  }

  /** The assistant message of a step, if there is anything to it. */
  function Commit(text: string, calls: seq<Called>): seq<Move> {
    if text == [] && calls == [] then [] else [Push(Assistant(Parts(text, calls))), Flush]
  }

  const MODEL_ERROR := Say(Error("model_error"))

  /** How an answer of the model comes in: what it shows, the text to commit and the calls to run, if any. */
  datatype Answer = Answer(trace: seq<Move>, guard: Guard, text: string, calls: Option<seq<Called>>)

  function Take(isLeak: string -> bool, g: Guard, step: ModelStep): Answer {
    match step
    case CallThrows => Answer([MODEL_ERROR], g, [], None)
    case Streams(chunks, StreamFails) =>
      Answer(Deltas([], Filter(isLeak, g, [], chunks).outs) + [MODEL_ERROR], g, [], None)
    case Streams(chunks, CallsFail) =>
      Answer(Deltas([], FilterStep(isLeak, g, chunks).outs) + [MODEL_ERROR], g, [], None)
    case Streams(chunks, Calling(calls)) =>
      var f := FilterStep(isLeak, g, chunks);
      Answer(Deltas([], f.outs), f.guard, Capped([], f.outs), Some(calls))
  }

  /** The turn from its `k`th model call on. */
  function TurnFrom(env: Env, k: nat, g: Guard, seen: set<string>, failures: nat): seq<Move>
    decreases MAX_ITERATIONS - k
  {
    if k >= MAX_ITERATIONS then [Say(Error("max_iterations"))]
    else [Say(Progress), Ask] + AnswerFrom(env, k, g, seen, failures)
  }

  /** From the `k`th model call's answer on. */
  function AnswerFrom(env: Env, k: nat, g: Guard, seen: set<string>, failures: nat): seq<Move>
    requires k < MAX_ITERATIONS
    decreases MAX_ITERATIONS - k, 2
  {
    var a := Take(env.isLeak, g, env.model(k));
    if a.calls.None? then a.trace
    else a.trace + Concluded(env, k, a.guard, a.text, a.calls.value, seen, failures)
  }

  /** From the resolved tool calls of the `k`th model call on. */
  function Concluded(env: Env, k: nat, g: Guard, text: string, calls: seq<Called>,
      seen: set<string>, failures: nat): seq<Move>
    requires k < MAX_ITERATIONS
    decreases MAX_ITERATIONS - k, 1
  {
    if g.stopped then
      (if text == [] then [] else [Push(Assistant([Text(text)]))]) + [Flush, Say(Done)]
    else if calls == [] then Commit(text, calls) + [Flush, Say(Done)]
    else
      var h := Handle(env, Handled([], seen, false, false, false, false), calls);
      Commit(text, calls) + (h.trace + AfterTools(env, k, g, h, failures))
  }

  /** The event the turn ends with after the tools of a step, unless it goes on. */
  function LastEvent(h: Handled, failures: nat): Option<Event> {
    if h.repeated then Some(Done)
    else if FailuresAfter(h, failures) >= MAX_CONSECUTIVE_TOOL_FAILURES then Some(Error("tool_failed_repeatedly"))
    else None
  }

  function FailuresAfter(h: Handled, failures: nat): nat {
    if h.failed && !h.progressed then failures + 1 else 0
  }

  /** From the last tool result of a step on. */
  function AfterTools(env: Env, k: nat, g: Guard, h: Handled, failures: nat): seq<Move>
    requires k < MAX_ITERATIONS
    decreases MAX_ITERATIONS - k, 0
  {
    if h.gaveUp then []
    else if LastEvent(h, failures).Some? then [Flush, Say(LastEvent(h, failures).value)]
    else TurnFrom(env, k + 1, g, h.seen, FailuresAfter(h, failures))
  }

  function TurnTrace(env: Env): seq<Move> {
    TurnFrom(env, 0, Guard(None, false), {}, 0)
  }

  // --- What a trace leaves in the log ---

  function LogOf(trace: seq<Move>): seq<Message> {
    if trace == [] then []
    else
      LogOf(trace[..|trace| - 1])
      + if trace[|trace| - 1].Push? then [trace[|trace| - 1].message] else []
  }

  function EventsOf(trace: seq<Move>): seq<Event> {
    if trace == [] then []
    else
      EventsOf(trace[..|trace| - 1])
      + if trace[|trace| - 1].Say? then [trace[|trace| - 1].event] else []
  }
}
