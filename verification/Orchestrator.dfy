// The Core and specialist coordination: Core routes, each planned step runs once, Core is asked again.
module Orchestrator {
  import opened Basics
  import opened Json
  import opened Transcript
  import opened StreamFilter
  import opened Turn
  import Slices

  const MAX_COORDINATION_HOPS := 4
  const MAX_SUMMARY_CHARS := 400

  datatype Step = Step(to: string, brief: string)
  datatype Decision = Answered | Route(steps: seq<Step>)

  datatype StepStatus = Ran | Errored
  datatype StepResult = StepResult(to: string, brief: string, status: StepStatus, summary: string)

  /** An event on its way to the client; a `tool_pending` carries the wallet of the turn. */
  datatype Frame = Frame(event: Event, wallet: Option<Json>)

  /** A call of Core: what it streams and decides, and the answer it commits to the log, if any. */
  datatype CoreCall = CoreCall(events: seq<Event>, decision: Decision, said: Option<string>)

  /**
   * Any engine: what its `n`th call of Core comes to, and what its `n`th run of a specialist streams and
   * adds to the log.
   */
  datatype Engine = Engine(
    wallet: Json, specialists: set<string>,
    core: nat -> CoreCall, stream: nat -> seq<Event>, added: nat -> seq<Message>)

  function Committed(core: CoreCall): seq<Message> {
    if core.said.Some? then [Assistant([Text(core.said.value)])] else []
  }

  /** `messages.slice(0, turnStartIndex)`. */
  function Before(log: seq<Message>, turnStartIndex: nat): seq<Message> {
    if turnStartIndex <= |log| then log[..turnStartIndex] else log
  }

  /** What Core is shown of the log. */
  ghost function CoreView(log: seq<Message>, turnStartIndex: nat): seq<Message> {
    Slices.ModelView(Before(log, turnStartIndex))
  }

  // --- What Core decides ---

  function Lookup(fields: seq<Field>, key: string): Option<Json> {
    if fields == [] then None else if fields[0].key == key then Some(fields[0].value) else Lookup(fields[1..], key)
  }

  function TextAt(input: Json, key: string): string {
    if input.Obj? && Lookup(input.fields, key).Some? && Lookup(input.fields, key).value.Str?
    then Lookup(input.fields, key).value.s else []
  }

  /** The step a tool call of Core asks for, if it is a hand-off to a specialist there is. */
  function Handoff(c: ToolCall, valid: seq<string>): Option<Step> {
    if c.name == "core_handoff" && TextAt(c.input, "to") != [] && TextAt(c.input, "to") in valid
    then Some(Step(TextAt(c.input, "to"), TextAt(c.input, "brief"))) else None
  }

  ghost predicate IsHandoff(c: ToolCall, valid: seq<string>) {
    Handoff(c, valid).Some?
  }

  /** `steps` are the hand-offs of the calls at `picked`, which are all there are, in order. */
  ghost predicate PicksHandoffs(calls: seq<ToolCall>, valid: seq<string>, steps: seq<Step>, picked: seq<nat>) {
    && |picked| == |steps|
    && (forall k :: 0 <= k < |picked| ==> picked[k] < |calls| && Handoff(calls[picked[k]], valid) == Some(steps[k]))
    && (forall k, l :: 0 <= k < l < |picked| ==> picked[k] < picked[l])
    && (forall i :: 0 <= i < |calls| && IsHandoff(calls[i], valid) ==> i in picked)
  }

  lemma PicksNext(calls: seq<ToolCall>, i: nat, valid: seq<string>, steps: seq<Step>, picked: seq<nat>)
    requires i < |calls| && PicksHandoffs(calls[..i], valid, steps, picked)
    ensures var step := Handoff(calls[i], valid);
            if step.Some? then PicksHandoffs(calls[..i + 1], valid, steps + [step.value], picked + [i])
            else PicksHandoffs(calls[..i + 1], valid, steps, picked)
  {
    var step := Handoff(calls[i], valid);
    forall k | 0 <= k < |picked| ensures picked[k] < i && Handoff(calls[picked[k]], valid) == Some(steps[k]) {
      assert calls[..i][picked[k]] == calls[picked[k]];
    }
    var longer := picked + [i];
    assert longer[|picked|] == i;
    forall k | 0 <= k < i && IsHandoff(calls[k], valid) ensures k in picked && k in longer {
      assert calls[..i][k] == calls[k];
    }
  }

  method DecideCoreRoute(calls: seq<ToolCall>, valid: seq<string>) returns (d: Decision, ghost picked: seq<nat>)
    ensures d.Answered? <==> forall c :: c in calls ==> !IsHandoff(c, valid)
    ensures PicksHandoffs(calls, valid, if d.Route? then d.steps else [], picked)
  {
    var steps: seq<Step> := [];
    picked := [];
    for i := 0 to |calls|
      invariant PicksHandoffs(calls[..i], valid, steps, picked)
    {
      PicksNext(calls, i, valid, steps, picked);
      var step := Handoff(calls[i], valid);
      if step.Some? { steps, picked := steps + [step.value], picked + [i]; }
    }
    assert calls[..|calls|] == calls;
    d := if steps == [] then Answered else Route(steps);
    if steps != [] { assert IsHandoff(calls[picked[0]], valid); }
  }

  // --- One specialist run ---

  function Digest(summary: string, events: seq<Event>): string
    decreases |events|
  {
    if events == [] then summary
    else
      var e := events[0];
      Digest(if e.TextDelta? && |summary| < MAX_SUMMARY_CHARS then summary + e.content else summary, events[1..])
  }

  function Summary(events: seq<Event>): string {
    var text := Trim(Digest([], events));
    if |text| <= MAX_SUMMARY_CHARS then text else text[..MAX_SUMMARY_CHARS]
  }

  predicate HasError(events: seq<Event>) {
    exists e :: e in events && e.Error?
  }

  function ResultOf(step: Step, events: seq<Event>): StepResult {
    StepResult(step.to, step.brief, if HasError(events) then Errored else Ran, Summary(events))
  }

  function Stamped(e: Event, wallet: Json): Frame {
    Frame(e, if e.ToolPending? then Some(wallet) else None)
  }

  /** A specialist's events but for its `done`, each `tool_pending` stamped with the wallet. */
  function Forwarded(events: seq<Event>, wallet: Json): seq<Frame> {
    if events == [] then []
    else
      Forwarded(events[..|events| - 1], wallet)
      + if events[|events| - 1].Done? then [] else [Stamped(events[|events| - 1], wallet)]
  }

  function Plain(events: seq<Event>): (frames: seq<Frame>)
    ensures |frames| == |events| && forall i :: 0 <= i < |frames| ==> frames[i] == Frame(events[i], None)
  {
    seq(|events|, i requires 0 <= i < |events| => Frame(events[i], None))
  }

  lemma {:induction false} DigestSnoc(summary: string, events: seq<Event>, e: Event)
    ensures var s := Digest(summary, events);
            Digest(summary, events + [e]) == if e.TextDelta? && |s| < MAX_SUMMARY_CHARS then s + e.content else s
    decreases |events|
  {
    if events == [] {
      assert events + [e] == [e] && [e][1..] == [];
    } else {
      assert (events + [e])[1..] == events[1..] + [e];
      var h := events[0];
      var more := if h.TextDelta? && |summary| < MAX_SUMMARY_CHARS then summary + h.content else summary;
      DigestSnoc(more, events[1..], e);
    }
  }

  method RunSpecialist(events: seq<Event>, step: Step, wallet: Json) returns (frames: seq<Frame>, result: StepResult)
    ensures frames == Forwarded(events, wallet) && result == ResultOf(step, events)
  {
    var errored, summary := false, [];
    frames := [];
    for i := 0 to |events|
      invariant frames == Forwarded(events[..i], wallet)
      invariant summary == Digest([], events[..i])
      invariant errored == HasError(events[..i])
    {
      var e := events[i];
      assert events[..i + 1] == events[..i] + [e];
      DigestSnoc([], events[..i], e);
      if e.Done? { continue; }
      if e.Error? { errored := true; }
      if e.TextDelta? && |summary| < MAX_SUMMARY_CHARS { summary := summary + e.content; }
      frames := frames + [Stamped(e, wallet)];
    }
    assert events[..|events|] == events;
    var text := Trim(summary);
    result := StepResult(step.to, step.brief, if errored then Errored else Ran,
                         if |text| <= MAX_SUMMARY_CHARS then text else text[..MAX_SUMMARY_CHARS]);
  }

  function TextIn(events: seq<Event>): string {
    if events == [] then [] else (if events[0].TextDelta? then events[0].content else []) + TextIn(events[1..])
  }

  lemma {:induction false} DigestIsPrefix(summary: string, events: seq<Event>)
    ensures Digest(summary, events) <= summary + TextIn(events) && summary <= Digest(summary, events)
    ensures |summary| >= MAX_SUMMARY_CHARS ==> Digest(summary, events) == summary
    ensures |summary + TextIn(events)| <= MAX_SUMMARY_CHARS ==> Digest(summary, events) == summary + TextIn(events)
    decreases |events|
  {
    if events != [] {
      var e := events[0];
      if e.TextDelta? && |summary| < MAX_SUMMARY_CHARS {
        DigestIsPrefix(summary + e.content, events[1..]);
        Associative(summary, e.content, TextIn(events[1..]));
      } else {
        DigestIsPrefix(summary, events[1..]);
        if !e.TextDelta? { assert [] + TextIn(events[1..]) == TextIn(events[1..]); }
      }
    } else {
      assert summary + [] == summary;
    }
  }

  lemma {:induction false} TrimStartPrefix(a: string, b: string)
    requires a <= b
    ensures TrimStart(a) <= TrimStart(b)
  {
    if a != [] && IsSpace(a[0]) { TrimStartPrefix(a[1..], b[1..]); }
  }

  lemma {:induction false} TrimEndPrefix(a: string)
    ensures TrimEnd(a) <= a
  {
    if a != [] && IsSpace(a[|a| - 1]) { TrimEndPrefix(a[..|a| - 1]); }
  }

  /** A summary is a short beginning of what the specialist told the user. */
  lemma SummaryIsShortPrefix(events: seq<Event>)
    ensures |Summary(events)| <= MAX_SUMMARY_CHARS
    ensures Summary(events) <= TrimStart(TextIn(events))
    ensures |TextIn(events)| <= MAX_SUMMARY_CHARS ==> Summary(events) == Trim(TextIn(events))
  {
    DigestIsPrefix([], events);
    assert [] + TextIn(events) == TextIn(events);
    var digest := Digest([], events);
    TrimStartPrefix(digest, TextIn(events));
    TrimEndPrefix(TrimStart(digest));
    if |TextIn(events)| <= MAX_SUMMARY_CHARS { TrimStartShorter(TextIn(events)); }
  }

  lemma {:induction false} TrimStartShorter(a: string)
    ensures |TrimStart(a)| <= |a|
  {
    if a != [] && IsSpace(a[0]) { TrimStartShorter(a[1..]); }
  }

  // --- The whole turn ---

  datatype Act =
    | Core(resuming: bool, ledger: seq<StepResult>, shown: seq<Message>, frames: seq<Frame>)
    | Run(step: Step, frames: seq<Frame>)
    | Skip(step: Step)
    | Close

  function StepKey(step: Step): string {
    step.to + "::" + step.brief
  }

  /** `turnStartIndex`, `delegated`, `ranInPriorHop` and `ledger` of the loop, and the log of the session. */
  datatype Coord = Coord(
    start: nat, delegated: set<string>, spent: set<string>, ledger: seq<StepResult>, log: seq<Message>)

  /** The steps of one hop: what was done, where that leaves the loop, who ran, and whether the last one failed. */
  datatype Hop = Hop(acts: seq<Act>, coord: Coord, ran: set<string>, failed: bool)

  /** The run of a step leaves its result in the ledger and its messages in the log. */
  function Recorded(engine: Engine, c: Coord, step: Step): Coord {
    var n := |c.ledger|;
    c.(ledger := c.ledger + [ResultOf(step, engine.stream(n))], log := c.log + engine.added(n))
  }

  function RunSteps(engine: Engine, h: Hop, steps: seq<Step>): Hop
    decreases |steps|
  {
    if steps == [] then h
    else
      var step := steps[0];
      if step.to in h.coord.spent || StepKey(step) in h.coord.delegated then
        RunSteps(engine, h.(acts := h.acts + [Skip(step)]), steps[1..])
      else
        var c := h.coord.(delegated := h.coord.delegated + {StepKey(step)});
        if step.to !in engine.specialists then
          RunSteps(engine, h.(acts := h.acts + [Skip(step)], coord := c), steps[1..])
        else
          var events := engine.stream(|c.ledger|);
          var h' := Hop(h.acts + [Run(step, Forwarded(events, engine.wallet))],
                        Recorded(engine, c, step), h.ran + {step.to}, HasError(events));
          if h'.failed then h' else RunSteps(engine, h', steps[1..])
  }

  ghost function HopsFrom(engine: Engine, hop: nat, c: Coord): seq<Act>
    decreases MAX_COORDINATION_HOPS - hop
  {
    if hop >= MAX_COORDINATION_HOPS then [Close]
    else
      var core := engine.core(hop);
      [Core(hop > 0, c.ledger, CoreView(c.log, c.start), Plain(core.events))]
      + if core.decision.Answered? then [Close]
        else AfterRoute(engine, hop, c.(log := c.log + Committed(core)), core.decision.steps)
  }

  ghost function AfterRoute(engine: Engine, hop: nat, c: Coord, steps: seq<Step>): seq<Act>
    requires hop < MAX_COORDINATION_HOPS
    decreases MAX_COORDINATION_HOPS - hop, 0
  {
    var h := RunSteps(engine, Hop([], c, {}, false), steps);
    h.acts +
    (if h.failed then []
     else if h.ran == {} then [Close]
     else HopsFrom(engine, hop + 1, h.coord.(spent := h.coord.spent + h.ran)))
  }

  /** The turn of a session whose log is `log` when it begins. */
  ghost function Course(engine: Engine, log: seq<Message>): seq<Act> {
    HopsFrom(engine, 0, Coord(|log|, {}, {}, [], log))
  }

  function FramesOf(act: Act): seq<Frame> {
    match act
    case Core(_, _, _, frames) => frames
    case Run(_, frames) => frames
    case Skip(_) => []
    case Close => [Frame(Done, None)]
  }

  /** What the client is sent. */
  function Frames(acts: seq<Act>): seq<Frame> {
    if acts == [] then [] else Frames(acts[..|acts| - 1]) + FramesOf(acts[|acts| - 1])
  }

  // --- The rules of the coordination ---

  /** The calls of Core so far, the steps still planned, the state of the loop, who ran since the last call. */
  datatype Stage = Stage(calls: nat, plan: seq<Step>, coord: Coord, ran: set<string>, over: bool)

  ghost predicate Permitted(engine: Engine, p: Stage, act: Act) {
    !p.over &&
    match act
    case Core(resuming, ledger, shown, frames) =>
      && shown == CoreView(p.coord.log, p.coord.start)
      && p.plan == [] && p.calls < MAX_COORDINATION_HOPS && resuming == (p.calls > 0) && (resuming ==> p.ran != {})
      && ledger == p.coord.ledger && frames == Plain(engine.core(p.calls).events)
    case Run(step, frames) =>
      && p.plan != [] && step == p.plan[0]
      && step.to in engine.specialists && step.to !in p.coord.spent && StepKey(step) !in p.coord.delegated
      && frames == Forwarded(engine.stream(|p.coord.ledger|), engine.wallet)
    case Skip(step) =>
      && p.plan != [] && step == p.plan[0]
      && (step.to in p.coord.spent || StepKey(step) in p.coord.delegated || step.to !in engine.specialists)
    case Close => p.plan == [] && (p.ran == {} || p.calls == MAX_COORDINATION_HOPS)
  }

  function Advance(engine: Engine, p: Stage, act: Act): Stage {
    match act
    case Core(_, _, _, _) =>
      var core := engine.core(p.calls);
      Stage(p.calls + 1, if core.decision.Route? then core.decision.steps else [],
            p.coord.(spent := p.coord.spent + p.ran, log := p.coord.log + Committed(core)), {}, p.over)
    case Run(step, _) =>
      var events := engine.stream(|p.coord.ledger|);
      p.(plan := if p.plan == [] then [] else p.plan[1..],
         coord := Recorded(engine, p.coord.(delegated := p.coord.delegated + {StepKey(step)}), step),
         ran := p.ran + {step.to}, over := HasError(events))
    case Skip(step) =>
      p.(plan := if p.plan == [] then [] else p.plan[1..],
         coord := if step.to in p.coord.spent then p.coord
                  else p.coord.(delegated := p.coord.delegated + {StepKey(step)}))
    case Close => p.(over := true)
  }

  function Follow(engine: Engine, p: Stage, acts: seq<Act>): Stage
    decreases |acts|
  {
    if acts == [] then p else Follow(engine, Advance(engine, p, acts[0]), acts[1..])
  }

  ghost predicate AllPermitted(engine: Engine, p: Stage, acts: seq<Act>)
    decreases |acts|
  {
    acts == [] || (Permitted(engine, p, acts[0]) && AllPermitted(engine, Advance(engine, p, acts[0]), acts[1..]))
  }

  function Begin(log: seq<Message>): Stage {
    Stage(0, [], Coord(|log|, {}, {}, [], log), {}, false)
  }

  lemma {:induction false} FollowConcat(engine: Engine, p: Stage, a: seq<Act>, b: seq<Act>)
    ensures Follow(engine, p, a + b) == Follow(engine, Follow(engine, p, a), b)
    ensures AllPermitted(engine, p, a + b)
       <==> AllPermitted(engine, p, a) && AllPermitted(engine, Follow(engine, p, a), b)
    decreases |a|
  {
    if a == [] {
      assert a + b == b;
    } else {
      assert (a + b)[0] == a[0] && (a + b)[1..] == a[1..] + b;
      FollowConcat(engine, Advance(engine, p, a[0]), a[1..], b);
    }
  }

  lemma FollowOne(engine: Engine, p: Stage, act: Act)
    ensures Follow(engine, p, [act]) == Advance(engine, p, act)
    ensures AllPermitted(engine, p, [act]) <==> Permitted(engine, p, act)
  {
    assert [act][1..] == [];
  }

  lemma FollowSnoc(engine: Engine, p: Stage, acts: seq<Act>, act: Act)
    ensures Follow(engine, p, acts + [act]) == Advance(engine, Follow(engine, p, acts), act)
    ensures AllPermitted(engine, p, acts + [act])
       <==> AllPermitted(engine, p, acts) && Permitted(engine, Follow(engine, p, acts), act)
  {
    FollowConcat(engine, p, acts, [act]);
    FollowOne(engine, Follow(engine, p, acts), act);
  }

  /** The monitor while the steps of a hop run, from where it stood before them. */
  function Midway(from: Stage, h: Hop, plan: seq<Step>): Stage {
    from.(plan := plan, coord := h.coord, ran := h.ran, over := h.failed)
  }

  lemma SkipStep(engine: Engine, from: Stage, h: Hop, steps: seq<Step>)
    requires steps != [] && !from.over && !h.failed
    requires AllPermitted(engine, from, h.acts) && Follow(engine, from, h.acts) == Midway(from, h, steps)
    requires || steps[0].to in h.coord.spent || StepKey(steps[0]) in h.coord.delegated
             || steps[0].to !in engine.specialists
    ensures AllPermitted(engine, from, h.acts + [Skip(steps[0])])
    ensures var c := if steps[0].to in h.coord.spent then h.coord
                     else h.coord.(delegated := h.coord.delegated + {StepKey(steps[0])});
            Follow(engine, from, h.acts + [Skip(steps[0])]) == Midway(from, h.(coord := c), steps[1..])
  {
    FollowSnoc(engine, from, h.acts, Skip(steps[0]));
  }

  lemma {:induction false} StepsPermitted(engine: Engine, from: Stage, h: Hop, steps: seq<Step>)
    requires !from.over && !h.failed
    requires AllPermitted(engine, from, h.acts) && Follow(engine, from, h.acts) == Midway(from, h, steps)
    ensures var h' := RunSteps(engine, h, steps);
            && AllPermitted(engine, from, h'.acts)
            && h'.coord.spent == h.coord.spent
            && Follow(engine, from, h'.acts).coord == h'.coord
            && (if h'.failed then Follow(engine, from, h'.acts).over
                else Follow(engine, from, h'.acts) == Midway(from, h', []))
    decreases |steps|
  {
    if steps != [] {
      var step := steps[0];
      var c := h.coord.(delegated := h.coord.delegated + {StepKey(step)});
      if step.to in h.coord.spent || StepKey(step) in h.coord.delegated {
        SkipStep(engine, from, h, steps);
        assert StepKey(step) in h.coord.delegated ==> c == h.coord;
        StepsPermitted(engine, from, h.(acts := h.acts + [Skip(step)]), steps[1..]);
      } else if step.to !in engine.specialists {
        SkipStep(engine, from, h, steps);
        StepsPermitted(engine, from, h.(acts := h.acts + [Skip(step)], coord := c), steps[1..]);
      } else {
        var events := engine.stream(|c.ledger|);
        var run := Run(step, Forwarded(events, engine.wallet));
        var h' := Hop(h.acts + [run], Recorded(engine, c, step), h.ran + {step.to}, HasError(events));
        FollowSnoc(engine, from, h.acts, run);
        if !h'.failed { StepsPermitted(engine, from, h', steps[1..]); }
      }
    }
  }

  /** Where the loop stands before its `hop`th call of Core. */
  ghost predicate AtHop(p: Stage, hop: nat, c: Coord) {
    && p.calls == hop && p.plan == [] && !p.over && (hop > 0 ==> p.ran != {})
    && c == p.coord.(spent := p.coord.spent + p.ran)
  }

  ghost predicate Ends(engine: Engine, p: Stage, acts: seq<Act>) {
    AllPermitted(engine, p, acts) && Follow(engine, p, acts).over
  }

  lemma EndsConcat(engine: Engine, p: Stage, a: seq<Act>, b: seq<Act>)
    requires AllPermitted(engine, p, a) && Ends(engine, Follow(engine, p, a), b)
    ensures Ends(engine, p, a + b)
  {
    FollowConcat(engine, p, a, b);
  }

  lemma CloseEnds(engine: Engine, p: Stage)
    requires !p.over && p.plan == [] && (p.ran == {} || p.calls == MAX_COORDINATION_HOPS)
    ensures Ends(engine, p, [Close])
  {
    FollowOne(engine, p, Close);
  }

  lemma {:induction false} HopsEnd(engine: Engine, hop: nat, c: Coord, p: Stage)
    requires AtHop(p, hop, c) && hop <= MAX_COORDINATION_HOPS
    ensures Ends(engine, p, HopsFrom(engine, hop, c))
    decreases MAX_COORDINATION_HOPS - hop
  {
    if hop >= MAX_COORDINATION_HOPS {
      CloseEnds(engine, p);
    } else {
      var core := engine.core(hop);
      var call := Core(hop > 0, c.ledger, CoreView(c.log, c.start), Plain(core.events));
      var c' := c.(log := c.log + Committed(core));
      FollowOne(engine, p, call);
      var p' := Advance(engine, p, call);
      if core.decision.Answered? {
        CloseEnds(engine, p');
        EndsConcat(engine, p, [call], [Close]);
      } else {
        RouteEnds(engine, hop, c', core.decision.steps, p');
        EndsConcat(engine, p, [call], AfterRoute(engine, hop, c', core.decision.steps));
      }
    }
  }

  lemma {:induction false} RouteEnds(engine: Engine, hop: nat, c: Coord, steps: seq<Step>, p: Stage)
    requires hop < MAX_COORDINATION_HOPS && p == Stage(hop + 1, steps, c, {}, false)
    ensures Ends(engine, p, AfterRoute(engine, hop, c, steps))
    decreases MAX_COORDINATION_HOPS - hop, 0
  {
    var h0 := Hop([], c, {}, false);
    StepsPermitted(engine, p, h0, steps);
    var h := RunSteps(engine, h0, steps);
    var p' := Follow(engine, p, h.acts);
    if h.failed {
      assert h.acts + [] == h.acts;
    } else if h.ran == {} {
      CloseEnds(engine, p');
      EndsConcat(engine, p, h.acts, [Close]);
    } else {
      var c' := h.coord.(spent := h.coord.spent + h.ran);
      HopsEnd(engine, hop + 1, c', p');
      EndsConcat(engine, p, h.acts, HopsFrom(engine, hop + 1, c'));
    }
  }

  lemma CourseEnds(engine: Engine, log: seq<Message>)
    ensures Ends(engine, Begin(log), Course(engine, log))
  {
    HopsEnd(engine, 0, Coord(|log|, {}, {}, [], log), Begin(log));
  }
}
