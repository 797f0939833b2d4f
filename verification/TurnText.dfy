// What the client reads in a whole turn: pieces of what one filter and one guard let through.
module TurnText {
  import opened Basics
  import opened StreamFilter
  import opened Turn
  import opened TurnGuards

  /** The pieces of text a turn shows. */
  function Said(trace: seq<Move>): seq<string> {
    if trace == [] then []
    else (if trace[0].Say? && trace[0].event.TextDelta? then [trace[0].event.content] else []) + Said(trace[1..])
  }

  lemma {:induction false} SaidConcat(a: seq<Move>, b: seq<Move>)
    ensures Said(a + b) == Said(a) + Said(b)
  {
    if a == [] {
      assert a + b == b;
    } else {
      assert (a + b)[0] == a[0] && (a + b)[1..] == a[1..] + b;
      SaidConcat(a[1..], b);
    }
  }

  /** Each text is some segments joined, and they come in order, without overlap. */
  ghost predicate MadeOf(texts: seq<string>, segs: seq<string>)
    decreases |texts|
  {
    texts == [] || exists a, b :: 0 <= a <= b <= |segs| && Begins(texts, segs, a, b)
  }

  ghost predicate Begins(texts: seq<string>, segs: seq<string>, a: nat, b: nat)
    requires texts != [] && a <= b <= |segs|
    decreases |texts|, 0
  {
    texts[0] == Join(segs[a..b]) && MadeOf(texts[1..], segs[b..])
  }

  lemma MadeOfLater(texts: seq<string>, skipped: seq<string>, segs: seq<string>)
    requires MadeOf(texts, segs)
    ensures MadeOf(texts, skipped + segs)
  {
    if texts != [] {
      var a, b :| 0 <= a <= b <= |segs| && Begins(texts, segs, a, b);
      var all, n := skipped + segs, |skipped|;
      assert all[n + a..n + b] == segs[a..b] && all[n + b..] == segs[b..];
      assert Begins(texts, all, n + a, n + b);
    }
  }

  lemma {:induction false} MadeOfConcat(texts: seq<string>, segs: seq<string>, texts': seq<string>, segs': seq<string>)
    requires MadeOf(texts, segs) && MadeOf(texts', segs')
    ensures MadeOf(texts + texts', segs + segs')
    decreases |texts|
  {
    if texts == [] {
      assert texts + texts' == texts';
      MadeOfLater(texts', segs, segs');
    } else {
      var a, b :| 0 <= a <= b <= |segs| && Begins(texts, segs, a, b);
      MadeOfConcat(texts[1..], segs[b..], texts', segs');
      assert (texts + texts')[1..] == texts[1..] + texts';
      assert (segs + segs')[a..b] == segs[a..b] && (segs + segs')[b..] == segs[b..] + segs';
      assert Begins(texts + texts', segs + segs', a, b);
    }
  }

  lemma MadeOfOne(segs: seq<string>)
    ensures MadeOf([Join(segs)], segs) && MadeOf([], segs)
  {
    assert segs[0..|segs|] == segs;
    assert Begins([Join(segs)], segs, 0, |segs|);
  }

  // --- One step ---

  /** The text one chunk lets through is shown whole or not at all. */
  lemma ShownOnce(text: string, segs: seq<string>, outs: seq<string>, later: seq<string>)
    requires forall t :: MadeOf(Said(Deltas(t, outs)), later)
    ensures MadeOf(Said(Deltas(text, [Join(segs)] + outs)), segs + later)
  {
    var all := [Join(segs)] + outs;
    assert all[1..] == outs;
    if Shown(text, all[0]) {
      SaidConcat([Say(TextDelta(all[0]))], Deltas(text + all[0], outs));
      MadeOfOne(segs);
      MadeOfConcat([Join(segs)], segs, Said(Deltas(text + all[0], outs)), later);
    } else {
      MadeOfLater(Said(Deltas(text, outs)), segs, later);
    }
  }

  /** What a step shows, whether it is cut off by a failure or comes to its end. */
  lemma {:induction false} StepShows(isLeak: string -> bool, g: Guard, buffer: string, chunks: seq<string>,
      text: string)
    ensures var f := Filter(isLeak, g, buffer, chunks);
            var last := EndSpec(isLeak, f.guard, f.buffer).emitted;
            var emitted := StepFrom(isLeak, g, buffer, chunks).emitted;
            && MadeOf(Said(Deltas(text, f.outs)), emitted)
            && MadeOf(Said(Deltas(text, f.outs + [Join(last)])), emitted)
    decreases |chunks|
  {
    var f := Filter(isLeak, g, buffer, chunks);
    var last := EndSpec(isLeak, f.guard, f.buffer).emitted;
    if chunks == [] {
      ShownOnce(text, last, [], []);
      assert last + [] == last && f.outs + [Join(last)] == [Join(last)] + [];
    } else {
      var p := PushSpec(isLeak, g, buffer, chunks[0]);
      var later := Filter(isLeak, p.guard, p.buffer, chunks[1..]);
      var emitted := StepFrom(isLeak, p.guard, p.buffer, chunks[1..]).emitted;
      forall t
        ensures MadeOf(Said(Deltas(t, later.outs)), emitted)
        ensures MadeOf(Said(Deltas(t, later.outs + [Join(last)])), emitted)
      {
        StepShows(isLeak, p.guard, p.buffer, chunks[1..], t);
      }
      ShownOnce(text, p.emitted, later.outs, emitted);
      ShownOnce(text, p.emitted, later.outs + [Join(last)], emitted);
      assert f.outs + [Join(last)] == [Join(p.emitted)] + (later.outs + [Join(last)]);
    }
  }

  function ChunksOf(step: ModelStep): seq<string> {
    if step.Streams? then step.chunks else []
  }

  lemma FailureSaid(shown: seq<Move>)
    ensures Said(shown + [MODEL_ERROR]) == Said(shown)
  {
    SaidConcat(shown, [MODEL_ERROR]);
    assert Said([MODEL_ERROR]) == [] && Said(shown) + [] == Said(shown);
  }

  lemma AnswerShows(isLeak: string -> bool, g: Guard, step: ModelStep)
    ensures var a := Take(isLeak, g, step);
            && MadeOf(Said(a.trace), StepFrom(isLeak, g, [], ChunksOf(step)).emitted)
            && (a.calls.Some? ==> a.guard == StepFrom(isLeak, g, [], ChunksOf(step)).guard)
  {
    var outs, all := Filter(isLeak, g, [], ChunksOf(step)).outs, FilterStep(isLeak, g, ChunksOf(step)).outs;
    StepShows(isLeak, g, [], ChunksOf(step), []);
    FilterIsStep(isLeak, g, [], ChunksOf(step));
    FailureSaid([]);
    FailureSaid(Deltas([], outs));
    FailureSaid(Deltas([], all));
    assert [] + [MODEL_ERROR] == [MODEL_ERROR];
  }

  // --- The rest of a step shows no text ---

  ghost predicate Silent(trace: seq<Move>) {
    forall i :: 0 <= i < |trace| ==> !trace[i].Ask? && !(trace[i].Say? && trace[i].event.TextDelta?)
  }

  lemma {:induction false} SilentMeans(trace: seq<Move>)
    requires Silent(trace)
    ensures Said(trace) == [] && Count(trace) == 0
  {
    if trace != [] { SilentMeans(trace[1..]); }
  }

  /** Moves after others that neither show text nor ask the model. */
  lemma AfterSilent(quiet: seq<Move>, trace: seq<Move>)
    requires Silent(quiet)
    ensures Said(quiet + trace) == Said(trace) && Count(quiet + trace) == Count(trace)
  {
    SilentMeans(quiet);
    SaidConcat(quiet, trace);
    CountConcat(quiet, trace);
    assert [] + Said(trace) == Said(trace);
  }

  lemma {:induction false} AbandonedSilent(calls: seq<Called>)
    ensures Silent(Abandoned(calls))
  {
    if calls != [] { AbandonedSilent(calls[1..]); }
  }

  lemma {:induction false} DeltasCount(text: string, outs: seq<string>)
    ensures Count(Deltas(text, outs)) == 0
    decreases |outs|
  {
    if outs != [] {
      DeltasCount(text, outs[1..]);
      DeltasCount(text + outs[0], outs[1..]);
      CountConcat([Say(TextDelta(outs[0]))], Deltas(text + outs[0], outs[1..]));
    }
  }

  lemma TakeCount(isLeak: string -> bool, g: Guard, step: ModelStep)
    ensures Count(Take(isLeak, g, step).trace) == 0
  {
    var outs, all := Filter(isLeak, g, [], ChunksOf(step)).outs, FilterStep(isLeak, g, ChunksOf(step)).outs;
    DeltasCount([], outs);
    DeltasCount([], all);
    CountConcat(Deltas([], outs), [MODEL_ERROR]);
    CountConcat(Deltas([], all), [MODEL_ERROR]);
  }

  lemma DispatchSilent(c: Called, m: Meta)
    ensures Silent(DispatchTrace(c, m)) && Silent(RepeatTrace(c.call))
  {
  }

  lemma SilentConcat(a: seq<Move>, b: seq<Move>)
    requires Silent(a) && Silent(b)
    ensures Silent(a + b)
  {
  }

  lemma {:induction false} HandleSilent(env: Env, h: Handled, calls: seq<Called>)
    requires Silent(h.trace)
    ensures Silent(Handle(env, h, calls).trace)
    decreases |calls|
  {
    if calls != [] {
      var c, rest := calls[0], calls[1..];
      var m := MetaOf(env, c.call.name);
      DispatchSilent(c, m);
      SilentConcat(h.trace, RepeatTrace(c.call));
      SilentConcat(h.trace, DispatchTrace(c, m));
      if IsRepeat(env, h.seen, c.call) {
        HandleSilent(env, h.(trace := h.trace + RepeatTrace(c.call), repeated := true, progressed := true), rest);
      } else if GivesUp(c, m) {
        var left := Abandoned(rest);
        AbandonedSilent(rest);
        SilentConcat(h.trace + DispatchTrace(c, m), left);
        SilentConcat(h.trace + DispatchTrace(c, m) + left, if left == [] then [] else [Flush]);
      } else {
        var failed := FailsCall(env, c);
        HandleSilent(env, Handled(h.trace + DispatchTrace(c, m), SeenAfter(env, h.seen, c.call), h.repeated,
                                  h.failed || failed, h.progressed || !failed, false), rest);
      }
    }
  }

  // --- The whole turn ---

  /** The chunks of `n` model calls from the `k`th on. */
  function Heard(env: Env, k: nat, n: nat): seq<seq<string>>
    decreases n
  {
    if n == 0 then [] else [ChunksOf(env.model(k))] + Heard(env, k + 1, n - 1)
  }

  /** What the filter lets through of them. */
  function Emitted(env: Env, k: nat, g: Guard, n: nat): seq<string> {
    StepsFrom(env.isLeak, g, Heard(env, k, n)).emitted
  }

  ghost predicate ShowsEmitted(env: Env, k: nat, g: Guard, trace: seq<Move>) {
    MadeOf(Said(trace), Emitted(env, k, g, Count(trace)))
  }

  lemma EmittedCons(env: Env, k: nat, g: Guard, n: nat)
    ensures var first := StepFrom(env.isLeak, g, [], ChunksOf(env.model(k)));
            Emitted(env, k, g, n + 1) == first.emitted + Emitted(env, k + 1, first.guard, n)
  {
    assert Heard(env, k, n + 1)[1..] == Heard(env, k + 1, n);
  }

  lemma CallSaid(shown: seq<Move>, after: seq<Move>)
    ensures var trace := [Say(Progress), Ask] + (shown + after);
            Said(trace) == Said(shown) + Said(after) && Count(trace) == 1 + Count(shown) + Count(after)
  {
    SaidConcat(shown, after);
    CountConcat(shown, after);
    var first := [Say(Progress), Ask];
    SaidConcat(first, shown + after);
    CountConcat(first, shown + after);
    assert first[1..] == [Ask] && first[1..][1..] == [];
    assert Said([Ask]) == [] && Count([Ask]) == 1;
    assert [] + Said(shown + after) == Said(shown + after);
  }

  lemma ShowsSum(env: Env, k: nat, g: Guard, trace: seq<Move>, shown: seq<Move>, after: seq<Move>,
      first: seq<string>, later: seq<string>)
    requires Said(trace) == Said(shown) + Said(after) && Emitted(env, k, g, Count(trace)) == first + later
    requires MadeOf(Said(shown), first) && MadeOf(Said(after), later)
    ensures ShowsEmitted(env, k, g, trace)
  {
    MadeOfConcat(Said(shown), first, Said(after), later);
  }

  /** One model call, and the moves after it. */
  lemma CallShows(env: Env, k: nat, g: Guard, after: seq<Move>)
    requires ShowsEmitted(env, k + 1, StepFrom(env.isLeak, g, [], ChunksOf(env.model(k))).guard, after)
    ensures ShowsEmitted(env, k, g, [Say(Progress), Ask] + (Take(env.isLeak, g, env.model(k)).trace + after))
  {
    var step := env.model(k);
    var shown, first := Take(env.isLeak, g, step).trace, StepFrom(env.isLeak, g, [], ChunksOf(step));
    AnswerShows(env.isLeak, g, step);
    TakeCount(env.isLeak, g, step);
    CallSaid(shown, after);
    EmittedCons(env, k, g, Count(after));
    ShowsSum(env, k, g, [Say(Progress), Ask] + (shown + after), shown, after,
             first.emitted, Emitted(env, k + 1, first.guard, Count(after)));
  }

  lemma {:induction false} TurnFromShows(env: Env, k: nat, g: Guard, seen: set<string>, failures: nat)
    ensures ShowsEmitted(env, k, g, TurnFrom(env, k, g, seen, failures))
    decreases MAX_ITERATIONS - k, 2
  {
    if k < MAX_ITERATIONS {
      var a := Take(env.isLeak, g, env.model(k));
      AnswerShows(env.isLeak, g, env.model(k));
      if a.calls.None? {
        CallShows(env, k, g, []);
        assert a.trace + [] == a.trace;
      } else {
        ConcludedShows(env, k, a.guard, a.text, a.calls.value, seen, failures);
        CallShows(env, k, g, Concluded(env, k, a.guard, a.text, a.calls.value, seen, failures));
      }
    } else {
      SilentMeans([Say(Error("max_iterations"))]);
    }
  }

  lemma {:induction false} ConcludedShows(env: Env, k: nat, g: Guard, text: string, calls: seq<Called>,
      seen: set<string>, failures: nat)
    requires k < MAX_ITERATIONS
    ensures ShowsEmitted(env, k + 1, g, Concluded(env, k, g, text, calls, seen, failures))
    decreases MAX_ITERATIONS - k, 1
  {
    if g.stopped || calls == [] {
      SilentMeans(Concluded(env, k, g, text, calls, seen, failures));
    } else {
      var h0 := Handled([], seen, false, false, false, false);
      var h := Handle(env, h0, calls);
      HandleSilent(env, h0, calls);
      AfterToolsShows(env, k, g, h, failures);
      AfterSilent(h.trace, AfterTools(env, k, g, h, failures));
      AfterSilent(Commit(text, calls), h.trace + AfterTools(env, k, g, h, failures));
    }
  }

  lemma {:induction false} AfterToolsShows(env: Env, k: nat, g: Guard, h: Handled, failures: nat)
    requires k < MAX_ITERATIONS
    ensures ShowsEmitted(env, k + 1, g, AfterTools(env, k, g, h, failures))
    decreases MAX_ITERATIONS - k, 0
  {
    if !h.gaveUp && LastEvent(h, failures).None? {
      TurnFromShows(env, k + 1, g, h.seen, FailuresAfter(h, failures));
    } else {
      SilentMeans(AfterTools(env, k, g, h, failures));
    }
  }

  /**
   * All the text a turn shows is made of segments that one filter with one guard let through over all its
   * model calls: none of them leaks, and none repeats the opening line of those before it.
   */
  lemma TurnShowsClean(env: Env)
    ensures var emitted := Emitted(env, 0, Guard(None, false), Count(TurnTrace(env)));
            MadeOf(Said(TurnTrace(env)), emitted) && Unspoilt(env.isLeak, Guard(None, false), emitted)
  {
    var g, trace := Guard(None, false), TurnTrace(env);
    TurnFromShows(env, 0, g, {}, 0);
    assert ShowsEmitted(env, 0, g, trace);
    TurnEmitsClean(env.isLeak, Heard(env, 0, Count(trace)));
  }
}
