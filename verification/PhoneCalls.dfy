// Where a turn suspends: at each call to the phone, until that call comes to something.
module PhoneCalls {
  import opened Basics
  import opened Transcript
  import opened StreamFilter
  import opened Turn
  import opened TurnGuards

  // --- Where a turn suspends ---

  predicate PhoneCallAt(trace: seq<Move>, i: nat) {
    i < |trace| && trace[i].Say? && trace[i].event.ToolPending?
  }

  /** The turn gives up for want of an answer. */
  predicate GivesUpAt(trace: seq<Move>, k: nat) {
    k < |trace| && (trace[k] == Say(Error("tool_timeout")) || trace[k] == Say(Error("session_error")))
  }

  /** The call announced at `i` was dispatched just before, and what follows is what `o` comes to. */
  predicate ComesTo(trace: seq<Move>, i: nat, o: PhoneOutcome) {
    && PhoneCallAt(trace, i) && 1 <= i && i + 3 < |trace|
    && trace[i - 1].Dispatch? && trace[i - 1].call.id == trace[i].event.id
    && [trace[i + 1], trace[i + 2], trace[i + 3]] == PhoneAnswer(trace[i - 1].call, o)
  }

  ghost predicate Announced(trace: seq<Move>, i: nat) {
    exists o :: ComesTo(trace, i, o)
  }

  /** Every announced call comes to something, and nothing else makes a turn give up. */
  ghost predicate Suspends(trace: seq<Move>) {
    && (forall i :: 0 <= i < |trace| && PhoneCallAt(trace, i) ==> Announced(trace, i))
    && (forall k :: 0 <= k < |trace| && GivesUpAt(trace, k) ==> k >= 3 && PhoneCallAt(trace, k - 3))
  }

  ghost predicate Quiet(trace: seq<Move>) {
    forall i :: 0 <= i < |trace| ==> !PhoneCallAt(trace, i) && !GivesUpAt(trace, i)
  }

  lemma ComesToWithin(a: seq<Move>, b: seq<Move>, i: nat, o: PhoneOutcome)
    ensures ComesTo(a, i, o) ==> ComesTo(a + b, i, o)
    ensures ComesTo(b, i, o) ==> ComesTo(a + b, |a| + i, o)
  {
  }

  lemma SuspendsConcat(a: seq<Move>, b: seq<Move>)
    requires Suspends(a) && Suspends(b)
    ensures Suspends(a + b)
  {
    var c := a + b;
    forall i | 0 <= i < |c| && PhoneCallAt(c, i) ensures Announced(c, i) {
      if i < |a| {
        assert PhoneCallAt(a, i) && Announced(a, i);
        var o :| ComesTo(a, i, o);
        ComesToWithin(a, b, i, o);
      } else {
        assert PhoneCallAt(b, i - |a|) && Announced(b, i - |a|);
        var o :| ComesTo(b, i - |a|, o);
        ComesToWithin(a, b, i - |a|, o);
      }
    }
    forall k | 0 <= k < |c| && GivesUpAt(c, k) ensures k >= 3 && PhoneCallAt(c, k - 3) {
      assert if k < |a| then GivesUpAt(a, k) else GivesUpAt(b, k - |a|);
    }
  }

  lemma QuietConcat(a: seq<Move>, b: seq<Move>)
    requires Quiet(a) && Quiet(b)
    ensures Quiet(a + b)
  {
    var c := a + b;
    forall i | 0 <= i < |c| ensures !PhoneCallAt(c, i) && !GivesUpAt(c, i) {
      assert if i < |a| then !PhoneCallAt(a, i) && !GivesUpAt(a, i)
             else !PhoneCallAt(b, i - |a|) && !GivesUpAt(b, i - |a|);
    }
  }

  lemma {:induction false} DeltasQuiet(text: string, outs: seq<string>)
    ensures Quiet(Deltas(text, outs))
    decreases |outs|
  {
    if outs != [] {
      if Shown(text, outs[0]) {
        DeltasQuiet(text + outs[0], outs[1..]);
        QuietConcat([Say(TextDelta(outs[0]))], Deltas(text + outs[0], outs[1..]));
      } else {
        DeltasQuiet(text, outs[1..]);
      }
    }
  }

  lemma {:induction false} AbandonedQuiet(calls: seq<Called>)
    ensures Quiet(Abandoned(calls))
  {
    if calls != [] {
      AbandonedQuiet(calls[1..]);
      QuietConcat([Push(ResultMessage(calls[0].call, Failure("interrupted")))], Abandoned(calls[1..]));
    }
  }

  lemma DispatchSuspends(c: Called, m: Meta)
    ensures Suspends(DispatchTrace(c, m))
  {
    var trace := DispatchTrace(c, m);
    if m.executor == Server {
      assert Quiet(trace);
    } else {
      var answer := PhoneAnswer(c.call, c.phone);
      assert trace == [Dispatch(c.call, m.capability == Write), Say(ToolPending(c.call.id))] + answer;
      assert |answer| == 3 && answer == [answer[0], answer[1], answer[2]];
      assert ComesTo(trace, 1, c.phone);
    }
  }

  lemma {:induction false} HandleSuspends(env: Env, h: Handled, calls: seq<Called>)
    requires Suspends(h.trace)
    ensures Suspends(Handle(env, h, calls).trace)
    decreases |calls|
  {
    if calls != [] {
      var c, rest := calls[0], calls[1..];
      var m := MetaOf(env, c.call.name);
      if IsRepeat(env, h.seen, c.call) {
        assert Quiet(RepeatTrace(c.call));
        SuspendsConcat(h.trace, RepeatTrace(c.call));
        HandleSuspends(env, h.(trace := h.trace + RepeatTrace(c.call), repeated := true, progressed := true), rest);
      } else {
        DispatchSuspends(c, m);
        SuspendsConcat(h.trace, DispatchTrace(c, m));
        if GivesUp(c, m) {
          var left := Abandoned(rest);
          var last := if left == [] then [] else [Flush];
          AbandonedQuiet(rest);
          SuspendsConcat(h.trace + DispatchTrace(c, m), left);
          assert Quiet(last);
          SuspendsConcat(h.trace + DispatchTrace(c, m) + left, last);
        } else {
          var failed := FailsCall(env, c);
          HandleSuspends(env, Handled(h.trace + DispatchTrace(c, m), SeenAfter(env, h.seen, c.call), h.repeated,
                                      h.failed || failed, h.progressed || !failed, false), rest);
        }
      }
    }
  }

  lemma CommitQuiet(text: string, calls: seq<Called>)
    ensures Quiet(Commit(text, calls))
  {
  }

  lemma TakeQuiet(isLeak: string -> bool, g: Guard, step: ModelStep)
    ensures Quiet(Take(isLeak, g, step).trace)
  {
    if step.Streams? {
      var outs := if step.ending.StreamFails? then Filter(isLeak, g, [], step.chunks).outs
                  else FilterStep(isLeak, g, step.chunks).outs;
      DeltasQuiet([], outs);
      assert Quiet([MODEL_ERROR]);
      QuietConcat(Deltas([], outs), [MODEL_ERROR]);
    }
  }

  lemma {:induction false} TurnSuspends(env: Env, k: nat, g: Guard, seen: set<string>, failures: nat)
    ensures Suspends(TurnFrom(env, k, g, seen, failures))
    decreases MAX_ITERATIONS - k
  {
    if k < MAX_ITERATIONS {
      var a := Take(env.isLeak, g, env.model(k));
      TakeQuiet(env.isLeak, g, env.model(k));
      assert Quiet([Say(Progress), Ask]);
      if a.calls.Some? {
        ConcludedSuspends(env, k, a.guard, a.text, a.calls.value, seen, failures);
        SuspendsConcat(a.trace, Concluded(env, k, a.guard, a.text, a.calls.value, seen, failures));
      }
      SuspendsConcat([Say(Progress), Ask], AnswerFrom(env, k, g, seen, failures));
    } else {
      assert Quiet([Say(Error("max_iterations"))]);
    }
  }

  lemma {:induction false} ConcludedSuspends(env: Env, k: nat, g: Guard, text: string, calls: seq<Called>,
      seen: set<string>, failures: nat)
    requires k < MAX_ITERATIONS
    ensures Suspends(Concluded(env, k, g, text, calls, seen, failures))
    decreases MAX_ITERATIONS - k, 1
  {
    assert Quiet([Flush, Say(Done)]);
    CommitQuiet(text, calls);
    if g.stopped {
      var first := if text == [] then [] else [Push(Assistant([Text(text)]))];
      assert Quiet(first);
      QuietConcat(first, [Flush, Say(Done)]);
    } else if calls == [] {
      QuietConcat(Commit(text, calls), [Flush, Say(Done)]);
    } else {
      var h0 := Handled([], seen, false, false, false, false);
      var h := Handle(env, h0, calls);
      HandleSuspends(env, h0, calls);
      AfterToolsSuspends(env, k, g, h, failures);
      SuspendsConcat(h.trace, AfterTools(env, k, g, h, failures));
      SuspendsConcat(Commit(text, calls), h.trace + AfterTools(env, k, g, h, failures));
    }
  }

  lemma {:induction false} AfterToolsSuspends(env: Env, k: nat, g: Guard, h: Handled, failures: nat)
    requires k < MAX_ITERATIONS
    ensures Suspends(AfterTools(env, k, g, h, failures))
    decreases MAX_ITERATIONS - k, 0
  {
    if h.gaveUp {
    } else if LastEvent(h, failures).Some? {
      assert Quiet([Flush, Say(LastEvent(h, failures).value)]);
    } else {
      TurnSuspends(env, k + 1, g, h.seen, FailuresAfter(h, failures));
    }
  }

  /**
   * Every call to the phone is announced right after its dispatch and comes to something before anything
   * else is done; a turn gives up at no other point.
   */
  lemma EveryTurnSuspends(env: Env)
    ensures Suspends(TurnTrace(env))
  {
    TurnSuspends(env, 0, Guard(None, false), {}, 0);
  }

  /** What a call comes to is plain from the last of its moves. */
  lemma LastOfAnswer(trace: seq<Move>, i: nat, o: PhoneOutcome)
    requires ComesTo(trace, i, o)
    ensures trace[i + 1].Push? && trace[i + 2].Flush?
    ensures trace[i + 3] == match o
                            case Responded(status, _) => Came(!status.Failed?)
                            case NoResponse => Say(Error("tool_timeout"))
                            case SessionLost(_) => Say(Error("session_error"))
  {
    assert [trace[i + 1], trace[i + 2], trace[i + 3]][0] == PhoneAnswer(trace[i - 1].call, o)[0];
    assert [trace[i + 1], trace[i + 2], trace[i + 3]][1] == PhoneAnswer(trace[i - 1].call, o)[1];
    assert [trace[i + 1], trace[i + 2], trace[i + 3]][2] == PhoneAnswer(trace[i - 1].call, o)[2];
  }

  // --- What becomes of a turn that gets no answer ---

  /** The turn goes on: it asks the model again, runs another tool or tells the client something. */
  predicate GoesOn(move: Move) {
    move.Ask? || move.Dispatch? || move.Say?
  }

  /** The turn ends with the event it says at `k`, and does nothing more than mark what it never got to. */
  ghost predicate EndsAt(trace: seq<Move>, k: nat) {
    && k < |trace| && trace[k].Say? && EventsOf(trace) != []
    && trace[k].event == EventsOf(trace)[|EventsOf(trace)| - 1]
    && forall j :: k < j < |trace| ==> !GoesOn(trace[j])
  }

  /** A call that gets no answer ends the turn then and there. */
  lemma UnansweredEndsTurn(env: Env, i: nat, o: PhoneOutcome)
    requires ComesTo(TurnTrace(env), i, o) && !o.Responded?
    ensures EndsAt(TurnTrace(env), i + 3)
  {
    var trace := TurnTrace(env);
    LastOfAnswer(trace, i, o);
    forall j | i + 3 < j < |trace| ensures !GoesOn(trace[j]) { NothingAfterTerminal(env, i + 3, j); }
    ExactlyOneTerminalEvent(env);
    LastEventIff(trace, trace[i + 3].event);
  }

  /** Nothing but a call that gets no answer makes a turn give up. */
  lemma GivesUpForACall(trace: seq<Move>, k: nat) returns (o: PhoneOutcome)
    requires Suspends(trace) && GivesUpAt(trace, k)
    ensures k >= 3 && ComesTo(trace, k - 3, o) && !o.Responded?
    ensures trace[k] == (if o.NoResponse? then Say(Error("tool_timeout")) else Say(Error("session_error")))
  {
    assert Announced(trace, k - 3);
    o :| ComesTo(trace, k - 3, o);
    LastOfAnswer(trace, k - 3, o);
  }

  /** The event a turn ends with. */
  function LastEventOf(env: Env): Event {
    LastOf(EventsOf(TurnTrace(env)))
  }

  function LastOf(events: seq<Event>): Event {
    if events == [] then Event.Progress else events[|events| - 1]
  }

  lemma LastIsSaid(trace: seq<Move>) returns (k: nat)
    requires OneTerminal(EventsOf(trace))
    ensures k < |trace| && trace[k] == Say(LastOf(EventsOf(trace)))
  {
    LastEventIff(trace, LastOf(EventsOf(trace)));
    k :| k < |trace| && trace[k] == Say(LastOf(EventsOf(trace)));
  }

  lemma EndsWith(trace: seq<Move>, i: nat, o: PhoneOutcome)
    requires ComesTo(trace, i, o) && !o.Responded? && EndsAt(trace, i + 3)
    ensures LastOf(EventsOf(trace)) == if o.NoResponse? then Error("tool_timeout") else Error("session_error")
  {
    LastOfAnswer(trace, i, o);
  }

  lemma GaveUpForACall(trace: seq<Move>) returns (i: nat, o: PhoneOutcome)
    requires Suspends(trace) && OneTerminal(EventsOf(trace))
    requires LastOf(EventsOf(trace)) == Error("tool_timeout") || LastOf(EventsOf(trace)) == Error("session_error")
    ensures ComesTo(trace, i, o) && !o.Responded?
    ensures LastOf(EventsOf(trace)) == if o.NoResponse? then Error("tool_timeout") else Error("session_error")
  {
    var k := LastIsSaid(trace);
    o := GivesUpForACall(trace, k);
    i := k - 3;
  }

  /** A turn times out exactly when one of its calls to the phone does. */
  lemma TimesOutIff(env: Env)
    ensures LastEventOf(env) == Error("tool_timeout") <==> exists i :: ComesTo(TurnTrace(env), i, NoResponse)
  {
    if LastEventOf(env) == Error("tool_timeout") {
      EveryTurnSuspends(env);
      ExactlyOneTerminalEvent(env);
      var i, o := GaveUpForACall(TurnTrace(env));
    }
    if i :| ComesTo(TurnTrace(env), i, NoResponse) {
      UnansweredEndsTurn(env, i, NoResponse);
      EndsWith(TurnTrace(env), i, NoResponse);
    }
  }

  /** It loses its session exactly when one of its calls to the phone is torn down or refused. */
  lemma LosesSessionIff(env: Env)
    ensures LastEventOf(env) == Error("session_error")
            <==> exists i, message :: ComesTo(TurnTrace(env), i, SessionLost(message))
  {
    if LastEventOf(env) == Error("session_error") {
      EveryTurnSuspends(env);
      ExactlyOneTerminalEvent(env);
      var i, o := GaveUpForACall(TurnTrace(env));
      assert ComesTo(TurnTrace(env), i, SessionLost(o.message));
    }
    if i, message :| ComesTo(TurnTrace(env), i, SessionLost(message)) {
      UnansweredEndsTurn(env, i, SessionLost(message));
      EndsWith(TurnTrace(env), i, SessionLost(message));
    }
  }

  lemma NothingAfterEnd(trace: seq<Move>, i: nat, o: PhoneOutcome, k: nat)
    requires ComesTo(trace, i, o) && i < k < |trace| && (trace[k].Ask? || trace[k].Dispatch?)
    ensures !EndsAt(trace, i + 3)
  {
    LastOfAnswer(trace, i, o);
    assert GoesOn(trace[k]);
  }

  /** After a call to the phone a turn calls the model or a tool again only if the call was answered. */
  lemma OnlyAnswersGoOn(env: Env, i: nat, o: PhoneOutcome, k: nat)
    requires ComesTo(TurnTrace(env), i, o) && i < k < |TurnTrace(env)|
    requires TurnTrace(env)[k].Ask? || TurnTrace(env)[k].Dispatch?
    ensures o.Responded?
  {
    NothingAfterEnd(TurnTrace(env), i, o, k);
    if !o.Responded? { UnansweredEndsTurn(env, i, o); }
  }
}
