// A turn does not anticipate the phone: up to a call it makes the same moves whatever will come of the call.
module Anticipation {
  import opened Basics
  import opened Transcript
  import opened StreamFilter
  import opened Turn
  import opened PhoneCalls

  ghost predicate SamePast(a: seq<Move>, b: seq<Move>, i: nat) {
    i < |a| && i < |b| && a[..i + 1] == b[..i + 1]
  }

  /** The same moves up to the call at `i`, which then comes to `o`. */
  ghost predicate Redone(a: seq<Move>, b: seq<Move>, i: nat, o: PhoneOutcome) {
    SamePast(a, b, i) && ComesTo(b, i, o)
  }

  lemma RedoneAfter(x: seq<Move>, a: seq<Move>, b: seq<Move>, i: nat, o: PhoneOutcome)
    requires Redone(a, b, i, o)
    ensures Redone(x + a, x + b, |x| + i, o)
  {
    ComesToWithin(x, b, i, o);
    assert (x + a)[..|x| + i + 1] == x + a[..i + 1];
    assert (x + b)[..|x| + i + 1] == x + b[..i + 1];
  }

  lemma RedoneBefore(a: seq<Move>, b: seq<Move>, x: seq<Move>, y: seq<Move>, i: nat, o: PhoneOutcome)
    requires Redone(a, b, i, o)
    ensures Redone(a + x, b + y, i, o)
  {
    ComesToWithin(b, y, i, o);
    assert (a + x)[..i + 1] == a[..i + 1] && (b + y)[..i + 1] == b[..i + 1];
  }

  /** A call to the phone is not among quiet moves. */
  lemma NotWithin(x: seq<Move>, a: seq<Move>, i: nat)
    requires Quiet(x) && PhoneCallAt(x + a, i)
    ensures i >= |x| && PhoneCallAt(a, i - |x|)
  {
    assert forall k :: 0 <= k < |x| ==> !PhoneCallAt(x, k) && (x + a)[k] == x[k];
  }

  /** What an earlier call came to is behind the turn when it announces a later one. */
  lemma SameOutcome(a: seq<Move>, b: seq<Move>, i: nat, k: nat, o: PhoneOutcome)
    requires SamePast(a, b, i) && PhoneCallAt(a, i) && k < i && ComesTo(a, k, o)
    ensures ComesTo(b, k, o)
  {
    LastOfAnswer(a, k, o);
    assert forall j :: 0 <= j <= i ==> a[j] == a[..i + 1][j] && b[j] == b[..i + 1][j];
  }

  lemma NotWithinTwo(x: seq<Move>, y: seq<Move>, a: seq<Move>, t: seq<Move>, i: nat) returns (n: nat)
    requires Quiet(x) && Quiet(y) && t == x + (y + a) && PhoneCallAt(t, i)
    ensures i == |x| + |y| + n && PhoneCallAt(a, n)
  {
    NotWithin(x, y + a, i);
    NotWithin(y, a, i - |x|);
    n := i - |x| - |y|;
  }

  // --- The tool calls of a step ---

  /** The calls of a step with other outcomes. */
  ghost predicate SameCalls(a: seq<Called>, b: seq<Called>) {
    |a| == |b| && forall j :: 0 <= j < |a| ==> a[j].call == b[j].call
  }

  predicate StopsAt(env: Env, h: Handled, c: Called) {
    !IsRepeat(env, h.seen, c.call) && GivesUp(c, MetaOf(env, c.call.name))
  }

  function CallTrace(env: Env, h: Handled, c: Called): seq<Move> {
    if IsRepeat(env, h.seen, c.call) then RepeatTrace(c.call) else DispatchTrace(c, MetaOf(env, c.call.name))
  }

  /** Where a call that does not stop the turn leaves it. */
  function OneCall(env: Env, h: Handled, c: Called): Handled {
    if IsRepeat(env, h.seen, c.call) then
      h.(trace := h.trace + RepeatTrace(c.call), repeated := true, progressed := true)
    else
      var failed := FailsCall(env, c);
      Handled(h.trace + DispatchTrace(c, MetaOf(env, c.call.name)), SeenAfter(env, h.seen, c.call), h.repeated,
              h.failed || failed, h.progressed || !failed, false)
  }

  function GivenUp(rest: seq<Called>): seq<Move> {
    Abandoned(rest) + (if Abandoned(rest) == [] then [] else [Flush])
  }

  lemma HandleOne(env: Env, h: Handled, calls: seq<Called>)
    requires calls != []
    ensures StopsAt(env, h, calls[0]) ==>
      Handle(env, h, calls).trace == h.trace + CallTrace(env, h, calls[0]) + GivenUp(calls[1..])
    ensures !StopsAt(env, h, calls[0]) ==>
      && Handle(env, h, calls) == Handle(env, OneCall(env, h, calls[0]), calls[1..])
      && OneCall(env, h, calls[0]).trace == h.trace + CallTrace(env, h, calls[0])
  {
    var left := Abandoned(calls[1..]);
    Associative(h.trace + CallTrace(env, h, calls[0]), left, if left == [] then [] else [Flush]);
  }

  lemma {:induction false} HandleExtends(env: Env, h: Handled, calls: seq<Called>) returns (later: seq<Move>)
    ensures Handle(env, h, calls).trace == h.trace + later
    decreases |calls|
  {
    if calls == [] {
      later := [];
    } else {
      var own := CallTrace(env, h, calls[0]);
      HandleOne(env, h, calls);
      if StopsAt(env, h, calls[0]) {
        later := GivenUp(calls[1..]);
      } else {
        later := HandleExtends(env, OneCall(env, h, calls[0]), calls[1..]);
      }
      Associative(h.trace, own, later);
      later := own + later;
    }
  }

  lemma {:induction false} HandleSame(env: Env, env': Env, h: Handled, calls: seq<Called>)
    requires env'.registry == env.registry
    ensures Handle(env', h, calls) == Handle(env, h, calls)
    decreases |calls|
  {
    if calls != [] {
      HandleOne(env, h, calls);
      HandleOne(env', h, calls);
      if !StopsAt(env, h, calls[0]) { HandleSame(env, env', OneCall(env, h, calls[0]), calls[1..]); }
    }
  }

  lemma QuietAnswer(c: ToolCall, o: PhoneOutcome)
    ensures |PhoneAnswer(c, o)| == 3 && forall i :: 0 <= i < 3 ==> !PhoneCallAt(PhoneAnswer(c, o), i)
  {
  }

  lemma RedoneDispatch(c: Called, m: Meta, i: nat, o: PhoneOutcome)
    requires PhoneCallAt(DispatchTrace(c, m), i)
    ensures m.executor == Mobile && Redone(DispatchTrace(c, m), DispatchTrace(c.(phone := o), m), i, o)
  {
    var first := [Dispatch(c.call, m.capability == Write), Say(ToolPending(c.call.id))];
    var a, b := PhoneAnswer(c.call, c.phone), PhoneAnswer(c.call, o);
    QuietAnswer(c.call, c.phone);
    QuietAnswer(c.call, o);
    if m.executor == Mobile {
      assert DispatchTrace(c, m) == first + a && DispatchTrace(c.(phone := o), m) == first + b;
      assert i >= 2 ==> PhoneCallAt(a, i - 2);
      assert b == [b[0], b[1], b[2]];
    }
  }

  /** No announcement but that of a call that is dispatched to the phone. */
  lemma QuietRest(c: Called, rest: seq<Called>, i: nat)
    ensures !PhoneCallAt(RepeatTrace(c.call), i) && !PhoneCallAt(GivenUp(rest), i)
  {
    AbandonedQuiet(rest);
    assert i < |Abandoned(rest)| ==> !PhoneCallAt(Abandoned(rest), i);
  }

  lemma {:induction false} RedoneHandle(env: Env, h: Handled, calls: seq<Called>, i: nat, o: PhoneOutcome)
    returns (calls': seq<Called>)
    requires |h.trace| <= i && PhoneCallAt(Handle(env, h, calls).trace, i)
    ensures SameCalls(calls, calls')
    ensures Redone(Handle(env, h, calls).trace, Handle(env, h, calls').trace, i, o)
    decreases |calls|
  {
    var c, rest := calls[0], calls[1..];
    var own := CallTrace(env, h, c);
    HandleOne(env, h, calls);
    if i < |h.trace + own| {
      calls' := [c.(phone := o)] + rest;
      RedoneFirst(env, h, calls, calls', i, o);
    } else {
      if StopsAt(env, h, c) {
        QuietRest(c, rest, i - |h.trace + own|);
      }
      var rest' := RedoneHandle(env, OneCall(env, h, c), rest, i, o);
      calls' := [c] + rest';
      HandleOne(env, h, calls');
    }
  }

  lemma RedoneFirst(env: Env, h: Handled, calls: seq<Called>, calls': seq<Called>, i: nat, o: PhoneOutcome)
    requires calls != [] && calls' == [calls[0].(phone := o)] + calls[1..]
    requires PhoneCallAt(Handle(env, h, calls).trace, i)
    requires |h.trace| <= i < |h.trace + CallTrace(env, h, calls[0])|
    ensures Redone(Handle(env, h, calls).trace, Handle(env, h, calls').trace, i, o)
  {
    var m := MetaOf(env, calls[0].call.name);
    var own, own' := CallTrace(env, h, calls[0]), CallTrace(env, h, calls'[0]);
    var later := HandleAfterOne(env, h, calls);
    var later' := HandleAfterOne(env, h, calls');
    var k := i - |h.trace|;
    var t := Handle(env, h, calls).trace;
    assert PhoneCallAt(own, k) by { assert t[i] == own[k]; }
    QuietRest(calls[0], [], k);
    RedoneDispatch(calls[0], m, k, o);
    var t' := RedoneWithin(h.trace, own, own', later, later', t, k, i, o);
  }

  lemma HandleAfterOne(env: Env, h: Handled, calls: seq<Called>) returns (later: seq<Move>)
    requires calls != []
    ensures Handle(env, h, calls).trace == h.trace + (CallTrace(env, h, calls[0]) + later)
  {
    HandleOne(env, h, calls);
    if StopsAt(env, h, calls[0]) {
      later := GivenUp(calls[1..]);
    } else {
      later := HandleExtends(env, OneCall(env, h, calls[0]), calls[1..]);
    }
    Associative(h.trace, CallTrace(env, h, calls[0]), later);
  }

  // --- The whole turn ---

  /** The same tools and filter, and the same model up to its `k`th call. */
  ghost predicate SameUntil(env: Env, env': Env, k: nat) {
    && env'.isLeak == env.isLeak && env'.registry == env.registry
    && forall j: nat :: j < k ==> env'.model(j) == env.model(j)
  }

  function WithCalls(env: Env, k: nat, calls: seq<Called>): Env {
    var step := env.model(k);
    env.(model := (n: nat) => if n == k && step.Streams? then step.(ending := Calling(calls)) else env.model(n))
  }

  lemma SameCommit(text: string, calls: seq<Called>, calls': seq<Called>)
    requires SameCalls(calls, calls')
    ensures Commit(text, calls') == Commit(text, calls)
  {
    assert Parts(text, calls') == Parts(text, calls);
  }

  /** A step whose tool calls, or what follows them, hold the call to the phone. */
  lemma {:induction false} RedoneTools(env: Env, k: nat, g: Guard, text: string, calls: seq<Called>,
      seen: set<string>, failures: nat, rest: seq<Move>, i: nat, o: PhoneOutcome)
    returns (env': Env, calls': seq<Called>, rest': seq<Move>)
    requires k < MAX_ITERATIONS && !g.stopped && calls != []
    requires env.model(k).Streams? && env.model(k).ending == Calling(calls)
    requires rest == Concluded(env, k, g, text, calls, seen, failures) && PhoneCallAt(rest, i)
    ensures SameUntil(env, env', k) && env'.model(k) == env.model(k).(ending := Calling(calls')) && calls' != []
    ensures rest' == Concluded(env', k, g, text, calls', seen, failures) && Redone(rest, rest', i, o)
    decreases MAX_ITERATIONS - k, 1
  {
    var h0 := Handled([], seen, false, false, false, false);
    var h, commit := Handle(env, h0, calls), Commit(text, calls);
    var after := AfterTools(env, k, g, h, failures);
    assert rest == commit + (h.trace + after);
    CommitQuiet(text, calls);
    NotWithin(commit, h.trace + after, i);
    var n := i - |commit|;
    if n < |h.trace| {
      assert PhoneCallAt(h.trace, n);
      calls' := RedoneHandle(env, h0, calls, n, o);
      env' := WithCalls(env, k, calls');
      HandleSame(env, env', h0, calls');
      SameCommit(text, calls, calls');
      var h' := Handle(env', h0, calls');
      rest' := RedoneWithin(commit, h.trace, h'.trace, after, AfterTools(env', k, g, h', failures), rest, n, i, o);
    } else {
      calls' := calls;
      assert PhoneCallAt(after, n - |h.trace|);
      var after';
      env', after' := RedoneAfterTools(env, k, g, h, failures, after, n - |h.trace|, o);
      HandleSame(env, env', h0, calls);
      rest' := RedonePast(commit, h.trace, after, after', rest, n - |h.trace|, i, o);
    }
  }

  lemma RedoneWithin(x: seq<Move>, a: seq<Move>, b: seq<Move>, y: seq<Move>, z: seq<Move>, t: seq<Move>,
      n: nat, i: nat, o: PhoneOutcome) returns (t': seq<Move>)
    requires Redone(a, b, n, o) && t == x + (a + y) && i == |x| + n
    ensures t' == x + (b + z) && Redone(t, t', i, o)
  {
    RedoneBefore(a, b, y, z, n, o);
    RedoneAfter(x, a + y, b + z, n, o);
    t' := x + (b + z);
  }

  lemma {:induction false} RedoneAfterTools(env: Env, k: nat, g: Guard, h: Handled, failures: nat,
      after: seq<Move>, i: nat, o: PhoneOutcome) returns (env': Env, after': seq<Move>)
    requires k < MAX_ITERATIONS && after == AfterTools(env, k, g, h, failures) && PhoneCallAt(after, i)
    ensures SameUntil(env, env', k + 1)
    ensures after' == AfterTools(env', k, g, h, failures) && Redone(after, after', i, o)
    decreases MAX_ITERATIONS - k, 0
  {
    env', after' := RedoneTurn(env, k + 1, g, h.seen, FailuresAfter(h, failures), after, i, o);
  }

  lemma CallsOnlyWithTools(env: Env, k: nat, g: Guard, text: string, calls: seq<Called>,
      seen: set<string>, failures: nat, i: nat)
    requires k < MAX_ITERATIONS && PhoneCallAt(Concluded(env, k, g, text, calls, seen, failures), i)
    ensures !g.stopped && calls != []
  {
    if g.stopped || calls == [] { CommitQuiet(text, calls); }
  }

  lemma TurnFromIs(env: Env, k: nat, g: Guard, seen: set<string>, failures: nat)
    requires k < MAX_ITERATIONS
    ensures var a := Take(env.isLeak, g, env.model(k));
            TurnFrom(env, k, g, seen, failures) == [Say(Progress), Ask] +
              if a.calls.None? then a.trace
              else a.trace + Concluded(env, k, a.guard, a.text, a.calls.value, seen, failures)
  {
  }

  /** A call to the phone comes after the answer of the model has been taken in. */
  lemma Opened(env: Env, k: nat, g: Guard, seen: set<string>, failures: nat, t: seq<Move>, i: nat)
    returns (a: Answer, rest: seq<Move>, n: nat)
    requires t == TurnFrom(env, k, g, seen, failures) && PhoneCallAt(t, i)
    ensures k < MAX_ITERATIONS && a == Take(env.isLeak, g, env.model(k)) && a.calls.Some?
    ensures env.model(k).Streams? && env.model(k).ending == Calling(a.calls.value)
    ensures !a.guard.stopped && a.calls.value != []
    ensures rest == Concluded(env, k, a.guard, a.text, a.calls.value, seen, failures) && PhoneCallAt(rest, n)
    ensures t == [Say(Progress), Ask] + (a.trace + rest) && i == 2 + |a.trace| + n
  {
    a := Take(env.isLeak, g, env.model(k));
    TakeQuiet(env.isLeak, g, env.model(k));
    TurnFromIs(env, k, g, seen, failures);
    rest := if a.calls.None? then [] else Concluded(env, k, a.guard, a.text, a.calls.value, seen, failures);
    assert a.trace + [] == a.trace;
    n := NotWithinTwo([Say(Progress), Ask], a.trace, rest, t, i);
    CallsOnlyWithTools(env, k, a.guard, a.text, a.calls.value, seen, failures, n);
  }

  /** How the answer of the model comes in does not depend on what becomes of its tool calls. */
  lemma Reopened(env: Env, env': Env, k: nat, g: Guard, seen: set<string>, failures: nat, a: Answer,
      calls': seq<Called>, rest': seq<Move>)
    requires k < MAX_ITERATIONS && a == Take(env.isLeak, g, env.model(k)) && env'.isLeak == env.isLeak
    requires env.model(k).Streams? && env.model(k).ending.Calling?
    requires env'.model(k) == env.model(k).(ending := Calling(calls'))
    requires rest' == Concluded(env', k, a.guard, a.text, calls', seen, failures)
    ensures [Say(Progress), Ask] + (a.trace + rest') == TurnFrom(env', k, g, seen, failures)
  {
    assert Take(env'.isLeak, g, env'.model(k)) == a.(calls := Some(calls'));
    TurnFromIs(env', k, g, seen, failures);
  }

  lemma {:induction false} RedoneTurn(env: Env, k: nat, g: Guard, seen: set<string>, failures: nat,
      t: seq<Move>, i: nat, o: PhoneOutcome) returns (env': Env, t': seq<Move>)
    requires t == TurnFrom(env, k, g, seen, failures) && PhoneCallAt(t, i)
    ensures SameUntil(env, env', k)
    ensures t' == TurnFrom(env', k, g, seen, failures) && Redone(t, t', i, o)
    decreases MAX_ITERATIONS - k, 2
  {
    var a, rest, n := Opened(env, k, g, seen, failures, t, i);
    var calls', rest';
    env', calls', rest' := RedoneTools(env, k, a.guard, a.text, a.calls.value, seen, failures, rest, n, o);
    Reopened(env, env', k, g, seen, failures, a, calls', rest');
    t' := RedonePast([Say(Progress), Ask], a.trace, rest, rest', t, n, i, o);
  }

  lemma RedonePast(x: seq<Move>, y: seq<Move>, a: seq<Move>, b: seq<Move>, t: seq<Move>, n: nat, i: nat,
      o: PhoneOutcome) returns (t': seq<Move>)
    requires Redone(a, b, n, o) && t == x + (y + a) && i == |x| + |y| + n
    ensures t' == x + (y + b) && Redone(t, t', i, o)
  {
    RedoneAfter(y, a, b, n, o);
    RedoneAfter(x, y + a, y + b, |y| + n, o);
    t' := x + (y + b);
  }

  /** Whatever a turn has done up to a call to the phone, the call can come to anything. */
  lemma NothingIsAnticipated(env: Env, i: nat, o: PhoneOutcome) returns (env': Env)
    requires PhoneCallAt(TurnTrace(env), i)
    ensures Redone(TurnTrace(env), TurnTrace(env'), i, o)
  {
    var t';
    env', t' := RedoneTurn(env, 0, Guard(None, false), {}, 0, TurnTrace(env), i, o);
  }
}
