// The `interrupted_at` mark that a reconnect puts on what it re-delivers: by whose time it goes.
module Interruption {
  import opened Json
  import opened Rendezvous

  // --- Runs, world by world ---

  /** The operations can happen one after the other, and lead through these worlds. */
  ghost predicate Leads(ws: seq<World>, ops: seq<Op>) {
    && |ws| == |ops| + 1
    && forall i :: 0 <= i < |ops| ==> Enabled(ws[i], ops[i]) && ws[i + 1] == Step(ws[i], ops[i])
  }

  ghost predicate Runs(ws: seq<World>, ops: seq<Op>) {
    Leads(ws, ops) && exists now :: ws[0] == Start(now)
  }

  lemma {:induction false} RunReaches(ws: seq<World>, ops: seq<Op>, k: nat, n: nat)
    requires Runs(ws, ops) && k <= n <= |ops|
    ensures Reaches(ws[k], ops[k..n], ws[n])
    decreases n - k
  {
    if k < n {
      RunReaches(ws, ops, k + 1, n);
      assert ops[k..n][1..] == ops[k + 1..n];
    }
  }

  lemma RunIsReachable(ws: seq<World>, ops: seq<Op>, n: nat)
    requires Runs(ws, ops) && n <= |ops|
    ensures Reachable(ws[n])
  {
    RunReaches(ws, ops, 0, n);
  }

  lemma ClockStep(w: World, op: Op)
    requires Enabled(w, op)
    ensures w.store.now <= Step(w, op).store.now
  {
  }

  lemma {:induction false} ClockRuns(ws: seq<World>, ops: seq<Op>, k: nat, n: nat)
    requires Runs(ws, ops) && k <= n <= |ops|
    ensures ws[k].store.now <= ws[n].store.now
    decreases n - k
  {
    if k < n {
      ClockRuns(ws, ops, k, n - 1);
      ClockStep(ws[n - 1], ops[n - 1]);
      assert ws[n - 1 + 1] == ws[n];
    }
  }

  // --- What `awaitingMobileSince` holds ---

  /** The turn of the session announces a call, accepted or not. */
  predicate Announces(op: Op, sid: Sid) {
    op.RegisterOp? && op.sid == sid
  }

  /** The call announced at `i`, after which the turns of the session have not gone on with an answer by `n`. */
  ghost predicate Standing(ws: seq<World>, ops: seq<Op>, sid: Sid, i: nat, n: nat)
    requires n <= |ops| && |ws| == |ops| + 1
  {
    i < n && Announces(ops[i], sid) && forall k :: i < k < n ==> !ResumesAnswered(ws[k], ops[k], sid)
  }

  /** What one operation does to it. */
  lemma SinceStep(w: World, op: Op, sid: Sid)
    requires Enabled(w, op)
    ensures var since, since' := w.since, Step(w, op).since;
            if Announces(op, sid) then sid in since' && since'[sid] == if sid in since then since[sid] else w.store.now
            else if ResumesAnswered(w, op, sid) then sid !in since'
            else (sid in since <==> sid in since') && (sid in since ==> since'[sid] == since[sid])
  {
  }

  lemma StandingStep(ws: seq<World>, ops: seq<Op>, sid: Sid, i: nat, n: nat)
    requires 0 < n <= |ops| && |ws| == |ops| + 1
    ensures Standing(ws, ops, sid, i, n) <==>
      if i == n - 1 then Announces(ops[i], sid)
      else Standing(ws, ops, sid, i, n - 1) && !ResumesAnswered(ws[n - 1], ops[n - 1], sid)
  {
  }

  /** It is the time of the first call that still stands. */
  ghost predicate IsFirst(ws: seq<World>, ops: seq<Op>, sid: Sid, n: nat, since: int)
    requires n <= |ops| && |ws| == |ops| + 1
  {
    && (exists i: nat :: Standing(ws, ops, sid, i, n) && ws[i].store.now == since)
    && (forall i: nat :: Standing(ws, ops, sid, i, n) ==> since <= ws[i].store.now)
  }

  lemma SinceStays(ws: seq<World>, ops: seq<Op>, sid: Sid, n: nat, since: int)
    requires 0 < n <= |ops| && |ws| == |ops| + 1 && IsFirst(ws, ops, sid, n - 1, since)
    requires since <= ws[n - 1].store.now && !ResumesAnswered(ws[n - 1], ops[n - 1], sid)
    ensures IsFirst(ws, ops, sid, n, since)
  {
    var i: nat :| Standing(ws, ops, sid, i, n - 1) && ws[i].store.now == since;
    StandingStep(ws, ops, sid, i, n);
    forall k: nat | Standing(ws, ops, sid, k, n) ensures since <= ws[k].store.now { StandingStep(ws, ops, sid, k, n); }
  }

  lemma SinceBegins(ws: seq<World>, ops: seq<Op>, sid: Sid, n: nat)
    requires n < |ops| && |ws| == |ops| + 1 && Announces(ops[n], sid)
    requires forall i: nat :: !Standing(ws, ops, sid, i, n)
    ensures IsFirst(ws, ops, sid, n + 1, ws[n].store.now)
  {
    var m := n + 1;
    assert Standing(ws, ops, sid, n, m);
    forall k: nat | Standing(ws, ops, sid, k, m) ensures k == n { StandingStep(ws, ops, sid, k, m); }
  }

  lemma NoneStanding(ws: seq<World>, ops: seq<Op>, sid: Sid, i: nat, n: nat)
    requires 0 < n <= |ops| && |ws| == |ops| + 1 && !Announces(ops[n - 1], sid)
    requires ResumesAnswered(ws[n - 1], ops[n - 1], sid) || !Standing(ws, ops, sid, i, n - 1)
    ensures !Standing(ws, ops, sid, i, n)
  {
    StandingStep(ws, ops, sid, i, n);
  }

  /** At any moment of any run it is set exactly when some call still stands, and then to the time of the first. */
  lemma {:induction false} SinceIsFirst(ws: seq<World>, ops: seq<Op>, sid: Sid, n: nat)
    requires Runs(ws, ops) && n <= |ops|
    ensures if sid in ws[n].since then IsFirst(ws, ops, sid, n, ws[n].since[sid]) && ws[n].since[sid] <= ws[n].store.now
            else forall i: nat :: !Standing(ws, ops, sid, i, n)
  {
    if n > 0 {
      var w, op := ws[n - 1], ops[n - 1];
      assert ws[n - 1 + 1] == Step(w, op);
      SinceIsFirst(ws, ops, sid, n - 1);
      SinceStep(w, op, sid);
      ClockStep(w, op);
      if sid !in ws[n].since {
        forall i: nat ensures !Standing(ws, ops, sid, i, n) { NoneStanding(ws, ops, sid, i, n); }
      } else if sid in w.since {
        SinceStays(ws, ops, sid, n, w.since[sid]);
      } else {
        SinceBegins(ws, ops, sid, n - 1);
      }
    }
  }

  // --- The mark ---

  predicate Marked(w: World, sid: Sid) {
    sid in w.since && w.store.now - w.since[sid] > MOBILE_RESULT_TIMEOUT_MS
  }

  /** What a reconnect re-delivers, with the mark. */
  ghost function Redelivered(w: World, sid: Sid): set<(Id, Json, bool)> {
    set item | item in Reconnect(w.store, sid) :: (item.0, item.1, Marked(w, sid))
  }

  ghost predicate Overdue(ws: seq<World>, ops: seq<Op>, sid: Sid, i: nat, n: nat)
    requires n <= |ops| && |ws| == |ops| + 1
  {
    Standing(ws, ops, sid, i, n) && ws[n].store.now - ws[i].store.now > MOBILE_RESULT_TIMEOUT_MS
  }

  lemma MarkedIff(ws: seq<World>, ops: seq<Op>, sid: Sid, n: nat)
    requires Runs(ws, ops) && n <= |ops|
    ensures Marked(ws[n], sid) <==> exists i: nat :: Overdue(ws, ops, sid, i, n)
  {
    SinceIsFirst(ws, ops, sid, n);
    if Marked(ws[n], sid) {
      var i: nat :| Standing(ws, ops, sid, i, n) && ws[i].store.now == ws[n].since[sid];
      assert Overdue(ws, ops, sid, i, n);
    }
  }

  /**
   * At any moment of any run, a reconnect re-delivers the unsettled calls of the session, each with its
   * payload, and all of them marked exactly when some call that still stands is overdue.
   */
  lemma RedeliveryIsExact(ws: seq<World>, ops: seq<Op>, n: nat, sid: Sid, id: Id, payload: Json, marked: bool)
    requires Runs(ws, ops) && n <= |ops|
    ensures (id, payload, marked) in Redelivered(ws[n], sid) <==>
      && (exists r: nat :: Open(ws[n].store.regs, r, sid, id) && ws[n].store.regs[r].payload == payload)
      && (marked <==> exists i: nat :: Overdue(ws, ops, sid, i, n))
  {
    RunIsReachable(ws, ops, n);
    ReconnectIsExact(ws[n], sid, id, payload);
    MarkedIff(ws, ops, sid, n);
    assert (id, payload, marked) in Redelivered(ws[n], sid)
      <==> (id, payload) in Reconnect(ws[n].store, sid) && marked == Marked(ws[n], sid);
  }

  // --- Whose time it is ---

  /** The operation at `k` registers `r`. */
  ghost predicate Registers(ws: seq<World>, ops: seq<Op>, k: nat, r: nat, sid: Sid) {
    k < |ops| && |ws| == |ops| + 1 && Announces(ops[k], sid)
    && |ws[k].store.regs| == r && |ws[k + 1].store.regs| == r + 1
  }

  /** It is due MOBILE_RESULT_TIMEOUT_MS after that, and no later while it is unsettled. */
  lemma UnsettledIsDue(ws: seq<World>, ops: seq<Op>, k: nat, r: nat, sid: Sid, n: nat)
    requires Runs(ws, ops) && Registers(ws, ops, k, r, sid) && k < n <= |ops|
    requires ops[k].timeout == MOBILE_RESULT_TIMEOUT_MS
    requires r < |ws[n].store.regs| && ws[n].store.regs[r].verdicts == []
    ensures ws[n].store.now <= ws[k].store.now + MOBILE_RESULT_TIMEOUT_MS
  {
    assert ws[k + 1] == Step(ws[k], ops[k]);
    assert ws[k + 1].store.regs[r].deadline == ws[k].store.now + MOBILE_RESULT_TIMEOUT_MS;
    RunIsReachable(ws, ops, k + 1);
    ReachableInv(ws[k + 1]);
    RunReaches(ws, ops, k + 1, n);
    RunsKeepInv(ws[k + 1], ops[k + 1..n], ws[n]);
    RunIsReachable(ws, ops, n);
    CallsSettleOnceInTime(ws[n]);
  }

  /**
   * An unsettled call registered with the default timeout is marked exactly when an earlier call of its
   * session is overdue: the mark never goes by the time of the call it is put on.
   */
  lemma MarkedForAnEarlierCall(ws: seq<World>, ops: seq<Op>, k: nat, r: nat, sid: Sid, n: nat)
    requires Runs(ws, ops) && Registers(ws, ops, k, r, sid) && k < n <= |ops|
    requires ops[k].timeout == MOBILE_RESULT_TIMEOUT_MS
    requires r < |ws[n].store.regs| && ws[n].store.regs[r].verdicts == []
    ensures Marked(ws[n], sid) <==> exists i: nat :: i < k && Overdue(ws, ops, sid, i, n)
  {
    MarkedIff(ws, ops, sid, n);
    UnsettledIsDue(ws, ops, k, r, sid, n);
    forall i: nat | Overdue(ws, ops, sid, i, n) ensures i < k {
      if k <= i { ClockRuns(ws, ops, k, i); }
    }
  }

  // --- A fresh call that is marked ---

  lemma LeadsOn(ws: seq<World>, ops: seq<Op>, vs: seq<World>, later: seq<Op>)
    requires Leads(ws, ops) && Leads(vs, later) && vs[0] == ws[|ops|]
    ensures Leads(ws + vs[1..], ops + later)
  {
    var all := ws + vs[1..];
    assert forall i :: |ops| <= i < |all| ==> all[i] == vs[i - |ops|];
    forall i | 0 <= i < |ops + later|
      ensures Enabled(all[i], (ops + later)[i]) && all[i + 1] == Step(all[i], (ops + later)[i])
    {
      if i < |ops| {
        assert Enabled(ws[i], ops[i]) && ws[i + 1] == Step(ws[i], ops[i]);
      } else {
        var k := i - |ops|;
        assert Enabled(vs[k], later[k]) && vs[k + 1] == Step(vs[k], later[k]);
      }
    }
  }

  /** A session that waits, at `now`, on the call it announced at `since`. */
  ghost function WaitingOn(since: int, now: int, sid: Sid, id: Id, payload: Json): World {
    World(Store(now, map[sid := Session(map[id := 0], map[id := payload], AwaitingMobile, since)],
                [Registration(sid, id, payload, since + MOBILE_RESULT_TIMEOUT_MS, [], true, false)]),
          map[sid := Waiting(0)], {sid}, map[sid := since])
  }

  lemma CallRun(now: int, sid: Sid, id: Id, payload: Json) returns (ws: seq<World>, ops: seq<Op>)
    ensures ops == [CreateOp(sid), StartTurn(sid), RegisterOp(sid, id, payload, MOBILE_RESULT_TIMEOUT_MS)]
    ensures Runs(ws, ops) && ws[3] == WaitingOn(now, now, sid, id, payload)
  {
    var w0, w3 := Start(now), WaitingOn(now, now, sid, id, payload);
    var w1 := World(Store(now, map[sid := Session(map[], map[], Idle, now)], []), map[], {sid}, map[]);
    var w2 := World(Store(now, map[sid := Session(map[], map[], Streaming, now)], []),
                    map[sid := Running], {sid}, map[]);
    ops := [CreateOp(sid), StartTurn(sid), RegisterOp(sid, id, payload, MOBILE_RESULT_TIMEOUT_MS)];
    ws := [w0, w1, w2, w3];
    assert Step(w0, ops[0]) == w1 && Step(w1, ops[1]) == w2 && Step(w2, ops[2]) == w3;
  }

  /** Its timer fires, and the session waits on nothing. */
  lemma CallFires(since: int, now: int, sid: Sid, id: Id, payload: Json)
    ensures var w := WaitingOn(since, now, sid, id, payload);
            Fire(w.store, 0) == Store(now, map[sid := Session(map[], map[], Idle, since)],
                                      [w.store.regs[0].(verdicts := [TimedOut], armed := false)])
  {
    var w := WaitingOn(since, now, sid, id, payload);
    var open, s := w.store.regs[0], w.store.sessions[sid];
    assert s.pending - {id} == map[] && s.payloads - {id} == map[];
    assert open.verdicts + [TimedOut] == [TimedOut];
    assert Settle([open.(armed := false)], {0}, TimedOut) == [open.(verdicts := [TimedOut], armed := false)];
  }

  /** Then the `finally` callback runs and the turn ends. */
  lemma TimedOutRun(w: World, sid: Sid) returns (ws: seq<World>, ops: seq<Op>)
    requires w.turns == map[sid := Waiting(0)] && |w.store.regs| == 1
    requires w.store.regs[0].verdicts == [TimedOut] && !w.store.regs[0].cleaned && w.store.regs[0].sid == sid
    requires w.store.sessions.Keys == {sid} && w.store.sessions[sid].pending == map[]
    requires w.store.sessions[sid].payloads == map[] && w.store.sessions[sid].state == Idle
    ensures |ops| == 3 && Leads(ws, ops) && ws[0] == w
    ensures ws[3] == w.(turns := map[],
                        store := w.store.(regs := [w.store.regs[0].(armed := false, cleaned := true)]))
  {
    var w1 := w.(store := w.store.(regs := [w.store.regs[0].(armed := false, cleaned := true)]));
    var w2 := w1.(turns := map[sid := Running]);
    ops := [FinallyOp(0), Resume(sid), EndTurn(sid)];
    ws := [w, w1, w2, w2.(turns := map[])];
    var s := w.store.sessions[sid];
    assert s.pending - {w.store.regs[0].id} == map[] && s.payloads - {w.store.regs[0].id} == map[];
    assert Forget(s, w.store.regs[0].id) == s;
    assert Finally(w.store, 0) == w1.store;
    assert Step(w, ops[0]) == w1;
    assert Step(w1, ops[1]) == w2;
    assert Step(w2, ops[2]) == ws[3];
  }

  /** The call times out. */
  lemma TimeOutRun(since: int, sid: Sid, id: Id, payload: Json) returns (ws: seq<World>, ops: seq<Op>)
    ensures |ops| == 2 && Leads(ws, ops) && ws[0] == WaitingOn(since, since, sid, id, payload)
    ensures var due := since + MOBILE_RESULT_TIMEOUT_MS;
            ws[2] == ws[0].(store := Store(due, map[sid := Session(map[], map[], Idle, since)],
                                           [Registration(sid, id, payload, due, [TimedOut], false, false)]))
  {
    var due := since + MOBILE_RESULT_TIMEOUT_MS;
    var w0, w1 := WaitingOn(since, since, sid, id, payload), WaitingOn(since, due, sid, id, payload);
    CallFires(since, due, sid, id, payload);
    ops := [Tick(due), FireOp(0)];
    ws := [w0, w1, w1.(store := Fire(w1.store, 0))];
    assert Step(w0, ops[0]) == w1 && Step(w1, ops[1]) == ws[2];
  }

  /** The next turn announces a call, and a millisecond goes by. */
  lemma NextCallRun(w: World, sid: Sid, id: Id, payload: Json) returns (ws: seq<World>, ops: seq<Op>)
    requires w.turns == map[] && |w.store.regs| == 1 && w.store.regs[0].cleaned && !w.store.regs[0].armed
    requires sid in w.store.sessions && w.store.sessions[sid].pending == map[]
    requires w.store.sessions[sid].payloads == map[]
    requires !Expired(w.store.sessions[sid], w.store.now)
    ensures ops == [StartTurn(sid), RegisterOp(sid, id, payload, MOBILE_RESULT_TIMEOUT_MS), Tick(w.store.now + 1)]
    ensures Leads(ws, ops) && ws[0] == w && ws[1].store.now == w.store.now && ws[3].store.now == w.store.now + 1
    ensures |ws[1].store.regs| == 1 && |ws[2].store.regs| == 2
    ensures Reconnect(ws[3].store, sid) == {(id, payload)}
    ensures sid in w.since ==> sid in ws[3].since && ws[3].since[sid] == w.since[sid]
  {
    ops := [StartTurn(sid), RegisterOp(sid, id, payload, MOBILE_RESULT_TIMEOUT_MS), Tick(w.store.now + 1)];
    var w1 := Step(w, ops[0]);
    var w2 := Step(w1, ops[1]);
    ws := [w, w1, w2, Step(w2, ops[2])];
    assert (id, payload) in Reconnect(ws[3].store, sid);
    forall item | item in Reconnect(ws[3].store, sid) ensures item == (id, payload) {}
  }

  /**
   * A call times out, its turn ends, the next turn announces a call: one millisecond later a reconnect
   * re-delivers the new call as interrupted.
   */
  lemma FreshCallMarked(now: int, sid: Sid, id: Id, payload: Json, next: Id, nextPayload: Json)
    returns (ws: seq<World>, ops: seq<Op>)
    ensures Runs(ws, ops) && |ops| == 11 && Registers(ws, ops, 9, 1, sid)
    ensures ops[9] == RegisterOp(sid, next, nextPayload, MOBILE_RESULT_TIMEOUT_MS)
    ensures ws[11].store.now == ws[9].store.now + 1
    ensures Redelivered(ws[11], sid) == {(next, nextPayload, true)}
  {
    ws, ops := CallRun(now, sid, id, payload);
    var vs, later := TimeOutRun(now, sid, id, payload);
    LeadsOn(ws, ops, vs, later);
    ws, ops := ws + vs[1..], ops + later;
    vs, later := TimedOutRun(ws[5], sid);
    LeadsOn(ws, ops, vs, later);
    ws, ops := ws + vs[1..], ops + later;
    var before, first := ws, ops;
    vs, later := NextCallRun(ws[8], sid, next, nextPayload);
    LeadsOn(ws, ops, vs, later);
    ws, ops := before + vs[1..], first + later;
    assert ws[9] == vs[1] && ws[10] == vs[2] && ws[11] == vs[3] && ops[9] == later[1];
    assert Redelivered(ws[11], sid) == {(next, nextPayload, true)};
  }
}
