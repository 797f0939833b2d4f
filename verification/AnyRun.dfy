// The session service in any run at all, without what module Rendezvous assumes of its callers.
module AnyRun {
  import opened Json
  import opened Rendezvous

  // --- Entries lead to registrations of their own ---

  ghost predicate OwnEntry(regs: seq<Registration>, sid: Sid, id: Id, r: nat) {
    r < |regs| && regs[r].sid == sid && regs[r].id == id
  }

  ghost predicate OwnEntries(st: Store) {
    forall sid, id :: sid in st.sessions && id in st.sessions[sid].pending ==>
      OwnEntry(st.regs, sid, id, st.sessions[sid].pending[id])
  }

  /** Fewer entries and settled registrations. */
  lemma SettleKeeps(st: Store, st': Store, which: set<nat>, v: Verdict)
    requires OwnEntries(st) && st'.regs == Settle(st.regs, which, v)
    requires forall sid, id :: sid in st'.sessions && id in st'.sessions[sid].pending ==>
      sid in st.sessions && id in st.sessions[sid].pending
      && st'.sessions[sid].pending[id] == st.sessions[sid].pending[id]
    ensures OwnEntries(st')
  {
    forall sid, id | sid in st'.sessions && id in st'.sessions[sid].pending
      ensures OwnEntry(st'.regs, sid, id, st'.sessions[sid].pending[id])
    {
      assert OwnEntry(st.regs, sid, id, st.sessions[sid].pending[id]);
    }
  }

  lemma SameIdsOwn(st: Store, st': Store)
    requires OwnEntries(st) && st'.sessions == st.sessions && |st'.regs| == |st.regs|
    requires forall r :: 0 <= r < |st.regs| ==> st'.regs[r].sid == st.regs[r].sid && st'.regs[r].id == st.regs[r].id
    ensures OwnEntries(st')
  {
    forall sid, id | sid in st'.sessions && id in st'.sessions[sid].pending
      ensures OwnEntry(st'.regs, sid, id, st'.sessions[sid].pending[id])
    {
      assert OwnEntry(st.regs, sid, id, st.sessions[sid].pending[id]);
    }
  }

  lemma RegisterOwns(st: Store, sid: Sid, id: Id, payload: Json, timeout: nat)
    requires OwnEntries(st) && Register(st, sid, id, payload, timeout).1.Ticket?
    ensures OwnEntries(Register(st, sid, id, payload, timeout).0)
  {
    var st' := Register(st, sid, id, payload, timeout).0;
    forall k, i | k in st'.sessions && i in st'.sessions[k].pending
      ensures OwnEntry(st'.regs, k, i, st'.sessions[k].pending[i])
    {
      if k != sid || i != id { assert OwnEntry(st.regs, k, i, st.sessions[k].pending[i]); }
    }
  }

  lemma CleanupClosureOwns(st: Store, r: nat)
    requires OwnEntries(st) && r < |st.regs|
    ensures OwnEntries(CleanupClosure(st, r))
  {
    var st' := CleanupClosure(st, r);
    forall sid, id | sid in st'.sessions && id in st'.sessions[sid].pending
      ensures OwnEntry(st'.regs, sid, id, st'.sessions[sid].pending[id])
    {
      assert OwnEntry(st.regs, sid, id, st.sessions[sid].pending[id]);
    }
  }

  lemma EvictOwns(st: Store, sid: Sid)
    requires OwnEntries(st) && sid in st.sessions
    ensures OwnEntries(Evict(st, sid))
  {
    SettleKeeps(st, Evict(st, sid), st.sessions[sid].pending.Values, TornDown);
  }

  lemma GetOwns(st: Store, sid: Sid)
    requires OwnEntries(st)
    ensures OwnEntries(Get(st, sid))
  {
    if sid in st.sessions && Expired(st.sessions[sid], st.now) {
      EvictOwns(st, sid);
    } else {
      SettleKeeps(st, Get(st, sid).(regs := Settle(st.regs, {}, TornDown)), {}, TornDown);
      assert Settle(st.regs, {}, TornDown) == st.regs;
    }
  }

  // --- Runs ---

  /**
   * What an operation of any turn or caller does to the store. A turn only writes a state: the writes of
   * `StartTurn` and `EndTurn`, free to happen at any time here, stand for that of `Resume` too.
   */
  ghost function Serve(st: Store, op: Op): Store
    requires CanHappen(st, op)
  {
    match op
    case CreateOp(sid) => Create(st, sid)
    case StartTurn(sid) => SetState(st, sid, Streaming)
    case EndTurn(sid) => SetState(st, sid, Idle)
    case RegisterOp(sid, id, payload, timeout) => Register(st, sid, id, payload, timeout).0
    case GetOp(sid) => Get(st, sid)
    case RespondOp(sid, id, response) => Respond(st, sid, id, response).0
    case FireOp(r) => Fire(st, r)
    case FinallyOp(r) => Finally(st, r)
    case CleanupOp(sid) => Cleanup(st, sid)
    case DeleteOp(sid) => Delete(st, sid)
    case SweepOp => Sweep(st)
    case Tick(now) => st.(now := now)
    case _ => st
  }

  /** A timer fires unless it was cleared, a `finally` runs once after its settlement; all else is free. */
  predicate CanHappen(st: Store, op: Op) {
    match op
    case CreateOp(sid) => sid !in st.sessions
    case FireOp(r) => r < |st.regs| && st.regs[r].armed
    case FinallyOp(r) => r < |st.regs| && st.regs[r].verdicts != [] && !st.regs[r].cleaned
    case _ => true
  }

  ghost predicate CanRun(st: Store, ops: seq<Op>)
    decreases |ops|
  {
    ops == [] || (CanHappen(st, ops[0]) && CanRun(Serve(st, ops[0]), ops[1..]))
  }

  ghost function ServeAll(st: Store, ops: seq<Op>): Store
    requires CanRun(st, ops)
    decreases |ops|
  {
    if ops == [] then st else ServeAll(Serve(st, ops[0]), ops[1..])
  }

  // --- Calls that no entry leads to ---

  /** No session is waiting on registration `q` any more. */
  ghost predicate Unheld(st: Store, q: nat) {
    forall sid, id :: sid in st.sessions && id in st.sessions[sid].pending ==> st.sessions[sid].pending[id] != q
  }

  ghost predicate Lost(st: Store, q: nat) {
    q < |st.regs| && st.regs[q].verdicts == [] && Unheld(st, q)
  }

  /** The timer of `q` fires while its session waits on a newer call of the same id. */
  predicate TakesNewer(st: Store, op: Op, q: nat) {
    && op == FireOp(q) && q < |st.regs|
    && st.regs[q].sid in st.sessions && st.regs[q].id in st.sessions[st.regs[q].sid].pending
  }

  /** Entries lead to registrations of their own session and id, whatever happens. */
  lemma ServeOwns(st: Store, op: Op)
    requires OwnEntries(st) && CanHappen(st, op)
    ensures OwnEntries(Serve(st, op))
  {
    var st' := Serve(st, op);
    match op
    case RegisterOp(sid, id, payload, timeout) =>
      if Register(st, sid, id, payload, timeout).1.Ticket? { RegisterOwns(st, sid, id, payload, timeout); }
      else if st' != st { EvictOwns(st, sid); }
    case GetOp(sid) => GetOwns(st, sid);
    case RespondOp(sid, id, response) =>
      if Respond(st, sid, id, response).1 {
        SettleKeeps(st, st', {st.sessions[sid].pending[id]}, Answered(response));
      } else if st' != st { EvictOwns(st, sid); }
    case FireOp(r) => FireOwns(st, r);
    case FinallyOp(r) => CleanupClosureOwns(st, r); SameIdsOwn(CleanupClosure(st, r), st');
    case CleanupOp(sid) =>
      if sid in st.sessions { SettleKeeps(st, st', st.sessions[sid].pending.Values, TornDown); }
    case DeleteOp(sid) => if sid in st.sessions { EvictOwns(st, sid); }
    case SweepOp => SettleKeeps(st, st', PendingIn(st, Stale(st)), TornDown);
    case _ =>
  }

  lemma FireOwns(st: Store, r: nat)
    requires OwnEntries(st) && r < |st.regs|
    ensures OwnEntries(Fire(st, r))
  {
    var st' := Fire(st, r);
    if st.regs[r].sid !in st.sessions || st.regs[r].id !in st.sessions[st.regs[r].sid].pending {
      SameIdsOwn(st, st');
    } else {
      CleanupClosureOwns(st, r);
      SameIdsOwn(CleanupClosure(st, r), st');
    }
  }

  /** No operation brings back the entry of a registration that no entry leads to. */
  lemma StaysUnheld(st: Store, op: Op, q: nat)
    requires CanHappen(st, op) && q < |st.regs| && Unheld(st, q)
    ensures Unheld(Serve(st, op), q) && q < |Serve(st, op).regs|
  {
  }

  /** Nothing settles it, unless its own timer does. */
  lemma UnheldVerdicts(st: Store, op: Op, q: nat)
    requires CanHappen(st, op) && q < |st.regs| && Unheld(st, q) && q < |Serve(st, op).regs|
    ensures var reg' := Serve(st, op).regs[q];
            && reg'.verdicts == st.regs[q].verdicts + (if TakesNewer(st, op, q) then [TimedOut] else [])
            && (!st.regs[q].armed || TakesNewer(st, op, q) ==> !reg'.armed)
  {
    assert st.regs[q].verdicts + [] == st.regs[q].verdicts;
  }

  lemma UnheldStep(st: Store, op: Op, q: nat)
    requires OwnEntries(st) && CanHappen(st, op) && q < |st.regs| && Unheld(st, q)
    ensures var st' := Serve(st, op);
            && OwnEntries(st') && q < |st'.regs| && Unheld(st', q)
            && st'.regs[q].verdicts == st.regs[q].verdicts + (if TakesNewer(st, op, q) then [TimedOut] else [])
            && (!st.regs[q].armed || TakesNewer(st, op, q) ==> !st'.regs[q].armed)
  {
    ServeOwns(st, op);
    StaysUnheld(st, op, q);
    UnheldVerdicts(st, op, q);
  }

  /** At some moment of the run the timer of `q` fires while a newer call of its id is pending. */
  ghost predicate TakenNewer(st: Store, ops: seq<Op>, q: nat)
    requires CanRun(st, ops)
    decreases |ops|
  {
    ops != [] && (TakesNewer(st, ops[0], q) || TakenNewer(Serve(st, ops[0]), ops[1..], q))
  }

  lemma {:induction false} SettledStays(st: Store, ops: seq<Op>, q: nat)
    requires OwnEntries(st) && q < |st.regs| && Unheld(st, q) && !st.regs[q].armed && CanRun(st, ops)
    ensures q < |ServeAll(st, ops).regs| && ServeAll(st, ops).regs[q].verdicts == st.regs[q].verdicts
    decreases |ops|
  {
    if ops != [] {
      UnheldStep(st, ops[0], q);
      SettledStays(Serve(st, ops[0]), ops[1..], q);
    }
  }

  /**
   * In every run, a lost call stays unsettled unless its own timer fires at a moment when its session waits
   * on a newer call of the same id; then it is timed out, once and for all.
   */
  lemma {:induction false} LostCallFate(st: Store, ops: seq<Op>, q: nat)
    requires OwnEntries(st) && Lost(st, q) && CanRun(st, ops)
    ensures q < |ServeAll(st, ops).regs|
    ensures ServeAll(st, ops).regs[q].verdicts == if TakenNewer(st, ops, q) then [TimedOut] else []
    decreases |ops|
  {
    if ops != [] {
      UnheldStep(st, ops[0], q);
      assert st.regs[q].verdicts + [TimedOut] == [TimedOut];
      if TakesNewer(st, ops[0], q) {
        SettledStays(Serve(st, ops[0]), ops[1..], q);
      } else {
        LostCallFate(Serve(st, ops[0]), ops[1..], q);
      }
    }
  }

  /** The newer call is lost in its turn: the timer of the old one drops its entry and leaves it unsettled. */
  lemma NewerCallIsLost(st: Store, q: nat)
    requires OwnEntries(st) && Unheld(st, q) && TakesNewer(st, FireOp(q), q)
    ensures var p := st.sessions[st.regs[q].sid].pending[st.regs[q].id];
            && p != q && p < |st.regs| && Unheld(Fire(st, q), p) && Fire(st, q).regs[p] == st.regs[p]
  {
    var sid, id := st.regs[q].sid, st.regs[q].id;
    var p, st' := st.sessions[sid].pending[id], Fire(st, q);
    assert OwnEntry(st.regs, sid, id, p);
    forall k, i | k in st'.sessions && i in st'.sessions[k].pending ensures st'.sessions[k].pending[i] != p {
      assert i in st.sessions[k].pending && OwnEntry(st.regs, k, i, st.sessions[k].pending[i]);
    }
  }

  // --- How calls get lost ---

  /** A settlement of another registration of the same session and id: its cleanup goes by the id. */
  predicate ByNamesake(st: Store, op: Op, q: nat) {
    && (op.FireOp? || op.FinallyOp?) && op.reg != q && op.reg < |st.regs| && q < |st.regs|
    && st.regs[op.reg].sid == st.regs[q].sid && st.regs[op.reg].id == st.regs[q].id
  }

  /** `q` is unsettled and its session waits on it. */
  ghost predicate Live(st: Store, q: nat) {
    IsPending(st, q) && st.regs[q].verdicts == []
  }

  /** `q` is settled and no session waits on it. */
  ghost predicate Closed(st: Store, q: nat) {
    q < |st.regs| && st.regs[q].verdicts != [] && Unheld(st, q)
  }

  /** A cleanup takes away the entry of every registration of its session and id, and no other. */
  lemma CleanupOfLive(st: Store, r: nat, q: nat)
    requires OwnEntries(st) && r < |st.regs| && Live(st, q)
    ensures var st' := CleanupClosure(st, r);
            && st'.regs[q].verdicts == []
            && if (st.regs[r].sid, st.regs[r].id) == (st.regs[q].sid, st.regs[q].id) then Unheld(st', q)
               else Live(st', q)
  {
    var st' := CleanupClosure(st, r);
    forall k, i | k in st'.sessions && i in st'.sessions[k].pending && st'.sessions[k].pending[i] == q
      ensures (k, i) == (st.regs[q].sid, st.regs[q].id)
    {
      assert OwnEntry(st.regs, k, i, st.sessions[k].pending[i]);
    }
  }

  lemma SettlementOfLive(st: Store, op: Op, q: nat)
    requires OwnEntries(st) && CanHappen(st, op) && Live(st, q) && (op.FireOp? || op.FinallyOp?)
    ensures var st' := Serve(st, op);
            if ByNamesake(st, op, q) then Lost(st', q) else Live(st', q) || Closed(st', q)
  {
    CleanupOfLive(st, op.reg, q);
  }

  /** Only its own session and id lead to a live call. */
  lemma OneEntry(st: Store, q: nat, k: Sid, i: Id)
    requires OwnEntries(st) && q < |st.regs|
    requires k in st.sessions && i in st.sessions[k].pending && st.sessions[k].pending[i] == q
    ensures k == st.regs[q].sid && i == st.regs[q].id
  {
    assert OwnEntry(st.regs, k, i, q);
  }

  lemma EvictOfLive(st: Store, sid: Sid, q: nat)
    requires OwnEntries(st) && sid in st.sessions && Live(st, q)
    ensures if sid == st.regs[q].sid then Closed(Evict(st, sid), q) else Live(Evict(st, sid), q)
  {
    var pending := st.sessions[sid].pending;
    if sid == st.regs[q].sid {
      assert q in pending.Values;
    }
    forall k, i | k in st.sessions && i in st.sessions[k].pending && st.sessions[k].pending[i] == q
      ensures k == st.regs[q].sid
    {
      OneEntry(st, q, k, i);
    }
  }

  lemma CleanupCallOfLive(st: Store, sid: Sid, q: nat)
    requires OwnEntries(st) && sid in st.sessions && Live(st, q)
    ensures if sid == st.regs[q].sid then Closed(Cleanup(st, sid), q) else Live(Cleanup(st, sid), q)
  {
    EvictOfLive(st, sid, q);
  }

  lemma SweepOfLive(st: Store, q: nat)
    requires OwnEntries(st) && Live(st, q)
    ensures if st.regs[q].sid in Stale(st) then Closed(Sweep(st), q) else Live(Sweep(st), q)
  {
    var sid, id := st.regs[q].sid, st.regs[q].id;
    assert q in PendingIn(st, Stale(st)) <==> sid in Stale(st) by {
      if sid in Stale(st) { assert st.sessions[sid].pending[id] in PendingIn(st, Stale(st)); }
      forall k, i | k in st.sessions && i in st.sessions[k].pending && st.sessions[k].pending[i] == q
        ensures k == sid
      {
        OneEntry(st, q, k, i);
      }
    }
    forall k, i | k in Sweep(st).sessions && i in Sweep(st).sessions[k].pending
      ensures Sweep(st).sessions[k].pending[i] == q ==> k == sid
    {
      if st.sessions[k].pending[i] == q { OneEntry(st, q, k, i); }
    }
  }

  /** An accepted response takes away one entry and settles its registration. */
  lemma AnswerOfLive(st: Store, sid: Sid, id: Id, st': Store, v: Verdict, q: nat)
    requires OwnEntries(st) && Live(st, q) && sid in st.sessions && id in st.sessions[sid].pending
    requires st'.sessions.Keys == st.sessions.Keys && st'.sessions[sid].pending == st.sessions[sid].pending - {id}
    requires forall k :: k in st.sessions && k != sid ==> st'.sessions[k] == st.sessions[k]
    requires st'.regs == Settle(st.regs, {st.sessions[sid].pending[id]}, v)
    ensures if st.sessions[sid].pending[id] == q then Closed(st', q) else Live(st', q)
  {
    forall k, i | k in st'.sessions && i in st'.sessions[k].pending && st'.sessions[k].pending[i] == q
      ensures (k, i) == (st.regs[q].sid, st.regs[q].id)
    {
      OneEntry(st, q, k, i);
    }
    if st.sessions[sid].pending[id] == q { OneEntry(st, q, sid, id); }
  }

  lemma RespondOfLive(st: Store, sid: Sid, id: Id, response: Json, q: nat)
    requires OwnEntries(st) && Live(st, q)
    ensures var st' := Respond(st, sid, id, response).0; Live(st', q) || Closed(st', q)
  {
    if sid in st.sessions && Expired(st.sessions[sid], st.now) {
      EvictOfLive(st, sid, q);
    } else if sid in st.sessions && id in st.sessions[sid].pending {
      AnswerOfLive(st, sid, id, Respond(st, sid, id, response).0, Answered(response), q);
    }
  }

  lemma OthersOfLive(st: Store, op: Op, q: nat)
    requires OwnEntries(st) && CanHappen(st, op) && Live(st, q) && !op.FireOp? && !op.FinallyOp?
    ensures Live(Serve(st, op), q) || Closed(Serve(st, op), q)
  {
    match op
    case RegisterOp(sid, _, _, _) => if sid in st.sessions { EvictOfLive(st, sid, q); }
    case GetOp(sid) => if sid in st.sessions { EvictOfLive(st, sid, q); }
    case DeleteOp(sid) => if sid in st.sessions { EvictOfLive(st, sid, q); }
    case CleanupOp(sid) => if sid in st.sessions { CleanupCallOfLive(st, sid, q); }
    case RespondOp(sid, id, response) => RespondOfLive(st, sid, id, response, q);
    case SweepOp => SweepOfLive(st, q);
    case _ =>
  }

  /** One operation: a live call is lost exactly to a namesake; otherwise it stays live or is settled. */
  lemma LosesIff(st: Store, op: Op, q: nat)
    requires OwnEntries(st) && CanHappen(st, op) && Live(st, q)
    ensures var st' := Serve(st, op);
            if ByNamesake(st, op, q) then Lost(st', q) else Live(st', q) || Closed(st', q)
  {
    if op.FireOp? || op.FinallyOp? { SettlementOfLive(st, op, q); } else { OthersOfLive(st, op, q); }
  }

  /** A settled call stays settled and is never lost. */
  lemma ClosedStays(st: Store, op: Op, q: nat)
    requires OwnEntries(st) && CanHappen(st, op) && Closed(st, q)
    ensures Closed(Serve(st, op), q)
  {
    UnheldStep(st, op, q);
  }

  /** A lost call is not live again. */
  lemma UnheldIsNotLive(st: Store, q: nat)
    requires Unheld(st, q)
    ensures !Live(st, q)
  {
  }

  /** At some moment of the run the call is lost. */
  ghost predicate EverLost(st: Store, ops: seq<Op>, q: nat)
    requires CanRun(st, ops)
    decreases |ops|
  {
    Lost(st, q) || (ops != [] && EverLost(Serve(st, ops[0]), ops[1..], q))
  }

  /** At some moment of the run a namesake is settled or its callback runs while the call is live. */
  ghost predicate MeetsNamesake(st: Store, ops: seq<Op>, q: nat)
    requires CanRun(st, ops)
    decreases |ops|
  {
    ops != [] && ((Live(st, q) && ByNamesake(st, ops[0], q)) || MeetsNamesake(Serve(st, ops[0]), ops[1..], q))
  }

  lemma {:induction false} ClosedIsNeverLost(st: Store, ops: seq<Op>, q: nat)
    requires OwnEntries(st) && CanRun(st, ops) && Closed(st, q)
    ensures !EverLost(st, ops, q) && !MeetsNamesake(st, ops, q)
    decreases |ops|
  {
    UnheldIsNotLive(st, q);
    if ops != [] {
      ClosedStays(st, ops[0], q);
      ServeOwns(st, ops[0]);
      ClosedIsNeverLost(Serve(st, ops[0]), ops[1..], q);
    }
  }

  /**
   * In every run, a live call is lost exactly if, while it is live, the timer or the `finally` callback of
   * another registration of its session and id takes its entry away.
   */
  lemma {:induction false} LostOnlyToANamesake(st: Store, ops: seq<Op>, q: nat)
    requires OwnEntries(st) && CanRun(st, ops) && Live(st, q)
    ensures EverLost(st, ops, q) <==> MeetsNamesake(st, ops, q)
    decreases |ops|
  {
    assert !Lost(st, q) by { assert OwnEntry(st.regs, st.regs[q].sid, st.regs[q].id, q); }
    if ops != [] {
      var st' := Serve(st, ops[0]);
      LosesIff(st, ops[0], q);
      ServeOwns(st, ops[0]);
      if Live(st', q) {
        LostOnlyToANamesake(st', ops[1..], q);
      } else if !ByNamesake(st, ops[0], q) {
        ClosedIsNeverLost(st', ops[1..], q);
      }
    }
  }

  // --- Losing a call by registering its id again ---

  /**
   * A call id registered again before the `finally` callback of its earlier call: that callback goes by the
   * id, and the new call is lost to it exactly when the two are of one session and id.
   */
  lemma StaleCleanupLosesCall(st: Store, r: nat, sid: Sid, id: Id, payload: Json, timeout: nat)
    requires OwnEntries(st) && CanHappen(st, FinallyOp(r))
    requires Register(st, sid, id, payload, timeout).1.Ticket?
    ensures var q := Register(st, sid, id, payload, timeout).1.reg;
            Lost(Finally(Register(st, sid, id, payload, timeout).0, r), q)
            <==> (st.regs[r].sid, st.regs[r].id) == (sid, id)
  {
    var st1, q := Register(st, sid, id, payload, timeout).0, |st.regs|;
    RegisterOwns(st, sid, id, payload, timeout);
    LosesIff(st1, FinallyOp(r), q);
  }

  /** Register the id of a lost call again: its timer is then for the newer call, which is lost instead. */
  lemma LostCallTakesTheNext(st: Store, q: nat, payload: Json, timeout: nat)
    requires OwnEntries(st) && Lost(st, q) && st.regs[q].armed
    requires Register(st, st.regs[q].sid, st.regs[q].id, payload, timeout).1.Ticket?
    ensures var (st', ticket) := Register(st, st.regs[q].sid, st.regs[q].id, payload, timeout);
            && CanHappen(st', FireOp(q)) && Fire(st', q).regs[q].verdicts == [TimedOut]
            && Lost(Fire(st', q), ticket.reg)
  {
    var (st', ticket) := Register(st, st.regs[q].sid, st.regs[q].id, payload, timeout);
    RegisterOwns(st, st.regs[q].sid, st.regs[q].id, payload, timeout);
    UnheldStep(st, RegisterOp(st.regs[q].sid, st.regs[q].id, payload, timeout), q);
    UnheldStep(st', FireOp(q), q);
    NewerCallIsLost(st', q);
    assert st.regs[q].verdicts + [] + [TimedOut] == [TimedOut];
  }

  // --- A second turn on a session ---

  /** It hides the pending calls from a reconnect; it does no harm with none pending. */
  lemma SecondTurnHidesPending(st: Store, sid: Sid)
    requires StoreInv(st) && sid in st.sessions
    ensures Agrees(SetState(st, sid, Streaming).sessions[sid]) <==> st.sessions[sid].pending == map[]
    ensures Hidden(SetState(st, sid, Streaming), sid)
  {
    assert Agrees(st.sessions[sid]);
  }

  predicate Hidden(st: Store, sid: Sid) {
    sid in st.sessions ==> st.sessions[sid].state != AwaitingMobile
  }

  predicate CallsPhone(op: Op, sid: Sid) {
    op.RegisterOp? && op.sid == sid
  }

  lemma HiddenStep(st: Store, op: Op, sid: Sid)
    requires CanHappen(st, op) && Hidden(st, sid) && !CallsPhone(op, sid)
    ensures Hidden(Serve(st, op), sid)
  {
  }

  /** In every run they stay hidden until the session calls the phone again. */
  lemma {:induction false} HiddenUntilNextCall(st: Store, ops: seq<Op>, sid: Sid)
    requires CanRun(st, ops) && Hidden(st, sid) && forall op :: op in ops ==> !CallsPhone(op, sid)
    ensures Reconnect(ServeAll(st, ops), sid) == {}
    decreases |ops|
  {
    if ops != [] {
      HiddenStep(st, ops[0], sid);
      HiddenUntilNextCall(Serve(st, ops[0]), ops[1..], sid);
    }
  }

  /** That call shows them again, next to itself. */
  lemma NextCallShowsHidden(st: Store, sid: Sid, id: Id, payload: Json, timeout: nat)
    requires Register(st, sid, id, payload, timeout).1.Ticket? && id !in st.sessions[sid].payloads
    ensures Reconnect(Register(st, sid, id, payload, timeout).0, sid)
         == st.sessions[sid].payloads.Items + {(id, payload)}
  {
    var before, after := st.sessions[sid].payloads, Register(st, sid, id, payload, timeout).0.sessions[sid].payloads;
    forall item ensures item in after.Items <==> item in before.Items + {(id, payload)} {
      assert item in after.Items <==> item.0 in after && after[item.0] == item.1;
      assert item in before.Items <==> item.0 in before && before[item.0] == item.1;
    }
  }

  /** Hidden or not, a live call can be answered until its session expires. */
  lemma LiveCallCanBeAnswered(st: Store, q: nat, response: Json)
    requires OwnEntries(st) && Live(st, q) && !Expired(st.sessions[st.regs[q].sid], st.now)
    ensures var (st', accepted) := Respond(st, st.regs[q].sid, st.regs[q].id, response);
            accepted && st'.regs[q].verdicts == [Answered(response)] && Closed(st', q)
  {
    var st' := Respond(st, st.regs[q].sid, st.regs[q].id, response).0;
    AnswerOfLive(st, st.regs[q].sid, st.regs[q].id, st', Answered(response), q);
    assert [] + [Answered(response)] == [Answered(response)];
  }
}
