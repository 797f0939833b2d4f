// One turn over the session service: it suspends at each call to the phone, and every operation of the
// service may happen in between.
module Suspension {
  import opened Json
  import opened Transcript
  import opened Turn
  import opened PhoneCalls
  import opened Anticipation
  import R = Rendezvous

  // --- The turn and the service, step by step ---

  /**
   * One turn of the session `sid`. `payload` is what `tool_pending` carries for a call, `status` and `rest`
   * are what the agent makes of a response of the phone.
   */
  datatype Setting = Setting(
    env: Env, sid: R.Sid, payload: ToolCall -> Json, status: Json -> Status, rest: Json -> seq<Field>)

  /** `held` says which registration waits, or waited, for the call announced at a position of the trace. */
  datatype Joint = Joint(w: R.World, at: nat, held: map<nat, nat>)

  function Trace(s: Setting): seq<Move> {
    TurnTrace(s.env)
  }

  /** What the settlement of a call comes to for the turn that waits on it. */
  predicate Fits(s: Setting, v: R.Verdict, o: PhoneOutcome) {
    match v
    case Answered(response) => o == Responded(s.status(response), s.rest(response))
    case TimedOut => o == NoResponse
    case TornDown => o.SessionLost?
  }

  ghost predicate Brings(s: Setting, v: R.Verdict, i: nat) {
    exists o :: ComesTo(Trace(s), i, o) && Fits(s, v, o)
  }

  ghost predicate LosesSession(s: Setting, i: nat) {
    exists o :: ComesTo(Trace(s), i, o) && o.SessionLost?
  }

  /** The turn has announced a call to the phone, and its next move is to answer it. */
  predicate Suspended(s: Setting, at: nat) {
    0 < at && PhoneCallAt(Trace(s), at - 1)
  }

  function CallAt(s: Setting, i: nat): ToolCall {
    var trace := Trace(s);
    if 1 <= i <= |trace| && trace[i - 1].Dispatch? then trace[i - 1].call else ToolCall("", "", Null)
  }

  function Registered(s: Setting, j: Joint): (R.Store, R.Ticket) {
    var c := CallAt(s, j.at);
    R.Register(j.w.store, s.sid, c.id, s.payload(c), R.MOBILE_RESULT_TIMEOUT_MS)
  }

  /**
   * The turn makes its next move. Before it announces a call it registers it with the service; it waits for
   * the registration to be settled and its `finally` to have run, and does what that settlement comes to.
   * A refused call rejects at once.
   */
  ghost predicate Moves(s: Setting, j: Joint, j': Joint) {
    && j.at < |Trace(s)| && j'.at == j.at + 1
    && if PhoneCallAt(Trace(s), j.at) then
         var c, ticket := CallAt(s, j.at), Registered(s, j).1;
         && j'.w == R.Announce(j.w, s.sid, c.id, s.payload(c), R.MOBILE_RESULT_TIMEOUT_MS)
         && j'.held == if ticket.Ticket? then j.held[j.at := ticket.reg] else j.held
       else
         && j'.held == j.held
         && if !Suspended(s, j.at) then j'.w == j.w
            else if j.at - 1 in j.held then
              && R.Enabled(j.w, R.Resume(s.sid)) && j'.w == R.Step(j.w, R.Resume(s.sid))
              && (j.held[j.at - 1] < |j.w.store.regs| && j.w.store.regs[j.held[j.at - 1]].verdicts != [] ==>
                    Brings(s, j.w.store.regs[j.held[j.at - 1]].verdicts[0], j.at - 1))
            else j'.w == j.w && LosesSession(s, j.at - 1)
  }

  predicate OfTurn(op: R.Op, sid: R.Sid) {
    match op
    case StartTurn(k) => k == sid
    case RegisterOp(k, _, _, _) => k == sid
    case Resume(k) => k == sid
    case EndTurn(k) => k == sid
    case Abandon(k) => k == sid
    case _ => false
  }

  /** Anything else happens: a response, a timer, a lookup, a sweep, a cleanup, the clock, another session. */
  ghost predicate Serves(s: Setting, j: Joint, op: R.Op, j': Joint) {
    R.Enabled(j.w, op) && !OfTurn(op, s.sid) && j' == j.(w := R.Step(j.w, op))
  }

  ghost predicate Steps(s: Setting, j: Joint, j': Joint) {
    Moves(s, j, j') || exists op :: Serves(s, j, op, j')
  }

  /** The turn has just begun, and the calls of earlier turns of the session are through (`EarlierCallsAreThrough`). */
  ghost predicate Starts(s: Setting, j: Joint) {
    && R.Inv(j.w) && s.sid in j.w.turns && j.w.turns[s.sid] == R.Running && j.at == 0 && j.held == map[]
    && forall r :: 0 <= r < |j.w.store.regs| && j.w.store.regs[r].sid == s.sid ==> j.w.store.regs[r].cleaned
  }

  ghost predicate Run(s: Setting, js: seq<Joint>) {
    js != [] && Starts(s, js[0]) && forall i :: 0 <= i < |js| - 1 ==> Steps(s, js[i], js[i + 1])
  }

  // --- What holds throughout ---

  /** The registration of an announced call has its id and payload; what the turn then does is its settlement. */
  ghost predicate HeldFor(s: Setting, j: Joint, i: nat) {
    i in j.held && i < j.at && PhoneCallAt(Trace(s), i) && j.held[i] < |j.w.store.regs| &&
    var reg := j.w.store.regs[j.held[i]];
    && reg.sid == s.sid && reg.id == CallAt(s, i).id && reg.payload == s.payload(CallAt(s, i))
    && (i + 1 < j.at ==> SettledBy(s, reg, i))
  }

  ghost predicate SettledBy(s: Setting, reg: R.Registration, i: nat) {
    reg.verdicts != [] && Brings(s, reg.verdicts[0], i)
  }

  /** A call the service refused loses the session. */
  ghost predicate RefusedAt(s: Setting, j: Joint, i: nat) {
    i + 1 < j.at && PhoneCallAt(Trace(s), i) && i !in j.held ==> LosesSession(s, i)
  }

  ghost predicate TurnAgrees(s: Setting, j: Joint) {
    && s.sid in j.w.turns
    && j.w.turns[s.sid] ==
         if Suspended(s, j.at) && j.at - 1 in j.held then R.Waiting(j.held[j.at - 1]) else R.Running
  }

  /** Every call of the session that is not through is the one its turn waits on. */
  ghost predicate OneAtATime(w: R.World, sid: R.Sid) {
    forall r :: 0 <= r < |w.store.regs| && w.store.regs[r].sid == sid && !w.store.regs[r].cleaned ==>
      sid in w.turns && w.turns[sid] == R.Waiting(r)
  }

  ghost predicate Holds(s: Setting, j: Joint) {
    && R.Inv(j.w) && j.at <= |Trace(s)| && TurnAgrees(s, j) && OneAtATime(j.w, s.sid)
    && (forall i :: i in j.held ==> HeldFor(s, j, i))
    && (forall i: nat :: RefusedAt(s, j, i))
  }

  /** So a turn that registers a call never meets an earlier one of the same id that is not through. */
  lemma IdsAreFree(s: Setting, w: R.World, id: R.Id, payload: Json)
    requires OneAtATime(w, s.sid) && s.sid in w.turns && w.turns[s.sid] == R.Running
    ensures R.Enabled(w, R.RegisterOp(s.sid, id, payload, R.MOBILE_RESULT_TIMEOUT_MS))
  {
  }

  lemma SuspendedMeans(s: Setting, at: nat)
    requires at < |Trace(s)|
    ensures PhoneCallAt(Trace(s), at) ==> !Suspended(s, at) && at >= 1 && Trace(s)[at - 1].Dispatch?
    ensures Suspended(s, at) ==> Trace(s)[at].Push?
    ensures Suspended(s, at) ==> !PhoneCallAt(Trace(s), at)
  {
    EveryTurnSuspends(s.env);
    assert PhoneCallAt(Trace(s), at) ==> Announced(Trace(s), at);
    if Suspended(s, at) { assert Announced(Trace(s), at - 1); }
  }

  /** What is recorded of a registration stays true as the service goes on. */
  lemma StaysHeld(s: Setting, j: Joint, j': Joint, i: nat)
    requires HeldFor(s, j, i) && R.Extends(j.w.store.regs, j'.w.store.regs)
    requires i in j'.held && j'.held[i] == j.held[i] && j.at <= j'.at && (i + 1 < j'.at ==> i + 1 < j.at)
    ensures HeldFor(s, j', i)
  {
  }

  /** The service at one more registration. */
  lemma RegisterStep(s: Setting, j: Joint)
    requires Holds(s, j) && j.w.turns[s.sid] == R.Running
    ensures var c := CallAt(s, j.at);
            var op := R.RegisterOp(s.sid, c.id, s.payload(c), R.MOBILE_RESULT_TIMEOUT_MS);
            var (st, ticket) := Registered(s, j);
            && R.Enabled(j.w, op)
            && R.Step(j.w, op) == R.Announce(j.w, s.sid, c.id, s.payload(c), R.MOBILE_RESULT_TIMEOUT_MS)
            && R.Step(j.w, op).store == st
            && R.Inv(R.Step(j.w, op)) && R.Extends(j.w.store.regs, st.regs)
  {
    var c := CallAt(s, j.at);
    var op := R.RegisterOp(s.sid, c.id, s.payload(c), R.MOBILE_RESULT_TIMEOUT_MS);
    IdsAreFree(s, j.w, c.id, s.payload(c));
    R.StepKeepsInv(j.w, op);
    R.StepExtends(j.w, op);
  }

  lemma TicketMeans(s: Setting, j: Joint)
    ensures var (st, ticket) := Registered(s, j);
            var c := CallAt(s, j.at);
            && |st.regs| == |j.w.store.regs| + (if ticket.Ticket? then 1 else 0)
            && (ticket.Ticket? ==>
                 && ticket.reg == |j.w.store.regs| && st.regs[ticket.reg].sid == s.sid
                 && st.regs[ticket.reg].id == c.id && st.regs[ticket.reg].payload == s.payload(c))
  {
  }

  lemma AnnounceSequential(s: Setting, w: R.World, w': R.World, ticket: R.Ticket)
    requires OneAtATime(w, s.sid) && s.sid in w.turns && w.turns[s.sid] == R.Running
    requires |w'.store.regs| == |w.store.regs| + (if ticket.Ticket? then 1 else 0)
    requires R.Extends(w.store.regs, w'.store.regs)
    requires ticket.Ticket? ==>
      ticket.reg == |w.store.regs| && s.sid in w'.turns && w'.turns[s.sid] == R.Waiting(ticket.reg)
    ensures OneAtATime(w', s.sid)
  {
    var regs := w.store.regs;
    assert forall r :: 0 <= r < |regs| && regs[r].sid == s.sid ==> regs[r].cleaned;
    assert forall r :: 0 <= r < |regs| && w'.store.regs[r].sid == s.sid ==> regs[r].sid == s.sid;
  }

  lemma AnnounceHeld(s: Setting, j: Joint, j': Joint)
    requires Holds(s, j) && Moves(s, j, j') && PhoneCallAt(Trace(s), j.at) && !Suspended(s, j.at)
    requires R.Extends(j.w.store.regs, j'.w.store.regs)
    ensures forall i :: i in j'.held ==> HeldFor(s, j', i)
    ensures forall i: nat :: RefusedAt(s, j', i)
  {
    TicketMeans(s, j);
    forall i | i in j'.held ensures HeldFor(s, j', i) {
      if i != j.at {
        assert HeldFor(s, j, i);
        StaysHeld(s, j, j', i);
      }
    }
    forall i: nat ensures RefusedAt(s, j', i) { assert RefusedAt(s, j, i); }
  }

  lemma AnnounceHolds(s: Setting, j: Joint, j': Joint)
    requires Holds(s, j) && Moves(s, j, j') && PhoneCallAt(Trace(s), j.at)
    ensures Holds(s, j')
  {
    SuspendedMeans(s, j.at);
    RegisterStep(s, j);
    TicketMeans(s, j);
    AnnounceHeld(s, j, j');
    AnnounceSequential(s, j.w, j'.w, Registered(s, j).1);
  }

  /** The turn resumes: its registration is through. */
  lemma ResumeStep(w: R.World, sid: R.Sid)
    requires R.Inv(w) && R.Enabled(w, R.Resume(sid))
    ensures var w' := R.Step(w, R.Resume(sid));
            && R.Inv(w') && w'.store.regs == w.store.regs && w'.turns == w.turns[sid := R.Running]
  {
    R.StepKeepsInv(w, R.Resume(sid));
  }

  /** The answer just made is the verdict of the call the turn was waiting on. */
  lemma LastAnswer(s: Setting, j: Joint, j': Joint)
    requires Moves(s, j, j') && Suspended(s, j.at) && !PhoneCallAt(Trace(s), j.at) && R.Inv(j.w) && TurnAgrees(s, j)
    requires j.at - 1 in j.held
    ensures var r := j.held[j.at - 1];
            r < |j.w.store.regs| && SettledBy(s, j.w.store.regs[r], j.at - 1)
  {
    assert R.RegInv(j.w.store, j.held[j.at - 1]);
  }

  /** One more move leaves what is held for a call as it was, but that the last answer was made. */
  lemma MovedHeld(s: Setting, j: Joint, j': Joint, i: nat)
    requires HeldFor(s, j, i) && j'.w.store.regs == j.w.store.regs && j'.held == j.held
    requires j'.at == j.at + 1 <= |Trace(s)|
    requires i + 1 == j.at ==> SettledBy(s, j.w.store.regs[j.held[i]], i)
    ensures HeldFor(s, j', i)
  {
  }

  lemma MovedRefused(s: Setting, j: Joint, j': Joint, i: nat)
    requires RefusedAt(s, j, i) && j'.held == j.held && j'.at == j.at + 1 <= |Trace(s)|
    requires i + 1 == j.at && PhoneCallAt(Trace(s), i) && i !in j.held ==> LosesSession(s, i)
    ensures RefusedAt(s, j', i)
  {
  }

  lemma AnswerHeld(s: Setting, j: Joint, j': Joint)
    requires Holds(s, j) && Moves(s, j, j') && Suspended(s, j.at) && !PhoneCallAt(Trace(s), j.at)
    requires j'.w.store.regs == j.w.store.regs
    ensures forall i :: i in j'.held ==> HeldFor(s, j', i)
    ensures forall i: nat :: RefusedAt(s, j', i)
  {
    if j.at - 1 in j.held { LastAnswer(s, j, j'); }
    forall i | i in j'.held ensures HeldFor(s, j', i) { MovedHeld(s, j, j', i); }
    forall i: nat ensures RefusedAt(s, j', i) {
      assert RefusedAt(s, j, i);
      MovedRefused(s, j, j', i);
    }
  }

  lemma AnswerHolds(s: Setting, j: Joint, j': Joint)
    requires Holds(s, j) && Moves(s, j, j') && Suspended(s, j.at)
    ensures Holds(s, j')
  {
    SuspendedMeans(s, j.at);
    if j.at - 1 in j.held { ResumeStep(j.w, s.sid); }
    AnswerHeld(s, j, j');
  }

  lemma PlainMoveHolds(s: Setting, j: Joint, j': Joint)
    requires Holds(s, j) && Moves(s, j, j') && !PhoneCallAt(Trace(s), j.at) && !Suspended(s, j.at)
    ensures Holds(s, j')
  {
    forall i | i in j'.held ensures HeldFor(s, j', i) { MovedHeld(s, j, j', i); }
    forall i: nat ensures RefusedAt(s, j', i) {
      assert RefusedAt(s, j, i);
      MovedRefused(s, j, j', i);
    }
  }

  /** No operation but a turn's own touches its place, or adds a registration to its session. */
  lemma OthersLeaveTurn(w: R.World, op: R.Op, sid: R.Sid)
    requires R.Inv(w) && R.Enabled(w, op) && !OfTurn(op, sid)
    ensures var w' := R.Step(w, op);
            && (sid in w'.turns <==> sid in w.turns) && (sid in w.turns ==> w'.turns[sid] == w.turns[sid])
            && forall r :: |w.store.regs| <= r < |w'.store.regs| ==> w'.store.regs[r].sid != sid
  {
  }

  lemma ServedHeld(s: Setting, j: Joint, w: R.World)
    requires (forall i :: i in j.held ==> HeldFor(s, j, i)) && (forall i: nat :: RefusedAt(s, j, i))
    requires R.Extends(j.w.store.regs, w.store.regs)
    ensures forall i :: i in j.held ==> HeldFor(s, j.(w := w), i)
    ensures forall i: nat :: RefusedAt(s, j.(w := w), i)
  {
    var j' := j.(w := w);
    forall i | i in j.held ensures HeldFor(s, j', i) { StaysHeld(s, j, j', i); }
    forall i: nat ensures RefusedAt(s, j', i) { assert RefusedAt(s, j, i); }
  }

  lemma ServedSequential(s: Setting, w: R.World, w': R.World)
    requires OneAtATime(w, s.sid) && R.Extends(w.store.regs, w'.store.regs)
    requires s.sid in w.turns && s.sid in w'.turns && w'.turns[s.sid] == w.turns[s.sid]
    requires forall r :: |w.store.regs| <= r < |w'.store.regs| ==> w'.store.regs[r].sid != s.sid
    ensures OneAtATime(w', s.sid)
  {
  }

  ghost predicate LeavesTurn(w: R.World, w': R.World, sid: R.Sid) {
    && R.Inv(w') && R.Extends(w.store.regs, w'.store.regs)
    && sid in w.turns && sid in w'.turns && w'.turns[sid] == w.turns[sid]
    && forall r :: |w.store.regs| <= r < |w'.store.regs| ==> w'.store.regs[r].sid != sid
  }

  lemma ServiceStep(w: R.World, op: R.Op, sid: R.Sid)
    requires R.Inv(w) && R.Enabled(w, op) && !OfTurn(op, sid) && sid in w.turns
    ensures LeavesTurn(w, R.Step(w, op), sid)
  {
    R.StepKeepsInv(w, op);
    R.StepExtends(w, op);
    OthersLeaveTurn(w, op, sid);
  }

  lemma ServedHolds(s: Setting, j: Joint, w: R.World)
    requires Holds(s, j) && LeavesTurn(j.w, w, s.sid)
    ensures Holds(s, j.(w := w))
  {
    ServedHeld(s, j, w);
    ServedSequential(s, j.w, w);
  }

  lemma ServeHolds(s: Setting, j: Joint, op: R.Op, j': Joint)
    requires Holds(s, j) && Serves(s, j, op, j')
    ensures Holds(s, j')
  {
    ServiceStep(j.w, op, s.sid);
    ServedHolds(s, j, R.Step(j.w, op));
  }

  lemma {:induction false} RunHolds(s: Setting, js: seq<Joint>, n: nat)
    requires Run(s, js) && n < |js|
    ensures Holds(s, js[n])
  {
    if n > 0 {
      RunHolds(s, js, n - 1);
      var j, j' := js[n - 1], js[n];
      assert Steps(s, js[n - 1], js[n - 1 + 1]);
      if Moves(s, j, j') {
        if PhoneCallAt(Trace(s), j.at) {
          AnnounceHolds(s, j, j');
        } else if Suspended(s, j.at) {
          AnswerHolds(s, j, j');
        } else {
          PlainMoveHolds(s, j, j');
        }
      } else {
        var op :| Serves(s, j, op, j');
        ServeHolds(s, j, op, j');
      }
    }
  }

  // --- What the client can count on ---

  /** The service refuses the call of a turn exactly when the session is gone or expired. */
  lemma RefusedIff(s: Setting, js: seq<Joint>, n: nat)
    requires Run(s, js) && n < |js| && js[n].at < |Trace(s)| && PhoneCallAt(Trace(s), js[n].at)
    ensures var st := js[n].w.store;
            Registered(s, js[n]).1.NoTicket? <==> s.sid !in st.sessions || R.Expired(st.sessions[s.sid], st.now)
  {
    RunHolds(s, js, n);
    SuspendedMeans(s, js[n].at);
    assert R.TurnInv(js[n].w.store, s.sid, R.Running);
  }

  /** The call that was announced, accepted and is not settled yet, with its payload. */
  ghost function Outstanding(s: Setting, j: Joint): set<(R.Id, Json)> {
    if Suspended(s, j.at) && j.at - 1 in j.held && j.held[j.at - 1] < |j.w.store.regs|
       && j.w.store.regs[j.held[j.at - 1]].verdicts == []
    then {(CallAt(s, j.at - 1).id, s.payload(CallAt(s, j.at - 1)))}
    else {}
  }

  /**
   * At every moment of a turn, whatever happens in between, a reconnect re-delivers exactly the call that
   * was announced, accepted and is not settled yet, and nothing when there is none.
   */
  lemma ReconnectDuringTurn(s: Setting, js: seq<Joint>, n: nat)
    requires Run(s, js) && n < |js|
    ensures R.Reconnect(js[n].w.store, s.sid) == Outstanding(s, js[n])
  {
    RunHolds(s, js, n);
    var j := js[n];
    if Suspended(s, j.at) && j.at - 1 in j.held {
      assert HeldFor(s, j, j.at - 1);
      R.WaitingReconnect(j.w, s.sid, j.held[j.at - 1]);
    } else {
      R.RunningReconnect(j.w, s.sid);
    }
  }

  /**
   * Every call the turn is through with came to what the one settlement of its own registration comes to:
   * an answer that is pushed and reported, a time-out or the loss of the session. A call that the service
   * refused lost the session.
   */
  lemma AnswersAreVerdicts(s: Setting, js: seq<Joint>, n: nat, i: nat) returns (o: PhoneOutcome)
    requires Run(s, js) && n < |js| && PhoneCallAt(Trace(s), i) && i + 1 < js[n].at
    ensures var j := js[n];
            && ComesTo(Trace(s), i, o)
            && if i in j.held then
                 && j.held[i] < |j.w.store.regs|
                 && var reg := j.w.store.regs[j.held[i]];
                 && reg.sid == s.sid && reg.id == CallAt(s, i).id && reg.payload == s.payload(CallAt(s, i))
                 && |reg.verdicts| == 1 && Fits(s, reg.verdicts[0], o)
               else o.SessionLost?
  {
    RunHolds(s, js, n);
    var j := js[n];
    assert RefusedAt(s, j, i);
    if i in j.held {
      assert HeldFor(s, j, i);
      var r := j.held[i];
      assert R.RegInv(j.w.store, r);
      o :| ComesTo(Trace(s), i, o) && Fits(s, j.w.store.regs[r].verdicts[0], o);
    } else {
      o :| ComesTo(Trace(s), i, o) && o.SessionLost?;
    }
  }

  // --- What the turn does with it ---

  /** The one settlement of the call announced at `i`. */
  ghost predicate SettledAs(s: Setting, j: Joint, i: nat, v: R.Verdict) {
    && PhoneCallAt(Trace(s), i) && i in j.held
    && j.held[i] < |j.w.store.regs| && j.w.store.regs[j.held[i]].verdicts == [v]
  }

  /** The service refused the call announced at `i`, or tore it down. */
  ghost predicate Dropped(s: Setting, j: Joint, i: nat) {
    PhoneCallAt(Trace(s), i) && i < j.at && (i in j.held ==> SettledAs(s, j, i, R.TornDown))
  }

  lemma Outcome(s: Setting, js: seq<Joint>, n: nat, i: nat) returns (o: PhoneOutcome)
    requires Run(s, js) && n < |js| && PhoneCallAt(Trace(s), i) && i + 1 < js[n].at
    ensures ComesTo(Trace(s), i, o)
    ensures match o
            case Responded(_, _) => exists response :: SettledAs(s, js[n], i, R.Answered(response))
            case NoResponse => SettledAs(s, js[n], i, R.TimedOut)
            case SessionLost(_) => Dropped(s, js[n], i)
    ensures forall v :: SettledAs(s, js[n], i, v) ==> Fits(s, v, o)
    ensures Dropped(s, js[n], i) ==> o.SessionLost?
  {
    o := AnswersAreVerdicts(s, js, n, i);
    if i in js[n].held {
      var verdicts := js[n].w.store.regs[js[n].held[i]].verdicts;
      assert verdicts == [verdicts[0]] && SettledAs(s, js[n], i, verdicts[0]);
      assert o.Responded? ==> verdicts[0] == R.Answered(verdicts[0].response);
    }
  }

  /** A turn calls the model or a tool again after a call to the phone only if the phone answered it. */
  lemma GoesOnOnlyWhenAnswered(s: Setting, js: seq<Joint>, n: nat, i: nat, k: nat)
    requires Run(s, js) && n < |js| && PhoneCallAt(Trace(s), i) && i < k < js[n].at
    requires k < |Trace(s)| && (Trace(s)[k].Ask? || Trace(s)[k].Dispatch?)
    ensures exists response :: SettledAs(s, js[n], i, R.Answered(response))
  {
    var o := Outcome(s, js, n, i);
    OnlyAnswersGoOn(s.env, i, o, k);
  }

  /** An answer is reported and ends nothing; a time-out or a loss of the session ends the turn at once. */
  lemma SettlementDecides(s: Setting, js: seq<Joint>, n: nat, i: nat, v: R.Verdict)
    requires Run(s, js) && n < |js| && SettledAs(s, js[n], i, v) && i + 1 < js[n].at
    ensures i + 3 < |Trace(s)|
    ensures match v
            case Answered(response) => Trace(s)[i + 3] == Came(!s.status(response).Failed?)
            case TimedOut => Trace(s)[i + 3] == Say(Error("tool_timeout")) && EndsAt(Trace(s), i + 3)
            case TornDown => Trace(s)[i + 3] == Say(Error("session_error")) && EndsAt(Trace(s), i + 3)
  {
    var o := Outcome(s, js, n, i);
    LastOfAnswer(Trace(s), i, o);
    if !o.Responded? { UnansweredEndsTurn(s.env, i, o); }
  }

  lemma AnnouncedEarly(s: Setting, i: nat)
    requires PhoneCallAt(Trace(s), i)
    ensures i + 3 < |Trace(s)|
  {
    EveryTurnSuspends(s.env);
    assert Announced(Trace(s), i);
  }

  /** A turn ends with `tool_timeout` exactly when the registration of one of its calls timed out. */
  lemma TimesOutExactly(s: Setting, js: seq<Joint>, n: nat)
    requires Run(s, js) && n < |js| && js[n].at == |Trace(s)|
    ensures LastEventOf(s.env) == Error("tool_timeout") <==> exists i :: SettledAs(s, js[n], i, R.TimedOut)
  {
    TimesOutIff(s.env);
    if i: nat :| ComesTo(Trace(s), i, NoResponse) {
      var o := Outcome(s, js, n, i);
      LastOfAnswer(Trace(s), i, NoResponse);
      LastOfAnswer(Trace(s), i, o);
    }
    if i: nat :| SettledAs(s, js[n], i, R.TimedOut) {
      AnnouncedEarly(s, i);
      var o := Outcome(s, js, n, i);
      assert ComesTo(Trace(s), i, NoResponse);
    }
  }

  /** It ends with `session_error` exactly when one of its calls was refused or torn down. */
  lemma LosesSessionExactly(s: Setting, js: seq<Joint>, n: nat)
    requires Run(s, js) && n < |js| && js[n].at == |Trace(s)|
    ensures LastEventOf(s.env) == Error("session_error") <==> exists i :: Dropped(s, js[n], i)
  {
    LosesSessionIff(s.env);
    if i: nat, message :| ComesTo(Trace(s), i, SessionLost(message)) {
      var o := Outcome(s, js, n, i);
      LastOfAnswer(Trace(s), i, SessionLost(message));
      LastOfAnswer(Trace(s), i, o);
    }
    if i: nat :| Dropped(s, js[n], i) {
      AnnouncedEarly(s, i);
      var o := Outcome(s, js, n, i);
      assert ComesTo(Trace(s), i, SessionLost(o.message));
    }
  }

  // --- The turn can go on with any settlement ---

  /** Another turn of the same session that has made the same moves up to `i`. */
  ghost predicate SameSoFar(s: Setting, s': Setting, i: nat) {
    s' == s.(env := s'.env) && SamePast(Trace(s), Trace(s'), i)
  }

  lemma SameAt(s: Setting, s': Setting, i: nat, k: nat)
    requires SameSoFar(s, s', i) && k <= i
    ensures k < |Trace(s)| && k < |Trace(s')| && Trace(s')[k] == Trace(s)[k] && CallAt(s', k) == CallAt(s, k)
    ensures PhoneCallAt(Trace(s'), k) <==> PhoneCallAt(Trace(s), k)
    ensures Suspended(s', k) <==> Suspended(s, k)
  {
    assert Trace(s)[k] == Trace(s)[..i + 1][k] && Trace(s')[k] == Trace(s')[..i + 1][k];
    if k > 0 { assert Trace(s)[k - 1] == Trace(s)[..i + 1][k - 1] && Trace(s')[k - 1] == Trace(s')[..i + 1][k - 1]; }
  }

  lemma SameMoves(s: Setting, s': Setting, i: nat, j: Joint, j': Joint)
    requires SameSoFar(s, s', i) && PhoneCallAt(Trace(s), i) && j.at <= i && Moves(s, j, j')
    ensures Moves(s', j, j')
  {
    SameAt(s, s', i, j.at);
    if j.at > 0 {
      var k := j.at - 1;
      SameAt(s, s', i, k);
      forall o | ComesTo(Trace(s), k, o) ensures ComesTo(Trace(s'), k, o) {
        SameOutcome(Trace(s), Trace(s'), i, k, o);
      }
    }
  }

  lemma {:induction false} AtGrows(s: Setting, js: seq<Joint>, m: nat, n: nat)
    requires Run(s, js) && m <= n < |js|
    ensures js[m].at <= js[n].at
    decreases n - m
  {
    if m < n {
      AtGrows(s, js, m, n - 1);
      assert Steps(s, js[n - 1], js[n - 1 + 1]);
    }
  }

  lemma SameRun(s: Setting, s': Setting, js: seq<Joint>, n: nat, i: nat)
    requires Run(s, js) && n < |js| && js[n].at == i + 1
    requires SameSoFar(s, s', i) && PhoneCallAt(Trace(s), i)
    ensures Run(s', js[..n + 1])
  {
    forall m | 0 <= m < n ensures Steps(s', js[m], js[m + 1]) {
      assert Steps(s, js[m], js[m + 1]);
      AtGrows(s, js, m + 1, n);
      if Moves(s, js[m], js[m + 1]) {
        SameMoves(s, s', i, js[m], js[m + 1]);
      } else {
        var op :| Serves(s, js[m], op, js[m + 1]);
        assert Serves(s', js[m], op, js[m + 1]);
      }
    }
  }

  /** What the call a turn waits on has come to, as far as the service decides it. */
  function Decided(s: Setting, j: Joint): PhoneOutcome {
    if 0 < j.at && j.at - 1 in j.held && j.held[j.at - 1] < |j.w.store.regs|
       && j.w.store.regs[j.held[j.at - 1]].verdicts != []
    then
      match j.w.store.regs[j.held[j.at - 1]].verdicts[0]
      case Answered(response) => Responded(s.status(response), s.rest(response))
      case TimedOut => NoResponse
      case TornDown => SessionLost("torn down")
    else SessionLost("refused")
  }

  /**
   * However the call a turn waits on was settled, and once its `finally` has run, some turn of the session
   * that has made the same moves so far goes on with that settlement: no run is stuck on what it expected.
   */
  lemma AnySettlementGoesOn(s: Setting, js: seq<Joint>, n: nat) returns (s': Setting, j': Joint)
    requires Run(s, js) && n < |js| && Suspended(s, js[n].at)
    requires js[n].at - 1 in js[n].held ==> R.Enabled(js[n].w, R.Resume(s.sid))
    ensures SameSoFar(s, s', js[n].at - 1) && j'.at == js[n].at + 1
    ensures Run(s', js[..n + 1] + [j'])
  {
    var j, i := js[n], js[n].at - 1;
    var o := Decided(s, j);
    var env' := NothingIsAnticipated(s.env, i, o);
    s' := s.(env := env');
    SameRun(s, s', js, n, i);
    LastOfAnswer(Trace(s'), i, o);
    j' := Joint(if i in j.held then R.Step(j.w, R.Resume(s.sid)) else j.w, j.at + 1, j.held);
    SameAt(s, s', i, i);
    assert Moves(s', j, j');
    RunGoesOn(s', js[..n + 1], j');
  }

  lemma RunGoesOn(s: Setting, js: seq<Joint>, j': Joint)
    requires Run(s, js) && Steps(s, js[|js| - 1], j')
    ensures Run(s, js + [j'])
  {
    var run := js + [j'];
    forall m | 0 <= m < |run| - 1 ensures Steps(s, run[m], run[m + 1]) {
      assert m < |js| - 1 ==> Steps(s, js[m], js[m + 1]);
    }
  }

  // --- How a turn begins ---

  lemma StepOneAtATime(w: R.World, op: R.Op, sid: R.Sid)
    requires R.Inv(w) && R.Enabled(w, op) && OneAtATime(w, sid) && op != R.Abandon(sid)
    ensures OneAtATime(R.Step(w, op), sid)
  {
    R.StepExtends(w, op);
    if !OfTurn(op, sid) { OthersLeaveTurn(w, op, sid); }
  }

  lemma {:induction false} RunsOneAtATime(w: R.World, ops: seq<R.Op>, w': R.World, sid: R.Sid)
    requires R.Inv(w) && R.Reaches(w, ops, w') && OneAtATime(w, sid) && R.Abandon(sid) !in ops
    ensures OneAtATime(w', sid)
    decreases |ops|
  {
    if ops != [] {
      R.StepKeepsInv(w, ops[0]);
      StepOneAtATime(w, ops[0], sid);
      RunsOneAtATime(R.Step(w, ops[0]), ops[1..], w', sid);
    }
  }

  /** A turn of a session whose earlier turns all ran to their end starts with all its calls through. */
  lemma EarlierCallsAreThrough(now: int, ops: seq<R.Op>, w: R.World, sid: R.Sid)
    requires R.Reaches(R.Start(now), ops, w) && R.Abandon(sid) !in ops && R.Enabled(w, R.StartTurn(sid))
    ensures forall r :: 0 <= r < |w.store.regs| && w.store.regs[r].sid == sid ==> w.store.regs[r].cleaned
  {
    RunsOneAtATime(R.Start(now), ops, w, sid);
  }
}
