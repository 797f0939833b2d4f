// The session rendezvous as a state machine: a turn registers a mobile call and waits, while responses,
// timers, lookups, sweeps, cleanups and deletions interleave with it in any order.
module Rendezvous {
  import opened Json

  type Sid = string
  type Id = string

  const SESSION_TTL_MS := 15 * 60_000
  const MOBILE_RESULT_TIMEOUT_MS := 5 * 60_000

  // --- What the session service holds ---

  datatype State = Streaming | AwaitingMobile | Idle

  /** How a registered call ended: the phone answered, its timer fired, or its session was torn down. */
  datatype Verdict = Answered(response: Json) | TimedOut | TornDown

  /** `pending` maps a call id to the registration whose deferred is waiting. */
  datatype Session = Session(pending: map<Id, nat>, payloads: map<Id, Json>, state: State, lastActive: int)

  /**
   * One call of `awaitMobileResult` that was accepted. `verdicts` records every settlement of its
   * deferred, `armed` says its timer can still fire, `cleaned` that its `finally` callback ran.
   */
  datatype Registration = Registration(
    sid: Sid, id: Id, payload: Json, deadline: int, verdicts: seq<Verdict>, armed: bool, cleaned: bool)

  datatype Store = Store(now: int, sessions: map<Sid, Session>, regs: seq<Registration>)

  predicate Expired(s: Session, now: int) {
    now - s.lastActive > SESSION_TTL_MS
  }

  /** Settle the deferreds of some registrations. */
  function Settle(regs: seq<Registration>, which: set<nat>, v: Verdict): (r: seq<Registration>)
    ensures |r| == |regs|
    ensures forall i :: 0 <= i < |regs| ==>
      r[i] == if i in which then regs[i].(verdicts := regs[i].verdicts + [v]) else regs[i]
  {
    seq(|regs|, i requires 0 <= i < |regs| =>
      if i in which then regs[i].(verdicts := regs[i].verdicts + [v]) else regs[i])
  }

  /** `state` falls back to idle once nothing is pending any more. */
  function Relax(s: Session): Session {
    if s.pending == map[] && s.state == AwaitingMobile then s.(state := Idle) else s
  }

  function Forget(s: Session, id: Id): Session {
    Relax(s.(pending := s.pending - {id}, payloads := s.payloads - {id}))
  }

  function Evict(st: Store, sid: Sid): Store
    requires sid in st.sessions
  {
    st.(sessions := st.sessions - {sid}, regs := Settle(st.regs, st.sessions[sid].pending.Values, TornDown))
  }

  function Create(st: Store, sid: Sid): Store {
    st.(sessions := st.sessions[sid := Session(map[], map[], Idle, st.now)])
  }

  function Get(st: Store, sid: Sid): Store {
    if sid !in st.sessions then st
    else if Expired(st.sessions[sid], st.now) then Evict(st, sid)
    else st.(sessions := st.sessions[sid := st.sessions[sid].(lastActive := st.now)])
  }

  /** `awaitMobileResult` up to the promise it returns; `None` is the promise it rejects at once. */
  datatype Ticket = NoTicket | Ticket(reg: nat)

  function Register(st: Store, sid: Sid, id: Id, payload: Json, timeout: nat): (Store, Ticket) {
    if sid !in st.sessions then (st, NoTicket)
    else if Expired(st.sessions[sid], st.now) then (Evict(st, sid), NoTicket)
    else if id in st.sessions[sid].pending then (st, NoTicket)
    else
      var s, r := st.sessions[sid], |st.regs|;
      var s' := Session(s.pending[id := r], s.payloads[id := payload], AwaitingMobile, st.now);
      var reg := Registration(sid, id, payload, st.now + timeout, [], true, false);
      (st.(sessions := st.sessions[sid := s'], regs := st.regs + [reg]), Ticket(r))
  }

  /** `resolveMobileResult`; the flag says whether it was accepted or threw. */
  function Respond(st: Store, sid: Sid, id: Id, response: Json): (Store, bool) {
    if sid !in st.sessions then (st, false)
    else if Expired(st.sessions[sid], st.now) then (Evict(st, sid), false)
    else if id !in st.sessions[sid].pending then (st, false)
    else
      var s := st.sessions[sid];
      var s' := Forget(s, id).(lastActive := st.now);
      (st.(sessions := st.sessions[sid := s'], regs := Settle(st.regs, {s.pending[id]}, Answered(response))), true)
  }

  function Disarm(regs: seq<Registration>, r: nat): seq<Registration>
    requires r < |regs|
  {
    regs[r := regs[r].(armed := false)]
  }

  /** The `cleanup` closure of a registration: it goes by the call id, not by the registration. */
  function CleanupClosure(st: Store, r: nat): Store
    requires r < |st.regs|
  {
    var reg := st.regs[r];
    var st' := st.(regs := Disarm(st.regs, r));
    if reg.sid in st.sessions then st'.(sessions := st.sessions[reg.sid := Forget(st.sessions[reg.sid], reg.id)])
    else st'
  }

  /** The timer of a registration fires. */
  function Fire(st: Store, r: nat): Store
    requires r < |st.regs|
  {
    var reg := st.regs[r];
    if reg.sid !in st.sessions || reg.id !in st.sessions[reg.sid].pending then st.(regs := Disarm(st.regs, r))
    else
      var st' := CleanupClosure(st, r);
      st'.(regs := Settle(st'.regs, {r}, TimedOut))
  }

  /** The `finally` callback of a settled registration runs. */
  function Finally(st: Store, r: nat): Store
    requires r < |st.regs|
  {
    var st' := CleanupClosure(st, r);
    st'.(regs := st'.regs[r := st'.regs[r].(cleaned := true)])
  }

  function Cleanup(st: Store, sid: Sid): Store {
    if sid !in st.sessions then st
    else
      st.(sessions := st.sessions[sid := Session(map[], map[], Idle, st.now)],
          regs := Settle(st.regs, st.sessions[sid].pending.Values, TornDown))
  }

  function Delete(st: Store, sid: Sid): Store {
    if sid in st.sessions then Evict(st, sid) else st
  }

  function Stale(st: Store): set<Sid> {
    set sid | sid in st.sessions && Expired(st.sessions[sid], st.now)
  }

  /** The deferreds pending in some sessions. */
  function PendingIn(st: Store, sids: set<Sid>): set<nat> {
    set sid, id | sid in sids && sid in st.sessions && id in st.sessions[sid].pending :: st.sessions[sid].pending[id]
  }

  function Sweep(st: Store): Store {
    st.(sessions := st.sessions - Stale(st), regs := Settle(st.regs, PendingIn(st, Stale(st)), TornDown))
  }

  /** What a reconnect re-delivers: the (call id, payload) pairs of `buildReconnectResponse`. */
  function Reconnect(st: Store, sid: Sid): set<(Id, Json)> {
    if sid in st.sessions && !Expired(st.sessions[sid], st.now) && st.sessions[sid].state == AwaitingMobile
    then st.sessions[sid].payloads.Items
    else {}
  }

  // --- The turns that use it ---

  /** Where the live turn of a session stands: between calls, or waiting on a registration. */
  datatype Turn = Running | Waiting(reg: nat)

  /**
   * `used` holds every session id ever given out; ids are random and not given out twice. `since` is the
   * `awaitingMobileSince` that the turns of a session leave on it.
   */
  datatype World = World(store: Store, turns: map<Sid, Turn>, used: set<Sid>, since: map<Sid, int>)

  datatype Op =
    | CreateOp(sid: Sid)
    | StartTurn(sid: Sid)
    | RegisterOp(sid: Sid, id: Id, payload: Json, timeout: nat)
    | Resume(sid: Sid)
    | EndTurn(sid: Sid)
    | Abandon(sid: Sid)
    | GetOp(sid: Sid)
    | RespondOp(sid: Sid, id: Id, response: Json)
    | FireOp(reg: nat)
    | FinallyOp(reg: nat)
    | CleanupOp(sid: Sid)
    | DeleteOp(sid: Sid)
    | SweepOp
    | Tick(now: int)

  /** A call of this id in this session whose `finally` callback has not run yet. */
  ghost predicate Unfinished(regs: seq<Registration>, r: nat, sid: Sid, id: Id) {
    r < |regs| && !regs[r].cleaned && regs[r].sid == sid && regs[r].id == id
  }

  /**
   * When an operation can happen. A turn is one at a time per session and starts with nothing pending, a
   * call id comes back only after the `finally` callback of its earlier call, timeouts are within the
   * TTL, and the clock does not pass the deadline of a timer before the timer fires.
   */
  ghost predicate Enabled(w: World, op: Op) {
    match op
    case CreateOp(sid) => sid !in w.used
    case StartTurn(sid) => sid !in w.turns && sid in w.store.sessions && w.store.sessions[sid].pending == map[]
    case RegisterOp(sid, id, _, timeout) =>
      && sid in w.turns && w.turns[sid] == Running
      && timeout <= SESSION_TTL_MS
      && forall r :: !Unfinished(w.store.regs, r, sid, id)
    case Resume(sid) =>
      && sid in w.turns && w.turns[sid].Waiting?
      && w.turns[sid].reg < |w.store.regs| && w.store.regs[w.turns[sid].reg].cleaned
    case EndTurn(sid) => sid in w.turns && w.turns[sid] == Running
    case Abandon(sid) => sid in w.turns
    case FireOp(r) => r < |w.store.regs| && w.store.regs[r].armed && w.store.now >= w.store.regs[r].deadline
    case FinallyOp(r) => r < |w.store.regs| && w.store.regs[r].verdicts != [] && !w.store.regs[r].cleaned
    case Tick(now) =>
      && now >= w.store.now
      && forall r :: 0 <= r < |w.store.regs| && w.store.regs[r].armed ==> now <= w.store.regs[r].deadline
    case _ => true
  }

  function SetState(st: Store, sid: Sid, state: State): Store {
    if sid in st.sessions then st.(sessions := st.sessions[sid := st.sessions[sid].(state := state)]) else st
  }

  /** A turn registers a call and stamps its session; it waits unless the call is refused. */
  function Announce(w: World, sid: Sid, id: Id, payload: Json, timeout: nat): World {
    var (st, ticket) := Register(w.store, sid, id, payload, timeout);
    w.(store := st, turns := if ticket.Ticket? then w.turns[sid := Waiting(ticket.reg)] else w.turns,
       since := if sid in w.since then w.since else w.since[sid := w.store.now])
  }

  /** The turn goes on with an answer of the phone, rather than with a rejection. */
  predicate ResumesAnswered(w: World, op: Op, sid: Sid) {
    && op == Resume(sid) && sid in w.turns && w.turns[sid].Waiting? && w.turns[sid].reg < |w.store.regs|
    && var v := w.store.regs[w.turns[sid].reg].verdicts; v != [] && v[0].Answered?
  }

  ghost function Step(w: World, op: Op): World
    requires Enabled(w, op)
  {
    match op
    case CreateOp(sid) => w.(store := Create(w.store, sid), used := w.used + {sid})
    case StartTurn(sid) => w.(store := SetState(w.store, sid, Streaming), turns := w.turns[sid := Running])
    case RegisterOp(sid, id, payload, timeout) => Announce(w, sid, id, payload, timeout)
    case Resume(sid) =>
      var answered := ResumesAnswered(w, op, sid);
      w.(store := SetState(w.store, sid, if answered then Streaming else Idle), turns := w.turns[sid := Running],
         since := if answered then w.since - {sid} else w.since)
    case EndTurn(sid) => w.(store := SetState(w.store, sid, Idle), turns := w.turns - {sid})
    case Abandon(sid) => w.(turns := w.turns - {sid})
    case GetOp(sid) => w.(store := Get(w.store, sid))
    case RespondOp(sid, id, response) => w.(store := Respond(w.store, sid, id, response).0)
    case FireOp(r) => w.(store := Fire(w.store, r))
    case FinallyOp(r) => w.(store := Finally(w.store, r))
    case CleanupOp(sid) => w.(store := Cleanup(w.store, sid))
    case DeleteOp(sid) => w.(store := Delete(w.store, sid))
    case SweepOp => w.(store := Sweep(w.store))
    case Tick(now) => w.(store := w.store.(now := now))
  }

  // --- The invariant ---

  /** The two maps and the state field of a session agree. */
  ghost predicate Agrees(s: Session) {
    s.pending.Keys == s.payloads.Keys && (s.state == AwaitingMobile <==> s.pending != map[])
  }

  /** Registration `r` is the one its session is waiting on. */
  ghost predicate IsPending(st: Store, r: nat) {
    r < |st.regs| &&
    var reg := st.regs[r];
    && reg.sid in st.sessions && reg.id in st.sessions[reg.sid].pending
    && st.sessions[reg.sid].pending[reg.id] == r
  }

  /** An entry of `pending` leads to an unsettled registration with its timer armed and its own payload. */
  ghost predicate EntryInv(st: Store, sid: Sid, id: Id) {
    sid in st.sessions && id in st.sessions[sid].pending && st.sessions[sid].pending[id] < |st.regs| &&
    var s := st.sessions[sid];
    var reg := st.regs[s.pending[id]];
    && reg.sid == sid && reg.id == id && reg.verdicts == [] && reg.armed && !reg.cleaned
    && id in s.payloads && s.payloads[id] == reg.payload
    && reg.deadline <= s.lastActive + SESSION_TTL_MS
  }

  ghost predicate RegInv(st: Store, r: nat)
    requires r < |st.regs|
  {
    var reg := st.regs[r];
    && |reg.verdicts| <= 1
    && (reg.verdicts == [] <==> IsPending(st, r))
    && (reg.cleaned ==> reg.verdicts != [] && !reg.armed)
    && (reg.armed ==> st.now <= reg.deadline)
  }

  ghost predicate SessionsInv(st: Store) {
    forall sid :: sid in st.sessions ==> Agrees(st.sessions[sid]) && st.sessions[sid].lastActive <= st.now
  }

  ghost predicate EntriesInv(st: Store) {
    forall sid, id :: sid in st.sessions && id in st.sessions[sid].pending ==> EntryInv(st, sid, id)
  }

  ghost predicate RegsInv(st: Store) {
    forall r :: 0 <= r < |st.regs| ==> RegInv(st, r)
  }

  /** No call id is taken twice at a time. */
  ghost predicate NoTwoUnfinished(regs: seq<Registration>) {
    forall r, q :: 0 <= r < q < |regs| && !regs[r].cleaned && !regs[q].cleaned ==>
      regs[r].sid != regs[q].sid || regs[r].id != regs[q].id
  }

  ghost predicate StoreInv(st: Store) {
    SessionsInv(st) && EntriesInv(st) && RegsInv(st) && NoTwoUnfinished(st.regs)
  }

  /** A turn between calls has nothing pending; a waiting one has at most the call it waits on. */
  ghost predicate TurnInv(st: Store, sid: Sid, turn: Turn) {
    && (turn.Waiting? ==> turn.reg < |st.regs| && st.regs[turn.reg].sid == sid)
    && (sid in st.sessions ==>
          forall id :: id in st.sessions[sid].pending ==> turn.Waiting? && st.sessions[sid].pending[id] == turn.reg)
  }

  ghost predicate Inv(w: World) {
    && StoreInv(w.store)
    && (forall sid :: sid in w.turns ==> TurnInv(w.store, sid, w.turns[sid]))
    && w.store.sessions.Keys <= w.used
    && (forall r :: 0 <= r < |w.store.regs| ==> w.store.regs[r].sid in w.used)
    && w.turns.Keys <= w.used
  }

  // --- Every operation keeps it ---

  /** No session gains a pending call, and no registration is changed beyond its progress. */
  ghost predicate Shrinks(st: Store, st': Store) {
    && st'.sessions.Keys <= st.sessions.Keys
    && (forall sid, id :: sid in st'.sessions && id in st'.sessions[sid].pending ==>
          id in st.sessions[sid].pending && st'.sessions[sid].pending[id] == st.sessions[sid].pending[id])
    && |st'.regs| == |st.regs|
    && (forall r :: 0 <= r < |st.regs| ==> st'.regs[r].sid == st.regs[r].sid)
  }

  lemma ShrinkingKeepsTurns(w: World, st': Store)
    requires Inv(w) && StoreInv(st') && Shrinks(w.store, st')
    ensures Inv(w.(store := st'))
  {
    forall sid | sid in w.turns ensures TurnInv(st', sid, w.turns[sid]) {
      assert TurnInv(w.store, sid, w.turns[sid]);
    }
  }

  lemma EvictKeeps(st: Store, sid: Sid)
    requires StoreInv(st) && sid in st.sessions
    ensures StoreInv(Evict(st, sid)) && Shrinks(st, Evict(st, sid))
  {
    var st' := Evict(st, sid);
    forall k, id | k in st'.sessions && id in st'.sessions[k].pending ensures EntryInv(st', k, id) {
      assert EntryInv(st, k, id);
    }
    forall r | 0 <= r < |st'.regs| ensures RegInv(st', r) {
      assert RegInv(st, r);
      if r in st.sessions[sid].pending.Values {
        var id :| id in st.sessions[sid].pending && st.sessions[sid].pending[id] == r;
        assert EntryInv(st, sid, id);
      }
    }
  }

  lemma GetKeeps(st: Store, sid: Sid)
    requires StoreInv(st)
    ensures StoreInv(Get(st, sid)) && Shrinks(st, Get(st, sid))
  {
    if sid in st.sessions {
      if Expired(st.sessions[sid], st.now) {
        EvictKeeps(st, sid);
      } else {
        var st' := Get(st, sid);
        forall k, id | k in st'.sessions && id in st'.sessions[k].pending ensures EntryInv(st', k, id) {
          assert EntryInv(st, k, id);
        }
        forall r | 0 <= r < |st'.regs| ensures RegInv(st', r) { assert RegInv(st, r); }
      }
    }
  }

  lemma RegisterUnfinished(regs: seq<Registration>, reg: Registration)
    requires NoTwoUnfinished(regs) && forall r :: !Unfinished(regs, r, reg.sid, reg.id)
    ensures NoTwoUnfinished(regs + [reg])
  {
    forall r, q | 0 <= r < q < |regs + [reg]| && !(regs + [reg])[r].cleaned && !(regs + [reg])[q].cleaned
      ensures (regs + [reg])[r].sid != (regs + [reg])[q].sid || (regs + [reg])[r].id != (regs + [reg])[q].id
    {
      assert !Unfinished(regs, r, reg.sid, reg.id);
    }
  }

  lemma RegisterKeeps(st: Store, sid: Sid, id: Id, payload: Json, timeout: nat)
    requires StoreInv(st) && timeout <= SESSION_TTL_MS
    requires forall r :: !Unfinished(st.regs, r, sid, id)
    ensures StoreInv(Register(st, sid, id, payload, timeout).0)
  {
    if sid in st.sessions {
      var s := st.sessions[sid];
      if Expired(s, st.now) {
        EvictKeeps(st, sid);
      } else if id !in s.pending {
        var st' := Register(st, sid, id, payload, timeout).0;
        RegisterUnfinished(st.regs, st'.regs[|st.regs|]);
        RegisterEntries(st, sid, id, payload, timeout);
      }
    }
  }

  lemma RegisterEntries(st: Store, sid: Sid, id: Id, payload: Json, timeout: nat)
    requires StoreInv(st) && timeout <= SESSION_TTL_MS
    requires forall r :: !Unfinished(st.regs, r, sid, id)
    requires sid in st.sessions && !Expired(st.sessions[sid], st.now) && id !in st.sessions[sid].pending
    ensures var st' := Register(st, sid, id, payload, timeout).0;
            EntriesInv(st') && RegsInv(st')
  {
    var st' := Register(st, sid, id, payload, timeout).0;
    forall k, i | k in st'.sessions && i in st'.sessions[k].pending ensures EntryInv(st', k, i) {
      if k != sid || i != id { assert EntryInv(st, k, i); }
    }
    forall r | 0 <= r < |st'.regs| ensures RegInv(st', r) {
      if r < |st.regs| {
        assert RegInv(st, r);
        assert !Unfinished(st.regs, r, sid, id);
      }
    }
  }

  lemma ForgetAgrees(s: Session, id: Id)
    requires Agrees(s)
    ensures Agrees(Forget(s, id))
    ensures forall i :: i in Forget(s, id).pending <==> i in s.pending && i != id
    ensures forall i :: i in Forget(s, id).pending ==>
      Forget(s, id).pending[i] == s.pending[i] && Forget(s, id).payloads[i] == s.payloads[i]
  {
    var p := s.pending - {id};
    assert p == map[] <==> p.Keys == {};
    if s.pending == map[] { assert p == map[]; }
  }

  /** A pending call is taken off its session and its registration gets its verdict. */
  ghost predicate Leaves(st: Store, sid: Sid, id: Id, s': Session, reg': Registration) {
    sid in st.sessions && id in st.sessions[sid].pending && st.sessions[sid].pending[id] < |st.regs| &&
    var s, r := st.sessions[sid], st.sessions[sid].pending[id];
    && s'.pending == s.pending - {id} && s'.payloads == s.payloads - {id} && Agrees(s')
    && s.lastActive <= s'.lastActive <= st.now
    && reg'.(armed := st.regs[r].armed, verdicts := []) == st.regs[r]
    && |reg'.verdicts| == 1 && (reg'.armed ==> st.regs[r].armed)
  }

  lemma LeavesEntries(st: Store, sid: Sid, id: Id, s': Session, reg': Registration, st': Store)
    requires StoreInv(st) && Leaves(st, sid, id, s', reg')
    requires st' == Store(st.now, st.sessions[sid := s'], st.regs[st.sessions[sid].pending[id] := reg'])
    ensures EntriesInv(st')
  {
    assert EntryInv(st, sid, id);
    forall k, i | k in st'.sessions && i in st'.sessions[k].pending ensures EntryInv(st', k, i) {
      assert EntryInv(st, k, i);
    }
  }

  lemma LeavesRegs(st: Store, sid: Sid, id: Id, s': Session, reg': Registration, st': Store)
    requires StoreInv(st) && Leaves(st, sid, id, s', reg')
    requires st' == Store(st.now, st.sessions[sid := s'], st.regs[st.sessions[sid].pending[id] := reg'])
    ensures RegsInv(st')
  {
    assert EntryInv(st, sid, id);
    forall q | 0 <= q < |st'.regs| ensures RegInv(st', q) { assert RegInv(st, q); }
  }

  lemma LeavesRest(st: Store, sid: Sid, id: Id, s': Session, reg': Registration, st': Store)
    requires StoreInv(st) && Leaves(st, sid, id, s', reg')
    requires st' == Store(st.now, st.sessions[sid := s'], st.regs[st.sessions[sid].pending[id] := reg'])
    ensures NoTwoUnfinished(st'.regs) && SessionsInv(st') && Shrinks(st, st')
  {
  }

  lemma RespondKeeps(st: Store, sid: Sid, id: Id, response: Json)
    requires StoreInv(st)
    ensures var st' := Respond(st, sid, id, response).0; StoreInv(st') && Shrinks(st, st')
  {
    if sid in st.sessions {
      var s := st.sessions[sid];
      if Expired(s, st.now) {
        EvictKeeps(st, sid);
      } else if id in s.pending {
        var st' := Respond(st, sid, id, response).0;
        var r := s.pending[id];
        ForgetAgrees(s, id);
        assert EntryInv(st, sid, id);
        assert st'.regs == st.regs[r := st'.regs[r]];
        LeavesEntries(st, sid, id, st'.sessions[sid], st'.regs[r], st');
        LeavesRegs(st, sid, id, st'.sessions[sid], st'.regs[r], st');
        LeavesRest(st, sid, id, st'.sessions[sid], st'.regs[r], st');
      }
    }
  }

  /** An armed timer is that of the registration its session holds under the same id, if any. */
  lemma ArmedIsPending(st: Store, r: nat)
    requires StoreInv(st) && r < |st.regs| && !st.regs[r].cleaned
    requires st.regs[r].sid in st.sessions && st.regs[r].id in st.sessions[st.regs[r].sid].pending
    ensures IsPending(st, r)
  {
    assert EntryInv(st, st.regs[r].sid, st.regs[r].id);
  }

  lemma DisarmKeeps(st: Store, r: nat, reg': Registration)
    requires StoreInv(st) && r < |st.regs| && st.regs[r].verdicts != []
    requires reg' == st.regs[r].(armed := false, cleaned := reg'.cleaned)
    requires st.regs[r].cleaned ==> reg'.cleaned
    ensures var st' := st.(regs := st.regs[r := reg']); StoreInv(st') && Shrinks(st, st')
  {
    var st' := st.(regs := st.regs[r := reg']);
    assert RegInv(st, r);
    forall k, i | k in st'.sessions && i in st'.sessions[k].pending ensures EntryInv(st', k, i) {
      assert EntryInv(st, k, i);
    }
    forall q | 0 <= q < |st'.regs| ensures RegInv(st', q) { assert RegInv(st, q); }
  }

  lemma FireKeeps(st: Store, r: nat)
    requires StoreInv(st) && r < |st.regs| && st.regs[r].armed
    ensures StoreInv(Fire(st, r)) && Shrinks(st, Fire(st, r))
  {
    var st', reg := Fire(st, r), st.regs[r];
    assert RegInv(st, r);
    if reg.sid in st.sessions && reg.id in st.sessions[reg.sid].pending {
      ArmedIsPending(st, r);
      ForgetAgrees(st.sessions[reg.sid], reg.id);
      assert st'.regs == st.regs[r := st'.regs[r]];
      LeavesEntries(st, reg.sid, reg.id, st'.sessions[reg.sid], st'.regs[r], st');
      LeavesRegs(st, reg.sid, reg.id, st'.sessions[reg.sid], st'.regs[r], st');
      LeavesRest(st, reg.sid, reg.id, st'.sessions[reg.sid], st'.regs[r], st');
    } else {
      DisarmKeeps(st, r, st'.regs[r]);
    }
  }

  /** A session holds nothing under the id of a settled call whose `finally` callback is still to run. */
  lemma SettledLeftNothing(st: Store, r: nat)
    requires StoreInv(st) && r < |st.regs| && st.regs[r].verdicts != [] && !st.regs[r].cleaned
    requires st.regs[r].sid in st.sessions
    ensures Forget(st.sessions[st.regs[r].sid], st.regs[r].id) == st.sessions[st.regs[r].sid]
  {
    var sid, id := st.regs[r].sid, st.regs[r].id;
    var s := st.sessions[sid];
    assert RegInv(st, r);
    assert id in s.pending ==> EntryInv(st, sid, id);
    assert s.pending - {id} == s.pending && s.payloads - {id} == s.payloads;
  }

  /** So the callback changes nothing but its own registration. */
  lemma FinallyMeaning(st: Store, r: nat)
    requires StoreInv(st) && r < |st.regs| && st.regs[r].verdicts != [] && !st.regs[r].cleaned
    ensures Finally(st, r) == st.(regs := st.regs[r := st.regs[r].(armed := false, cleaned := true)])
  {
    var sid := st.regs[r].sid;
    assert Finally(st, r).regs == st.regs[r := st.regs[r].(armed := false, cleaned := true)];
    if sid in st.sessions {
      SettledLeftNothing(st, r);
      assert Finally(st, r).sessions == st.sessions[sid := st.sessions[sid]];
      assert st.sessions[sid := st.sessions[sid]] == st.sessions;
    }
  }

  lemma FinallyKeeps(st: Store, r: nat)
    requires StoreInv(st) && r < |st.regs| && st.regs[r].verdicts != [] && !st.regs[r].cleaned
    ensures StoreInv(Finally(st, r)) && Shrinks(st, Finally(st, r))
  {
    FinallyMeaning(st, r);
    DisarmKeeps(st, r, st.regs[r].(armed := false, cleaned := true));
  }

  lemma PendingOfOne(st: Store, sid: Sid, r: nat)
    requires StoreInv(st) && sid in st.sessions && r < |st.regs|
    ensures r in st.sessions[sid].pending.Values ==>
      st.regs[r].sid == sid && st.regs[r].verdicts == [] && IsPending(st, r)
  {
    if r in st.sessions[sid].pending.Values {
      var id :| id in st.sessions[sid].pending && st.sessions[sid].pending[id] == r;
      assert EntryInv(st, sid, id);
    }
  }

  lemma CleanupRegs(st: Store, sid: Sid)
    requires StoreInv(st) && sid in st.sessions
    ensures RegsInv(Cleanup(st, sid))
  {
    var st' := Cleanup(st, sid);
    forall r | 0 <= r < |st'.regs| ensures RegInv(st', r) {
      assert RegInv(st, r);
      PendingOfOne(st, sid, r);
    }
  }

  lemma CleanupKeeps(st: Store, sid: Sid)
    requires StoreInv(st)
    ensures StoreInv(Cleanup(st, sid)) && Shrinks(st, Cleanup(st, sid))
  {
    if sid in st.sessions {
      var st' := Cleanup(st, sid);
      CleanupRegs(st, sid);
      forall k, id | k in st'.sessions && id in st'.sessions[k].pending ensures EntryInv(st', k, id) {
        assert EntryInv(st, k, id);
      }
    }
  }

  /** An expired session has nothing pending: its timers fired first. */
  lemma ExpiredHasNothingPending(st: Store, sid: Sid)
    requires StoreInv(st) && sid in st.sessions && Expired(st.sessions[sid], st.now)
    ensures st.sessions[sid].pending == map[]
  {
    var s := st.sessions[sid];
    assert forall id :: id in s.pending ==> EntryInv(st, sid, id) && RegInv(st, s.pending[id]);
    assert s.pending.Keys == {};
  }

  lemma SweepKeeps(st: Store)
    requires StoreInv(st)
    ensures StoreInv(Sweep(st)) && Shrinks(st, Sweep(st))
    ensures Sweep(st).regs == st.regs
  {
    var st' := Sweep(st);
    forall sid | sid in Stale(st) ensures st.sessions[sid].pending == map[] { ExpiredHasNothingPending(st, sid); }
    assert PendingIn(st, Stale(st)) == {};
    forall k, id | k in st'.sessions && id in st'.sessions[k].pending ensures EntryInv(st', k, id) {
      assert EntryInv(st, k, id);
    }
    forall r | 0 <= r < |st'.regs| ensures RegInv(st', r) { assert RegInv(st, r); }
  }

  lemma SetStateKeeps(st: Store, sid: Sid, state: State)
    requires StoreInv(st) && state != AwaitingMobile
    requires sid in st.sessions ==> st.sessions[sid].pending == map[]
    ensures StoreInv(SetState(st, sid, state)) && Shrinks(st, SetState(st, sid, state))
  {
    var st' := SetState(st, sid, state);
    forall k, id | k in st'.sessions && id in st'.sessions[k].pending ensures EntryInv(st', k, id) {
      assert EntryInv(st, k, id);
    }
    forall r | 0 <= r < |st'.regs| ensures RegInv(st', r) { assert RegInv(st, r); }
  }

  /** Every operation, at any moment it can happen, keeps the invariant. */
  lemma StepKeepsInv(w: World, op: Op)
    requires Inv(w) && Enabled(w, op)
    ensures Inv(Step(w, op))
  {
    var st, w' := w.store, Step(w, op);
    match op
    case CreateOp(sid) => CreateKeeps(w, sid);
    case StartTurn(sid) => TurnStarts(w, sid);
    case RegisterOp(sid, id, payload, timeout) => TurnRegisters(w, sid, id, payload, timeout);
    case Resume(sid) => TurnResumes(w, sid);
    case EndTurn(sid) => TurnEnds(w, sid);
    case Abandon(sid) =>
    case GetOp(sid) => GetKeeps(st, sid); ShrinkingKeepsTurns(w, w'.store);
    case RespondOp(sid, id, response) => RespondKeeps(st, sid, id, response); ShrinkingKeepsTurns(w, w'.store);
    case FireOp(r) => FireKeeps(st, r); ShrinkingKeepsTurns(w, w'.store);
    case FinallyOp(r) => FinallyKeeps(st, r); ShrinkingKeepsTurns(w, w'.store);
    case CleanupOp(sid) => CleanupKeeps(st, sid); ShrinkingKeepsTurns(w, w'.store);
    case DeleteOp(sid) => if sid in st.sessions { EvictKeeps(st, sid); } ShrinkingKeepsTurns(w, w'.store);
    case SweepOp => SweepKeeps(st); ShrinkingKeepsTurns(w, w'.store);
    case Tick(now) => ClockKeeps(w, now);
  }

  lemma CreateKeeps(w: World, sid: Sid)
    requires Inv(w) && Enabled(w, CreateOp(sid))
    ensures Inv(Step(w, CreateOp(sid)))
  {
    var st' := Step(w, CreateOp(sid)).store;
    forall k, id | k in st'.sessions && id in st'.sessions[k].pending ensures EntryInv(st', k, id) {
      assert EntryInv(w.store, k, id);
    }
    forall r | 0 <= r < |st'.regs| ensures RegInv(st', r) { assert RegInv(w.store, r); }
    forall k | k in w.turns ensures TurnInv(st', k, w.turns[k]) { assert TurnInv(w.store, k, w.turns[k]); }
  }

  lemma TurnStarts(w: World, sid: Sid)
    requires Inv(w) && Enabled(w, StartTurn(sid))
    ensures Inv(Step(w, StartTurn(sid)))
  {
    SetStateKeeps(w.store, sid, Streaming);
    ShrinkingKeepsTurns(w, SetState(w.store, sid, Streaming));
  }

  lemma TurnRegisters(w: World, sid: Sid, id: Id, payload: Json, timeout: nat)
    requires var op := RegisterOp(sid, id, payload, timeout); Inv(w) && Enabled(w, op)
    ensures Inv(Step(w, RegisterOp(sid, id, payload, timeout)))
  {
    var w' := Step(w, RegisterOp(sid, id, payload, timeout));
    RegisterKeeps(w.store, sid, id, payload, timeout);
    assert TurnInv(w.store, sid, w.turns[sid]);
    if sid in w.store.sessions && Expired(w.store.sessions[sid], w.store.now) { EvictKeeps(w.store, sid); }
    forall k | k in w'.turns ensures TurnInv(w'.store, k, w'.turns[k]) {
      assert TurnInv(w.store, k, w.turns[k]);
    }
  }

  lemma SettledTurnHasNothingPending(st: Store, sid: Sid, r: nat)
    requires StoreInv(st) && TurnInv(st, sid, Waiting(r)) && sid in st.sessions && st.regs[r].verdicts != []
    ensures st.sessions[sid].pending == map[]
  {
    var s := st.sessions[sid];
    assert forall id :: id in s.pending ==> EntryInv(st, sid, id);
    assert s.pending.Keys == {};
  }

  lemma TurnResumes(w: World, sid: Sid)
    requires Inv(w) && Enabled(w, Resume(sid))
    ensures Inv(Step(w, Resume(sid)))
  {
    var r := w.turns[sid].reg;
    assert RegInv(w.store, r) && TurnInv(w.store, sid, w.turns[sid]);
    if sid in w.store.sessions { SettledTurnHasNothingPending(w.store, sid, r); }
    var state := if ResumesAnswered(w, Resume(sid), sid) then Streaming else Idle;
    SetStateKeeps(w.store, sid, state);
    ShrinkingKeepsTurns(w, SetState(w.store, sid, state));
  }

  lemma TurnEnds(w: World, sid: Sid)
    requires Inv(w) && Enabled(w, EndTurn(sid))
    ensures Inv(Step(w, EndTurn(sid)))
  {
    assert TurnInv(w.store, sid, Running);
    SetStateKeeps(w.store, sid, Idle);
    ShrinkingKeepsTurns(w, SetState(w.store, sid, Idle));
  }

  lemma ClockKeeps(w: World, now: int)
    requires Inv(w) && Enabled(w, Tick(now))
    ensures Inv(Step(w, Tick(now)))
  {
    var st' := w.store.(now := now);
    forall k, id | k in st'.sessions && id in st'.sessions[k].pending ensures EntryInv(st', k, id) {
      assert EntryInv(w.store, k, id);
    }
    forall r | 0 <= r < |st'.regs| ensures RegInv(st', r) { assert RegInv(w.store, r); }
    ShrinkingKeepsTurns(w, st');
  }

  // --- Whole runs ---

  ghost function Start(now: int): World {
    World(Store(now, map[], []), map[], {}, map[])
  }

  /** The operations can happen one after the other from `w`, and lead to `w'`. */
  ghost predicate Reaches(w: World, ops: seq<Op>, w': World)
    decreases |ops|
  {
    if ops == [] then w == w' else Enabled(w, ops[0]) && Reaches(Step(w, ops[0]), ops[1..], w')
  }

  /** A registration stays what it is, and a verdict once given stands. */
  ghost predicate Extends(regs: seq<Registration>, regs': seq<Registration>) {
    |regs| <= |regs'| &&
    forall r :: 0 <= r < |regs| ==>
      && regs[r].sid == regs'[r].sid && regs[r].id == regs'[r].id && regs[r].payload == regs'[r].payload
      && regs[r].deadline == regs'[r].deadline && (regs[r].cleaned ==> regs'[r].cleaned)
      && (regs[r].verdicts != [] ==> regs'[r].verdicts == regs[r].verdicts)
  }

  ghost predicate OnlyTurnedIn(regs: seq<Registration>, regs': seq<Registration>) {
    forall r :: 0 <= r < |regs| && r < |regs'| && regs[r].verdicts == [] && regs'[r].verdicts != [] ==>
      !regs'[r].verdicts[0].TornDown?
  }

  lemma EvictExtends(st: Store, sid: Sid)
    requires StoreInv(st) && sid in st.sessions
    ensures Extends(st.regs, Evict(st, sid).regs)
    ensures Expired(st.sessions[sid], st.now) ==> Evict(st, sid).regs == st.regs
  {
    var pending := st.sessions[sid].pending;
    assert forall id :: id in pending ==> EntryInv(st, sid, id);
    if Expired(st.sessions[sid], st.now) {
      ExpiredHasNothingPending(st, sid);
      assert pending.Values == {};
    }
  }

  lemma PendingExtends(st: Store, sid: Sid)
    requires StoreInv(st)
    ensures Extends(st.regs, Cleanup(st, sid).regs)
  {
    if sid in st.sessions {
      assert forall id :: id in st.sessions[sid].pending ==> EntryInv(st, sid, id);
    }
  }

  lemma FireExtends(st: Store, r: nat)
    requires StoreInv(st) && r < |st.regs| && st.regs[r].armed
    ensures Extends(st.regs, Fire(st, r).regs) && OnlyTurnedIn(st.regs, Fire(st, r).regs)
  {
    var reg := st.regs[r];
    assert RegInv(st, r);
    if reg.sid in st.sessions && reg.id in st.sessions[reg.sid].pending {
      ArmedIsPending(st, r);
      assert Fire(st, r).regs == Settle(Disarm(st.regs, r), {r}, TimedOut);
      SettleExtends(Disarm(st.regs, r), r, TimedOut);
    } else {
      assert Fire(st, r).regs == Disarm(st.regs, r);
    }
  }

  lemma SettleExtends(regs: seq<Registration>, r: nat, v: Verdict)
    requires r < |regs| && regs[r].verdicts == [] && !v.TornDown?
    ensures Extends(regs, Settle(regs, {r}, v)) && OnlyTurnedIn(regs, Settle(regs, {r}, v))
  {
  }

  lemma RespondExtends(st: Store, sid: Sid, id: Id, response: Json)
    requires StoreInv(st)
    ensures var st' := Respond(st, sid, id, response).0;
            Extends(st.regs, st'.regs) && OnlyTurnedIn(st.regs, st'.regs)
  {
    if sid in st.sessions {
      if Expired(st.sessions[sid], st.now) {
        EvictExtends(st, sid);
      } else if id in st.sessions[sid].pending {
        assert EntryInv(st, sid, id);
        SettleExtends(st.regs, st.sessions[sid].pending[id], Answered(response));
      }
    }
  }

  /**
   * A step never takes a verdict back or adds a second one. Only `cleanup` and `delete` tear a live
   * call down: no lookup, sweep, response or registration ever rejects one by eviction.
   */
  lemma StepExtends(w: World, op: Op)
    requires Inv(w) && Enabled(w, op)
    ensures Extends(w.store.regs, Step(w, op).store.regs)
    ensures !op.CleanupOp? && !op.DeleteOp? ==> OnlyTurnedIn(w.store.regs, Step(w, op).store.regs)
  {
    var st := w.store;
    match op
    case GetOp(sid) => if sid in st.sessions { EvictExtends(st, sid); }
    case RegisterOp(sid, _, _, _) => if sid in st.sessions { EvictExtends(st, sid); }
    case RespondOp(sid, id, response) => RespondExtends(st, sid, id, response);
    case DeleteOp(sid) => if sid in st.sessions { EvictExtends(st, sid); }
    case CleanupOp(sid) => PendingExtends(st, sid);
    case SweepOp => SweepKeeps(st);
    case FireOp(r) => FireExtends(st, r);
    case FinallyOp(r) => FinallyMeaning(st, r);
    case _ =>
  }

  lemma {:induction false} RunsKeepInv(w: World, ops: seq<Op>, w': World)
    requires Inv(w) && Reaches(w, ops, w')
    ensures Inv(w') && Extends(w.store.regs, w'.store.regs)
    decreases |ops|
  {
    if ops != [] {
      StepKeepsInv(w, ops[0]);
      StepExtends(w, ops[0]);
      RunsKeepInv(Step(w, ops[0]), ops[1..], w');
    }
  }

  ghost predicate Reachable(w: World) {
    exists now, ops :: Reaches(Start(now), ops, w)
  }

  lemma ReachableInv(w: World)
    requires Reachable(w)
    ensures Inv(w)
  {
    var now, ops :| Reaches(Start(now), ops, w);
    RunsKeepInv(Start(now), ops, w);
  }

  /**
   * In every run, at every moment: each accepted call is settled at most once; an unsettled one is not
   * past its deadline, is the one its session waits on, and so can still be answered.
   */
  lemma CallsSettleOnceInTime(w: World)
    requires Reachable(w)
    ensures forall r :: 0 <= r < |w.store.regs| ==>
      var reg := w.store.regs[r];
      && |reg.verdicts| <= 1
      && (reg.verdicts == [] ==> w.store.now <= reg.deadline && IsPending(w.store, r))
  {
    ReachableInv(w);
    forall r | 0 <= r < |w.store.regs|
      ensures var reg := w.store.regs[r];
              |reg.verdicts| <= 1 && (reg.verdicts == [] ==> w.store.now <= reg.deadline && IsPending(w.store, r))
    {
      assert RegInv(w.store, r);
      var reg := w.store.regs[r];
      if reg.verdicts == [] { assert EntryInv(w.store, reg.sid, reg.id); }
    }
  }

  /** Registration `r` is an unsettled call of this id in this session. */
  ghost predicate Open(regs: seq<Registration>, r: nat, sid: Sid, id: Id) {
    r < |regs| && regs[r].sid == sid && regs[r].id == id && regs[r].verdicts == []
  }

  /** A response is accepted exactly when such a call is unsettled, and settles that call with it. */
  lemma ResponseAcceptedIffOpen(w: World, sid: Sid, id: Id, response: Json)
    requires Reachable(w)
    ensures Respond(w.store, sid, id, response).1 <==> exists r: nat :: Open(w.store.regs, r, sid, id)
    ensures forall r: nat :: Open(w.store.regs, r, sid, id) ==>
      Respond(w.store, sid, id, response).0.regs[r].verdicts == [Answered(response)]
  {
    ReachableInv(w);
    var st := w.store;
    forall r: nat | Open(st.regs, r, sid, id)
      ensures sid in st.sessions && id in st.sessions[sid].pending && st.sessions[sid].pending[id] == r
    {
      assert RegInv(st, r);
    }
    if sid in st.sessions {
      if Expired(st.sessions[sid], st.now) { ExpiredHasNothingPending(st, sid); }
      if id in st.sessions[sid].pending {
        assert EntryInv(st, sid, id);
        assert Open(st.regs, st.sessions[sid].pending[id], sid, id);
      }
    }
  }

  /** A reconnect re-delivers exactly the payloads of the unsettled calls of its session. */
  lemma ReconnectIsExact(w: World, sid: Sid, id: Id, payload: Json)
    requires Reachable(w)
    ensures (id, payload) in Reconnect(w.store, sid)
            <==> exists r: nat :: Open(w.store.regs, r, sid, id) && w.store.regs[r].payload == payload
  {
    ReachableInv(w);
    var st := w.store;
    forall r: nat | Open(st.regs, r, sid, id) ensures IsPending(st, r) { assert RegInv(st, r); }
    if sid in st.sessions {
      var s := st.sessions[sid];
      if Expired(s, st.now) { ExpiredHasNothingPending(st, sid); }
      assert Agrees(s);
      assert id in s.pending ==> EntryInv(st, sid, id);
      assert (id, payload) in s.payloads.Items <==> id in s.payloads && s.payloads[id] == payload;
      if id in s.pending { assert Open(st.regs, s.pending[id], sid, id); }
    }
  }

  /** A turn that ends leaves its session idle, with nothing pending and nothing to re-deliver. */
  lemma TurnEndsIdle(w: World, sid: Sid)
    requires Reachable(w) && Enabled(w, EndTurn(sid)) && sid in w.store.sessions
    ensures var s := Step(w, EndTurn(sid)).store.sessions[sid];
            s.state == Idle && s.pending == map[] && s.payloads == map[]
  {
    ReachableInv(w);
    assert TurnInv(w.store, sid, w.turns[sid]) && Agrees(w.store.sessions[sid]);
    assert w.store.sessions[sid].pending.Keys == {};
  }

  /** While a turn is between calls, a reconnect re-delivers nothing. */
  lemma RunningReconnect(w: World, sid: Sid)
    requires Inv(w) && sid in w.turns && w.turns[sid] == Running
    ensures Reconnect(w.store, sid) == {}
  {
    assert TurnInv(w.store, sid, Running);
    if sid in w.store.sessions {
      assert Agrees(w.store.sessions[sid]) && w.store.sessions[sid].pending.Keys == {};
    }
  }

  /** While it waits, a reconnect re-delivers the call it waits on until that is settled. */
  lemma WaitingReconnect(w: World, sid: Sid, r: nat)
    requires Inv(w) && sid in w.turns && w.turns[sid] == Waiting(r)
    ensures r < |w.store.regs|
    ensures Reconnect(w.store, sid)
         == if w.store.regs[r].verdicts == [] then {(w.store.regs[r].id, w.store.regs[r].payload)} else {}
  {
    var st, reg := w.store, w.store.regs[r];
    assert TurnInv(st, sid, Waiting(r)) && RegInv(st, r);
    if sid in st.sessions {
      var s := st.sessions[sid];
      assert Agrees(s);
      assert forall id :: id in s.pending ==> EntryInv(st, sid, id) && s.pending[id] == r;
      if reg.verdicts == [] {
        assert s.pending.Keys == {reg.id};
        assert s.payloads.Keys == {reg.id} && s.payloads[reg.id] == reg.payload;
        forall item | item in s.payloads.Items ensures item == (reg.id, reg.payload) {}
        assert (reg.id, reg.payload) in s.payloads.Items;
        assert s.payloads.Items == {(reg.id, reg.payload)};
        if Expired(s, st.now) { ExpiredHasNothingPending(st, sid); }
      } else {
        assert s.pending.Keys == {};
      }
    }
  }

  // --- A reconnect has at most one call to deliver ---

  ghost predicate OneAtMost(st: Store) {
    forall sid, a, b :: sid in st.sessions && a in st.sessions[sid].pending && b in st.sessions[sid].pending ==> a == b
  }

  lemma ShrinkingKeepsOne(st: Store, st': Store)
    requires OneAtMost(st) && Shrinks(st, st')
    ensures OneAtMost(st')
  {
  }

  lemma StepKeepsOne(w: World, op: Op)
    requires Inv(w) && Enabled(w, op) && OneAtMost(w.store)
    ensures OneAtMost(Step(w, op).store)
  {
    var st, w' := w.store, Step(w, op);
    match op
    case RegisterOp(sid, _, _, _) => assert TurnInv(st, sid, Running);
    case GetOp(sid) => GetKeeps(st, sid); ShrinkingKeepsOne(st, w'.store);
    case RespondOp(sid, id, response) => RespondKeeps(st, sid, id, response); ShrinkingKeepsOne(st, w'.store);
    case FireOp(r) => FireKeeps(st, r); ShrinkingKeepsOne(st, w'.store);
    case FinallyOp(r) => FinallyKeeps(st, r); ShrinkingKeepsOne(st, w'.store);
    case CleanupOp(sid) => CleanupKeeps(st, sid); ShrinkingKeepsOne(st, w'.store);
    case DeleteOp(sid) => if sid in st.sessions { EvictKeeps(st, sid); ShrinkingKeepsOne(st, w'.store); }
    case SweepOp => SweepKeeps(st); ShrinkingKeepsOne(st, w'.store);
    case _ =>
  }

  lemma {:induction false} RunsKeepOne(w: World, ops: seq<Op>, w': World)
    requires Inv(w) && OneAtMost(w.store) && Reaches(w, ops, w')
    ensures OneAtMost(w'.store)
    decreases |ops|
  {
    if ops != [] {
      StepKeepsInv(w, ops[0]);
      StepKeepsOne(w, ops[0]);
      RunsKeepOne(Step(w, ops[0]), ops[1..], w');
    }
  }

  /** So the order in which the payloads are kept never matters. */
  lemma ReconnectDeliversOne(w: World, sid: Sid)
    requires Reachable(w)
    ensures |Reconnect(w.store, sid)| <= 1
  {
    ReachableInv(w);
    var now, ops :| Reaches(Start(now), ops, w);
    RunsKeepOne(Start(now), ops, w);
    var delivered := Reconnect(w.store, sid);
    if one :| one in delivered {
      var s := w.store.sessions[sid];
      assert Agrees(s) && forall other :: other in delivered ==> other.0 in s.payloads;
      assert delivered == {one};
    }
  }
}
