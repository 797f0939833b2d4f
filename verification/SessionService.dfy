// The in-memory session service itself: its methods update the maps in place, and each does to them what
// the state machine of module Rendezvous says.
module SessionServices {
  import opened Json
  import opened Rendezvous
  import opened AnyRun

  /** One entry of the `sessions` map: an object the service and the turns share. */
  class SessionRecord {
    const id: Sid
    var pending: map<Id, nat>
    var payloads: map<Id, Json>
    var state: State
    var lastActive: int

    constructor (id: Sid, now: int)
      ensures this.id == id && Value() == Session(map[], map[], Idle, now)
    {
      this.id := id;
      pending, payloads, state, lastActive := map[], map[], Idle, now;
    }

    function Value(): Session
      reads this
    {
      Session(pending, payloads, state, lastActive)
    }
  }

  class SessionService {
    var now: int
    var sessions: map<Sid, SessionRecord>
    var regs: seq<Registration>

    /** Records are filed under their own id, and hold registrations of their own. */
    ghost predicate Valid()
      reads this, sessions.Values
    {
      (forall sid :: sid in sessions ==> sessions[sid].id == sid) && OwnEntries(Abs())
    }

    ghost function Abs(): Store
      reads this, sessions.Values
    {
      Store(now, map sid | sid in sessions :: sessions[sid].Value(), regs)
    }

    /** Only the record under `sid` changed since. */
    twostate lemma OneRecordChanged(sid: Sid)
      requires old(Valid()) && sid in old(sessions) && sessions == old(sessions)
      requires forall o :: o in sessions.Values && o != sessions[sid] ==> unchanged(o)
      ensures Abs().sessions == old(Abs()).sessions[sid := sessions[sid].Value()]
    {
      forall k | k in sessions && k != sid ensures unchanged(sessions[k]) {
        assert sessions[k].id == k && sessions[sid].id == sid;
        assert sessions[k] in sessions.Values;
      }
    }

    twostate lemma OneRecordGone(sid: Sid)
      requires old(Valid()) && sid in old(sessions) && sessions == old(sessions) - {sid}
      requires forall o :: o in sessions.Values && o != old(sessions[sid]) ==> unchanged(o)
      ensures Abs().sessions == old(Abs()).sessions - {sid}
    {
      forall k | k in sessions ensures unchanged(sessions[k]) {
        assert sessions[k].id == k && old(sessions[sid]).id == sid;
        assert sessions[k] in sessions.Values;
      }
    }

    constructor (now: int)
      ensures Valid() && Abs() == Store(now, map[], [])
    {
      this.now, sessions, regs := now, map[], [];
    }

    method Create(sid: Sid) returns (s: SessionRecord)
      requires Valid() && sid !in sessions
      modifies this
      ensures Valid() && Abs() == Rendezvous.Create(old(Abs()), sid)
      ensures fresh(s) && sessions == old(sessions)[sid := s]
    {
      s := new SessionRecord(sid, now);
      sessions := sessions[sid := s];
      assert Abs() == Rendezvous.Create(old(Abs()), sid);
      assert OwnEntries(old(Abs()));
    }

    method IsExpired(s: SessionRecord) returns (b: bool)
      ensures b == Expired(s.Value(), now)
    {
      b := now - s.lastActive > SESSION_TTL_MS;
    }

    /** Reject every deferred a record holds. */
    method RejectAll(s: SessionRecord)
      requires forall id :: id in s.pending ==> OwnEntry(regs, s.id, id, s.pending[id])
      modifies this`regs
      ensures regs == Settle(old(regs), s.pending.Values, TornDown)
    {
      var left := s.pending.Keys;
      ghost var done: set<nat> := {};
      assert regs == Settle(regs, {}, TornDown);
      while left != {}
        invariant left <= s.pending.Keys
        invariant done == set id | id in s.pending && id !in left :: s.pending[id]
        invariant regs == Settle(old(regs), done, TornDown)
        decreases left
      {
        var id :| id in left;
        var r := s.pending[id];
        assert OwnEntry(old(regs), s.id, id, r);
        assert r !in done by {
          assert forall k :: k in s.pending && s.pending[k] == r ==> OwnEntry(old(regs), s.id, k, r);
        }
        regs := regs[r := regs[r].(verdicts := regs[r].verdicts + [TornDown])];
        left, done := left - {id}, done + {r};
      }
      assert done == s.pending.Values;
    }

    /** `deferred.resolve` or `deferred.reject` of one registration. */
    method SettleReg(r: nat, v: Verdict)
      requires r < |regs|
      modifies this`regs
      ensures regs == Settle(old(regs), {r}, v)
    {
      regs := regs[r := regs[r].(verdicts := regs[r].verdicts + [v])];
    }

    method Evict(s: SessionRecord)
      requires Valid() && s.id in sessions && sessions[s.id] == s
      modifies this, s
      ensures Valid() && Abs() == Rendezvous.Evict(old(Abs()), s.id)
      ensures sessions == old(sessions) - {s.id}
    {
      assert forall id :: id in s.pending ==> id in Abs().sessions[s.id].pending;
      RejectAll(s);
      s.pending, s.payloads := map[], map[];
      sessions := sessions - {s.id};
      OneRecordGone(s.id);
      assert Abs() == Rendezvous.Evict(old(Abs()), s.id);
      SettleKeeps(old(Abs()), Abs(), old(s.pending).Values, TornDown);
    }

    method Get(sid: Sid) returns (s: SessionRecord?)
      requires Valid()
      modifies this, sessions.Values
      ensures Valid() && Abs() == Rendezvous.Get(old(Abs()), sid)
      ensures s != null <==> sid in sessions
      ensures s != null ==> sessions[sid] == s
    {
      if sid !in sessions { return null; }
      s := sessions[sid];
      var expired := IsExpired(s);
      if expired {
        Evict(s);
        return null;
      }
      s.lastActive := now;
      OneRecordChanged(sid);
      assert Abs() == Rendezvous.Get(old(Abs()), sid);
      GetOwns(old(Abs()), sid);
    }

    method AwaitMobileResult(sid: Sid, id: Id, payload: Json, timeout: nat) returns (ticket: Ticket)
      requires Valid()
      modifies this, sessions.Values
      ensures Valid()
      ensures (Abs(), ticket) == Register(old(Abs()), sid, id, payload, timeout)
    {
      if sid !in sessions { return NoTicket; }
      var s := sessions[sid];
      var expired := IsExpired(s);
      if expired {
        Evict(s);
        return NoTicket;
      }
      if id in s.pending { return NoTicket; }
      var r := |regs|;
      regs := regs + [Registration(sid, id, payload, now + timeout, [], true, false)];
      s.payloads := s.payloads[id := payload];
      s.pending := s.pending[id := r];
      s.state := AwaitingMobile;
      s.lastActive := now;
      ticket := Ticket(r);
      OneRecordChanged(sid);
      assert Abs() == Register(old(Abs()), sid, id, payload, timeout).0;
      RegisterOwns(old(Abs()), sid, id, payload, timeout);
    }

    method ResolveMobileResult(sid: Sid, id: Id, response: Json) returns (accepted: bool)
      requires Valid()
      modifies this, sessions.Values
      ensures Valid()
      ensures (Abs(), accepted) == Respond(old(Abs()), sid, id, response)
    {
      if sid !in sessions { return false; }
      var s := sessions[sid];
      var expired := IsExpired(s);
      if expired {
        Evict(s);
        return false;
      }
      if id !in s.pending { return false; }
      Accept(s, id, response);
      accepted := true;
    }

    /** The phone's answer reaches the call it is for. */
    method Accept(s: SessionRecord, id: Id, response: Json)
      requires Valid() && s.id in sessions && sessions[s.id] == s && id in s.pending
      requires !Expired(s.Value(), now)
      modifies this`regs, s
      ensures Valid() && (Abs(), true) == Respond(old(Abs()), s.id, id, response)
    {
      var r := s.pending[id];
      assert OwnEntry(regs, s.id, id, r) by { assert id in Abs().sessions[s.id].pending; }
      ForgetEntry(s, id);
      s.lastActive := now;
      SettleReg(r, Answered(response));
      OneRecordChanged(s.id);
      assert Abs() == Respond(old(Abs()), s.id, id, response).0;
      SettleKeeps(old(Abs()), Abs(), {r}, Answered(response));
    }

    /** Drop one call from both maps; with none left, a waiting session becomes idle. */
    method ForgetEntry(s: SessionRecord, id: Id)
      modifies s
      ensures s.Value() == Forget(old(s.Value()), id)
    {
      s.pending := s.pending - {id};
      s.payloads := s.payloads - {id};
      if s.pending == map[] && s.state == AwaitingMobile { s.state := Idle; }
    }

    /** The `cleanup` closure that `awaitMobileResult` shares with its timer and its `finally`. */
    method RunCleanupClosure(r: nat)
      requires Valid() && r < |regs|
      modifies this`regs, sessions.Values
      ensures Valid() && Abs() == CleanupClosure(old(Abs()), r)
    {
      var reg := regs[r];
      regs := regs[r := reg.(armed := false)];
      if reg.sid in sessions {
        var s := sessions[reg.sid];
        ForgetEntry(s, reg.id);
        OneRecordChanged(reg.sid);
      }
      assert Abs() == CleanupClosure(old(Abs()), r);
      CleanupClosureOwns(old(Abs()), r);
    }

    method TimerFired(r: nat)
      requires Valid() && r < |regs|
      modifies this`regs, sessions.Values
      ensures Valid() && Abs() == Fire(old(Abs()), r)
    {
      var reg := regs[r];
      if reg.sid !in sessions || reg.id !in sessions[reg.sid].pending {
        regs := regs[r := reg.(armed := false)];
        assert Abs() == Fire(old(Abs()), r);
        SameIdsOwn(old(Abs()), Abs());
        return;
      }
      TimeOut(r);
    }

    method TimeOut(r: nat)
      requires Valid() && r < |regs|
      modifies this`regs, sessions.Values
      ensures Valid()
      ensures var st := CleanupClosure(old(Abs()), r); Abs() == st.(regs := Settle(st.regs, {r}, TimedOut))
    {
      RunCleanupClosure(r);
      ghost var mid := Abs();
      SettleReg(r, TimedOut);
      assert Abs() == mid.(regs := Settle(mid.regs, {r}, TimedOut));
      SameIdsOwn(mid, Abs());
    }

    method FinallyCallback(r: nat)
      requires Valid() && r < |regs|
      modifies this`regs, sessions.Values
      ensures Valid() && Abs() == Finally(old(Abs()), r)
    {
      RunCleanupClosure(r);
      ghost var mid := Abs();
      regs := regs[r := regs[r].(cleaned := true)];
      assert Abs() == mid.(regs := regs);
      SameIdsOwn(mid, Abs());
    }

    method Cleanup(sid: Sid)
      requires Valid()
      modifies this`regs, sessions.Values
      ensures Valid() && Abs() == Rendezvous.Cleanup(old(Abs()), sid)
    {
      if sid !in sessions { return; }
      var s := sessions[sid];
      assert forall id :: id in s.pending ==> id in Abs().sessions[sid].pending;
      RejectAll(s);
      s.pending, s.payloads := map[], map[];
      s.state := Idle;
      s.lastActive := now;
      OneRecordChanged(sid);
      assert Abs() == Rendezvous.Cleanup(old(Abs()), sid);
      SettleKeeps(old(Abs()), Abs(), old(s.pending).Values, TornDown);
    }

    method Delete(sid: Sid)
      requires Valid()
      modifies this, sessions.Values
      ensures Valid() && Abs() == Rendezvous.Delete(old(Abs()), sid)
    {
      if sid !in sessions { return; }
      Evict(sessions[sid]);
    }

    /** Every expired session goes, and the count says how many. */
    method Sweep() returns (evicted: nat)
      requires Valid()
      modifies this, sessions.Values
      ensures Valid() && Abs() == Rendezvous.Sweep(old(Abs()))
      ensures evicted == |Stale(old(Abs()))|
    {
      SweptNone(Abs());
      evicted := SweepThrough(Abs(), Stale(Abs()));
    }

    /** The sweep stands at a store without the sessions gone so far. */
    ghost predicate Sweeping(st: Store, gone: set<Sid>)
      reads this, sessions.Values
    {
      Valid() && OwnEntries(st) && Abs() == Swept(st, gone) && gone <= Stale(st)
    }

    method SweepThrough(ghost st: Store, ghost stale: set<Sid>) returns (evicted: nat)
      requires Sweeping(st, {}) && stale == Stale(st) && stale <= sessions.Keys
      modifies this, sessions.Values
      ensures Sweeping(st, stale) && evicted == |stale|
    {
      evicted := 0;
      ghost var gone: set<Sid> := {};
      var left := sessions.Keys;
      MinusNone(sessions);
      while left != {}
        invariant Sweeping(st, gone)
        invariant left <= sessions.Keys
        invariant sessions == old(sessions) - gone
        invariant LeftToSweep(stale, gone, left)
        invariant evicted == |gone|
        decreases |left|
      {
        var sid :| sid in left;
        SweptSoFar(stale, gone, left, sid);
        left := left - {sid};
        var expired := SweepOne(sid, st, gone, stale);
        if expired {
          MinusTwice(old(sessions), gone, {sid});
          evicted, gone := evicted + 1, gone + {sid};
        }
      }
    }

    method SweepOne(sid: Sid, ghost st: Store, ghost gone: set<Sid>, ghost stale: set<Sid>) returns (expired: bool)
      requires Sweeping(st, gone) && sid in sessions && sid !in gone && stale == Stale(st)
      modifies this, sessions[sid]
      ensures Sweeping(st, if expired then gone + {sid} else gone)
      ensures expired <==> sid in stale
      ensures sessions == if expired then old(sessions) - {sid} else old(sessions)
    {
      var s := sessions[sid];
      assert sid in Abs().sessions && Abs().sessions[sid] == st.sessions[sid];
      expired := IsExpired(s);
      if expired {
        SweptMore(st, gone, sid);
        Evict(s);
      }
    }
  }

  lemma MinusNone<K, V>(m: map<K, V>)
    ensures m - {} == m
  {
  }

  lemma MinusTwice<K, V>(m: map<K, V>, a: set<K>, b: set<K>)
    ensures m - a - b == m - (a + b)
  {
  }

  ghost predicate LeftToSweep(stale: set<Sid>, gone: set<Sid>, left: set<Sid>) {
    gone !! left && gone <= stale <= gone + left && (left == {} ==> gone == stale)
  }

  lemma SweptSoFar(stale: set<Sid>, gone: set<Sid>, left: set<Sid>, sid: Sid)
    requires LeftToSweep(stale, gone, left) && sid in left
    ensures sid !in gone && |left - {sid}| < |left|
    ensures if sid in stale then LeftToSweep(stale, gone + {sid}, left - {sid}) && |gone + {sid}| == |gone| + 1
            else LeftToSweep(stale, gone, left - {sid})
  {
  }

  /** A sweep that has got as far as some of the sessions. */
  ghost function Swept(st: Store, gone: set<Sid>): Store {
    st.(sessions := st.sessions - gone, regs := Settle(st.regs, PendingIn(st, gone), TornDown))
  }

  lemma SweptNone(st: Store)
    ensures Swept(st, {}) == st
  {
    assert st.sessions - {} == st.sessions;
    assert Settle(st.regs, PendingIn(st, {}), TornDown) == st.regs;
  }

  lemma SweptMore(st: Store, gone: set<Sid>, sid: Sid)
    requires sid in st.sessions && sid !in gone && OwnEntries(st)
    ensures Rendezvous.Evict(Swept(st, gone), sid) == Swept(st, gone + {sid})
  {
    var more := st.sessions[sid].pending.Values;
    assert st.sessions - gone - {sid} == st.sessions - (gone + {sid});
    assert PendingIn(st, gone + {sid}) == PendingIn(st, gone) + more;
    assert PendingIn(st, gone) !! more;
    assert Settle(Settle(st.regs, PendingIn(st, gone), TornDown), more, TornDown)
        == Settle(st.regs, PendingIn(st, gone) + more, TornDown);
  }
}
