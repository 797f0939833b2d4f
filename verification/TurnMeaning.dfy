// What the rules of module TurnRules mean for every turn, whatever the model, the phone and the server do.
module TurnMeaning {
  import opened Basics
  import opened Transcript
  import opened Repair
  import opened Turn
  import opened TurnRules

  /** Up to `i`, the monitor has seen the prefix; what it allows next is the move at `i`. */
  function At(m: Monitor, trace: seq<Move>, i: nat): Monitor
    requires i <= |trace|
  {
    Watch(m, trace[..i])
  }

  lemma ObeysPrefix(m: Monitor, trace: seq<Move>, i: nat)
    requires Obeys(m, trace) && i <= |trace|
    ensures Obeys(m, trace[..i])
  {
    assert trace == trace[..i] + trace[i..];
    ObeysConcat(m, trace[..i], trace[i..]);
  }

  // --- The log stays paired ---

  function AddToLast(es: seq<Exchange>, replies: seq<Reply>): seq<Exchange>
    requires es != []
  {
    var n := |es| - 1;
    es[..n] + [Exchange(es[n].head, es[n].replies + replies)]
  }

  lemma AddToLastCons(e: Exchange, es: seq<Exchange>, replies: seq<Reply>)
    ensures AddToLast([e] + es, replies)
         == if es == [] then [Exchange(e.head, e.replies + replies)] else [e] + AddToLast(es, replies)
  {
  }

  lemma {:induction false} ExchangesTool(log: seq<Message>, replies: seq<Reply>)
    requires Exchanges(log) != []
    ensures Run(log + [Tool(replies)]) == Run(log)
    ensures Exchanges(log + [Tool(replies)]) == AddToLast(Exchanges(log), replies)
  {
    var head, rest := log[0], log[1..];
    var late := [Tool(replies)];
    assert log == [head] + rest && log + late == [head] + (rest + late);
    ExchangesHead(head, rest);
    ExchangesHead(head, rest + late);
    if Exchanges(rest) == [] {
      LateRun(rest, replies);
    } else {
      ExchangesTool(rest, replies);
    }
    if !head.Tool? { AddToLastCons(Exchange(head, Run(rest)), Exchanges(rest), replies); }
  }

  lemma LateRun(rest: seq<Message>, replies: seq<Reply>)
    requires Exchanges(rest) == []
    ensures Exchanges(rest + [Tool(replies)]) == [] && Run(rest + [Tool(replies)]) == Run(rest) + replies
  {
    var late := [Tool(replies)];
    NoHeads(rest);
    RunConcat(rest, late);
    ToolRun(rest + late);
    assert late[1..] == [] && Run(late) == replies + [] == replies;
  }

  lemma {:induction false} NoHeads(log: seq<Message>)
    requires Exchanges(log) == []
    ensures AllTool(log)
  {
    if log != [] { NoHeads(log[1..]); }
  }

  /** The log is well paired but for the last calls, of which exactly those in `owed` lack an answer. */
  ghost predicate Partial(log: seq<Message>, owed: seq<Id>) {
    && ReplyIds(Run(log)) == []
    && if owed == [] then AllPaired(Exchanges(log))
       else Exchanges(log) != [] && Open(Exchanges(log), owed)
  }

  ghost predicate Open(es: seq<Exchange>, owed: seq<Id>)
    requires es != []
  {
    var last := es[|es| - 1];
    && AllPaired(es[..|es| - 1])
    && Distinct(CallsOf(last.head)) && ReplyIds(last.replies) + owed == CallIds(CallsOf(last.head))
  }

  lemma {:induction false} DistinctIds(calls: seq<ToolCall>)
    requires Distinct(calls)
    ensures multiset(CallIds(calls)) == multiset(IdSet(calls))
  {
    if calls == [] {
      assert CallIds(calls) == [];
    } else {
      DistinctIds(calls[1..]);
      IdSetCons(calls);
      AddOne(calls[0].id, IdSet(calls[1..]));
      assert CallIds(calls) == [calls[0].id] + CallIds(calls[1..]);
    }
  }

  lemma AnsweredInOrderIsPaired(e: Exchange)
    requires Distinct(CallsOf(e.head)) && ReplyIds(e.replies) == CallIds(CallsOf(e.head))
    ensures Paired(e)
  {
    DistinctIds(CallsOf(e.head));
  }

  lemma PushHead(log: seq<Message>, parts: seq<Part>)
    requires Partial(log, []) && Distinct(Calls(parts))
    ensures Partial(log + [Assistant(parts)], CallIds(Calls(parts)))
  {
    var head := [Assistant(parts)];
    var e := Exchange(Assistant(parts), []);
    ExchangesConcat(log, head);
    assert head[1..] == [] && Exchanges(head) == [e];
    var es := Exchanges(log) + [e];
    assert es[..|es| - 1] == Exchanges(log);
    assert ReplyIds([]) + CallIds(Calls(parts)) == CallIds(Calls(parts));
    if Calls(parts) == [] { AnsweredInOrderIsPaired(e); }
  }

  lemma PushReply(log: seq<Message>, owed: seq<Id>, r: Reply)
    requires Partial(log, owed) && owed != [] && r.Result? && r.id == owed[0]
    ensures Partial(log + [Tool([r])], owed[1..])
  {
    var es, n := Exchanges(log), |Exchanges(log)| - 1;
    var e := Exchange(es[n].head, es[n].replies + [r]);
    ExchangesTool(log, [r]);
    var es' := es[..n] + [e];
    assert es'[..n] == es[..n] && es'[n] == e;
    OneLess(es[n].replies, owed, r, CallIds(CallsOf(e.head)));
    if owed[1..] == [] {
      assert ReplyIds(e.replies) + [] == ReplyIds(e.replies);
      AnsweredInOrderIsPaired(e);
    }
  }

  lemma OneLess(replies: seq<Reply>, owed: seq<Id>, r: Reply, ids: seq<Id>)
    requires owed != [] && r.Result? && r.id == owed[0] && ReplyIds(replies) + owed == ids
    ensures ReplyIds(replies + [r]) + owed[1..] == ids
  {
    ReplyIdsConcat(replies, [r]);
    assert [r][1..] == [] && ReplyIds([r]) == [r.id];
    assert owed == [r.id] + owed[1..];
    Associative(ReplyIds(replies), [r.id], owed[1..]);
  }

  function Logged(move: Move): seq<Message> {
    if move.Push? then [move.message] else []
  }

  /** What the rules say about a push. */
  lemma AllowedPush(m: Monitor, move: Move)
    requires m.tidy && Allowed(m, move)
    ensures Next(m, move).tidy
    ensures !move.Push? ==> Next(m, move).owed == m.owed
    ensures move.Push? && move.message.Assistant? ==>
      m.owed == [] && Distinct(Calls(move.message.parts)) && Next(m, move).owed == CallIds(Calls(move.message.parts))
    ensures move.Push? && !move.message.Assistant? ==>
      && move.message.Tool? && |move.message.replies| == 1 && move.message.replies[0].Result?
      && m.owed != [] && move.message.replies[0].id == m.owed[0] && Next(m, move).owed == m.owed[1..]
  {
  }

  lemma PartialStep(log: seq<Message>, m: Monitor, move: Move)
    requires m.tidy && Partial(log, m.owed) && Allowed(m, move)
    ensures Partial(log + Logged(move), Next(m, move).owed) && Next(m, move).tidy
  {
    AllowedPush(m, move);
    if !move.Push? {
      assert log + [] == log;
    } else if move.message.Assistant? {
      PushHead(log, move.message.parts);
    } else {
      var r := move.message.replies[0];
      assert move.message == Tool([r]);
      PushReply(log, m.owed, r);
    }
  }

  lemma LastMove(m: Monitor, trace: seq<Move>, front: seq<Move>, move: Move)
    requires Obeys(m, trace) && trace != []
    requires front == trace[..|trace| - 1] && move == trace[|trace| - 1]
    ensures Obeys(m, front) && Allowed(Watch(m, front), move) && Watch(m, trace) == Next(Watch(m, front), move)
    ensures LogOf(trace) == LogOf(front) + Logged(move)
  {
    ObeysAt(m, trace, |trace| - 1);
    assert trace[..|trace|] == trace;
  }

  /** What a prefix of an obedient trace adds to the log leaves exactly the owed answers missing. */
  lemma {:induction false} OwedIsMissing(base: seq<Message>, trace: seq<Move>)
    requires WellPaired(base) && Obeys(Start(true), trace)
    ensures Watch(Start(true), trace).tidy
    ensures Partial(base + LogOf(trace), Watch(Start(true), trace).owed)
    decreases |trace|
  {
    if trace == [] {
      assert base + [] == base;
    } else {
      var front, move := trace[..|trace| - 1], trace[|trace| - 1];
      LastMove(Start(true), trace, front, move);
      OwedIsMissing(base, front);
      PartialStep(base + LogOf(front), Watch(Start(true), front), move);
      Associative(base, LogOf(front), Logged(move));
    }
  }

  /** From a well-paired log, every model call of the turn and its end find the log well paired. */
  lemma PairedAtEveryModelCall(env: Env, base: seq<Message>)
    requires WellPaired(base) && TidyEnv(env)
    ensures forall i :: 0 <= i < |TurnTrace(env)| && TurnTrace(env)[i].Ask? ==>
      WellPaired(base + LogOf(TurnTrace(env)[..i]))
    ensures WellPaired(base + LogOf(TurnTrace(env)))
  {
    var trace := TurnTrace(env);
    EveryTurnObeys(env, true);
    forall i | 0 <= i < |trace| && trace[i].Ask? ensures WellPaired(base + LogOf(trace[..i])) {
      ObeysAt(Start(true), trace, i);
      OwedIsMissing(base, trace[..i]);
    }
    OwedIsMissing(base, trace);
  }

  function MarkAll(calls: seq<ToolCall>): seq<Reply> {
    seq(|calls|, i requires 0 <= i < |calls| => Marker(calls[i]))
  }

  lemma {:induction false} RestInterrupted(calls: seq<ToolCall>, answered: set<Id>)
    requires Distinct(calls) && forall c :: c in calls ==> c.id !in answered
    ensures Interruptions(calls, answered) == MarkAll(calls)
    decreases |calls|
  {
    if calls != [] {
      assert calls == [calls[0]] + calls[1..];
      RestInterrupted(calls[1..], answered + {calls[0].id});
      assert MarkAll(calls) == [Marker(calls[0])] + MarkAll(calls[1..]);
    } else {
      assert MarkAll(calls) == [];
    }
  }

  lemma {:induction false} DoneSkipped(calls: seq<ToolCall>, done: nat, answered: set<Id>)
    requires done <= |calls| && forall c :: c in calls[..done] ==> c.id in answered
    ensures Interruptions(calls, answered) == Interruptions(calls[done..], answered)
    decreases done
  {
    if done > 0 {
      assert calls[..done][0] == calls[0];
      assert calls[1..][..done - 1] == calls[..done][1..] && calls[1..][done - 1..] == calls[done..];
      DoneSkipped(calls[1..], done - 1, answered);
    } else {
      assert calls[0..] == calls;
    }
  }

  /** The calls of the last message that repair has to answer itself. */
  ghost function Unanswered(e: Exchange): seq<ToolCall> {
    var n := |ReplyIds(e.replies)|;
    if n <= |CallsOf(e.head)| then CallsOf(e.head)[n..] else []
  }

  lemma AnsweredPrefix(calls: seq<ToolCall>, ids: seq<Id>, owed: seq<Id>)
    requires ids + owed == CallIds(calls)
    ensures |ids| <= |calls| && ids == CallIds(calls[..|ids|]) && owed == CallIds(calls[|ids|..])
  {
    var n := |ids|;
    assert ids == (ids + owed)[..n] && owed == (ids + owed)[n..];
    assert CallIds(calls[..n]) == CallIds(calls)[..n] && CallIds(calls[n..]) == CallIds(calls)[n..];
  }

  lemma PrefixAnswered(calls: seq<ToolCall>, ids: seq<Id>, n: nat, answered: set<Id>)
    requires n <= |calls| && ids == CallIds(calls[..n]) && answered == set id | id in ids
    requires Distinct(calls)
    ensures Interruptions(calls, answered) == MarkAll(calls[n..])
  {
    forall c | c in calls[..n] ensures c.id in answered {
      var i :| 0 <= i < n && calls[i] == c;
      assert ids[i] in ids;
    }
    DoneSkipped(calls, n, answered);
    forall c | c in calls[n..] ensures c.id !in answered {
      var j :| n <= j < |calls| && calls[j] == c;
      assert forall i :: 0 <= i < n ==> ids[i] == calls[i].id != c.id;
    }
    RestInterrupted(calls[n..], answered);
  }

  lemma OpenExchangeRepair(e: Exchange, owed: seq<Id>)
    requires Distinct(CallsOf(e.head)) && ReplyIds(e.replies) + owed == CallIds(CallsOf(e.head))
    ensures RepairExchange(e) == Exchange(e.head, MarkAll(Unanswered(e)) + e.replies)
    ensures CallIds(Unanswered(e)) == owed
  {
    var calls, ids := CallsOf(e.head), ReplyIds(e.replies);
    AnsweredPrefix(calls, ids, owed);
    PrefixAnswered(calls, ids, |ids|, Answered(e.replies));
    DistinctIds(calls);
    assert multiset(CallIds(calls)) == multiset(ids) + multiset(owed);
    KeepAll(IdSet(calls), e.replies);
    FirstAnswersAreKept(IdSet(calls), e.replies);
  }

  /** Repair leaves the log as it is, but that it marks the calls of its last message with no answer yet. */
  ghost predicate RepairOnlyFinishes(log: seq<Message>, owed: seq<Id>) {
    if owed == [] then Repaired(log) == log
    else
      var es, n := Exchanges(log), |Exchanges(log)| - 1;
      && n >= 0 && CallIds(Unanswered(es[n])) == owed
      && ReplyIds(Run(Repaired(log))) == []
      && Exchanges(Repaired(log)) == es[..n] + [Exchange(es[n].head, MarkAll(Unanswered(es[n])) + es[n].replies)]
  }

  lemma PairedExchangeKept(e: Exchange)
    requires Paired(e)
    ensures RepairExchange(e) == e
  {
    var called := IdSet(CallsOf(e.head));
    KeepAll(called, e.replies);
    FirstAnswersAreKept(called, e.replies);
    NothingInterrupted(CallsOf(e.head), Answered(e.replies)) by {
      forall id | id in called ensures id in Answered(e.replies) {
        assert id in multiset(called);
        assert id in multiset(ReplyIds(e.replies));
      }
    }
    assert [] + e.replies == e.replies;
  }

  lemma {:induction false} NothingInterrupted(calls: seq<ToolCall>, answered: set<Id>)
    requires IdSet(calls) <= answered
    ensures Interruptions(calls, answered) == []
  {
    if calls != [] {
      IdSetCons(calls);
      NothingInterrupted(calls[1..], answered);
    }
  }

  lemma LastRepaired(es: seq<Exchange>)
    requires es != [] && AllPaired(es[..|es| - 1])
    ensures Map(RepairExchange, es) == es[..|es| - 1] + [RepairExchange(es[|es| - 1])]
  {
    forall i | 0 <= i < |es| - 1 ensures RepairExchange(es[i]) == es[i] {
      assert es[i] in es[..|es| - 1];
      PairedExchangeKept(es[i]);
    }
  }

  lemma PartialRepair(log: seq<Message>, owed: seq<Id>)
    requires Partial(log, owed)
    ensures RepairOnlyFinishes(log, owed)
  {
    if owed == [] {
      WellPairedUnchanged(log);
    } else {
      RepairIsLocal(log);
      RepairPairs(log);
      LastRepaired(Exchanges(log));
      OpenExchangeRepair(Exchanges(log)[|Exchanges(log)| - 1], owed);
    }
  }

  /**
   * A turn cut off at any point leaves a log whose repair keeps all of it, with an `interrupted` marker for
   * each call still unanswered, in call order, and no other.
   */
  lemma CutOffAnywhere(env: Env, base: seq<Message>, i: nat)
    requires WellPaired(base) && TidyEnv(env) && i <= |TurnTrace(env)|
    ensures RepairOnlyFinishes(base + LogOf(TurnTrace(env)[..i]), At(Start(true), TurnTrace(env), i).owed)
  {
    EveryTurnObeys(env, true);
    ObeysPrefix(Start(true), TurnTrace(env), i);
    OwedIsMissing(base, TurnTrace(env)[..i]);
    PartialRepair(base + LogOf(TurnTrace(env)[..i]), At(Start(true), TurnTrace(env), i).owed);
  }
}
