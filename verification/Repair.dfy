// The two repair passes that run over the log before every model call
// (sanitizeOrphanedToolCalls, then dropOrphanedToolResults).
module Repair {
  import opened Basics
  import opened Json
  import opened Transcript

  // --- Pass 1: answer every unanswered call ---

  const INTERRUPTED: Json :=
    Obj([Field("status", Str("approved_but_failed")), Field("error", Str("interrupted"))])

  function Marker(c: ToolCall): Reply {
    Result(c.id, c.name, JsonOutput(INTERRUPTED))
  }

  function Markers(calls: seq<ToolCall>, answered: set<Id>): seq<Reply> {
    if calls == [] then []
    else (if calls[0].id in answered then [] else [Marker(calls[0])]) + Markers(calls[1..], answered)
  }

  /** One `tool` message per reply, as `toolResultMessage` builds them. */
  function Each(replies: seq<Reply>): (log: seq<Message>)
    ensures |log| == |replies| && forall i :: 0 <= i < |log| ==> log[i] == Tool([replies[i]])
  {
    seq(|replies|, i requires 0 <= i < |replies| => Tool([replies[i]]))
  }

  /** A message, then an `interrupted` result for each call the run after it leaves unanswered. */
  function Pushed(head: Message, rest: seq<Message>): seq<Message> {
    [head] + Each(Markers(CallsOf(head), Answered(Run(rest))))
  }

  function Sanitized(log: seq<Message>): seq<Message> {
    if log == [] then [] else Pushed(log[0], log[1..]) + Sanitized(log[1..])
  }

  /** Some call has no result in the run after its message: the scan of the fast path. */
  ghost predicate Orphaned(log: seq<Message>, i: nat)
    requires i < |log|
  {
    !(IdSet(CallsOf(log[i])) <= Answered(Run(log[i + 1..])))
  }

  method CollectCalls(m: Message) returns (calls: seq<ToolCall>)
    ensures calls == CallsOf(m)
  {
    calls := [];
    if m.Assistant? {
      for k := 0 to |m.parts|
        invariant calls == Calls(m.parts[..k])
      {
        assert m.parts[..k + 1] == m.parts[..k] + [m.parts[k]];
        CallsConcat(m.parts[..k], [m.parts[k]]);
        if m.parts[k].Call? { calls := calls + [m.parts[k].call]; }
      }
      assert m.parts[..|m.parts|] == m.parts;
    }
  }

  method CollectResultIds(replies: seq<Reply>) returns (ids: set<Id>)
    ensures ids == Answered(replies)
  {
    ids := {};
    for k := 0 to |replies|
      invariant ids == Answered(replies[..k])
    {
      assert replies[..k + 1] == replies[..k] + [replies[k]];
      ReplyIdsConcat(replies[..k], [replies[k]]);
      if replies[k].Result? { ids := ids + {replies[k].id}; }
    }
    assert replies[..|replies|] == replies;
  }

  lemma RunFrom(log: seq<Message>, scan: nat)
    requires scan <= |log|
    ensures Run(log[scan..]) ==
      if scan < |log| && log[scan].Tool? then log[scan].replies + Run(log[scan + 1..]) else []
  {
    if scan < |log| { assert log[scan..][1..] == log[scan + 1..]; }
  }

  /** The replies in `all` are those of `seen` and then of the run from `scan` on. */
  ghost predicate RunLeft(all: seq<Reply>, seen: seq<Reply>, log: seq<Message>, scan: nat)
    requires scan <= |log|
  {
    all == seen + Run(log[scan..])
  }

  lemma RunMoves(all: seq<Reply>, seen: seq<Reply>, log: seq<Message>, scan: nat)
    requires scan <= |log| && RunLeft(all, seen, log, scan)
    ensures if scan < |log| && log[scan].Tool? then RunLeft(all, seen + log[scan].replies, log, scan + 1)
            else all == seen
  {
    RunFrom(log, scan);
    if scan < |log| && log[scan].Tool? { Associative(seen, log[scan].replies, Run(log[scan + 1..])); }
  }

  method CollectAnswered(log: seq<Message>, from: nat) returns (answered: set<Id>)
    requires from <= |log|
    ensures answered == Answered(Run(log[from..]))
  {
    answered := {};
    var scan := from;
    ghost var all, seen: seq<Reply> := Run(log[from..]), [];
    while scan < |log| && log[scan].Tool?
      invariant from <= scan <= |log|
      invariant RunLeft(all, seen, log, scan)
      invariant answered == Answered(seen)
    {
      RunMoves(all, seen, log, scan);
      AnsweredConcat(seen, log[scan].replies);
      var ids := CollectResultIds(log[scan].replies);
      answered, seen := answered + ids, seen + log[scan].replies;
      scan := scan + 1;
    }
    RunMoves(all, seen, log, scan);
  }

  lemma {:induction false} MarkersOfAnswered(calls: seq<ToolCall>, answered: set<Id>)
    ensures Markers(calls, answered) == [] <==> IdSet(calls) <= answered
  {
    if calls != [] {
      MarkersOfAnswered(calls[1..], answered);
      assert IdSet(calls) == {calls[0].id} + IdSet(calls[1..]);
    }
  }

  lemma {:induction false} SanitizedUnorphaned(log: seq<Message>)
    requires forall i :: 0 <= i < |log| ==> !Orphaned(log, i)
    ensures Sanitized(log) == log
  {
    if log != [] {
      assert !Orphaned(log, 0);
      MarkersOfAnswered(CallsOf(log[0]), Answered(Run(log[1..])));
      forall i | 0 <= i < |log[1..]| ensures !Orphaned(log[1..], i) {
        assert !Orphaned(log, i + 1);
        assert log[i + 1 + 1..] == log[1..][i + 1..];
      }
      SanitizedUnorphaned(log[1..]);
    }
  }

  lemma {:induction false} MarkersConcat(a: seq<ToolCall>, b: seq<ToolCall>, answered: set<Id>)
    ensures Markers(a + b, answered) == Markers(a, answered) + Markers(b, answered)
  {
    if a == [] {
      assert a + b == b;
    } else {
      assert (a + b)[1..] == a[1..] + b;
      MarkersConcat(a[1..], b, answered);
    }
  }

  method InterruptedMessages(ids: seq<ToolCall>, answered: set<Id>) returns (out: seq<Message>)
    ensures out == Each(Markers(ids, answered))
  {
    out := [];
    for k := 0 to |ids|
      invariant out == Each(Markers(ids[..k], answered))
    {
      assert ids[..k + 1] == ids[..k] + [ids[k]];
      MarkersConcat(ids[..k], [ids[k]], answered);
      if ids[k].id !in answered {
        out := out + [Tool([Marker(ids[k])])];
      }
    }
    assert ids[..|ids|] == ids;
  }

  lemma UnansweredCall(messages: seq<Message>, i: nat, calls: seq<ToolCall>, answered: set<Id>)
    requires i < |messages|
    requires calls == CallsOf(messages[i]) && answered == Answered(Run(messages[i + 1..]))
    ensures (exists x :: x in calls && x.id !in answered) <==> Orphaned(messages, i)
  {
  }

  method HasOrphanedCall(messages: seq<Message>) returns (needsRewrite: bool)
    ensures needsRewrite <==> exists k :: 0 <= k < |messages| && Orphaned(messages, k)
  {
    needsRewrite := false;
    var i := 0;
    while i < |messages| && !needsRewrite
      invariant 0 <= i <= |messages|
      invariant needsRewrite <==> exists k :: 0 <= k < i && Orphaned(messages, k)
    {
      var ids := CollectCalls(messages[i]);
      var answered := CollectAnswered(messages, i + 1);
      needsRewrite := exists x :: x in ids && x.id !in answered;
      UnansweredCall(messages, i, ids, answered);
      i := i + 1;
    }
  }

  lemma SanitizedStep(messages: seq<Message>, i: nat, out: seq<Message>)
    requires i < |messages|
    ensures out + Sanitized(messages[i..])
         == out + Pushed(messages[i], messages[i + 1..]) + Sanitized(messages[i + 1..])
  {
    assert messages[i..][1..] == messages[i + 1..];
    Associative(out, Pushed(messages[i], messages[i + 1..]), Sanitized(messages[i + 1..]));
  }

  /** The scan and the rewrite of the first pass; the fast path returns what the rewrite would. */
  method SanitizeOrphanedToolCalls(messages: seq<Message>) returns (out: seq<Message>)
    ensures out == Sanitized(messages)
  {
    var needsRewrite := HasOrphanedCall(messages);
    if !needsRewrite {
      SanitizedUnorphaned(messages);
      return messages;
    }
    out := AnswerOrphans(messages);
  }

  method AnswerOrphans(messages: seq<Message>) returns (out: seq<Message>)
    ensures out == Sanitized(messages)
  {
    out := [];
    ghost var all := Sanitized(messages);
    assert messages[0..] == messages;
    for i := 0 to |messages|
      invariant all == out + Sanitized(messages[i..])
    {
      var ids := CollectCalls(messages[i]);
      var answered := CollectAnswered(messages, i + 1);
      var added := InterruptedMessages(ids, answered);
      SanitizedStep(messages, i, out);
      out := out + ([messages[i]] + added);
    }
  }

  // --- Pass 2: drop every result that answers no open call ---

  datatype Kept = Kept(replies: seq<Reply>, open: set<Id>)

  /** Keep the first result of each open id, and every part that is not a result. */
  function Keep(open: set<Id>, replies: seq<Reply>): Kept {
    if replies == [] then Kept([], open)
    else if replies[0].Note? then
      var k := Keep(open, replies[1..]);
      Kept([replies[0]] + k.replies, k.open)
    else if replies[0].id in open then
      var k := Keep(open - {replies[0].id}, replies[1..]);
      Kept([replies[0]] + k.replies, k.open)
    else Keep(open, replies[1..])
  }

  /** What one message leaves in the log, and the calls open after it. */
  function DropStep(open: set<Id>, m: Message): (seq<Message>, set<Id>) {
    match m
    case Assistant(parts) => ([m], open + IdSet(Calls(parts)))
    case Tool(replies) =>
      var k := Keep(open, replies);
      (if k.replies == [] then [] else [Tool(k.replies)], k.open)
    case Plain(_, _) => ([m], open)
  }

  function DropFrom(open: set<Id>, log: seq<Message>): seq<Message>
    decreases |log|
  {
    if log == [] then []
    else
      var (kept, open') := DropStep(open, log[0]);
      kept + DropFrom(open', log[1..])
  }

  /** Every result answers a call still open: the scan of the fast path finds nothing to drop. */
  ghost predicate NothingToDrop(open: set<Id>, log: seq<Message>)
    decreases |log|
  {
    log == [] ||
    ( && (log[0].Tool? ==> Keep(open, log[0].replies).replies == log[0].replies)
      && NothingToDrop(DropStep(open, log[0]).1, log[1..]))
  }

  ghost function Dropped(log: seq<Message>): seq<Message> {
    if NothingToDrop({}, log) then log else DropFrom({}, log)
  }

  lemma {:induction false} KeepConcat(open: set<Id>, a: seq<Reply>, b: seq<Reply>)
    ensures var ka := Keep(open, a);
            var kb := Keep(ka.open, b);
            Keep(open, a + b) == Kept(ka.replies + kb.replies, kb.open)
  {
    if a == [] {
      assert a + b == b;
    } else {
      assert (a + b)[1..] == a[1..] + b;
      if a[0].Result? && a[0].id in open {
        KeepConcat(open - {a[0].id}, a[1..], b);
      } else {
        KeepConcat(open, a[1..], b);
      }
    }
  }

  lemma {:induction false} KeepOpen(open: set<Id>, replies: seq<Reply>)
    ensures Keep(open, replies).open == open - Answered(replies)
  {
    if replies != [] {
      AnsweredCons(replies);
      var r := replies[0];
      KeepOpen(if r.Result? && r.id in open then open - {r.id} else open, replies[1..]);
    }
  }

  lemma IdsCons(r: Reply, rest: seq<Reply>)
    ensures multiset(ReplyIds([r] + rest))
         == (if r.Result? then multiset{r.id} else multiset{}) + multiset(ReplyIds(rest))
  {
    assert ([r] + rest)[1..] == rest;
  }

  lemma AddOne(id: Id, ids: set<Id>)
    requires id !in ids
    ensures multiset({id} + ids) == multiset{id} + multiset(ids)
  {
  }

  lemma SplitOpen(open: set<Id>, id: Id, later: set<Id>)
    requires id in open
    ensures multiset(open * ({id} + later)) == multiset{id} + multiset((open - {id}) * later)
  {
    assert open * ({id} + later) == {id} + (open - {id}) * later;
    AddOne(id, (open - {id}) * later);
  }

  lemma {:induction false} KeepIds(open: set<Id>, replies: seq<Reply>)
    ensures multiset(ReplyIds(Keep(open, replies).replies)) == multiset(open * Answered(replies))
  {
    if replies != [] {
      AnsweredCons(replies);
      var r, later := replies[0], Answered(replies[1..]);
      if r.Result? && r.id in open {
        KeepIds(open - {r.id}, replies[1..]);
        IdsCons(r, Keep(open - {r.id}, replies[1..]).replies);
        SplitOpen(open, r.id, later);
      } else {
        KeepIds(open, replies[1..]);
        IdsCons(r, Keep(open, replies[1..]).replies);
        assert open * Answered(replies) == open * later;
      }
    }
  }

  lemma {:induction false} KeepLength(open: set<Id>, replies: seq<Reply>)
    ensures |Keep(open, replies).replies| <= |replies|
  {
    if replies != [] {
      KeepLength(if replies[0].Result? then open - {replies[0].id} else open, replies[1..]);
      KeepLength(open, replies[1..]);
    }
  }

  // The first loop of the pass, then the second, one `tool` message at a time.

  method ScanReplies(open: set<Id>, replies: seq<Reply>) returns (rest: set<Id>, stray: bool)
    ensures !stray <==> Keep(open, replies).replies == replies
    ensures !stray ==> rest == Keep(open, replies).open
  {
    rest, stray := open, false;
    for k := 0 to |replies|
      invariant !stray <==> Keep(open, replies[..k]).replies == replies[..k]
      invariant !stray ==> rest == Keep(open, replies[..k]).open
    {
      assert replies[..k + 1] == replies[..k] + [replies[k]];
      KeepConcat(open, replies[..k], [replies[k]]);
      KeepLength(open, replies[..k]);
      if replies[k].Result? {
        if replies[k].id !in rest { stray := true; } else { rest := rest - {replies[k].id}; }
      }
    }
    assert replies[..|replies|] == replies;
  }

  method FilterReplies(open: set<Id>, replies: seq<Reply>) returns (kept: seq<Reply>, rest: set<Id>)
    ensures Kept(kept, rest) == Keep(open, replies)
  {
    kept, rest := [], open;
    for k := 0 to |replies|
      invariant Kept(kept, rest) == Keep(open, replies[..k])
    {
      assert replies[..k + 1] == replies[..k] + [replies[k]];
      KeepConcat(open, replies[..k], [replies[k]]);
      if replies[k].Note? {
        kept := kept + [replies[k]];
      } else if replies[k].id in rest {
        kept, rest := kept + [replies[k]], rest - {replies[k].id};
      }
    }
    assert replies[..|replies|] == replies;
  }

  method HasOrphanedResult(messages: seq<Message>) returns (needsRewrite: bool)
    ensures needsRewrite <==> !NothingToDrop({}, messages)
  {
    needsRewrite := false;
    var open: set<Id> := {};
    for i := 0 to |messages|
      invariant needsRewrite ==> !NothingToDrop({}, messages)
      invariant !needsRewrite ==> (NothingToDrop({}, messages) <==> NothingToDrop(open, messages[i..]))
    {
      assert messages[i..][1..] == messages[i + 1..];
      if messages[i].Assistant? {
        var calls := CollectCalls(messages[i]);
        open := open + IdSet(calls);
      } else if messages[i].Tool? {
        var rest, stray := ScanReplies(open, messages[i].replies);
        open := rest;
        needsRewrite := needsRewrite || stray;
      }
    }
  }

  /** The scan and the rewrite of the second pass. */
  method DropOrphanedToolResults(messages: seq<Message>) returns (out: seq<Message>)
    ensures out == Dropped(messages)
  {
    var needsRewrite := HasOrphanedResult(messages);
    if !needsRewrite { return messages; }
    out := [];
    var open: set<Id> := {};
    ghost var all := DropFrom({}, messages);
    assert messages[0..] == messages;
    for i := 0 to |messages|
      invariant all == out + DropFrom(open, messages[i..])
    {
      DropOne(messages, i, open, out, all);
      var kept, rest := DropMessage(open, messages[i]);
      out, open := out + kept, rest;
    }
  }

  method DropMessage(open: set<Id>, m: Message) returns (kept: seq<Message>, rest: set<Id>)
    ensures (kept, rest) == DropStep(open, m)
  {
    kept, rest := [m], open;
    if m.Assistant? {
      var calls := CollectCalls(m);
      rest := open + IdSet(calls);
    } else if m.Tool? {
      var replies, left := FilterReplies(open, m.replies);
      kept, rest := if replies != [] then [Tool(replies)] else [], left;
    }
  }

  lemma DropOne(messages: seq<Message>, i: nat, open: set<Id>, out: seq<Message>, all: seq<Message>)
    requires i < |messages|
    requires all == out + DropFrom(open, messages[i..])
    ensures all == out + DropStep(open, messages[i]).0 + DropFrom(DropStep(open, messages[i]).1, messages[i + 1..])
  {
    assert messages[i..][1..] == messages[i + 1..];
    var (kept, open') := DropStep(open, messages[i]);
    Associative(out, kept, DropFrom(open', messages[i + 1..]));
  }

  // --- What the two passes do together ---

  ghost function Repaired(log: seq<Message>): seq<Message> {
    Dropped(Sanitized(log))
  }

  method RepairForModel(log: seq<Message>) returns (out: seq<Message>)
    ensures out == Repaired(log)
  {
    out := SanitizeOrphanedToolCalls(log);
    out := DropOrphanedToolResults(out);
  }

  /** One marker for each distinct call id that has no answer, in call order. */
  function Interruptions(calls: seq<ToolCall>, answered: set<Id>): seq<Reply> {
    if calls == [] then []
    else if calls[0].id in answered then Interruptions(calls[1..], answered)
    else [Marker(calls[0])] + Interruptions(calls[1..], answered + {calls[0].id})
  }

  /** The notes, and of each called id the first result, in their order. */
  function FirstAnswers(called: set<Id>, replies: seq<Reply>): seq<Reply> {
    if replies == [] then []
    else
      var before, last := replies[..|replies| - 1], replies[|replies| - 1];
      FirstAnswers(called, before)
      + if last.Note? || (last.id in called && last.id !in ReplyIds(before)) then [last] else []
  }

  /** The reference model of a repaired exchange. */
  function RepairExchange(e: Exchange): Exchange {
    var calls := CallsOf(e.head);
    Exchange(e.head, Interruptions(calls, Answered(e.replies)) + FirstAnswers(IdSet(calls), e.replies))
  }

  function Map(f: Exchange -> Exchange, es: seq<Exchange>): (r: seq<Exchange>)
    ensures |r| == |es| && forall i :: 0 <= i < |es| ==> r[i] == f(es[i])
  {
    seq(|es|, i requires 0 <= i < |es| => f(es[i]))
  }

  lemma KeepOne(open: set<Id>, r: Reply)
    ensures Keep(open, [r]).replies == if r.Note? || r.id in open then [r] else []
  {
    assert [r][1..] == [];
  }

  lemma {:induction false} FirstAnswersAreKept(called: set<Id>, replies: seq<Reply>)
    ensures FirstAnswers(called, replies) == Keep(called, replies).replies
  {
    if replies != [] {
      var before, last := replies[..|replies| - 1], replies[|replies| - 1];
      assert replies == before + [last];
      FirstAnswersAreKept(called, before);
      KeepConcat(called, before, [last]);
      KeepOpen(called, before);
      assert last.Result? ==> (last.id in Keep(called, before).open
                               <==> last.id in called && last.id !in ReplyIds(before));
      KeepOne(Keep(called, before).open, last);
    }
  }

  lemma {:induction false} EachConcat(replies: seq<Reply>, log: seq<Message>)
    ensures Run(Each(replies) + log) == replies + Run(log)
    ensures Exchanges(Each(replies) + log) == Exchanges(log)
  {
    if replies == [] {
      assert Each(replies) + log == log;
    } else {
      var head, rest := Tool([replies[0]]), Each(replies[1..]) + log;
      assert Each(replies) + log == [head] + rest;
      ExchangesHead(head, rest);
      EachConcat(replies[1..], log);
      assert replies == [replies[0]] + replies[1..];
      Associative([replies[0]], replies[1..], Run(log));
    }
  }

  function Answer(e: Exchange): Exchange {
    Exchange(e.head, Markers(CallsOf(e.head), Answered(e.replies)) + e.replies)
  }

  function KeepExchange(e: Exchange): Exchange {
    Exchange(e.head, Keep(IdSet(CallsOf(e.head)), e.replies).replies)
  }

  lemma MapCons(f: Exchange -> Exchange, e: Exchange, es: seq<Exchange>)
    ensures Map(f, [e] + es) == [f(e)] + Map(f, es)
  {
  }

  lemma SanitizedHead(head: Message, rest: seq<Message>)
    ensures var markers := Markers(CallsOf(head), Answered(Run(rest)));
            Sanitized([head] + rest) == [head] + (Each(markers) + Sanitized(rest))
  {
    assert ([head] + rest)[1..] == rest;
    Associative([head], Each(Markers(CallsOf(head), Answered(Run(rest)))), Sanitized(rest));
  }

  lemma {:induction false} SanitizedExchanges(log: seq<Message>)
    ensures Run(Sanitized(log)) == Run(log)
    ensures Exchanges(Sanitized(log)) == Map(Answer, Exchanges(log))
  {
    if log != [] {
      var head, rest := log[0], log[1..];
      assert log == [head] + rest;
      SanitizedExchanges(rest);
      var markers := Markers(CallsOf(head), Answered(Run(rest)));
      SanitizedHead(head, rest);
      EachConcat(markers, Sanitized(rest));
      ExchangesHead(head, rest);
      ExchangesHead(head, Each(markers) + Sanitized(rest));
      if !head.Tool? {
        MapCons(Answer, Exchange(head, Run(rest)), Exchanges(rest));
      }
    }
  }

  ghost predicate AllAnswered(es: seq<Exchange>) {
    forall e :: e in es ==> IdSet(CallsOf(e.head)) <= Answered(e.replies)
  }

  /** The invariant of the second pass: no id is open when it reaches a non-`tool` message. */
  ghost predicate OnlyRunIsOpen(open: set<Id>, log: seq<Message>) {
    open <= Answered(Run(log)) && AllAnswered(Exchanges(log))
  }

  lemma HeadStep(head: Message, rest: seq<Message>)
    requires !head.Tool?
    ensures DropFrom({}, [head] + rest) == [head] + DropFrom(IdSet(CallsOf(head)), rest)
    ensures NothingToDrop({}, [head] + rest) <==> NothingToDrop(IdSet(CallsOf(head)), rest)
  {
    assert ([head] + rest)[1..] == rest;
    assert {} + IdSet(CallsOf(head)) == IdSet(CallsOf(head));
    assert head.Plain? ==> IdSet(CallsOf(head)) == {};
    assert DropStep({}, head) == ([head], IdSet(CallsOf(head)));
  }

  lemma KeptRun(open: set<Id>, m: Message, rest: seq<Message>, tail: seq<Message>)
    requires m.Tool?
    ensures Run(DropStep(open, m).0 + tail) == Keep(open, m.replies).replies + Run(tail)
    ensures Exchanges(DropStep(open, m).0 + tail) == Exchanges(tail)
  {
    var k := Keep(open, m.replies).replies;
    if k == [] {
      assert DropStep(open, m).0 + tail == tail;
    } else {
      ExchangesHead(Tool(k), tail);
    }
  }

  lemma RunStepOpen(open: set<Id>, replies: seq<Reply>, rest: seq<Reply>)
    requires open <= Answered(replies + rest)
    ensures Keep(open, replies).open <= Answered(rest)
    ensures Keep(open, replies + rest).replies
         == Keep(open, replies).replies + Keep(Keep(open, replies).open, rest).replies
  {
    KeepOpen(open, replies);
    AnsweredConcat(replies, rest);
    KeepConcat(open, replies, rest);
  }

  lemma {:induction false} DropFromExchanges(open: set<Id>, log: seq<Message>)
    requires OnlyRunIsOpen(open, log)
    ensures Run(DropFrom(open, log)) == Keep(open, Run(log)).replies
    ensures Exchanges(DropFrom(open, log)) == Map(KeepExchange, Exchanges(log))
    decreases |log|
  {
    if log != [] {
      var head, rest := log[0], log[1..];
      assert log == [head] + rest;
      ExchangesHead(head, rest);
      if head.Tool? {
        RunStepOpen(open, head.replies, Run(rest));
        var open' := Keep(open, head.replies).open;
        DropFromExchanges(open', rest);
        KeptRun(open, head, rest, DropFrom(open', rest));
      } else {
        var e, called := Exchange(head, Run(rest)), IdSet(CallsOf(head));
        assert Exchanges(log) == [e] + Exchanges(rest) && e in Exchanges(log);
        assert open == {};
        HeadStep(head, rest);
        DropFromExchanges(called, rest);
        ExchangesHead(head, DropFrom(called, rest));
        MapCons(KeepExchange, e, Exchanges(rest));
      }
    }
  }

  lemma {:induction false} CleanExchanges(open: set<Id>, log: seq<Message>)
    requires OnlyRunIsOpen(open, log)
    requires NothingToDrop(open, log)
    ensures Run(log) == Keep(open, Run(log)).replies
    ensures Exchanges(log) == Map(KeepExchange, Exchanges(log))
    decreases |log|
  {
    if log != [] {
      var head, rest := log[0], log[1..];
      assert log == [head] + rest;
      ExchangesHead(head, rest);
      if head.Tool? {
        RunStepOpen(open, head.replies, Run(rest));
        CleanExchanges(Keep(open, head.replies).open, rest);
      } else {
        var e, called := Exchange(head, Run(rest)), IdSet(CallsOf(head));
        assert Exchanges(log) == [e] + Exchanges(rest) && e in Exchanges(log);
        assert open == {};
        HeadStep(head, rest);
        CleanExchanges(called, rest);
        MapCons(KeepExchange, e, Exchanges(rest));
      }
    }
  }

  lemma {:induction false} MarkerIds(calls: seq<ToolCall>, answered: set<Id>)
    ensures Answered(Markers(calls, answered)) == IdSet(calls) - answered
  {
    if calls != [] {
      MarkerIds(calls[1..], answered);
      IdSetCons(calls);
      if calls[0].id !in answered {
        AnsweredCons(Markers(calls, answered));
        assert Markers(calls, answered)[1..] == Markers(calls[1..], answered);
      } else {
        assert Markers(calls, answered) == Markers(calls[1..], answered);
      }
    }
  }

  lemma {:induction false} KeptMarkers(all: set<Id>, done: set<Id>, calls: seq<ToolCall>, answered: set<Id>)
    requires IdSet(calls) <= all
    decreases |calls|
    ensures Keep(all - done, Markers(calls, answered)).replies == Interruptions(calls, answered + done)
  {
    if calls != [] {
      var c := calls[0];
      IdSetCons(calls);
      if c.id in answered || c.id in done {
        KeptMarkers(all, done, calls[1..], answered);
        if c.id !in answered {
          assert Markers(calls, answered)[1..] == Markers(calls[1..], answered);
        } else {
          assert Markers(calls, answered) == Markers(calls[1..], answered);
        }
      } else {
        assert Markers(calls, answered)[1..] == Markers(calls[1..], answered);
        KeptMarkers(all, done + {c.id}, calls[1..], answered);
        assert all - done - {c.id} == all - (done + {c.id});
        assert answered + (done + {c.id}) == answered + done + {c.id};
      }
    }
  }

  /** Ids that no reply carries make no difference to what is kept. */
  lemma {:induction false} KeepRelevant(open: set<Id>, other: set<Id>, replies: seq<Reply>)
    requires open * Answered(replies) == other * Answered(replies)
    ensures Keep(open, replies).replies == Keep(other, replies).replies
  {
    if replies != [] {
      var r := replies[0];
      AnsweredCons(replies);
      var now, later := Answered(replies), Answered(replies[1..]);
      assert open * later == open * now * later && other * later == other * now * later;
      if r.Result? && r.id in open {
        assert r.id in open * now;
        assert (open - {r.id}) * later == open * later - {r.id};
        assert (other - {r.id}) * later == other * later - {r.id};
        KeepRelevant(open - {r.id}, other - {r.id}, replies[1..]);
      } else {
        if r.Result? { assert r.id !in open * now; }
        KeepRelevant(open, other, replies[1..]);
      }
    }
  }

  lemma RepairedExchange(e: Exchange)
    ensures KeepExchange(Answer(e)) == RepairExchange(e)
  {
    var calls, answered := CallsOf(e.head), Answered(e.replies);
    var all := IdSet(calls);
    var markers := Markers(calls, answered);
    KeepConcat(all, markers, e.replies);
    KeptMarkers(all, {}, calls, answered);
    assert all - {} == all && answered + {} == answered;
    KeepOpen(all, markers);
    MarkerIds(calls, answered);
    KeepRelevant(Keep(all, markers).open, all, e.replies);
    FirstAnswersAreKept(all, e.replies);
  }

  /** Repair acts on each exchange alone, and the rewrite or the scan of each pass gives the same. */
  lemma RepairIsLocal(log: seq<Message>)
    ensures Exchanges(Repaired(log)) == Map(RepairExchange, Exchanges(log))
    ensures Run(Repaired(log)) == FirstAnswers({}, Run(log))
  {
    var mid := Sanitized(log);
    SanitizedExchanges(log);
    forall e | e in Exchanges(mid) ensures IdSet(CallsOf(e.head)) <= Answered(e.replies) {
      var i :| 0 <= i < |Exchanges(mid)| && Exchanges(mid)[i] == e;
      var was := Exchanges(log)[i];
      MarkerIds(CallsOf(was.head), Answered(was.replies));
      AnsweredConcat(Markers(CallsOf(was.head), Answered(was.replies)), was.replies);
      assert e == Answer(was);
    }
    if NothingToDrop({}, mid) { CleanExchanges({}, mid); } else { DropFromExchanges({}, mid); }
    FirstAnswersAreKept({}, Run(log));
    forall i | 0 <= i < |Exchanges(log)|
      ensures KeepExchange(Answer(Exchanges(log)[i])) == RepairExchange(Exchanges(log)[i])
    {
      RepairedExchange(Exchanges(log)[i]);
    }
  }

  lemma {:induction false} InterruptionIds(calls: seq<ToolCall>, answered: set<Id>)
    ensures multiset(ReplyIds(Interruptions(calls, answered))) == multiset(IdSet(calls) - answered)
  {
    if calls != [] {
      var c := calls[0];
      IdSetCons(calls);
      LeftOver(c.id, IdSet(calls[1..]), answered);
      if c.id in answered {
        InterruptionIds(calls[1..], answered);
      } else {
        InterruptionIds(calls[1..], answered + {c.id});
        IdsCons(Marker(c), Interruptions(calls[1..], answered + {c.id}));
      }
    }
  }

  lemma LeftOver(id: Id, ids: set<Id>, answered: set<Id>)
    ensures multiset({id} + ids - answered) ==
      if id in answered then multiset(ids - answered) else multiset{id} + multiset(ids - (answered + {id}))
  {
    if id in answered {
      assert {id} + ids - answered == ids - answered;
    } else {
      assert {id} + ids - answered == {id} + (ids - (answered + {id}));
      AddOne(id, ids - (answered + {id}));
    }
  }

  lemma RepairedExchangePaired(e: Exchange)
    ensures Paired(RepairExchange(e))
  {
    var calls, answered := CallsOf(e.head), Answered(e.replies);
    var all := IdSet(calls);
    InterruptionIds(calls, answered);
    FirstAnswersAreKept(all, e.replies);
    KeepIds(all, e.replies);
    ReplyIdsConcat(Interruptions(calls, answered), FirstAnswers(all, e.replies));
    assert multiset(all) == multiset(all - answered) + multiset(all * answered);
  }

  /** However disordered the log, the repaired one is well paired. */
  lemma RepairPairs(log: seq<Message>)
    ensures WellPaired(Repaired(log))
  {
    RepairIsLocal(log);
    FirstAnswersAreKept({}, Run(log));
    KeepIds({}, Run(log));
    assert multiset(ReplyIds(Run(Repaired(log)))) == multiset{};
    forall e | e in Exchanges(Repaired(log)) ensures Paired(e) {
      var i :| 0 <= i < |Exchanges(log)| && e == RepairExchange(Exchanges(log)[i]);
      RepairedExchangePaired(Exchanges(log)[i]);
    }
  }

  /** No user, system or assistant message is lost, changed or moved. */
  lemma RepairKeepsNonTool(log: seq<Message>)
    ensures NonTool(Repaired(log)) == NonTool(log)
  {
    RepairIsLocal(log);
    HeadsAreNonTool(log);
    HeadsAreNonTool(Repaired(log));
    assert Heads(Map(RepairExchange, Exchanges(log))) == Heads(Exchanges(log));
  }

  lemma {:induction false} ExchangeAt(log: seq<Message>, i: nat)
    requires i < |log| && !log[i].Tool?
    ensures Exchange(log[i], Run(log[i + 1..])) in Exchanges(log)
  {
    if i > 0 {
      ExchangeAt(log[1..], i - 1);
      assert log[1..][i..] == log[i + 1..];
    }
  }

  lemma RemoveOne(open: set<Id>, id: Id, others: multiset<Id>)
    requires multiset{id} + others <= multiset(open)
    ensures multiset(open - {id}) == multiset(open) - multiset{id}
    ensures others <= multiset(open - {id})
    ensures id in open
  {
    assert multiset(open)[id] > 0;
  }

  lemma {:induction false} KeepAll(open: set<Id>, replies: seq<Reply>)
    requires multiset(ReplyIds(replies)) <= multiset(open)
    ensures Keep(open, replies).replies == replies
    ensures multiset(Keep(open, replies).open) == multiset(open) - multiset(ReplyIds(replies))
  {
    if replies != [] {
      var r, later := replies[0], multiset(ReplyIds(replies[1..]));
      assert replies == [r] + replies[1..];
      IdsCons(r, replies[1..]);
      if r.Note? {
        KeepAll(open, replies[1..]);
      } else {
        RemoveOne(open, r.id, later);
        KeepAll(open - {r.id}, replies[1..]);
      }
    }
  }

  lemma PairedRunStep(open: set<Id>, replies: seq<Reply>, rest: seq<Reply>)
    requires multiset(ReplyIds(replies + rest)) == multiset(open)
    ensures Keep(open, replies).replies == replies
    ensures multiset(ReplyIds(rest)) == multiset(Keep(open, replies).open)
  {
    ReplyIdsConcat(replies, rest);
    KeepAll(open, replies);
  }

  lemma {:induction false} PairedHasNothingToDrop(open: set<Id>, log: seq<Message>)
    requires multiset(ReplyIds(Run(log))) == multiset(open)
    requires AllPaired(Exchanges(log))
    ensures NothingToDrop(open, log)
    decreases |log|
  {
    if log != [] {
      var head, rest := log[0], log[1..];
      assert log == [head] + rest;
      ExchangesHead(head, rest);
      if head.Tool? {
        PairedRunStep(open, head.replies, Run(rest));
        PairedHasNothingToDrop(DropStep(open, head).1, rest);
      } else {
        assert Exchange(head, Run(rest)) in Exchanges(log);
        assert |multiset(open)| == 0;
        assert open == {};
        PairedHasNothingToDrop(IdSet(CallsOf(head)), rest);
        HeadStep(head, rest);
      }
    }
  }

  lemma WellPairedUnchanged(log: seq<Message>)
    requires WellPaired(log)
    ensures Repaired(log) == log
  {
    forall i | 0 <= i < |log| ensures !Orphaned(log, i) {
      if !log[i].Tool? {
        ExchangeAt(log, i);
        var called, ids := IdSet(CallsOf(log[i])), ReplyIds(Run(log[i + 1..]));
        forall id | id in called ensures id in ids {
          assert id in multiset(called);
          assert id in multiset(ids);
        }
      }
    }
    SanitizedUnorphaned(log);
    assert multiset(ReplyIds(Run(log))) == multiset({});
    PairedHasNothingToDrop({}, log);
  }

  /** Repair changes exactly the logs that are not well paired. */
  lemma RepairFixesExactlyTheUnpaired(log: seq<Message>)
    ensures Repaired(log) == log <==> WellPaired(log)
  {
    if WellPaired(log) { WellPairedUnchanged(log); }
    RepairPairs(log);
  }

  lemma RepairIsIdempotent(log: seq<Message>)
    ensures Repaired(Repaired(log)) == Repaired(log)
  {
    RepairPairs(log);
    WellPairedUnchanged(Repaired(log));
  }

  /** With nothing to drop, the rewrite would still remove the empty `tool` messages, and only them. */
  lemma {:induction false} DropFastPath(open: set<Id>, log: seq<Message>)
    requires NothingToDrop(open, log)
    ensures DropFrom(open, log) == log <==> Tool([]) !in log
    ensures |DropFrom(open, log)| <= |log|
    decreases |log|
  {
    if log != [] {
      var rest := log[1..];
      assert log == [log[0]] + rest;
      match log[0]
      case Assistant(parts) =>
        DropFastPath(open + IdSet(Calls(parts)), rest);
      case Plain(_, _) =>
        DropFastPath(open, rest);
      case Tool(replies) =>
        DropFastPath(Keep(open, replies).open, rest);
        if replies == [] {
          assert |DropFrom(open, log)| < |log|;
        }
    }
  }

  /** Dropping before answering would not do: a late result stays behind as a stray. */
  lemma OrderOfPassesMatters(c: ToolCall, out: Output, body: Json)
    ensures var log := [Assistant([Call(c)]), Plain(User, body), Tool([Result(c.id, c.name, out)])];
            !WellPaired(Sanitized(Dropped(log)))
  {
    var asks, says, late := Assistant([Call(c)]), Plain(User, body), Tool([Result(c.id, c.name, out)]);
    var log := [asks, says, late];
    assert Calls([Call(c)]) == [c];
    assert IdSet([c]) == {c.id};
    assert [late][1..] == [] && [says, late][1..] == [late] && log[1..] == [says, late];
    KeepOne({c.id}, late.replies[0]);
    assert NothingToDrop({c.id}, [late]);
    assert NothingToDrop({c.id}, [says, late]);
    HeadStep(asks, [says, late]);
    assert log == [asks] + [says, late];
    assert Dropped(log) == log;
    ExchangeAt(log, 1);
    assert log[2..] == [late];
    assert Run([late]) == late.replies + [];
    var stray := Exchange(says, late.replies);
    SanitizedExchanges(log);
    assert Answer(stray) == stray;
    assert ReplyIds(stray.replies) == [c.id];
    assert !Paired(stray) by { assert multiset([c.id])[c.id] == 1; }
    var i :| 0 <= i < |Exchanges(log)| && Exchanges(log)[i] == stray;
    assert Exchanges(Sanitized(log))[i] == stray;
  }
}
