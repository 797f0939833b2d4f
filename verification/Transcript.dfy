// The message log a session keeps, and what it means for it to be well paired.
module Transcript {
  import opened Basics
  import opened Json

  type Id = string

  datatype Role = System | User | AssistantText

  datatype ToolCall = ToolCall(id: Id, name: string, input: Json)

  datatype Part = Text(text: string) | Call(call: ToolCall)

  datatype Output = JsonOutput(value: Json) | OtherOutput(body: Json)

  /** One part of a `tool` message: a `tool-result`, or a part of any other type. */
  datatype Reply = Result(id: Id, name: string, output: Output) | Note(body: Json)

  /** `Plain` is every message whose content cannot hold tool calls or tool results. */
  datatype Message =
    | Plain(role: Role, body: Json)
    | Assistant(parts: seq<Part>)
    | Tool(replies: seq<Reply>)

  function Calls(parts: seq<Part>): seq<ToolCall> {
    if parts == [] then []
    else (if parts[0].Call? then [parts[0].call] else []) + Calls(parts[1..])
  }

  function CallsOf(m: Message): seq<ToolCall> {
    if m.Assistant? then Calls(m.parts) else []
  }

  function CallIds(calls: seq<ToolCall>): (ids: seq<Id>)
    ensures |ids| == |calls|
    ensures forall i :: 0 <= i < |calls| ==> ids[i] == calls[i].id
  {
    seq(|calls|, i requires 0 <= i < |calls| => calls[i].id)
  }

  function IdSet(calls: seq<ToolCall>): set<Id> {
    set c | c in calls :: c.id
  }

  function ReplyIds(replies: seq<Reply>): seq<Id> {
    if replies == [] then []
    else (if replies[0].Result? then [replies[0].id] else []) + ReplyIds(replies[1..])
  }

  function Answered(replies: seq<Reply>): set<Id> {
    set id | id in ReplyIds(replies)
  }

  /** The replies in the contiguous run of `tool` messages the log begins with. */
  function Run(log: seq<Message>): seq<Reply> {
    if log == [] || !log[0].Tool? then [] else log[0].replies + Run(log[1..])
  }

  /** A message that is not a `tool` message, with the replies directly after it. */
  datatype Exchange = Exchange(head: Message, replies: seq<Reply>)

  function Exchanges(log: seq<Message>): (es: seq<Exchange>)
    ensures forall e :: e in es ==> !e.head.Tool?
  {
    if log == [] then []
    else if log[0].Tool? then Exchanges(log[1..])
    else [Exchange(log[0], Run(log[1..]))] + Exchanges(log[1..])
  }

  /** The ids the head calls, each answered exactly once, and nothing else answered. */
  ghost predicate Paired(e: Exchange) {
    multiset(ReplyIds(e.replies)) == multiset(IdSet(CallsOf(e.head)))
  }

  ghost predicate AllPaired(es: seq<Exchange>) {
    forall e :: e in es ==> Paired(e)
  }

  /** What a provider accepts: every call answered in the run right after it, no stray result. */
  ghost predicate WellPaired(log: seq<Message>) {
    ReplyIds(Run(log)) == [] && AllPaired(Exchanges(log))
  }

  function NonTool(log: seq<Message>): seq<Message> {
    if log == [] then [] else (if log[0].Tool? then [] else [log[0]]) + NonTool(log[1..])
  }

  function Heads(es: seq<Exchange>): seq<Message> {
    seq(|es|, i requires 0 <= i < |es| => es[i].head)
  }

  lemma {:induction false} HeadsAreNonTool(log: seq<Message>)
    ensures Heads(Exchanges(log)) == NonTool(log)
  {
    if log != [] {
      HeadsAreNonTool(log[1..]);
      if !log[0].Tool? {
        assert Heads(Exchanges(log)) == [log[0]] + Heads(Exchanges(log[1..]));
      }
    }
  }

  lemma IdSetCons(calls: seq<ToolCall>)
    requires calls != []
    ensures IdSet(calls) == {calls[0].id} + IdSet(calls[1..])
  {
    assert calls == [calls[0]] + calls[1..];
  }

  lemma AnsweredCons(replies: seq<Reply>)
    requires replies != []
    ensures Answered(replies) == (if replies[0].Result? then {replies[0].id} else {}) + Answered(replies[1..])
  {
  }

  lemma AnsweredConcat(a: seq<Reply>, b: seq<Reply>)
    ensures Answered(a + b) == Answered(a) + Answered(b)
  {
    ReplyIdsConcat(a, b);
  }

  // --- Concatenation ---

  lemma {:induction false} ReplyIdsConcat(a: seq<Reply>, b: seq<Reply>)
    ensures ReplyIds(a + b) == ReplyIds(a) + ReplyIds(b)
  {
    if a == [] {
      assert a + b == b;
    } else {
      assert (a + b)[0] == a[0] && (a + b)[1..] == a[1..] + b;
      ReplyIdsConcat(a[1..], b);
      Associative(if a[0].Result? then [a[0].id] else [], ReplyIds(a[1..]), ReplyIds(b));
    }
  }

  lemma {:induction false} CallsConcat(a: seq<Part>, b: seq<Part>)
    ensures Calls(a + b) == Calls(a) + Calls(b)
  {
    if a == [] {
      assert a + b == b;
    } else {
      assert (a + b)[0] == a[0] && (a + b)[1..] == a[1..] + b;
      CallsConcat(a[1..], b);
      Associative(if a[0].Call? then [a[0].call] else [], Calls(a[1..]), Calls(b));
    }
  }

  ghost predicate AllTool(log: seq<Message>) {
    forall m :: m in log ==> m.Tool?
  }

  lemma {:induction false} RunConcat(a: seq<Message>, b: seq<Message>)
    ensures Run(a + b) == Run(a) + (if AllTool(a) then Run(b) else [])
  {
    if a == [] {
      assert a + b == b;
    } else {
      assert (a + b)[1..] == a[1..] + b;
      assert a == [a[0]] + a[1..];
      if a[0].Tool? { RunConcat(a[1..], b); }
    }
  }

  lemma ExchangesHead(head: Message, rest: seq<Message>)
    ensures Exchanges([head] + rest)
         == (if head.Tool? then [] else [Exchange(head, Run(rest))]) + Exchanges(rest)
    ensures Run([head] + rest) == if head.Tool? then head.replies + Run(rest) else []
  {
    assert ([head] + rest)[1..] == rest;
  }

  lemma {:induction false} ExchangesSum(a: seq<Message>, b: seq<Message>)
    requires b == [] || !b[0].Tool?
    ensures Exchanges(a + b) == Exchanges(a) + Exchanges(b) && Run(a + b) == Run(a) + (if a == [] then Run(b) else [])
  {
    if a == [] {
      assert a + b == b;
    } else {
      var head, rest := a[0], a[1..];
      assert a == [head] + rest && a + b == [head] + (rest + b);
      ExchangesSum(rest, b);
      ExchangesHead(head, rest);
      ExchangesHead(head, rest + b);
      assert b == [] || Run(b) == [];
      assert Run(rest + b) == Run(rest);
      if !head.Tool? { Associative([Exchange(head, Run(rest))], Exchanges(rest), Exchanges(b)); }
    }
  }

  /** `b` begins with a message that is not a `tool` message, or is empty. */
  lemma ExchangesConcat(a: seq<Message>, b: seq<Message>)
    requires b == [] || !b[0].Tool?
    ensures Exchanges(a + b) == Exchanges(a) + Exchanges(b)
    ensures a != [] ==> Run(a + b) == Run(a)
  {
    ExchangesSum(a, b);
  }

  lemma {:induction false} ToolRun(log: seq<Message>)
    requires AllTool(log)
    ensures Exchanges(log) == []
  {
    if log != [] { ToolRun(log[1..]); }
  }
}
