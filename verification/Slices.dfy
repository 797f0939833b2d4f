// What is cut out of a log before it leaves the process: the `display` slice of tool results
// (stripDisplayForLLM) and the sensitive fields of everything persisted (sanitizeMessages).
module Slices {
  import opened Json
  import opened Transcript
  import opened Repair

  // --- A rewrite of replies, in general ---

  function OnReplies(f: Reply -> Reply, replies: seq<Reply>): (r: seq<Reply>)
    ensures |r| == |replies| && forall i :: 0 <= i < |r| ==> r[i] == f(replies[i])
  {
    seq(|replies|, i requires 0 <= i < |replies| => f(replies[i]))
  }

  function OnMessage(f: Reply -> Reply, m: Message): Message {
    if m.Tool? then Tool(OnReplies(f, m.replies)) else m
  }

  function OnLog(f: Reply -> Reply, log: seq<Message>): (r: seq<Message>)
    ensures |r| == |log| && forall i :: 0 <= i < |r| ==> r[i] == OnMessage(f, log[i])
  {
    seq(|log|, i requires 0 <= i < |log| => OnMessage(f, log[i]))
  }

  /** The rewrite leaves alone which call a reply answers, and the markers repair adds. */
  ghost predicate KeepsAnswers(f: Reply -> Reply) {
    && (forall r :: (f(r).Result? <==> r.Result?) && (r.Result? ==> f(r).id == r.id))
    && (forall c :: f(Marker(c)) == Marker(c))
  }

  lemma OnRepliesConcat(f: Reply -> Reply, a: seq<Reply>, b: seq<Reply>)
    ensures OnReplies(f, a + b) == OnReplies(f, a) + OnReplies(f, b)
  {
  }

  lemma OnLogConcat(f: Reply -> Reply, a: seq<Message>, b: seq<Message>)
    ensures OnLog(f, a + b) == OnLog(f, a) + OnLog(f, b)
  {
  }

  lemma {:induction false} SameIds(f: Reply -> Reply, replies: seq<Reply>)
    requires KeepsAnswers(f)
    ensures ReplyIds(OnReplies(f, replies)) == ReplyIds(replies)
  {
    if replies != [] {
      assert OnReplies(f, replies)[1..] == OnReplies(f, replies[1..]);
      SameIds(f, replies[1..]);
    }
  }

  lemma {:induction false} OnRun(f: Reply -> Reply, log: seq<Message>)
    ensures Run(OnLog(f, log)) == OnReplies(f, Run(log))
  {
    if log != [] {
      assert OnLog(f, log)[1..] == OnLog(f, log[1..]);
      OnRun(f, log[1..]);
      if log[0].Tool? { OnRepliesConcat(f, log[0].replies, Run(log[1..])); }
    }
  }

  lemma {:induction false} MarkersFixed(f: Reply -> Reply, calls: seq<ToolCall>, answered: set<Id>)
    requires KeepsAnswers(f)
    ensures OnReplies(f, Markers(calls, answered)) == Markers(calls, answered)
  {
    if calls != [] {
      MarkersFixed(f, calls[1..], answered);
      if calls[0].id !in answered {
        OnRepliesConcat(f, [Marker(calls[0])], Markers(calls[1..], answered));
      }
    }
  }

  lemma PushedFixed(f: Reply -> Reply, head: Message, rest: seq<Message>)
    requires KeepsAnswers(f)
    ensures OnLog(f, Pushed(head, rest)) == Pushed(OnMessage(f, head), OnLog(f, rest))
  {
    OnRun(f, rest);
    SameIds(f, Run(rest));
    var markers := Markers(CallsOf(head), Answered(Run(rest)));
    MarkersFixed(f, CallsOf(head), Answered(Run(rest)));
    forall i | 0 <= i < |markers| ensures OnMessage(f, Tool([markers[i]])) == Tool([f(markers[i])]) {
      assert OnReplies(f, [markers[i]]) == [f(markers[i])];
    }
    assert OnLog(f, Each(markers)) == Each(OnReplies(f, markers));
    OnLogConcat(f, [head], Each(markers));
  }

  lemma {:induction false} OnSanitized(f: Reply -> Reply, log: seq<Message>)
    requires KeepsAnswers(f)
    ensures OnLog(f, Sanitized(log)) == Sanitized(OnLog(f, log))
  {
    if log != [] {
      PushedFixed(f, log[0], log[1..]);
      OnLogConcat(f, Pushed(log[0], log[1..]), Sanitized(log[1..]));
      OnSanitized(f, log[1..]);
      assert OnLog(f, log)[1..] == OnLog(f, log[1..]);
    }
  }

  lemma {:induction false} OnKeep(f: Reply -> Reply, open: set<Id>, replies: seq<Reply>)
    requires KeepsAnswers(f)
    ensures Keep(open, OnReplies(f, replies))
         == Kept(OnReplies(f, Keep(open, replies).replies), Keep(open, replies).open)
  {
    if replies != [] {
      var r, rest := replies[0], replies[1..];
      assert OnReplies(f, replies)[1..] == OnReplies(f, rest);
      assert OnReplies(f, replies)[0] == f(r);
      var open' := if r.Result? && r.id in open then open - {r.id} else open;
      OnKeep(f, open', rest);
      OnRepliesConcat(f, [r], Keep(open', rest).replies);
    }
  }

  lemma {:induction false} KeptWhole(open: set<Id>, replies: seq<Reply>)
    ensures Keep(open, replies).replies == replies <==> |Keep(open, replies).replies| == |replies|
  {
    if replies != [] {
      var r := replies[0];
      if r.Note? || r.id in open {
        KeptWhole(if r.Note? then open else open - {r.id}, replies[1..]);
      } else {
        KeepLength(open, replies[1..]);
      }
    }
  }

  lemma OnDropStep(f: Reply -> Reply, open: set<Id>, m: Message)
    requires KeepsAnswers(f)
    ensures DropStep(open, OnMessage(f, m)) == (OnLog(f, DropStep(open, m).0), DropStep(open, m).1)
    ensures m.Tool? ==>
      (Keep(open, m.replies).replies == m.replies
       <==> Keep(open, OnReplies(f, m.replies)).replies == OnReplies(f, m.replies))
  {
    if m.Tool? {
      OnKeep(f, open, m.replies);
      KeptWhole(open, m.replies);
      KeptWhole(open, OnReplies(f, m.replies));
      var k := Keep(open, m.replies).replies;
      assert OnLog(f, [Tool(k)]) == [Tool(OnReplies(f, k))];
    } else {
      assert OnLog(f, [m]) == [m];
    }
  }

  lemma {:induction false} OnDropFrom(f: Reply -> Reply, open: set<Id>, log: seq<Message>)
    requires KeepsAnswers(f)
    ensures OnLog(f, DropFrom(open, log)) == DropFrom(open, OnLog(f, log))
    ensures NothingToDrop(open, log) <==> NothingToDrop(open, OnLog(f, log))
    decreases |log|
  {
    if log != [] {
      assert OnLog(f, log)[1..] == OnLog(f, log[1..]);
      OnDropStep(f, open, log[0]);
      var (kept, open') := DropStep(open, log[0]);
      OnDropFrom(f, open', log[1..]);
      OnLogConcat(f, kept, DropFrom(open', log[1..]));
    }
  }

  /** Such a rewrite can be done before repair or after it. */
  lemma RewriteCommutesWithRepair(f: Reply -> Reply, log: seq<Message>)
    requires KeepsAnswers(f)
    ensures OnLog(f, Repaired(log)) == Repaired(OnLog(f, log))
  {
    OnSanitized(f, log);
    OnDropFrom(f, {}, Sanitized(log));
  }

  // --- The `display` slice ---

  function StripReply(r: Reply): Reply {
    if r.Result? && r.output.JsonOutput? && r.output.value.Obj? && "display" in KeySet(r.output.value.fields)
    then r.(output := JsonOutput(Obj(Without(r.output.value.fields, "display"))))
    else r
  }

  function StripDisplay(log: seq<Message>): seq<Message> {
    OnLog(StripReply, log)
  }

  /** What the model is shown. */
  ghost function ModelView(log: seq<Message>): seq<Message> {
    StripDisplay(Repaired(log))
  }

  lemma StripKeepsAnswers()
    ensures KeepsAnswers(StripReply)
  {
    forall c ensures StripReply(Marker(c)) == Marker(c) {
      assert INTERRUPTED.fields[0].key[0] == 's' && INTERRUPTED.fields[1].key[0] == 'e' && "display"[0] == 'd';
    }
  }

  /** The two replies are one, but for the `display` property of a JSON result. */
  ghost predicate SameButDisplay(r: Reply, s: Reply) {
    r == s ||
    ( r.Result? && s.Result? && r.id == s.id && r.name == s.name
      && r.output.JsonOutput? && s.output.JsonOutput? && r.output.value.Obj? && s.output.value.Obj?
      && Without(r.output.value.fields, "display") == Without(s.output.value.fields, "display"))
  }

  ghost predicate LogsSameBut(same: (Reply, Reply) -> bool, a: seq<Message>, b: seq<Message>) {
    |a| == |b| &&
    forall i :: 0 <= i < |a| ==>
      a[i] == b[i] ||
      (a[i].Tool? && b[i].Tool? && |a[i].replies| == |b[i].replies|
        && forall k :: 0 <= k < |a[i].replies| ==> same(a[i].replies[k], b[i].replies[k]))
  }

  lemma RewriteHides(f: Reply -> Reply, same: (Reply, Reply) -> bool, a: seq<Message>, b: seq<Message>)
    requires forall r, s :: same(r, s) ==> f(r) == f(s)
    requires LogsSameBut(same, a, b)
    ensures OnLog(f, a) == OnLog(f, b)
  {
    forall i | 0 <= i < |a| ensures OnMessage(f, a[i]) == OnMessage(f, b[i]) {
      if a[i] != b[i] {
        assert OnReplies(f, a[i].replies) == OnReplies(f, b[i].replies);
      }
    }
  }

  lemma StripForgets(r: Reply, s: Reply)
    requires SameButDisplay(r, s)
    ensures StripReply(r) == StripReply(s)
  {
    if r != s {
      var fr, fs := r.output.value.fields, s.output.value.fields;
      assert "display" !in KeySet(fr) ==> Without(fr, "display") == fr;
      assert "display" !in KeySet(fs) ==> Without(fs, "display") == fs;
    }
  }

  /** The model's view of any log is well paired, and says nothing about `display`. */
  lemma ModelSeesNoDisplay(a: seq<Message>, b: seq<Message>)
    requires LogsSameBut((r, s) => SameButDisplay(r, s), a, b)
    ensures ModelView(a) == ModelView(b)
  {
    StripKeepsAnswers();
    forall r, s | SameButDisplay(r, s) ensures StripReply(r) == StripReply(s) { StripForgets(r, s); }
    RewriteHides(StripReply, (r, s) => SameButDisplay(r, s), a, b);
    RewriteCommutesWithRepair(StripReply, a);
    RewriteCommutesWithRepair(StripReply, b);
  }

  lemma ModelViewPaired(log: seq<Message>)
    ensures WellPaired(ModelView(log))
    ensures ModelView(StripDisplay(log)) == ModelView(log)
    ensures ModelView(ModelView(log)) == ModelView(log)
  {
    StripKeepsAnswers();
    RewriteCommutesWithRepair(StripReply, log);
    RepairPairs(StripDisplay(log));
    assert forall m :: OnMessage(StripReply, OnMessage(StripReply, m)) == OnMessage(StripReply, m) by {
      forall m ensures OnMessage(StripReply, OnMessage(StripReply, m)) == OnMessage(StripReply, m) {
        if m.Tool? {
          assert OnReplies(StripReply, OnReplies(StripReply, m.replies)) == OnReplies(StripReply, m.replies);
        }
      }
    }
    assert StripDisplay(StripDisplay(log)) == StripDisplay(log);
    assert StripDisplay(ModelView(log)) == ModelView(log);
    RewriteCommutesWithRepair(StripReply, StripDisplay(log));
    WellPairedUnchanged(ModelView(log));
  }

  // --- Sensitive fields ---

  const SENSITIVE_NAMES: set<string> :=
    {"voucher_code", "private_key", "seed_phrase", "mnemonic", "password", "secret", "pin", "otp"}

  const HIDDEN: Json := Str("[REDACTED]")

  function Redact(j: Json): Json {
    match j
    case Arr(items) => Arr(seq(|items|, i requires 0 <= i < |items| => Redact(items[i])))
    case Obj(fields) =>
      Obj(seq(|fields|, i requires 0 <= i < |fields| =>
        Field(fields[i].key, if fields[i].key in SENSITIVE_NAMES then HIDDEN else Redact(fields[i].value))))
    case _ => j
  }

  /** At every depth, a sensitive field holds nothing but the placeholder. */
  ghost predicate Clean(j: Json) {
    match j
    case Arr(items) => forall i :: 0 <= i < |items| ==> Clean(items[i])
    case Obj(fields) => forall i :: 0 <= i < |fields| ==>
      if fields[i].key in SENSITIVE_NAMES then fields[i].value == HIDDEN else Clean(fields[i].value)
    case _ => true
  }

  /** The recursion and the loops of `redactDeep`. */
  method RedactDeep(j: Json) returns (r: Json)
    ensures r == Redact(j)
  {
    match j
    case Arr(items) =>
      var out: seq<Json> := [];
      for i := 0 to |items|
        invariant |out| == i
        invariant forall k :: 0 <= k < i ==> out[k] == Redact(items[k])
      {
        var x := RedactDeep(items[i]);
        out := out + [x];
      }
      r := Arr(out);
      assert out == Redact(j).items;
    case Obj(fields) =>
      var out: seq<Field> := [];
      for i := 0 to |fields|
        invariant |out| == i
        invariant forall k :: 0 <= k < i ==> out[k] == Redact(j).fields[k]
      {
        var x := HIDDEN;
        if fields[i].key !in SENSITIVE_NAMES { x := RedactDeep(fields[i].value); }
        out := out + [Field(fields[i].key, x)];
      }
      r := Obj(out);
      assert out == Redact(j).fields;
    case _ =>
      r := j;
  }

  /** Redaction hides every sensitive field, and changes nothing else. */
  lemma {:induction false} RedactIsClean(j: Json)
    ensures Clean(Redact(j))
    ensures Redact(j) == j <==> Clean(j)
  {
    match j
    case Arr(items) =>
      forall i | 0 <= i < |items|
        ensures Clean(Redact(items[i])) && (Redact(items[i]) == items[i] <==> Clean(items[i]))
      {
        RedactIsClean(items[i]);
      }
      assert Redact(j) == j <==> Redact(j).items == items;
    case Obj(fields) =>
      forall i | 0 <= i < |fields|
        ensures Clean(Redact(fields[i].value))
        ensures Redact(fields[i].value) == fields[i].value <==> Clean(fields[i].value)
      {
        RedactIsClean(fields[i].value);
      }
      assert Redact(j) == j <==> Redact(j).fields == fields;
    case _ =>
  }

  /** The two values are one, but for what stands under sensitive fields. */
  ghost predicate Alike(a: Json, b: Json) {
    match (a, b)
    case (Arr(xs), Arr(ys)) => |xs| == |ys| && forall i :: 0 <= i < |xs| ==> Alike(xs[i], ys[i])
    case (Obj(fs), Obj(gs)) => |fs| == |gs| && forall i :: 0 <= i < |fs| ==>
      fs[i].key == gs[i].key && (fs[i].key in SENSITIVE_NAMES || Alike(fs[i].value, gs[i].value))
    case _ => a == b
  }

  /** What is persisted tells two values apart exactly when they differ outside sensitive fields. */
  lemma {:induction false} RedactTellsApart(a: Json, b: Json)
    ensures Redact(a) == Redact(b) <==> Alike(a, b)
  {
    match (a, b)
    case (Arr(xs), Arr(ys)) =>
      assert |Redact(a).items| == |xs| && |Redact(b).items| == |ys|;
      if |xs| == |ys| {
        forall i | 0 <= i < |xs| ensures Redact(xs[i]) == Redact(ys[i]) <==> Alike(xs[i], ys[i]) {
          RedactTellsApart(xs[i], ys[i]);
        }
        var rx, ry := Redact(a).items, Redact(b).items;
        assert forall i :: 0 <= i < |xs| ==> rx[i] == Redact(xs[i]) && ry[i] == Redact(ys[i]);
        assert rx == ry <==> forall i :: 0 <= i < |xs| ==> rx[i] == ry[i];
      }
    case (Obj(fs), Obj(gs)) =>
      assert |Redact(a).fields| == |fs| && |Redact(b).fields| == |gs|;
      if |fs| == |gs| {
        forall i | 0 <= i < |fs|
          ensures Redact(fs[i].value) == Redact(gs[i].value) <==> Alike(fs[i].value, gs[i].value)
        {
          RedactTellsApart(fs[i].value, gs[i].value);
        }
        var rf, rg := Redact(a).fields, Redact(b).fields;
        forall i | 0 <= i < |fs|
          ensures rf[i] == rg[i] <==>
            fs[i].key == gs[i].key && (fs[i].key in SENSITIVE_NAMES || Alike(fs[i].value, gs[i].value))
        {
          assert rf[i].key == fs[i].key && rg[i].key == gs[i].key;
        }
        assert rf == rg <==> forall i :: 0 <= i < |fs| ==> rf[i] == rg[i];
      }
    case _ =>
  }

  function RedactReply(r: Reply): Reply {
    match r
    case Note(body) => Note(Redact(body))
    case Result(id, name, JsonOutput(value)) => Result(id, name, JsonOutput(Redact(value)))
    case Result(id, name, OtherOutput(body)) => Result(id, name, OtherOutput(Redact(body)))
  }

  /** `sanitizeMessages`: what is written to the conversation log. */
  function Redacted(log: seq<Message>): seq<Message> {
    OnLog(RedactReply, log)
  }

  lemma RedactKeepsAnswers()
    ensures KeepsAnswers(RedactReply)
  {
    assert Clean(INTERRUPTED) by {
      assert |"status"| == 6 && |"error"| == 5;
      forall k | k in SENSITIVE_NAMES ensures k != "status" && k != "error" {
        if |k| == 6 { assert k[1] == 'e'; assert "status"[1] == 't'; }
      }
    }
    RedactIsClean(INTERRUPTED);
  }

  /**
   * Repairing what was persisted gives the redaction of what a repair of the live log gives; redacting
   * again changes nothing.
   */
  lemma PersistedLogsRepairAlike(log: seq<Message>)
    ensures Redacted(Repaired(log)) == Repaired(Redacted(log))
    ensures Redacted(Redacted(log)) == Redacted(log)
    ensures WellPaired(log) ==> WellPaired(Redacted(log))
  {
    RedactKeepsAnswers();
    RewriteCommutesWithRepair(RedactReply, log);
    forall m ensures OnMessage(RedactReply, OnMessage(RedactReply, m)) == OnMessage(RedactReply, m) {
      if m.Tool? {
        forall r: Reply ensures RedactReply(RedactReply(r)) == RedactReply(r) {
          RedactTwice(r);
        }
        assert OnReplies(RedactReply, OnReplies(RedactReply, m.replies)) == OnReplies(RedactReply, m.replies);
      }
    }
    if WellPaired(log) {
      WellPairedUnchanged(log);
      RepairPairs(Redacted(log));
    }
  }

  lemma RedactTwice(r: Reply)
    ensures RedactReply(RedactReply(r)) == RedactReply(r)
  {
    var body := if r.Note? then r.body else if r.output.JsonOutput? then r.output.value else r.output.body;
    RedactIsClean(body);
    RedactIsClean(Redact(body));
  }

  /** The two replies are one, but for what stands under sensitive fields. */
  ghost predicate AlikeReplies(r: Reply, s: Reply) {
    match (r, s)
    case (Note(b), Note(c)) => Alike(b, c)
    case (Result(i, n, JsonOutput(v)), Result(j, m, JsonOutput(w))) => i == j && n == m && Alike(v, w)
    case (Result(i, n, OtherOutput(b)), Result(j, m, OtherOutput(c))) => i == j && n == m && Alike(b, c)
    case _ => false
  }

  lemma RedactForgets(r: Reply, s: Reply)
    requires AlikeReplies(r, s)
    ensures RedactReply(r) == RedactReply(s)
  {
    match (r, s)
    case (Note(b), Note(c)) => RedactTellsApart(b, c);
    case (Result(_, _, JsonOutput(v)), Result(_, _, JsonOutput(w))) => RedactTellsApart(v, w);
    case (Result(_, _, OtherOutput(b)), Result(_, _, OtherOutput(c))) => RedactTellsApart(b, c);
  }

  /** What is persisted of a log, and what its repair will be, says nothing about sensitive fields. */
  lemma PersistedHidesSensitive(a: seq<Message>, b: seq<Message>)
    requires LogsSameBut((r, s) => AlikeReplies(r, s), a, b)
    ensures Redacted(a) == Redacted(b) && Repaired(Redacted(a)) == Repaired(Redacted(b))
  {
    forall r, s | AlikeReplies(r, s) ensures RedactReply(r) == RedactReply(s) { RedactForgets(r, s); }
    RewriteHides(RedactReply, (r, s) => AlikeReplies(r, s), a, b);
  }
}
