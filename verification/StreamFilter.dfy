// StreamSanitizer: the machinery-leak filter and repetition guard every streamed character passes.
module StreamFilter {
  import opened Basics

  const ANCHOR_MIN_LEN := 24
  const MAX_SEGMENT_BUFFER := 2000

  predicate Terminator(c: char) {
    c == '.' || c == '!' || c == '?' || c == '\n'
  }

  predicate IsSpace(c: char) {
    c in "\t\n\r \U{000B}\U{000C}\U{00A0}\U{1680}\U{2028}\U{2029}\U{202F}\U{205F}\U{3000}\U{FEFF}"
    || '\U{2000}' <= c <= '\U{200A}'
  }

  function TrimStart(s: string): string {
    if s != [] && IsSpace(s[0]) then TrimStart(s[1..]) else s
  }

  function TrimEnd(s: string): string {
    if s != [] && IsSpace(s[|s| - 1]) then TrimEnd(s[..|s| - 1]) else s
  }

  function Trim(s: string): string {
    TrimEnd(TrimStart(s))
  }

  function Join(parts: seq<string>): string {
    if parts == [] then [] else parts[0] + Join(parts[1..])
  }

  lemma {:induction false} JoinConcat(a: seq<string>, b: seq<string>)
    ensures Join(a + b) == Join(a) + Join(b)
  {
    if a == [] {
      assert a + b == b;
    } else {
      assert (a + b)[0] == a[0] && (a + b)[1..] == a[1..] + b;
      JoinConcat(a[1..], b);
      Associative(a[0], Join(a[1..]), Join(b));
    }
  }

  lemma JoinOne(s: string)
    ensures Join([s]) == s
  {
    assert [s][1..] == [];
    assert s + [] == s;
  }

  // --- One segment ---

  /** What lasts for the whole turn: the opening line, and whether it came back. */
  datatype Guard = Guard(anchor: Option<string>, stopped: bool)

  predicate Substantial(seg: string) {
    |Trim(seg)| >= ANCHOR_MIN_LEN
  }

  ghost predicate Sound(g: Guard) {
    g.anchor.Some? ==> |g.anchor.value| >= ANCHOR_MIN_LEN
  }

  datatype Outcome = Outcome(guard: Guard, emitted: seq<string>)

  /** `consume`: a leaking segment is dropped whole, the anchor's second coming stops the turn. */
  function Consume(isLeak: string -> bool, g: Guard, seg: string): Outcome {
    if isLeak(seg) then Outcome(g, [])
    else if !Substantial(seg) then Outcome(g, [seg])
    else if g.anchor.None? then Outcome(g.(anchor := Some(Trim(seg))), [seg])
    else if Trim(seg) == g.anchor.value then Outcome(g.(stopped := true), [])
    else Outcome(g, [seg])
  }

  function ConsumeAll(isLeak: string -> bool, g: Guard, segs: seq<string>): Outcome
    decreases |segs|
  {
    if segs == [] || g.stopped then Outcome(g, [])
    else
      var first := Consume(isLeak, g, segs[0]);
      var later := ConsumeAll(isLeak, first.guard, segs[1..]);
      Outcome(later.guard, first.emitted + later.emitted)
  }

  lemma {:induction false} ConsumeAllConcat(isLeak: string -> bool, g: Guard, a: seq<string>, b: seq<string>)
    ensures var first := ConsumeAll(isLeak, g, a);
            var later := ConsumeAll(isLeak, first.guard, b);
            ConsumeAll(isLeak, g, a + b) == Outcome(later.guard, first.emitted + later.emitted)
    decreases |a|
  {
    if a == [] {
      assert a + b == b;
    } else if !g.stopped {
      assert (a + b)[0] == a[0] && (a + b)[1..] == a[1..] + b;
      var o := Consume(isLeak, g, a[0]);
      ConsumeAllConcat(isLeak, o.guard, a[1..], b);
      var first := ConsumeAll(isLeak, o.guard, a[1..]);
      Associative(o.emitted, first.emitted, ConsumeAll(isLeak, first.guard, b).emitted);
    }
  }

  // --- Cutting a text into segments ---

  datatype Cut = Cut(segs: seq<string>, rest: string)

  function FirstTerminator(text: string): (i: nat)
    ensures i <= |text|
  {
    if text == [] || Terminator(text[0]) then 0 else 1 + FirstTerminator(text[1..])
  }

  /** The text has no terminator. */
  ghost predicate Free(text: string) {
    FirstTerminator(text) == |text|
  }

  lemma {:induction false} FirstTerminatorMeaning(text: string)
    ensures forall k :: 0 <= k < FirstTerminator(text) ==> !Terminator(text[k])
    ensures FirstTerminator(text) < |text| ==> Terminator(text[FirstTerminator(text)])
  {
    if text != [] && !Terminator(text[0]) {
      FirstTerminatorMeaning(text[1..]);
      assert forall k :: 1 <= k < |text| ==> text[k] == text[1..][k - 1];
    }
  }

  function Split(text: string): Cut
    decreases |text|
  {
    var i := FirstTerminator(text) + 1;
    if i > |text| then Cut([], text)
    else
      var later := Split(text[i..]);
      Cut([text[..i]] + later.segs, later.rest)
  }

  /** The segments of a whole text, the last of them perhaps unterminated. */
  function Pieces(text: string): seq<string> {
    var cut := Split(text);
    cut.segs + if cut.rest == [] then [] else [cut.rest]
  }

  /** A text with a terminator in it: its first segment, then the rest. */
  lemma SplitFirst(text: string, seg: string, tail: string)
    requires |seg| == FirstTerminator(text) + 1 <= |text|
    requires seg == text[..|seg|] && tail == text[|seg|..]
    ensures Split(text).segs == [seg] + Split(tail).segs && Split(text).rest == Split(tail).rest
  {
    var later := Split(tail);
    assert Split(text) == Cut([seg] + later.segs, later.rest);
  }

  lemma TakeDrop(text: string, i: nat)
    requires i <= |text|
    ensures text[..i] + text[i..] == text
  {
  }

  lemma {:induction false} SplitJoins(text: string)
    ensures Join(Split(text).segs) + Split(text).rest == text
    decreases |text|
  {
    var i := FirstTerminator(text) + 1;
    if i <= |text| {
      var later := Split(text[i..]);
      SplitFirst(text, text[..i], text[i..]);
      SplitJoins(text[i..]);
      JoinConcat([text[..i]], later.segs);
      JoinOne(text[..i]);
      Associative(text[..i], Join(later.segs), later.rest);
      TakeDrop(text, i);
    }
  }

  lemma {:induction false} SplitRest(text: string)
    ensures Free(Split(text).rest)
    ensures |Split(text).rest| <= |text| && Split(text).rest == text[|text| - |Split(text).rest|..]
    decreases |text|
  {
    RestFree(text);
    SplitJoins(text);
    var before, rest := Join(Split(text).segs), Split(text).rest;
    assert (before + rest)[|before|..] == rest;
  }

  lemma {:induction false} RestFree(text: string)
    ensures Free(Split(text).rest)
    decreases |text|
  {
    var i := FirstTerminator(text) + 1;
    if i <= |text| {
      SplitFirst(text, text[..i], text[i..]);
      RestFree(text[i..]);
    }
  }

  lemma {:induction false} FirstTerminatorConcat(a: string, b: string)
    ensures FirstTerminator(a + b)
         == if FirstTerminator(a) < |a| then FirstTerminator(a) else |a| + FirstTerminator(b)
  {
    if a == [] {
      assert a + b == b;
    } else {
      assert (a + b)[0] == a[0] && (a + b)[1..] == a[1..] + b;
      FirstTerminatorConcat(a[1..], b);
    }
  }

  lemma PrefixOfSum(a: string, b: string, i: nat)
    requires i <= |a|
    ensures (a + b)[..i] == a[..i] && (a + b)[i..] == a[i..] + b
  {
  }

  lemma {:induction false} SplitConcat(a: string, b: string)
    ensures var c := Split(a);
            var d := Split(c.rest + b);
            Split(a + b) == Cut(c.segs + d.segs, d.rest)
    decreases |a|
  {
    var i := FirstTerminator(a) + 1;
    if i <= |a| {
      FirstTerminatorConcat(a, b);
      PrefixOfSum(a, b, i);
      SplitFirst(a, a[..i], a[i..]);
      SplitFirst(a + b, a[..i], a[i..] + b);
      SplitConcat(a[i..], b);
      Associative([a[..i]], Split(a[i..]).segs, Split(Split(a).rest + b).segs);
    }
  }

  // --- The streaming machine ---

  datatype Pushed = Pushed(guard: Guard, buffer: string, emitted: seq<string>)

  function PushSpec(isLeak: string -> bool, g: Guard, buffer: string, chunk: string): Pushed {
    if g.stopped then Pushed(g, buffer, [])
    else
      var cut := Split(buffer + chunk);
      var o := ConsumeAll(isLeak, g, cut.segs);
      if o.guard.stopped then Pushed(o.guard, [], o.emitted)
      else if |cut.rest| >= MAX_SEGMENT_BUFFER then
        var last := Consume(isLeak, o.guard, cut.rest);
        Pushed(last.guard, [], o.emitted + last.emitted)
      else Pushed(o.guard, cut.rest, o.emitted)
  }

  function EndSpec(isLeak: string -> bool, g: Guard, buffer: string): Outcome {
    if g.stopped || buffer == [] then Outcome(g, []) else Consume(isLeak, g, buffer)
  }

  /** The outcome of consuming `segs` after `emitted` was already let through. */
  ghost function Resumed(isLeak: string -> bool, g: Guard, segs: seq<string>, emitted: seq<string>): Outcome {
    var o := ConsumeAll(isLeak, g, segs);
    Outcome(o.guard, emitted + o.emitted)
  }

  lemma ResumedStep(isLeak: string -> bool, g: Guard, seg: string, later: seq<string>, emitted: seq<string>)
    requires !g.stopped
    ensures var o := Consume(isLeak, g, seg);
            Resumed(isLeak, g, [seg] + later, emitted)
            == Resumed(isLeak, o.guard, later, emitted + o.emitted)
  {
    var o := Consume(isLeak, g, seg);
    assert ([seg] + later)[1..] == later;
    Associative(emitted, o.emitted, ConsumeAll(isLeak, o.guard, later).emitted);
  }

  class StreamSanitizer {
    const isLeak: string -> bool
    var buffer: string
    var anchor: Option<string>
    var stoppedFlag: bool

    constructor (isLeak: string -> bool)
      ensures this.isLeak == isLeak
      ensures buffer == [] && State() == Guard(None, false)
    {
      this.isLeak := isLeak;
      buffer, anchor, stoppedFlag := [], None, false;
    }

    function State(): Guard
      reads this
    {
      Guard(anchor, stoppedFlag)
    }

    method Push(chunk: string) returns (out: string)
      modifies this
      ensures var p := PushSpec(isLeak, old(State()), old(buffer), chunk);
              State() == p.guard && buffer == p.buffer && out == Join(p.emitted)
    {
      if stoppedFlag { return []; }
      buffer := buffer + chunk;
      out := [];
      ghost var cut := Split(buffer);
      ghost var o, emitted := ConsumeAll(isLeak, State(), cut.segs), [];
      assert [] + o.emitted == o.emitted;
      var idx := FirstTerminator(buffer);
      while idx < |buffer|
        invariant idx == FirstTerminator(buffer)
        invariant !stoppedFlag
        invariant cut.rest == Split(buffer).rest
        invariant o == Resumed(isLeak, State(), Split(buffer).segs, emitted)
        invariant out == Join(emitted)
        decreases |buffer|
      {
        var seg := buffer[..idx + 1];
        SplitFirst(buffer, seg, buffer[idx + 1..]);
        ghost var later, piece := Split(buffer[idx + 1..]).segs, Consume(isLeak, State(), seg).emitted;
        ResumedStep(isLeak, State(), seg, later, emitted);
        JoinConcat(emitted, piece);
        buffer := buffer[idx + 1..];
        emitted := emitted + piece;
        var text := ConsumeSegment(seg);
        out := out + text;
        if stoppedFlag {
          buffer := [];
          assert emitted + [] == emitted;
          return;
        }
        idx := FirstTerminator(buffer);
      }
      assert emitted + [] == emitted;
      if |buffer| >= MAX_SEGMENT_BUFFER {
        var flushed := buffer;
        buffer := [];
        JoinConcat(emitted, Consume(isLeak, State(), flushed).emitted);
        var text := ConsumeSegment(flushed);
        out := out + text;
      }
    }

    method EndStep() returns (out: string)
      modifies this
      ensures var o := EndSpec(isLeak, old(State()), old(buffer));
              State() == o.guard && buffer == [] && out == Join(o.emitted)
    {
      if stoppedFlag { buffer := []; return []; }
      var seg := buffer;
      buffer := [];
      if seg == [] { return []; }
      out := ConsumeSegment(seg);
    }

    /** `stripMachineryLeak` of a single segment keeps it whole or leaves nothing. */
    method ConsumeSegment(seg: string) returns (out: string)
      modifies this`anchor, this`stoppedFlag
      ensures var o := Consume(isLeak, old(State()), seg);
              State() == o.guard && out == Join(o.emitted)
    {
      JoinOne(seg);
      var cleaned := if isLeak(seg) then [] else seg;
      var norm := Trim(cleaned);
      if |norm| >= ANCHOR_MIN_LEN {
        if anchor.None? {
          anchor := Some(norm);
        } else if norm == anchor.value {
          stoppedFlag := true;
          return [];
        }
      }
      return cleaned;
    }
  }

  lemma ConsumeOne(isLeak: string -> bool, g: Guard, seg: string)
    requires !g.stopped
    ensures ConsumeAll(isLeak, g, [seg]) == Consume(isLeak, g, seg)
  {
    var o := Consume(isLeak, g, seg);
    assert [seg][1..] == [];
    assert o.emitted + [] == o.emitted;
  }

  // --- A whole step of the model: its chunks, then the end of the step ---

  function StepFrom(isLeak: string -> bool, g: Guard, buffer: string, chunks: seq<string>): Outcome
    decreases |chunks|
  {
    if chunks == [] then EndSpec(isLeak, g, buffer)
    else
      var p := PushSpec(isLeak, g, buffer, chunks[0]);
      var later := StepFrom(isLeak, p.guard, p.buffer, chunks[1..]);
      Outcome(later.guard, p.emitted + later.emitted)
  }

  /** The pieces a step cuts its text into, if nothing stops it. */
  function Cuts(buffer: string, chunks: seq<string>): seq<string>
    decreases |chunks|
  {
    if chunks == [] then if buffer == [] then [] else [buffer]
    else
      var cut := Split(buffer + chunks[0]);
      if |cut.rest| >= MAX_SEGMENT_BUFFER then cut.segs + [cut.rest] + Cuts([], chunks[1..])
      else cut.segs + Cuts(cut.rest, chunks[1..])
  }

  /** However it is chunked, a step consumes the pieces of its text, each once and in order. */
  lemma {:induction false} StepConsumesCuts(isLeak: string -> bool, g: Guard, buffer: string, chunks: seq<string>)
    ensures StepFrom(isLeak, g, buffer, chunks) == ConsumeAll(isLeak, g, Cuts(buffer, chunks))
    decreases |chunks|
  {
    if chunks == [] {
      if buffer != [] && !g.stopped { ConsumeOne(isLeak, g, buffer); }
    } else if g.stopped {
      StepConsumesCuts(isLeak, g, buffer, chunks[1..]);
    } else {
      var cut := Split(buffer + chunks[0]);
      var p := PushSpec(isLeak, g, buffer, chunks[0]);
      var o := ConsumeAll(isLeak, g, cut.segs);
      StepConsumesCuts(isLeak, p.guard, p.buffer, chunks[1..]);
      if |cut.rest| >= MAX_SEGMENT_BUFFER {
        ConsumeAllConcat(isLeak, g, cut.segs + [cut.rest], Cuts([], chunks[1..]));
        ConsumeAllConcat(isLeak, g, cut.segs, [cut.rest]);
        if !o.guard.stopped { ConsumeOne(isLeak, o.guard, cut.rest); }
      } else {
        ConsumeAllConcat(isLeak, g, cut.segs, Cuts(cut.rest, chunks[1..]));
      }
    }
  }

  lemma {:induction false} CutsLoseNothing(buffer: string, chunks: seq<string>)
    ensures Join(Cuts(buffer, chunks)) == buffer + Join(chunks)
    decreases |chunks|
  {
    if chunks == [] {
      if buffer != [] { JoinOne(buffer); }
    } else {
      var cut := Split(buffer + chunks[0]);
      SplitJoins(buffer + chunks[0]);
      Associative(buffer, chunks[0], Join(chunks[1..]));
      if |cut.rest| >= MAX_SEGMENT_BUFFER {
        CutsLoseNothing([], chunks[1..]);
        JoinOne(cut.rest);
        JoinConcat(cut.segs, [cut.rest]);
        JoinConcat(cut.segs + [cut.rest], Cuts([], chunks[1..]));
      } else {
        CutsLoseNothing(cut.rest, chunks[1..]);
        JoinConcat(cut.segs, Cuts(cut.rest, chunks[1..]));
        Associative(Join(cut.segs), cut.rest, Join(chunks[1..]));
      }
    }
  }

  /** MAX_SEGMENT_BUFFER characters from `i` on without a terminator, and a character after them. */
  ghost predicate LongRun(text: string, i: nat) {
    i + MAX_SEGMENT_BUFFER < |text| && forall k :: i <= k < i + MAX_SEGMENT_BUFFER ==> !Terminator(text[k])
  }

  ghost predicate Fits(text: string) {
    forall i: nat :: !LongRun(text, i)
  }

  lemma FitsSuffix(text: string, from: nat)
    requires Fits(text) && from <= |text|
    ensures Fits(text[from..])
  {
    forall i: nat ensures !LongRun(text[from..], i) {
      assert !LongRun(text, from + i);
      assert forall k :: from <= k < |text| ==> text[k] == text[from..][k - from];
    }
  }

  lemma PiecesConcat(a: string, b: string)
    ensures Pieces(a + b) == Split(a).segs + Pieces(Split(a).rest + b)
  {
    SplitConcat(a, b);
    var d := Split(Split(a).rest + b);
    Associative(Split(a).segs, d.segs, if d.rest == [] then [] else [d.rest]);
  }

  lemma FreePieces(text: string)
    requires Free(text)
    ensures Split(text) == Cut([], text)
    ensures Pieces(text) == if text == [] then [] else [text]
  {
  }

  /** The chunk completes some segments of the text and leaves the rest of it to the later chunks. */
  lemma CutOff(now: string, later: string)
    requires Fits(now + later)
    ensures var cut := Split(now);
            && Free(cut.rest) && Fits(cut.rest + later)
            && Pieces(now + later) == cut.segs + Pieces(cut.rest + later)
  {
    var cut := Split(now);
    PiecesConcat(now, later);
    SplitRest(now);
    assert cut.rest + later == (now + later)[|now| - |cut.rest|..];
    FitsSuffix(now + later, |now| - |cut.rest|);
  }

  lemma {:induction false} FittingCuts(buffer: string, chunks: seq<string>)
    requires Free(buffer) && Fits(buffer + Join(chunks))
    ensures Cuts(buffer, chunks) == Pieces(buffer + Join(chunks))
    decreases |chunks|
  {
    if chunks == [] {
      assert buffer + [] == buffer;
      FreePieces(buffer);
    } else {
      var now, later := buffer + chunks[0], Join(chunks[1..]);
      var rest := Split(now).rest;
      Associative(buffer, chunks[0], later);
      CutOff(now, later);
      if |rest| >= MAX_SEGMENT_BUFFER {
        FullBufferEnds(rest, later);
        EmptyChunks(chunks[1..]);
        assert rest + later == rest;
        FreePieces(rest);
        assert Split(now).segs + [rest] + [] == Split(now).segs + [rest];
      } else {
        FittingCuts(rest, chunks[1..]);
      }
    }
  }

  lemma {:induction false} EmptyChunks(chunks: seq<string>)
    requires Join(chunks) == []
    ensures Cuts([], chunks) == []
    decreases |chunks|
  {
    if chunks != [] {
      assert [] + chunks[0] == [];
      FreePieces([]);
      EmptyChunks(chunks[1..]);
    }
  }

  lemma FullBufferEnds(rest: string, later: string)
    requires Free(rest) && |rest| >= MAX_SEGMENT_BUFFER && Fits(rest + later)
    ensures later == []
  {
    FirstTerminatorMeaning(rest);
    assert !LongRun(rest + later, 0);
    assert forall k :: 0 <= k < |rest| ==> (rest + later)[k] == rest[k];
  }

  lemma {:induction false} RestHoldsTail(a: string, i: nat)
    requires i <= |a| && forall k :: i <= k < |a| ==> !Terminator(a[k])
    ensures |Split(a).rest| >= |a| - i
    decreases |a|
  {
    var t := FirstTerminator(a);
    FirstTerminatorMeaning(a);
    if t < |a| {
      SplitFirst(a, a[..t + 1], a[t + 1..]);
      assert forall k :: i <= k < |a| ==> a[k] == a[t + 1..][k - t - 1];
      RestHoldsTail(a[t + 1..], i - t - 1);
    }
  }

  lemma FirstPieceIsLonger(rest: string, b: string)
    requires Free(rest) && b != []
    ensures Pieces(rest + b) != [] && |Pieces(rest + b)[0]| > |rest|
  {
    FirstTerminatorConcat(rest, b);
    var i := FirstTerminator(rest + b) + 1;
    if i <= |rest + b| {
      SplitFirst(rest + b, (rest + b)[..i], (rest + b)[i..]);
    } else {
      FreePieces(rest + b);
    }
  }

  lemma LongRunCutShort(a: string, b: string)
    requires b != [] && |Split(a).rest| >= MAX_SEGMENT_BUFFER
    ensures Cuts([], [a, b]) != Pieces(a + b)
  {
    var cut := Split(a);
    assert [] + a == a;
    assert [a, b][1..] == [b];
    PiecesConcat(a, b);
    SplitRest(a);
    FirstPieceIsLonger(cut.rest, b);
    var i := |cut.segs|;
    assert Cuts([], [a, b]) == cut.segs + [cut.rest] + Cuts([], [b]);
    assert Cuts([], [a, b])[i] == cut.rest;
    assert Pieces(a + b)[i] == Pieces(cut.rest + b)[0];
  }

  /** The segments a text is cut into are the same for every chunking, exactly when the text fits. */
  lemma ChunkingIsIrrelevantIff(text: string)
    ensures (forall chunks | Join(chunks) == text :: Cuts([], chunks) == Pieces(text)) <==> Fits(text)
  {
    if Fits(text) {
      forall chunks | Join(chunks) == text ensures Cuts([], chunks) == Pieces(text) {
        assert [] + Join(chunks) == text;
        FittingCuts([], chunks);
      }
    } else {
      var i: nat :| LongRun(text, i);
      var a, b := text[..i + MAX_SEGMENT_BUFFER], text[i + MAX_SEGMENT_BUFFER..];
      RestHoldsTail(a, i);
      LongRunCutShort(a, b);
      assert text == a + b;
      assert [a, b][1..] == [b];
      JoinOne(b);
      assert Join([a, b]) == text;
    }
  }

  /** So the user sees the same text, and the guard ends the same, as for the text in one piece. */
  lemma StepIsOneShot(isLeak: string -> bool, g: Guard, chunks: seq<string>)
    requires Fits(Join(chunks))
    ensures StepFrom(isLeak, g, [], chunks) == ConsumeAll(isLeak, g, Pieces(Join(chunks)))
  {
    StepConsumesCuts(isLeak, g, [], chunks);
    ChunkingIsIrrelevantIff(Join(chunks));
  }

  // --- What the guard lets through ---

  function Clean(isLeak: string -> bool, segs: seq<string>): (r: seq<string>)
    ensures forall s :: s in r ==> s in segs && !isLeak(s)
    ensures (forall s :: s in segs ==> !isLeak(s)) ==> r == segs
  {
    if segs == [] then []
    else
      assert segs == [segs[0]] + segs[1..];
      (if isLeak(segs[0]) then [] else [segs[0]]) + Clean(isLeak, segs[1..])
  }

  /** The opening line of the turn: the one remembered, or else the first substantial segment. */
  function OpeningLine(g: Guard, clean: seq<string>): Option<string> {
    if g.anchor.Some? || clean == [] then g.anchor
    else if Substantial(clean[0]) then Some(Trim(clean[0]))
    else OpeningLine(g, clean[1..])
  }

  /** Segment `j` repeats the opening line of what came before it. */
  ghost predicate Restarts(g: Guard, clean: seq<string>, j: nat)
    requires j < |clean|
  {
    OpeningLine(g, clean[..j]) == Some(Trim(clean[j]))
  }

  lemma {:induction false} OpeningLineSound(g: Guard, clean: seq<string>)
    requires Sound(g)
    ensures Sound(Guard(OpeningLine(g, clean), false))
  {
    if g.anchor.None? && clean != [] { OpeningLineSound(g, clean[1..]); }
  }

  lemma RestartsCons(g: Guard, g': Guard, s: string, rest: seq<string>, j: nat)
    requires g'.anchor == OpeningLine(g, [s])
    requires j < |rest|
    ensures Restarts(g, [s] + rest, j + 1) <==> Restarts(g', rest, j)
    ensures OpeningLine(g, [s] + rest) == OpeningLine(g', rest)
  {
    assert [s][1..] == [];
    OpeningLineCons(g, g', s, rest);
    OpeningLineCons(g, g', s, rest[..j]);
    assert ([s] + rest)[..j + 1] == [s] + rest[..j];
  }

  lemma OpeningLineCons(g: Guard, g': Guard, s: string, rest: seq<string>)
    requires g'.anchor == OpeningLine(g, [s])
    ensures OpeningLine(g, [s] + rest) == OpeningLine(g', rest)
  {
    assert [s][1..] == [] && ([s] + rest)[1..] == rest;
    if g'.anchor.None? { SameOpening(g, g', rest); }
  }

  lemma {:induction false} SameOpening(g: Guard, g': Guard, rest: seq<string>)
    requires g.anchor == g'.anchor
    ensures OpeningLine(g, rest) == OpeningLine(g', rest)
  {
    if rest != [] { SameOpening(g, g', rest[1..]); }
  }

  /** One segment that does not leak. */
  lemma ConsumeMeaning(isLeak: string -> bool, g: Guard, s: string)
    requires Sound(g) && !g.stopped && !isLeak(s)
    ensures var o := Consume(isLeak, g, s);
            && (o.guard.stopped <==> g.anchor == Some(Trim(s)))
            && (o.emitted == if o.guard.stopped then [] else [s])
            && o.guard.anchor == OpeningLine(g, if o.guard.stopped then [] else [s])
  {
    assert [s][1..] == [];
  }

  /** `o` lets through what comes before the first segment that repeats the opening line. */
  ghost predicate LetsThrough(g: Guard, clean: seq<string>, o: Outcome) {
    && |o.emitted| <= |clean| && o.emitted == clean[..|o.emitted|]
    && NoRestart(g, clean, |o.emitted|)
    && (if o.guard.stopped then |o.emitted| < |clean| && Restarts(g, clean, |o.emitted|) else o.emitted == clean)
    && o.guard.anchor == OpeningLine(g, o.emitted)
  }

  ghost predicate NoRestart(g: Guard, clean: seq<string>, n: nat)
    requires n <= |clean|
  {
    forall j :: 0 <= j < n ==> !Restarts(g, clean, j)
  }

  lemma NoRestartCons(g: Guard, first: Guard, s: string, rest: seq<string>, n: nat)
    requires g.anchor != Some(Trim(s)) && first.anchor == OpeningLine(g, [s])
    requires n <= |rest| && NoRestart(first, rest, n)
    ensures NoRestart(g, [s] + rest, n + 1)
  {
    var clean := [s] + rest;
    forall j | 0 <= j < n + 1 ensures !Restarts(g, clean, j) {
      if j == 0 {
        assert clean[..0] == [];
      } else {
        assert !Restarts(first, rest, j - 1);
        RestartsCons(g, first, s, rest, j - 1);
      }
    }
  }

  lemma LetsThroughCons(g: Guard, first: Guard, s: string, rest: seq<string>, later: Outcome)
    requires g.anchor != Some(Trim(s)) && first.anchor == OpeningLine(g, [s])
    requires LetsThrough(first, rest, later)
    ensures LetsThrough(g, [s] + rest, Outcome(later.guard, [s] + later.emitted))
  {
    var n := |later.emitted|;
    NoRestartCons(g, first, s, rest, n);
    OpeningLineCons(g, first, s, later.emitted);
    if later.guard.stopped { RestartsCons(g, first, s, rest, n); }
    assert ([s] + rest)[..n + 1] == [s] + rest[..n];
  }

  /**
   * Of the segments that do not leak, the guard lets through those before the first one that repeats
   * the opening line; it stops there, or else lets all of them through.
   */
  lemma {:induction false} GuardMeaning(isLeak: string -> bool, g: Guard, segs: seq<string>)
    requires Sound(g) && !g.stopped
    ensures LetsThrough(g, Clean(isLeak, segs), ConsumeAll(isLeak, g, segs))
    ensures Sound(ConsumeAll(isLeak, g, segs).guard)
    decreases |segs|
  {
    if segs != [] {
      var s, rest := segs[0], Clean(isLeak, segs[1..]);
      var first := Consume(isLeak, g, s);
      var later := ConsumeAll(isLeak, first.guard, segs[1..]);
      if isLeak(s) {
        GuardMeaning(isLeak, g, segs[1..]);
        assert [] + later.emitted == later.emitted && [] + rest == rest;
      } else {
        ConsumeMeaning(isLeak, g, s);
        if first.guard.stopped {
          assert ([s] + rest)[..0] == [];
        } else {
          OpeningLineSound(g, [s]);
          GuardMeaning(isLeak, first.guard, segs[1..]);
          LetsThroughCons(g, first.guard, s, rest, later);
        }
      }
    }
  }

  lemma LetsThroughPrefix(g: Guard, clean: seq<string>, o: Outcome, j: nat)
    requires LetsThrough(g, clean, o) && j < |o.emitted|
    ensures !Restarts(g, o.emitted, j) && o.emitted[j] in clean
  {
    assert !Restarts(g, clean, j);
    assert o.emitted[..j] == clean[..j] && o.emitted[j] == clean[j];
  }

  /** None of the emitted segments leaks, and none repeats the opening line of those before it. */
  ghost predicate Unspoilt(isLeak: string -> bool, g: Guard, emitted: seq<string>) {
    forall j :: 0 <= j < |emitted| ==> !isLeak(emitted[j]) && !Restarts(g, emitted, j)
  }

  lemma EmittedAreClean(isLeak: string -> bool, g: Guard, segs: seq<string>)
    requires Sound(g) && !g.stopped
    ensures Unspoilt(isLeak, g, ConsumeAll(isLeak, g, segs).emitted)
  {
    GuardMeaning(isLeak, g, segs);
    var o := ConsumeAll(isLeak, g, segs);
    forall j | 0 <= j < |o.emitted| ensures !isLeak(o.emitted[j]) && !Restarts(g, o.emitted, j) {
      LetsThroughPrefix(g, Clean(isLeak, segs), o, j);
    }
  }

  /** A step whose text leaks nothing and does not return to the opening line passes unchanged. */
  lemma CleanTextPasses(isLeak: string -> bool, g: Guard, chunks: seq<string>)
    requires Sound(g) && !g.stopped
    requires forall s :: s in Cuts([], chunks) ==> !isLeak(s)
    ensures var o := StepFrom(isLeak, g, [], chunks);
            && (!o.guard.stopped ==> Join(o.emitted) == Join(chunks))
            && (!o.guard.stopped <==> forall j :: 0 <= j < |Cuts([], chunks)| ==> !Restarts(g, Cuts([], chunks), j))
  {
    StepConsumesCuts(isLeak, g, [], chunks);
    GuardMeaning(isLeak, g, Cuts([], chunks));
    CutsLoseNothing([], chunks);
    assert [] + Join(chunks) == Join(chunks);
  }

  // --- A whole turn: one guard over all its steps ---

  /** The steps of a turn, each from an empty buffer, with the guard carried over. */
  function StepsFrom(isLeak: string -> bool, g: Guard, steps: seq<seq<string>>): Outcome
    decreases |steps|
  {
    if steps == [] then Outcome(g, [])
    else
      var first := StepFrom(isLeak, g, [], steps[0]);
      var later := StepsFrom(isLeak, first.guard, steps[1..]);
      Outcome(later.guard, first.emitted + later.emitted)
  }

  function AllCuts(steps: seq<seq<string>>): seq<string> {
    if steps == [] then [] else Cuts([], steps[0]) + AllCuts(steps[1..])
  }

  lemma {:induction false} StepsConsumeCuts(isLeak: string -> bool, g: Guard, steps: seq<seq<string>>)
    ensures StepsFrom(isLeak, g, steps) == ConsumeAll(isLeak, g, AllCuts(steps))
    decreases |steps|
  {
    if steps != [] {
      StepConsumesCuts(isLeak, g, [], steps[0]);
      StepsConsumeCuts(isLeak, StepFrom(isLeak, g, [], steps[0]).guard, steps[1..]);
      ConsumeAllConcat(isLeak, g, Cuts([], steps[0]), AllCuts(steps[1..]));
    }
  }

  /**
   * Over all the steps of a turn, nothing that leaks is let through, and the opening line is let through
   * only once: what repeats it, in any later step, stops the turn.
   */
  lemma TurnEmitsClean(isLeak: string -> bool, steps: seq<seq<string>>)
    ensures Unspoilt(isLeak, Guard(None, false), StepsFrom(isLeak, Guard(None, false), steps).emitted)
  {
    StepsConsumeCuts(isLeak, Guard(None, false), steps);
    EmittedAreClean(isLeak, Guard(None, false), AllCuts(steps));
  }

  /** A push leaves less than a full buffer behind, and no terminator in it. */
  lemma PushLeavesShortRest(isLeak: string -> bool, g: Guard, buffer: string, chunk: string)
    requires !g.stopped
    ensures var p := PushSpec(isLeak, g, buffer, chunk);
            |p.buffer| < MAX_SEGMENT_BUFFER && forall k :: 0 <= k < |p.buffer| ==> !Terminator(p.buffer[k])
  {
    SplitRest(buffer + chunk);
    FirstTerminatorMeaning(Split(buffer + chunk).rest);
  }
}
