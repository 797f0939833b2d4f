// What the coordination rules come to for every engine, and the loop that follows them.
module Coordination {
  import opened Basics
  import opened Json
  import opened Transcript
  import opened Turn
  import opened TurnRules
  import opened TurnMeaning
  import opened TurnGuards
  import opened Orchestrator
  import Repair
  import Slices

  function At(engine: Engine, log: seq<Message>, acts: seq<Act>, i: nat): Stage
    requires i <= |acts|
  {
    Follow(engine, Begin(log), acts[..i])
  }

  lemma PermittedAt(engine: Engine, log: seq<Message>, acts: seq<Act>, i: nat)
    requires AllPermitted(engine, Begin(log), acts) && i < |acts|
    ensures Permitted(engine, At(engine, log, acts, i), acts[i])
    ensures At(engine, log, acts, i + 1) == Advance(engine, At(engine, log, acts, i), acts[i])
  {
    assert acts == acts[..i] + acts[i..];
    FollowConcat(engine, Begin(log), acts[..i], acts[i..]);
    assert acts[..i + 1] == acts[..i] + [acts[i]];
    FollowSnoc(engine, Begin(log), acts[..i], acts[i]);
  }

  lemma FollowBetween(engine: Engine, log: seq<Message>, acts: seq<Act>, i: nat, j: nat)
    requires i <= j <= |acts|
    ensures At(engine, log, acts, j) == Follow(engine, At(engine, log, acts, i), acts[i..j])
  {
    assert acts[..j] == acts[..i] + acts[i..j];
    FollowConcat(engine, Begin(log), acts[..i], acts[i..j]);
  }

  lemma AtNext(engine: Engine, log: seq<Message>, acts: seq<Act>, i: nat)
    requires i < |acts|
    ensures At(engine, log, acts, i + 1) == Advance(engine, At(engine, log, acts, i), acts[i])
  {
    assert acts[..i + 1] == acts[..i] + [acts[i]];
    FollowSnoc(engine, Begin(log), acts[..i], acts[i]);
  }

  lemma Between(engine: Engine, log: seq<Message>, acts: seq<Act>, i: nat, j: nat)
    requires AllPermitted(engine, Begin(log), acts) && i <= j <= |acts|
    ensures AllPermitted(engine, At(engine, log, acts, i), acts[i..j])
    ensures At(engine, log, acts, j) == Follow(engine, At(engine, log, acts, i), acts[i..j])
  {
    assert acts == acts[..j] + acts[j..];
    FollowConcat(engine, Begin(log), acts[..j], acts[j..]);
    assert acts[..j] == acts[..i] + acts[i..j];
    FollowConcat(engine, Begin(log), acts[..i], acts[i..j]);
  }

  lemma PrefixPermitted(engine: Engine, log: seq<Message>, acts: seq<Act>, i: nat)
    requires AllPermitted(engine, Begin(log), acts) && i <= |acts|
    ensures AllPermitted(engine, Begin(log), acts[..i])
  {
    assert acts == acts[..i] + acts[i..];
    FollowConcat(engine, Begin(log), acts[..i], acts[i..]);
  }

  // --- The number of Core calls ---

  function CoreCalls(acts: seq<Act>): nat {
    if acts == [] then 0 else (if acts[0].Core? then 1 else 0) + CoreCalls(acts[1..])
  }

  /** Every call of Core after the first has spent one specialist more. */
  ghost predicate Spending(engine: Engine, p: Stage) {
    && p.calls <= MAX_COORDINATION_HOPS && (p.calls > 0 ==> p.calls <= |p.coord.spent| + 1)
    && (p.calls == 0 ==> p.ran == {} && p.plan == [])
    && p.coord.spent <= engine.specialists && p.ran <= engine.specialists - p.coord.spent
  }

  lemma MoreSpent(a: set<string>, b: set<string>)
    requires a !! b && b != {}
    ensures |a + b| >= |a| + 1
  {
    assert |a + b| == |a| + |b|;
  }

  lemma SpendingStep(engine: Engine, p: Stage, act: Act)
    requires Spending(engine, p) && Permitted(engine, p, act)
    ensures Spending(engine, Advance(engine, p, act))
    ensures Advance(engine, p, act).calls == p.calls + if act.Core? then 1 else 0
  {
    if act.Core? && p.calls > 0 { MoreSpent(p.coord.spent, p.ran); }
  }

  lemma {:induction false} SpendingKept(engine: Engine, p: Stage, acts: seq<Act>)
    requires Spending(engine, p) && AllPermitted(engine, p, acts)
    ensures Spending(engine, Follow(engine, p, acts))
    ensures Follow(engine, p, acts).calls == p.calls + CoreCalls(acts)
    decreases |acts|
  {
    if acts != [] {
      SpendingStep(engine, p, acts[0]);
      SpendingKept(engine, Advance(engine, p, acts[0]), acts[1..]);
    }
  }

  lemma SubsetSize(a: set<string>, b: set<string>)
    requires a <= b
    ensures |a| <= |b|
  {
    assert b == a + (b - a);
  }

  /** Core is called at most four times, and at most once more than there are specialists. */
  lemma CoreCallsBounded(engine: Engine, log: seq<Message>)
    ensures CoreCalls(Course(engine, log)) <= MAX_COORDINATION_HOPS
    ensures CoreCalls(Course(engine, log)) <= |engine.specialists| + 1
  {
    CourseEnds(engine, log);
    SpendingKept(engine, Begin(log), Course(engine, log));
    SubsetSize(Follow(engine, Begin(log), Course(engine, log)).coord.spent, engine.specialists);
  }

  lemma {:induction false} RanStays(engine: Engine, p: Stage, acts: seq<Act>, to: string)
    requires to in p.ran && forall k :: 0 <= k < |acts| ==> !acts[k].Core?
    ensures to in Follow(engine, p, acts).ran
    decreases |acts|
  {
    if acts != [] { RanStays(engine, Advance(engine, p, acts[0]), acts[1..], to); }
  }

  /** With at most two specialists the hop cap is never what ends the turn: Core always answers the last run. */
  lemma CapIsNeverReached(engine: Engine, log: seq<Message>, i: nat, j: nat)
    requires |engine.specialists| <= 2
    requires i < j < |Course(engine, log)| && Course(engine, log)[i].Run? && Course(engine, log)[j].Close?
    ensures exists k :: i < k < j && Course(engine, log)[k].Core?
  {
    var acts := Course(engine, log);
    CourseEnds(engine, log);
    PermittedAt(engine, log, acts, i);
    PermittedAt(engine, log, acts, j);
    PrefixPermitted(engine, log, acts, j);
    SpendingKept(engine, Begin(log), acts[..j]);
    SubsetSize(At(engine, log, acts, j).coord.spent, engine.specialists);
    FollowBetween(engine, log, acts, i + 1, j);
    if forall k :: i < k < j ==> !acts[k].Core? {
      RanStays(engine, At(engine, log, acts, i + 1), acts[i + 1..j], acts[i].step.to);
    }
  }

  // --- Who runs, and when ---

  lemma {:induction false} StaysSpent(engine: Engine, p: Stage, acts: seq<Act>, to: string)
    requires to in p.coord.spent
    ensures to in Follow(engine, p, acts).coord.spent
    decreases |acts|
  {
    if acts != [] { StaysSpent(engine, Advance(engine, p, acts[0]), acts[1..], to); }
  }

  /** A call of Core spends every specialist that ran before it. */
  lemma {:induction false} CoreSpends(engine: Engine, p: Stage, acts: seq<Act>, to: string, k: nat)
    requires to in p.coord.spent + p.ran && k < |acts| && acts[k].Core?
    ensures to in Follow(engine, p, acts).coord.spent
    decreases k
  {
    var p1 := Advance(engine, p, acts[0]);
    if k == 0 {
      StaysSpent(engine, p1, acts[1..], to);
    } else {
      assert acts[1..][k - 1] == acts[k];
      CoreSpends(engine, p1, acts[1..], to, k - 1);
    }
  }

  lemma {:induction false} StaysDelegated(engine: Engine, p: Stage, acts: seq<Act>, key: string)
    requires key in p.coord.delegated
    ensures key in Follow(engine, p, acts).coord.delegated
    decreases |acts|
  {
    if acts != [] { StaysDelegated(engine, Advance(engine, p, acts[0]), acts[1..], key); }
  }

  lemma NotDelegatedAgain(engine: Engine, log: seq<Message>, acts: seq<Act>, i: nat, j: nat)
    requires AllPermitted(engine, Begin(log), acts) && i < j < |acts| && acts[i].Run? && acts[j].Run?
    ensures acts[i].step != acts[j].step
  {
    PermittedAt(engine, log, acts, i);
    PermittedAt(engine, log, acts, j);
    FollowBetween(engine, log, acts, i + 1, j);
    StaysDelegated(engine, At(engine, log, acts, i + 1), acts[i + 1..j], StepKey(acts[i].step));
  }

  lemma NotRunInLaterHop(engine: Engine, log: seq<Message>, acts: seq<Act>, i: nat, k: nat, j: nat)
    requires AllPermitted(engine, Begin(log), acts) && i < k < j < |acts|
    requires acts[i].Run? && acts[k].Core? && acts[j].Run?
    ensures acts[i].step.to != acts[j].step.to
  {
    var p := At(engine, log, acts, i + 1);
    assert acts[i].step.to in p.ran by { PermittedAt(engine, log, acts, i); }
    assert acts[j].step.to !in At(engine, log, acts, j).coord.spent by { PermittedAt(engine, log, acts, j); }
    SpentAt(engine, log, acts, i + 1, k, j, acts[i].step.to);
  }

  lemma SpentAt(engine: Engine, log: seq<Message>, acts: seq<Act>, i: nat, k: nat, j: nat, to: string)
    requires i <= k < j <= |acts| && acts[k].Core?
    requires var p := At(engine, log, acts, i); to in p.coord.spent + p.ran
    ensures to in At(engine, log, acts, j).coord.spent
  {
    FollowBetween(engine, log, acts, i, j);
    assert acts[i..j][k - i] == acts[k];
    CoreSpends(engine, At(engine, log, acts, i), acts[i..j], to, k - i);
  }

  /** All runs of one specialist fall between two calls of Core, and no step is run twice. */
  lemma OneHopEach(engine: Engine, log: seq<Message>, i: nat, j: nat)
    requires i < j < |Course(engine, log)| && Course(engine, log)[i].Run? && Course(engine, log)[j].Run?
    ensures var acts := Course(engine, log);
            && acts[i].step != acts[j].step
            && (acts[i].step.to == acts[j].step.to ==> forall k :: i < k < j ==> !acts[k].Core?)
  {
    var acts := Course(engine, log);
    CourseEnds(engine, log);
    NotDelegatedAgain(engine, log, acts, i, j);
    forall k | i < k < j && acts[k].Core? ensures acts[i].step.to != acts[j].step.to {
      NotRunInLaterHop(engine, log, acts, i, k, j);
    }
  }

  /** Why a planned step may be passed over. */
  ghost predicate PassedOver(engine: Engine, acts: seq<Act>, j: nat, step: Step) {
    || step.to !in engine.specialists
    || (exists i :: 0 <= i < j && j <= |acts| && RanIn(acts, i, j, step.to))
    || (exists i :: 0 <= i < j && j <= |acts| && Planned(acts[i]) && StepKey(acts[i].step) == StepKey(step))
  }

  predicate Planned(act: Act) {
    act.Run? || act.Skip?
  }

  /** The specialist ran at `i`, in an earlier hop than `j`. */
  ghost predicate RanIn(acts: seq<Act>, i: nat, j: nat, to: string) {
    i < j <= |acts| && acts[i].Run? && acts[i].step.to == to && exists k :: i < k < j && acts[k].Core?
  }

  /** Where the names in the sets of the loop come from. */
  ghost predicate Sourced(acts: seq<Act>, j: nat, p: Stage) {
    && j <= |acts|
    && (forall to :: to in p.coord.spent ==> exists i :: 0 <= i < j && RanIn(acts, i, j, to))
    && (forall to :: to in p.ran ==> exists i :: 0 <= i < j && acts[i].Run? && acts[i].step.to == to)
    && (forall key :: key in p.coord.delegated ==>
          exists i :: 0 <= i < j && Planned(acts[i]) && StepKey(acts[i].step) == key)
  }

  lemma SourcedStep(engine: Engine, acts: seq<Act>, j: nat, p: Stage, p': Stage)
    requires j < |acts| && Sourced(acts, j, p) && p' == Advance(engine, p, acts[j])
    ensures Sourced(acts, j + 1, p')
  {
    var j' := j + 1;
    forall to | to in p'.coord.spent ensures exists i :: 0 <= i < j' && RanIn(acts, i, j', to) {
      if to in p.coord.spent {
        var i :| 0 <= i < j && RanIn(acts, i, j, to);
        assert RanIn(acts, i, j', to);
      } else {
        var i :| 0 <= i < j && acts[i].Run? && acts[i].step.to == to;
        assert RanIn(acts, i, j', to);
      }
    }
  }

  lemma {:induction false} SourcedAt(engine: Engine, log: seq<Message>, acts: seq<Act>, j: nat) returns (p: Stage)
    requires j <= |acts|
    ensures p == At(engine, log, acts, j) && Sourced(acts, j, p)
  {
    if j == 0 {
      p := Begin(log);
      assert acts[..0] == [];
    } else {
      var before := SourcedAt(engine, log, acts, j - 1);
      p := Advance(engine, before, acts[j - 1]);
      AtNext(engine, log, acts, j - 1);
      SourcedStep(engine, acts, j - 1, before, p);
    }
  }

  function StepsOf(acts: seq<Act>): seq<Step> {
    if acts == [] then [] else (if Planned(acts[0]) then [acts[0].step] else []) + StepsOf(acts[1..])
  }

  lemma {:induction false} PlanFollowed(engine: Engine, p: Stage, acts: seq<Act>)
    requires AllPermitted(engine, p, acts) && forall k :: 0 <= k < |acts| ==> Planned(acts[k])
    ensures StepsOf(acts) + Follow(engine, p, acts).plan == p.plan
    decreases |acts|
  {
    if acts != [] {
      PlanFollowed(engine, Advance(engine, p, acts[0]), acts[1..]);
      assert p.plan == [acts[0].step] + p.plan[1..];
      Associative([acts[0].step], StepsOf(acts[1..]), Follow(engine, p, acts).plan);
    } else {
      assert [] + p.plan == p.plan;
    }
  }

  /**
   * After each call of Core the steps it planned are taken up one by one, in order and all of them, unless
   * the turn ends on a failed one; and a step is passed over only if there is no such specialist, the
   * specialist ran in an earlier hop, or the same step was planned before in the turn.
   */
  lemma EveryPlannedStepIsTakenUp(engine: Engine, log: seq<Message>, i: nat, j: nat)
    requires i < j < |Course(engine, log)| && Course(engine, log)[i].Core? && !Planned(Course(engine, log)[j])
    requires forall k :: i < k < j ==> Planned(Course(engine, log)[k])
    ensures var acts, p := Course(engine, log), At(engine, log, Course(engine, log), i);
            var decision := engine.core(p.calls).decision;
            StepsOf(acts[i + 1..j]) == if decision.Route? then decision.steps else []
  {
    var acts := Course(engine, log);
    CourseEnds(engine, log);
    PermittedAt(engine, log, acts, i);
    PermittedAt(engine, log, acts, j);
    Between(engine, log, acts, i + 1, j);
    PlanFollowed(engine, At(engine, log, acts, i + 1), acts[i + 1..j]);
    assert At(engine, log, acts, j).plan == [];
    assert StepsOf(acts[i + 1..j]) + [] == StepsOf(acts[i + 1..j]);
  }

  lemma SkippedOnlyFor(engine: Engine, log: seq<Message>, j: nat)
    requires j < |Course(engine, log)| && Course(engine, log)[j].Skip?
    ensures PassedOver(engine, Course(engine, log), j, Course(engine, log)[j].step)
  {
    CourseEnds(engine, log);
    PermittedAt(engine, log, Course(engine, log), j);
    var p := SourcedAt(engine, log, Course(engine, log), j);
  }

  lemma LongerNameOtherKey(s: Step, t: Step)
    requires |s.to| < |t.to| && ':' !in t.to
    ensures StepKey(s) != StepKey(t)
  {
    assert StepKey(s)[|s.to|] == ':';
    assert StepKey(t)[|s.to|] == t.to[|s.to|];
  }

  /** For names without a colon, the key of a step tells steps apart. */
  lemma StepKeyTellsApart(s: Step, t: Step)
    requires ':' !in s.to && ':' !in t.to
    ensures StepKey(s) == StepKey(t) <==> s == t
  {
    if |s.to| < |t.to| {
      LongerNameOtherKey(s, t);
    } else if |t.to| < |s.to| {
      LongerNameOtherKey(t, s);
    } else if StepKey(s) == StepKey(t) {
      assert s.to == StepKey(s)[..|s.to|] && t.to == StepKey(t)[..|s.to|];
      assert s.brief == StepKey(s)[|s.to| + 2..] && t.brief == StepKey(t)[|s.to| + 2..];
    }
  }

  // --- The ledger ---

  /** The results of the steps run so far: the `n`th run streamed what the engine says. */
  function Results(engine: Engine, acts: seq<Act>): seq<StepResult> {
    if acts == [] then []
    else
      var before, act := Results(engine, acts[..|acts| - 1]), acts[|acts| - 1];
      before + if act.Run? then [ResultOf(act.step, engine.stream(|before|))] else []
  }

  lemma ResultsSnoc(engine: Engine, acts: seq<Act>, act: Act)
    ensures Results(engine, acts + [act]) == Results(engine, acts)
              + if act.Run? then [ResultOf(act.step, engine.stream(|Results(engine, acts)|))] else []
  {
    assert (acts + [act])[..|acts|] == acts;
  }

  lemma {:induction false} LedgerIsResults(engine: Engine, log: seq<Message>, acts: seq<Act>)
    requires AllPermitted(engine, Begin(log), acts)
    ensures Follow(engine, Begin(log), acts).coord.ledger == Results(engine, acts)
    decreases |acts|
  {
    if acts != [] {
      var front, act := acts[..|acts| - 1], acts[|acts| - 1];
      assert acts == front + [act];
      FollowSnoc(engine, Begin(log), front, act);
      LedgerIsResults(engine, log, front);
      ResultsSnoc(engine, front, act);
      AdvanceLedger(engine, Follow(engine, Begin(log), front), act);
    }
  }

  lemma AdvanceLedger(engine: Engine, p: Stage, act: Act)
    ensures Advance(engine, p, act).coord.ledger == p.coord.ledger
              + if act.Run? then [ResultOf(act.step, engine.stream(|p.coord.ledger|))] else []
  {
    assert p.coord.ledger + [] == p.coord.ledger;
  }

  /** Each call of Core is given exactly the steps run before it, in order, with summaries kept short. */
  lemma LedgerIsExact(engine: Engine, log: seq<Message>, i: nat)
    requires i < |Course(engine, log)| && Course(engine, log)[i].Core?
    ensures var acts := Course(engine, log);
            && acts[i].ledger == Results(engine, acts[..i])
            && (forall r :: r in acts[i].ledger ==> |r.summary| <= MAX_SUMMARY_CHARS)
            && (acts[i].resuming <==> exists k :: 0 <= k < i && acts[k].Core?)
  {
    var acts := Course(engine, log);
    CourseEnds(engine, log);
    PermittedAt(engine, log, acts, i);
    PrefixPermitted(engine, log, acts, i);
    LedgerIsResults(engine, log, acts[..i]);
    ShortSummaries(engine, acts[..i]);
    SpendingKept(engine, Begin(log), acts[..i]);
    CountedCore(acts[..i]);
  }

  lemma {:induction false} ShortSummaries(engine: Engine, acts: seq<Act>)
    ensures forall r :: r in Results(engine, acts) ==> |r.summary| <= MAX_SUMMARY_CHARS
    decreases |acts|
  {
    if acts != [] {
      ShortSummaries(engine, acts[..|acts| - 1]);
      SummaryIsShortPrefix(engine.stream(|Results(engine, acts[..|acts| - 1])|));
    }
  }

  lemma {:induction false} CountedCore(acts: seq<Act>)
    ensures CoreCalls(acts) > 0 <==> exists k :: 0 <= k < |acts| && acts[k].Core?
  {
    if acts != [] {
      CountedCore(acts[1..]);
      assert forall k :: 0 <= k < |acts| - 1 ==> acts[1..][k] == acts[k + 1];
      if k :| 0 <= k < |acts| && acts[k].Core? {
        if k > 0 { assert acts[1..][k - 1].Core?; }
      }
    }
  }

  // --- What the client is sent ---

  /** A turn ends with `done`, or with the run of a specialist that failed; and nothing before ends it. */
  lemma EndsOnce(engine: Engine, log: seq<Message>, i: nat)
    requires i < |Course(engine, log)|
    ensures Final(engine, Course(engine, log), i) <==> i == |Course(engine, log)| - 1
  {
    var acts := Course(engine, log);
    CourseEnds(engine, log);
    PermittedAt(engine, log, acts, i);
    FinalAdvance(engine, log, acts, i);
    if i < |acts| - 1 { PermittedAt(engine, log, acts, i + 1); } else { assert acts[..i + 1] == acts; }
  }

  ghost predicate Final(engine: Engine, acts: seq<Act>, i: nat)
    requires i < |acts|
  {
    acts[i].Close? || (acts[i].Run? && HasError(engine.stream(|Results(engine, acts[..i])|)))
  }

  lemma FinalAdvance(engine: Engine, log: seq<Message>, acts: seq<Act>, i: nat)
    requires AllPermitted(engine, Begin(log), acts) && i < |acts|
    ensures At(engine, log, acts, i + 1).over <==> Final(engine, acts, i)
  {
    PermittedAt(engine, log, acts, i);
    PrefixPermitted(engine, log, acts, i);
    LedgerIsResults(engine, log, acts[..i]);
  }

  /** What the acts of a turn owe the client: all Core streamed, and all the specialists streamed but `done`. */
  function Expected(engine: Engine, acts: seq<Act>): seq<Frame> {
    if acts == [] then []
    else
      var front, act := acts[..|acts| - 1], acts[|acts| - 1];
      Expected(engine, front) + Owed(engine, act, CoreCalls(front), |Results(engine, front)|)
  }

  function Owed(engine: Engine, act: Act, calls: nat, runs: nat): seq<Frame> {
    match act
    case Core(_, _, _, _) => Orchestrator.Plain(engine.core(calls).events)
    case Run(_, _) => Forwarded(engine.stream(runs), engine.wallet)
    case Skip(_) => []
    case Close => [Frame(Done, None)]
  }

  lemma FramesSnoc(acts: seq<Act>, act: Act)
    ensures Frames(acts + [act]) == Frames(acts) + FramesOf(act)
  {
    assert (acts + [act])[..|acts|] == acts;
  }

  lemma ExpectedSnoc(engine: Engine, acts: seq<Act>, act: Act)
    ensures Expected(engine, acts + [act])
         == Expected(engine, acts) + Owed(engine, act, CoreCalls(acts), |Results(engine, acts)|)
  {
    assert (acts + [act])[..|acts|] == acts;
  }

  /** The monitor before the last act, and after it. */
  lemma LastAct(engine: Engine, log: seq<Message>, front: seq<Act>, act: Act)
    requires AllPermitted(engine, Begin(log), front + [act])
    ensures var p := Follow(engine, Begin(log), front);
            && AllPermitted(engine, Begin(log), front) && Permitted(engine, p, act)
            && Follow(engine, Begin(log), front + [act]) == Advance(engine, p, act)
            && p.calls == CoreCalls(front) && |p.coord.ledger| == |Results(engine, front)|
  {
    FollowSnoc(engine, Begin(log), front, act);
    LedgerIsResults(engine, log, front);
    SpendingKept(engine, Begin(log), front);
  }

  lemma {:induction false} FramesAreExpected(engine: Engine, log: seq<Message>, acts: seq<Act>)
    requires AllPermitted(engine, Begin(log), acts)
    ensures Frames(acts) == Expected(engine, acts)
    decreases |acts|
  {
    if acts != [] {
      var front, act := acts[..|acts| - 1], acts[|acts| - 1];
      assert acts == front + [act];
      LastAct(engine, log, front, act);
      FramesAreExpected(engine, log, front);
      FrameOfLast(engine, front, act, Follow(engine, Begin(log), front));
    }
  }

  lemma FrameOfLast(engine: Engine, front: seq<Act>, act: Act, p: Stage)
    requires Frames(front) == Expected(engine, front) && Permitted(engine, p, act)
    requires p.calls == CoreCalls(front) && |p.coord.ledger| == |Results(engine, front)|
    ensures Frames(front + [act]) == Expected(engine, front + [act])
  {
    FramesSnoc(front, act);
    ExpectedSnoc(engine, front, act);
    PermittedFrames(engine, p, act);
  }

  lemma PermittedFrames(engine: Engine, p: Stage, act: Act)
    requires Permitted(engine, p, act)
    ensures FramesOf(act) == Owed(engine, act, p.calls, |p.coord.ledger|)
  {
  }

  /** The client is sent all of it, in order, and nothing else. */
  lemma ForwardsEverything(engine: Engine, log: seq<Message>)
    ensures Frames(Course(engine, log)) == Expected(engine, Course(engine, log))
  {
    CourseEnds(engine, log);
    FramesAreExpected(engine, log, Course(engine, log));
  }

  function EventsIn(frames: seq<Frame>): (events: seq<Event>)
    ensures |events| == |frames| && forall i :: 0 <= i < |events| ==> events[i] == frames[i].event
  {
    seq(|frames|, i requires 0 <= i < |frames| => frames[i].event)
  }

  lemma EventsInConcat(a: seq<Frame>, b: seq<Frame>)
    ensures EventsIn(a + b) == EventsIn(a) + EventsIn(b)
  {
  }

  lemma {:induction false} ForwardedEvents(events: seq<Event>, wallet: Json)
    ensures forall e :: e in EventsIn(Forwarded(events, wallet)) ==> e in events && !e.Done?
    ensures (forall e :: e in events ==> !e.Done?) ==> EventsIn(Forwarded(events, wallet)) == events
    decreases |events|
  {
    if events != [] {
      var front, e := events[..|events| - 1], events[|events| - 1];
      assert events == front + [e];
      ForwardedEvents(front, wallet);
      EventsInConcat(Forwarded(front, wallet), if e.Done? then [] else [Stamped(e, wallet)]);
    }
  }

  /** The stream of a turn that ran to its end: nothing terminal passes, unless it ended in an error. */
  lemma SpecialistTerminals(events: seq<Event>, wallet: Json)
    requires OneTerminal(events)
    ensures if HasError(events) then OneTerminal(EventsIn(Forwarded(events, wallet)))
            else NoTerminal(EventsIn(Forwarded(events, wallet)))
  {
    ForwardedEvents(events, wallet);
    if HasError(events) {
      var i :| 0 <= i < |events| && events[i].Error?;
      assert i == |events| - 1;
    }
  }

  ghost predicate CoreErrs(act: Act) {
    act.Core? && exists f :: f in act.frames && f.event.Error?
  }

  lemma OneTerminalConcat(a: seq<Event>, b: seq<Event>)
    requires OneTerminal(b)
    ensures OneTerminal(a + b) <==> NoTerminal(a)
  {
    var c := a + b;
    assert c[|c| - 1] == b[|b| - 1];
    if NoTerminal(a) {
      forall i | 0 <= i < |c| - 1 ensures !Terminal(c[i]) {
        if i >= |a| { assert c[i] == b[i - |a|]; }
      }
    } else {
      var i :| 0 <= i < |a| && Terminal(a[i]);
      assert c[i] == a[i];
    }
  }

  lemma NoTerminalConcat(a: seq<Event>, b: seq<Event>)
    ensures NoTerminal(a + b) <==> NoTerminal(a) && NoTerminal(b)
  {
    if NoTerminal(a + b) {
      forall e | e in a ensures !Terminal(e) { assert e in a + b; }
      forall e | e in b ensures !Terminal(e) { assert e in a + b; }
    }
  }

  /** Real engines: every specialist's stream ends in its one terminal event, and Core streams no `done`. */
  ghost predicate WellBehaved(engine: Engine) {
    && (forall n: nat :: OneTerminal(engine.stream(n)))
    && (forall n: nat, e :: e in engine.core(n).events ==> !e.Done?)
  }

  /** Only the act that ends the turn shows something terminal, unless Core streams an error. */
  lemma ActTerminals(engine: Engine, p: Stage, act: Act)
    requires Permitted(engine, p, act) && WellBehaved(engine)
    ensures if Advance(engine, p, act).over then OneTerminal(EventsIn(FramesOf(act))) && !act.Core?
            else NoTerminal(EventsIn(FramesOf(act))) <==> !CoreErrs(act)
  {
    if act.Run? {
      SpecialistTerminals(engine.stream(|p.coord.ledger|), engine.wallet);
    } else if act.Core? {
      var events := engine.core(p.calls).events;
      assert EventsIn(act.frames) == events;
      if f :| f in act.frames && f.event.Error? { assert f.event in events; }
    }
  }

  lemma TerminalsSnoc(front: seq<Act>, act: Act)
    ensures EventsIn(Frames(front + [act])) == EventsIn(Frames(front)) + EventsIn(FramesOf(act))
    ensures NoTerminal(EventsIn(Frames(front + [act])))
       <==> NoTerminal(EventsIn(Frames(front))) && NoTerminal(EventsIn(FramesOf(act)))
  {
    FramesSnoc(front, act);
    EventsInConcat(Frames(front), FramesOf(act));
    NoTerminalConcat(EventsIn(Frames(front)), EventsIn(FramesOf(act)));
  }

  ghost predicate NoCoreErrs(acts: seq<Act>) {
    forall act :: act in acts ==> !CoreErrs(act)
  }

  lemma NoCoreErrsSnoc(front: seq<Act>, act: Act)
    ensures NoCoreErrs(front + [act]) <==> NoCoreErrs(front) && !CoreErrs(act)
  {
    assert act in front + [act] && forall a :: a in front ==> a in front + [act];
  }

  /** While the turn is not over, the client has seen a terminal event only if Core streamed an error. */
  lemma {:induction false} FrontTerminals(engine: Engine, log: seq<Message>, acts: seq<Act>)
    requires AllPermitted(engine, Begin(log), acts) && !Follow(engine, Begin(log), acts).over && WellBehaved(engine)
    ensures NoTerminal(EventsIn(Frames(acts))) <==> NoCoreErrs(acts)
    decreases |acts|
  {
    if acts != [] {
      var front, act := acts[..|acts| - 1], acts[|acts| - 1];
      assert acts == front + [act];
      LastAct(engine, log, front, act);
      FrontTerminals(engine, log, front);
      ActTerminals(engine, Follow(engine, Begin(log), front), act);
      TerminalsSnoc(front, act);
      NoCoreErrsSnoc(front, act);
    }
  }

  lemma EndTerminals(engine: Engine, log: seq<Message>, front: seq<Act>, act: Act)
    requires Ends(engine, Begin(log), front + [act]) && WellBehaved(engine)
    ensures OneTerminal(EventsIn(Frames(front + [act]))) <==> NoCoreErrs(front + [act])
  {
    LastAct(engine, log, front, act);
    FrontTerminals(engine, log, front);
    ActTerminals(engine, Follow(engine, Begin(log), front), act);
    TerminalsSnoc(front, act);
    OneTerminalConcat(EventsIn(Frames(front)), EventsIn(FramesOf(act)));
    NoCoreErrsSnoc(front, act);
  }

  /** The client sees exactly one terminal event, the last, precisely when no call of Core streams an error. */
  lemma OneTerminalIff(engine: Engine, log: seq<Message>)
    requires WellBehaved(engine)
    ensures OneTerminal(EventsIn(Frames(Course(engine, log)))) <==> NoCoreErrs(Course(engine, log))
  {
    CourseEnds(engine, log);
    var acts := Course(engine, log);
    assert acts == acts[..|acts| - 1] + [acts[|acts| - 1]];
    EndTerminals(engine, log, acts[..|acts| - 1], acts[|acts| - 1]);
  }

  /** A model error of Core is one such case: the client is sent the error, and then `done`. */
  lemma CoreErrorThenDone(engine: Engine, log: seq<Message>)
    requires engine.core(0) == CoreCall([Event.Progress, Error("model_error")], Answered, None)
    ensures EventsIn(Frames(Course(engine, log))) == [Event.Progress, Error("model_error"), Done]
  {
    var core := Core(false, [], CoreView(log, |log|), Orchestrator.Plain(engine.core(0).events));
    assert Course(engine, log) == [core, Close];
    assert [core, Close][..1] == [core] && [core][..0] == [];
    assert Frames([core]) == FramesOf(core);
    assert Frames([core, Close]) == FramesOf(core) + [Frame(Done, None)];
  }

  // --- The log ---

  /** What the acts of a turn add to the log: the messages of each run, and what Core commits. */
  function Added(engine: Engine, acts: seq<Act>): seq<Message> {
    if acts == [] then []
    else
      var front, act := acts[..|acts| - 1], acts[|acts| - 1];
      Added(engine, front) + AddedBy(engine, act, CoreCalls(front), |Results(engine, front)|)
  }

  function AddedBy(engine: Engine, act: Act, calls: nat, runs: nat): seq<Message> {
    if act.Run? then engine.added(runs) else if act.Core? then Committed(engine.core(calls)) else []
  }

  lemma AdvanceAdds(engine: Engine, p: Stage, act: Act)
    ensures Advance(engine, p, act).coord.log == p.coord.log + AddedBy(engine, act, p.calls, |p.coord.ledger|)
    ensures Advance(engine, p, act).coord.start == p.coord.start
  {
    assert p.coord.log + [] == p.coord.log;
  }

  lemma AddedSnoc(engine: Engine, acts: seq<Act>, act: Act)
    ensures Added(engine, acts + [act])
         == Added(engine, acts) + AddedBy(engine, act, CoreCalls(acts), |Results(engine, acts)|)
  {
    assert (acts + [act])[..|acts|] == acts;
  }

  /** Between the calls of Core the log only grows, by what the acts add. */
  lemma {:induction false} LogGrows(engine: Engine, log: seq<Message>, acts: seq<Act>)
    requires AllPermitted(engine, Begin(log), acts)
    ensures Follow(engine, Begin(log), acts).coord.log == log + Added(engine, acts)
    ensures Follow(engine, Begin(log), acts).coord.start == |log|
    decreases |acts|
  {
    if acts == [] {
      assert log + [] == log;
    } else {
      var front, act := acts[..|acts| - 1], acts[|acts| - 1];
      assert acts == front + [act];
      LastAct(engine, log, front, act);
      LogGrows(engine, log, front);
      AddedOfLast(engine, log, front, act, Follow(engine, Begin(log), front));
    }
  }

  lemma AddedOfLast(engine: Engine, log: seq<Message>, front: seq<Act>, act: Act, p: Stage)
    requires p.coord.log == log + Added(engine, front)
    requires p.calls == CoreCalls(front) && |p.coord.ledger| == |Results(engine, front)|
    ensures Advance(engine, p, act).coord.log == log + Added(engine, front + [act])
    ensures Advance(engine, p, act).coord.start == p.coord.start
  {
    AdvanceAdds(engine, p, act);
    AddedSnoc(engine, front, act);
    Associative(log, Added(engine, front), AddedBy(engine, act, CoreCalls(front), |Results(engine, front)|));
  }

  /** Whatever the specialists and Core itself add, every call of Core is shown the log as the turn began. */
  lemma CoreSeesOnlyHistory(engine: Engine, log: seq<Message>, i: nat)
    requires i < |Course(engine, log)| && Course(engine, log)[i].Core?
    ensures Course(engine, log)[i].shown == Slices.ModelView(log) && WellPaired(Course(engine, log)[i].shown)
  {
    var acts := Course(engine, log);
    CourseEnds(engine, log);
    PermittedAt(engine, log, acts, i);
    PrefixPermitted(engine, log, acts, i);
    LogGrows(engine, log, acts[..i]);
    assert (log + Added(engine, acts[..i]))[..|log|] == log;
    Slices.ModelViewPaired(log);
  }

  /** Each run of a specialist is a turn as module Turn describes it, or fails to get a model. */
  ghost predicate RunsTurns(engine: Engine, envs: nat -> Env) {
    forall n: nat ::
      || (engine.stream(n) == EventsOf(TurnTrace(envs(n))) && engine.added(n) == LogOf(TurnTrace(envs(n))))
      || (engine.stream(n) == [Error("model_error")] && engine.added(n) == [])
  }

  lemma SpecialistsBehave(engine: Engine, envs: nat -> Env)
    requires RunsTurns(engine, envs)
    requires forall n: nat, e :: e in engine.core(n).events ==> !e.Done?
    ensures WellBehaved(engine)
  {
    forall n: nat ensures OneTerminal(engine.stream(n)) { ExactlyOneTerminalEvent(envs(n)); }
  }

  lemma CommittedKeepsPaired(log: seq<Message>, core: CoreCall)
    requires WellPaired(log)
    ensures WellPaired(log + Committed(core))
  {
    if core.said.None? {
      assert log + [] == log;
    } else {
      var parts := [Text(core.said.value)];
      assert parts[1..] == [] && Calls(parts) == [];
      PushHead(log, parts);
    }
  }

  lemma {:induction false} LogStaysPaired(engine: Engine, envs: nat -> Env, log: seq<Message>, acts: seq<Act>)
    requires WellPaired(log) && RunsTurns(engine, envs) && forall n: nat :: TidyEnv(envs(n))
    ensures WellPaired(log + Added(engine, acts))
    decreases |acts|
  {
    if acts == [] {
      assert log + [] == log;
    } else {
      var front, act := acts[..|acts| - 1], acts[|acts| - 1];
      var runs, calls := |Results(engine, front)|, CoreCalls(front);
      LogStaysPaired(engine, envs, log, front);
      Associative(log, Added(engine, front), AddedBy(engine, act, calls, runs));
      var before := log + Added(engine, front);
      assert before + [] == before;
      if act.Run? { PairedAtEveryModelCall(envs(runs), before); }
      if act.Core? { CommittedKeepsPaired(before, engine.core(calls)); }
    }
  }

  /**
   * From a well-paired log, and with no call id twice in a step, the log is well paired at every model call
   * of every specialist in the whole orchestrated turn, and at its end.
   */
  lemma PairedThroughout(engine: Engine, envs: nat -> Env, log: seq<Message>, i: nat, k: nat)
    requires WellPaired(log) && RunsTurns(engine, envs) && forall n: nat :: TidyEnv(envs(n))
    requires i < |Course(engine, log)| && Course(engine, log)[i].Run?
    ensures var front := Course(engine, log)[..i];
            var trace := TurnTrace(envs(|Results(engine, front)|));
            k < |trace| && trace[k].Ask? ==> WellPaired(log + Added(engine, front) + LogOf(trace[..k]))
    ensures WellPaired(log + Added(engine, Course(engine, log)))
  {
    var front := Course(engine, log)[..i];
    LogStaysPaired(engine, envs, log, front);
    LogStaysPaired(engine, envs, log, Course(engine, log));
    PairedAtEveryModelCall(envs(|Results(engine, front)|), log + Added(engine, front));
  }

  // --- The loop ---

  lemma {:induction false} FramesConcat(a: seq<Act>, b: seq<Act>)
    ensures Frames(a + b) == Frames(a) + Frames(b)
    decreases |b|
  {
    if b == [] {
      assert a + b == a && Frames(a) + [] == Frames(a);
    } else {
      var front, act := b[..|b| - 1], b[|b| - 1];
      assert a + b == (a + front) + [act];
      FramesSnoc(a + front, act);
      FramesConcat(a, front);
      Associative(Frames(a), Frames(front), FramesOf(act));
    }
  }

  lemma NextStep(engine: Engine, h: Hop, steps: seq<Step>, i: nat)
    requires i < |steps|
    ensures var step, rest := steps[i], steps[i + 1..];
            var c := h.coord.(delegated := h.coord.delegated + {StepKey(step)});
            RunSteps(engine, h, steps[i..]) ==
              if step.to in h.coord.spent || StepKey(step) in h.coord.delegated then
                RunSteps(engine, h.(acts := h.acts + [Skip(step)]), rest)
              else if step.to !in engine.specialists then
                RunSteps(engine, h.(acts := h.acts + [Skip(step)], coord := c), rest)
              else
                var events := engine.stream(|c.ledger|);
                var h' := Hop(h.acts + [Run(step, Forwarded(events, engine.wallet))],
                              Recorded(engine, c, step), h.ran + {step.to}, HasError(events));
                if h'.failed then h' else RunSteps(engine, h', rest)
  {
    assert steps[i..][0] == steps[i] && steps[i..][1..] == steps[i + 1..];
  }

  /** One hop: every planned step in order, but for those already delegated or spent, until one fails. */
  method RunPlannedSteps(engine: Engine, steps: seq<Step>, c: Coord)
    returns (acts: seq<Act>, out: seq<Frame>, after: Coord, ran: set<string>, failed: bool)
    ensures RunSteps(engine, Hop([], c, {}, false), steps) == Hop(acts, after, ran, failed)
    ensures out == Frames(acts)
  {
    var delegated, ledger, log := c.delegated, c.ledger, c.log;
    acts, out, after, ran, failed := [], [], c, {}, false;
    assert steps[0..] == steps;
    for i := 0 to |steps|
      invariant out == Frames(acts) && !failed
      invariant after == Coord(c.start, delegated, c.spent, ledger, log)
      invariant RunSteps(engine, Hop([], c, {}, false), steps)
             == RunSteps(engine, Hop(acts, after, ran, false), steps[i..])
    {
      var step := steps[i];
      NextStep(engine, Hop(acts, after, ran, false), steps, i);
      if step.to in c.spent || StepKey(step) in delegated {
        FramesSnoc(acts, Skip(step));
        acts := acts + [Skip(step)];
        continue;
      }
      delegated := delegated + {StepKey(step)};
      after := after.(delegated := delegated);
      if step.to !in engine.specialists {
        FramesSnoc(acts, Skip(step));
        acts := acts + [Skip(step)];
        continue;
      }
      ran := ran + {step.to};
      var n := |ledger|;
      var frames, result := RunSpecialist(engine.stream(n), step, engine.wallet);
      FramesSnoc(acts, Run(step, frames));
      acts, out := acts + [Run(step, frames)], out + frames;
      ledger, log := ledger + [result], log + engine.added(n);
      after := after.(ledger := ledger, log := log);
      if result.status == Errored {
        failed := true;
        return;
      }
    }
  }

  /** What a hop does before Core is asked again, from its call of Core on. */
  lemma HopUnfolds(engine: Engine, hop: nat, c: Coord, call: Act, c': Coord, h: Hop)
    requires hop < MAX_COORDINATION_HOPS
    requires call == Core(hop > 0, c.ledger, CoreView(c.log, c.start), Orchestrator.Plain(engine.core(hop).events))
    requires c' == c.(log := c.log + Committed(engine.core(hop)))
    requires engine.core(hop).decision.Route? ==>
      h == RunSteps(engine, Hop([], c', {}, false), engine.core(hop).decision.steps)
    ensures HopsFrom(engine, hop, c) ==
              if engine.core(hop).decision.Answered? then [call] + [Close]
              else if h.failed then [call] + h.acts
              else if h.ran == {} then [call] + h.acts + [Close]
              else [call] + h.acts + HopsFrom(engine, hop + 1, h.coord.(spent := h.coord.spent + h.ran))
  {
    if engine.core(hop).decision.Route? {
      assert h.acts + [] == h.acts;
      Associative([call], h.acts, [Close]);
      Associative([call], h.acts, HopsFrom(engine, hop + 1, h.coord.(spent := h.coord.spent + h.ran)));
    }
  }

  /** Where the monitor stands after a hop. */
  lemma HopFollowed(engine: Engine, hop: nat, c: Coord, p: Stage, call: Act, c': Coord, steps: seq<Step>)
    requires hop < MAX_COORDINATION_HOPS && AtHop(p, hop, c)
    requires call == Core(hop > 0, c.ledger, CoreView(c.log, c.start), Orchestrator.Plain(engine.core(hop).events))
    requires c' == c.(log := c.log + Committed(engine.core(hop)))
    requires steps == if engine.core(hop).decision.Route? then engine.core(hop).decision.steps else []
    ensures var h := RunSteps(engine, Hop([], c', {}, false), steps);
            var p' := Follow(engine, p, [call] + h.acts);
            && p'.coord == h.coord
            && (!h.failed ==> p'.calls == hop + 1 && p'.plan == [] && !p'.over && p'.ran == h.ran)
  {
    var p1 := Advance(engine, p, call);
    FollowOne(engine, p, call);
    var h0 := Hop([], c', {}, false);
    StepsPermitted(engine, p1, h0, steps);
    FollowConcat(engine, p, [call], RunSteps(engine, h0, steps).acts);
  }

  /** One round trip: Core is called, and the steps it plans are run. */
  method RunHop(engine: Engine, hop: nat, c: Coord, ghost p: Stage)
    returns (acts: seq<Act>, out: seq<Frame>, over: bool, after: Coord)
    requires hop < MAX_COORDINATION_HOPS && AtHop(p, hop, c)
    ensures HopsFrom(engine, hop, c) == if over then acts else acts + HopsFrom(engine, hop + 1, after)
    ensures out == Frames(acts)
    ensures Follow(engine, p, acts).coord.log == after.log
    ensures !over ==> AtHop(Follow(engine, p, acts), hop + 1, after)
  {
    var shown := Repair.RepairForModel(Before(c.log, c.start));
    var core := engine.core(hop);
    var call := Core(hop > 0, c.ledger, Slices.StripDisplay(shown), Orchestrator.Plain(core.events));
    var steps := if core.decision.Route? then core.decision.steps else [];
    var c' := c.(log := c.log + Committed(core));
    HopUnfolds(engine, hop, c, call, c', RunSteps(engine, Hop([], c', {}, false), steps));
    HopFollowed(engine, hop, c, p, call, c', steps);
    var moved, frames, ran, failed;
    moved, frames, after, ran, failed := RunPlannedSteps(engine, steps, c');
    FramesSnoc([], call);
    assert [] + [call] == [call] && [] + call.frames == call.frames;
    FramesConcat([call], moved);
    acts, out, over := [call] + moved, call.frames + frames, failed;
    if failed { return; }
    if ran == {} {
      FollowSnoc(engine, p, acts, Close);
      FramesSnoc(acts, Close);
      acts, out, over := acts + [Close], out + [Frame(Done, None)], true;
      return;
    }
    after := after.(spent := after.spent + ran);
  }

  /** The turn of a session: what is done, what the client is sent, and the log it leaves. */
  method Orchestrate(engine: Engine, log: seq<Message>)
    returns (acts: seq<Act>, out: seq<Frame>, messages: seq<Message>)
    ensures acts == Course(engine, log) && out == Frames(acts) && messages == log + Added(engine, acts)
  {
    var c := Coord(|log|, {}, {}, [], log);
    acts, out := [], [];
    var hop := 0;
    assert [] + Course(engine, log) == Course(engine, log);
    CourseEnds(engine, log);
    LogGrows(engine, log, Course(engine, log));
    while hop < MAX_COORDINATION_HOPS
      invariant hop <= MAX_COORDINATION_HOPS && out == Frames(acts)
      invariant AtHop(Follow(engine, Begin(log), acts), hop, c)
      invariant Course(engine, log) == acts + HopsFrom(engine, hop, c)
      decreases MAX_COORDINATION_HOPS - hop
    {
      var moved, frames, over, after := RunHop(engine, hop, c, Follow(engine, Begin(log), acts));
      FollowConcat(engine, Begin(log), acts, moved);
      FramesConcat(acts, moved);
      Associative(acts, moved, HopsFrom(engine, hop + 1, after));
      acts, out, c := acts + moved, out + frames, after;
      if over { return acts, out, c.log; }
      hop := hop + 1;
    }
    FollowSnoc(engine, Begin(log), acts, Close);
    FramesSnoc(acts, Close);
    acts, out, messages := acts + [Close], out + [Frame(Done, None)], c.log;
  }
}
