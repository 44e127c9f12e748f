/** In what order the steps of the usage cache come: nobody leaves the gate without an answer, a
    deletion marks its key before it waits for the gate, and it leaves the local tier empty. */
module CacheOrder {

  import opened Basics
  import opened UsageCacheProtocol

  // Answers.

  /** Since the gate was last taken, a fresh local record or a remote one was handed out, or the source
      was asked or failed. */
  ghost predicate Answered(p: Params, steps: seq<Step>)
    requires Run(p, steps).Some?
  {
    steps != [] &&
    var before, step := steps[..|steps| - 1], steps[|steps| - 1];
    match step
    case Acquire(_) => false
    case EnterDelete(_) => false
    case RemoteHit => true
    case CallSource(_) => true
    case SourceFails => true
    case CheckLocal => Fresh(Run(p, before).value) || Answered(p, before)
    case _ => Answered(p, before)
  }

  /** Phases before an answer. */
  predicate Looking(phase: Phase) {
    match phase
    case Entered(_) => true
    case LocalMissed => true
    case Unblocked => true
    case Asking => true
    case MustBlock(_, next) => Looking(next)
    case BlockSampled(_, _, next) => Looking(next)
    case _ => false
  }

  ghost predicate AnsweredBy(p: Params, steps: seq<Step>)
    requires Run(p, steps).Some?
  {
    var gate := Run(p, steps).value.gate;
    gate.Some? && gate.value.deadline.None? && !Looking(gate.value.phase) ==> Answered(p, steps)
  }

  lemma OutsideGate(p: Params, s: State, step: Step)
    requires DoOutside(p, s, step).Some?
    ensures var t := DoOutside(p, s, step).value;
      || (t.gate == s.gate && !step.Acquire? && !step.EnterDelete?)
      || (step.Acquire? && t.gate.Some? && t.gate.value.deadline.None? && Looking(t.gate.value.phase))
      || (step.EnterDelete? && t.gate.Some? && t.gate.value.deadline.Some?)
    ensures !step.RemoteHit? && !step.CallSource? && !step.SourceFails? && !step.CheckLocal?
  {
  }

  /** Steps that answer whoever holds the gate. */
  ghost predicate Answers(s: State, step: Step) {
    step.RemoteHit? || step.CallSource? || step.SourceFails? || (step.CheckLocal? && Fresh(s))
  }

  /** A holder stops looking only by being answered. */
  lemma HoldingStopsLooking(p: Params, s: State, step: Step)
    requires s.gate.Some? && DoHolding(p, s, step).Some?
    ensures var t := DoHolding(p, s, step).value;
      t.gate.Some? && !Looking(t.gate.value.phase) && Looking(s.gate.value.phase) ==> Answers(s, step)
  {
    if s.gate.value.phase.MustBlock? || s.gate.value.phase.BlockSampled? {
      assert step.SampleBlock? || step.PutBlock?;
    } else {
      assert Looking(MustBlock(s.now + BYPASS, Asking)) by { assert Looking(Asking); }
    }
  }

  /** The holder stays who he is. */
  lemma HoldingKeepsHolder(p: Params, s: State, step: Step)
    requires s.gate.Some? && DoHolding(p, s, step).Some?
    ensures !step.Acquire? && !step.EnterDelete?
    ensures var t := DoHolding(p, s, step).value;
      t.gate.Some? ==> t.gate.value.deadline == s.gate.value.deadline
  {
  }

  lemma {:induction false} LeftIsAnswered(p: Params, steps: seq<Step>)
    requires Run(p, steps).Some?
    ensures AnsweredBy(p, steps)
    decreases |steps|
  {
    if steps != [] {
      var before, step := steps[..|steps| - 1], steps[|steps| - 1];
      LeftIsAnswered(p, before);
      var s := Run(p, before).value;
      if DoOutside(p, s, step).Some? {
        OutsideGate(p, s, step);
      } else {
        HoldingStopsLooking(p, s, step);
        HoldingKeepsHolder(p, s, step);
      }
    }
  }

  /** Whoever leaves the gate, unless to delete, was handed a version or asked the source. */
  lemma NobodyLeavesUnanswered(p: Params, steps: seq<Step>, s: State)
    requires Run(p, steps) == Some(s) && s.gate.Some? && s.gate.value.deadline.None?
    requires Do(p, s, Release).Some?
    ensures Answered(p, steps)
  {
    LeftIsAnswered(p, steps);
  }

  // Deletions.

  /** How far a deletion has come, counted by its own steps: begun, local tier emptied, clock read,
      mark set. */
  ghost function Stage(steps: seq<Step>, id: int): nat {
    if steps == [] then 0
    else
      var before := Stage(steps[..|steps| - 1], id);
      match steps[|steps| - 1]
      case StartDelete(i) => if i == id then 1 else before
      case DeleteLocal(i) => if i == id then before + 1 else before
      case SampleDeleteMark(i) => if i == id then before + 1 else before
      case PutDeleteMark(i) => if i == id then before + 1 else before
      case CancelDelete(i) => if i == id then 0 else before
      case EnterDelete(i) => if i == id then 0 else before
      case _ => before
  }

  function StageOf(phase: DeletePhase): nat {
    match phase
    case Started => 1
    case LocalGone => 2
    case MarkSampled(_) => 3
    case Waiting => 4
  }

  ghost predicate InStage(s: State, steps: seq<Step>, id: int) {
    Stage(steps, id) == if id in s.deletions then StageOf(s.deletions[id].phase) else 0
  }

  lemma OutsideStage(p: Params, s: State, step: Step, steps: seq<Step>, id: int)
    requires DoOutside(p, s, step).Some? && InStage(s, steps, id)
    ensures InStage(DoOutside(p, s, step).value, steps + [step], id)
  {
    assert (steps + [step])[..|steps|] == steps;
  }

  predicate Deletes(step: Step) {
    step.StartDelete? || step.DeleteLocal? || step.SampleDeleteMark? || step.PutDeleteMark? || step.CancelDelete?
    || step.EnterDelete?
  }

  lemma HoldingLeavesDeletions(p: Params, s: State, step: Step)
    requires s.gate.Some? && DoHolding(p, s, step).Some?
    ensures DoHolding(p, s, step).value.deletions == s.deletions && !Deletes(step)
  {
  }

  lemma {:induction false} StagesAre(p: Params, steps: seq<Step>, id: int)
    requires Run(p, steps).Some?
    ensures InStage(Run(p, steps).value, steps, id)
    decreases |steps|
  {
    if steps != [] {
      var before, step := steps[..|steps| - 1], steps[|steps| - 1];
      StagesAre(p, before, id);
      var s := Run(p, before).value;
      assert steps == before + [step];
      if DoOutside(p, s, step).Some? { OutsideStage(p, s, step, before, id); }
      else { HoldingLeavesDeletions(p, s, step); }
    }
  }

  lemma DeletesOutside(p: Params, s: State, step: Step)
    requires Deletes(step)
    ensures Do(p, s, step) == DoOutside(p, s, step)
  {
    if s.gate.Some? && DoHolding(p, s, step).Some? { HoldingLeavesDeletions(p, s, step); }
  }

  lemma StageBefore(p: Params, s: State, step: Step, steps: seq<Step>, id: int)
    requires DoOutside(p, s, step).Some? && InStage(s, steps, id)
    ensures StageFits(step, steps, id)
  {
  }

  /** Which stage each step of a deletion needs. */
  ghost predicate StageFits(step: Step, steps: seq<Step>, id: int) {
    match step
    case StartDelete(i) => i == id ==> Stage(steps, id) == 0
    case DeleteLocal(i) => i == id ==> Stage(steps, id) == 1
    case SampleDeleteMark(i) => i == id ==> Stage(steps, id) == 2
    case PutDeleteMark(i) => i == id ==> Stage(steps, id) == 3
    case CancelDelete(i) => i == id ==> Stage(steps, id) == 4
    case EnterDelete(i) => i == id ==> Stage(steps, id) == 4
    case _ => true
  }

  /** In any run a deletion begins once, and waits for the gate, or gives up, only after it emptied
      the local tier, read the clock and set the mark, each once and in this order. */
  lemma MarksBeforeWaiting(p: Params, steps: seq<Step>, step: Step, id: int)
    requires Run(p, steps).Some? && Do(p, Run(p, steps).value, step).Some?
    ensures StageFits(step, steps, id)
  {
    var s := Run(p, steps).value;
    StagesAre(p, steps, id);
    if Deletes(step) {
      DeletesOutside(p, s, step);
      StageBefore(p, s, step, steps, id);
    }
  }

  /** The phases of a deletion at the gate, and what it has done by then. */
  predicate Emptying(phase: Phase) {
    match phase
    case Removing(_, _) => true
    case RemovingRemote(_, _) => true
    case Removed(_) => true
    case Leaving(_) => true
    case MustBlock(_, Leaving(_)) => true
    case BlockSampled(_, _, Leaving(_)) => true
    case _ => false
  }

  predicate DeletesInOrder(s: State) {
    s.gate.Some? && s.gate.value.deadline.Some? ==>
      Emptying(s.gate.value.phase) && (s.gate.value.phase.Removing? || s.local.None?)
  }

  lemma OutsideDeletesInOrder(p: Params, s: State, step: Step)
    requires DeletesInOrder(s) && DoOutside(p, s, step).Some?
    ensures DeletesInOrder(DoOutside(p, s, step).value)
  {
  }

  lemma HoldingDeletesInOrder(p: Params, s: State, step: Step)
    requires DeletesInOrder(s) && s.gate.Some? && s.gate.value.deadline.Some? && DoHolding(p, s, step).Some?
    ensures DeletesInOrder(DoHolding(p, s, step).value)
  {
  }

  /** While a deletion holds the gate nothing is filled, and when it leaves the local tier is empty. */
  lemma {:induction false} DeletionEmptiesLocal(p: Params, steps: seq<Step>)
    requires Run(p, steps).Some?
    ensures DeletesInOrder(Run(p, steps).value)
    decreases |steps|
  {
    if steps != [] {
      DeletionEmptiesLocal(p, steps[..|steps| - 1]);
      var s, step := Run(p, steps[..|steps| - 1]).value, steps[|steps| - 1];
      if DoOutside(p, s, step).Some? {
        OutsideDeletesInOrder(p, s, step);
      } else {
        HoldingKeepsHolder(p, s, step);
        if s.gate.value.deadline.Some? { HoldingDeletesInOrder(p, s, step); }
      }
    }
  }
}
