/** The wake-up of one hour: producers change facts and mark the hour in one transaction; a worker
    notes the mark's generation, reads facts, publishes, and deletes the mark only if its generation
    is still the noted one. A worker may fail or crash after any of its steps. */
module DirtyQueue {

  import opened Basics

  /** Noted: the mark has been read; Reading: facts have been read; Published: the publication is in. */
  datatype Phase =
    | Noted(generation: int)
    | Reading(generation: int, facts: int)
    | Published(generation: int, facts: int)

  /** facts: the number of fact and mapping changes committed; mark: the dirty row's generation;
      published: the facts behind the last publication. */
  datatype State = State(facts: int, mark: Option<int>, published: int, workers: map<int, Phase>)

  datatype Step =
    | Change
    | Wake
    | Note(worker: int)
    | Read(worker: int)
    | Commit(worker: int)
    | CompareAndDelete(worker: int)
    | Fail(worker: int) // at any point, also between publication and delete

  const INITIAL := State(0, None, 0, map[])

  /** Inserts generation 1, or raises the generation of the row that is there. */
  function Upserted(mark: Option<int>): Option<int> { Some(if mark.None? then 1 else mark.value + 1) }

  function Do(limit: nat, s: State, step: Step): Option<State> {
    match step
    case Change => Some(s.(facts := s.facts + 1, mark := Upserted(s.mark)))
    case Wake => Some(s.(mark := Upserted(s.mark)))
    case Note(w) =>
      if w !in s.workers && |s.workers| < limit && s.mark.Some?
        then Some(s.(workers := s.workers[w := Noted(s.mark.value)])) else None
    case Read(w) =>
      if w in s.workers && s.workers[w].Noted?
        then Some(s.(workers := s.workers[w := Reading(s.workers[w].generation, s.facts)])) else None
    case Commit(w) =>
      if w in s.workers && s.workers[w].Reading? then
        Some(s.(published := s.workers[w].facts,
          workers := s.workers[w := Published(s.workers[w].generation, s.workers[w].facts)]))
      else None
    case CompareAndDelete(w) =>
      if w in s.workers && s.workers[w].Published? then
        Some(s.(mark := if s.mark == Some(s.workers[w].generation) then None else s.mark, workers := s.workers - {w}))
      else None
    case Fail(w) => if w in s.workers then Some(s.(workers := s.workers - {w})) else None
  }

  /** The state after a run with at most `limit` workers at a time. */
  function Run(limit: nat, steps: seq<Step>): Option<State> {
    if steps == [] then Some(INITIAL)
    else
      var before := Run(limit, steps[..|steps| - 1]);
      if before.None? then None else Do(limit, before.value, steps[|steps| - 1])
  }

  /** The changes and wake-ups since the mark was last deleted. */
  ghost function WakesSince(limit: nat, steps: seq<Step>): nat
    requires Run(limit, steps).Some?
  {
    if steps == [] then 0
    else
      var before := WakesSince(limit, steps[..|steps| - 1]);
      match steps[|steps| - 1]
      case Change => before + 1
      case Wake => before + 1
      case CompareAndDelete(_) => if Run(limit, steps).value.mark.None? then 0 else before
      case _ => before
  }

  /** A generation counts the wake-ups it stands for. */
  lemma {:induction false} GenerationCountsWakes(limit: nat, steps: seq<Step>)
    requires Run(limit, steps).Some?
    ensures Run(limit, steps).value.mark ==
      if WakesSince(limit, steps) == 0 then None else Some(WakesSince(limit, steps))
    decreases |steps|
  {
    if steps != [] { GenerationCountsWakes(limit, steps[..|steps| - 1]); }
  }

  /** A change that is not in the last publication still has its mark. */
  predicate NothingLost(s: State) { s.mark.None? ==> s.published == s.facts }

  ghost predicate NeverLoses(limit: nat) {
    forall steps :: Run(limit, steps).Some? ==> NothingLost(Run(limit, steps).value)
  }

  predicate WorkerOk(s: State, w: int)
    requires w in s.workers
  {
    && s.mark.Some? && s.workers[w].generation <= s.mark.value
    && (!s.workers[w].Noted? && s.workers[w].generation == s.mark.value ==> s.workers[w].facts == s.facts)
    && (s.workers[w].Published? ==> s.workers[w].facts == s.published)
  }

  predicate Inv(s: State) { NothingLost(s) && |s.workers| <= 1 && forall w :: w in s.workers ==> WorkerOk(s, w) }

  lemma TwoMembers(keys: set<int>, a: int, b: int)
    requires a in keys && b in keys && a != b
    ensures |keys| >= 2
  {
    assert |keys - {a}| == |keys| - 1;
    assert b in keys - {a};
  }

  lemma OnlyWorker(workers: map<int, Phase>, a: int, b: int)
    requires |workers| <= 1 && a in workers && b in workers
    ensures a == b
  {
    if a != b { TwoMembers(workers.Keys, a, b); }
  }

  lemma WorkersAfter(limit: nat, s: State, step: Step)
    requires limit <= 1 && Inv(s) && Do(limit, s, step).Some?
    ensures |Do(limit, s, step).value.workers| <= 1
  {
    var t := Do(limit, s, step).value;
    if step.Note? || step.Read? || step.Commit? || step.CompareAndDelete? || step.Fail? {
      assert t.workers.Keys == s.workers.Keys + {step.worker} || t.workers.Keys == s.workers.Keys - {step.worker};
    }
  }

  lemma StepKeepsInv(limit: nat, s: State, step: Step)
    requires limit <= 1 && Inv(s) && Do(limit, s, step).Some?
    ensures Inv(Do(limit, s, step).value)
  {
    var t := Do(limit, s, step).value;
    WorkersAfter(limit, s, step);
    forall v | v in t.workers ensures WorkerOk(t, v) {
      if v in s.workers { assert WorkerOk(s, v); }
      if step.Read? || step.Commit? || step.CompareAndDelete? || step.Fail? { OnlyWorker(s.workers, v, step.worker); }
    }
    if step.CompareAndDelete? { assert WorkerOk(s, step.worker); }
    if step.Commit? { assert WorkerOk(s, step.worker); }
  }

  lemma {:induction false} RunKeepsInv(limit: nat, steps: seq<Step>)
    requires limit <= 1 && Run(limit, steps).Some?
    ensures Inv(Run(limit, steps).value)
    decreases |steps|
  {
    if steps != [] {
      RunKeepsInv(limit, steps[..|steps| - 1]);
      StepKeepsInv(limit, Run(limit, steps[..|steps| - 1]).value, steps[|steps| - 1]);
    }
  }

  lemma Then(limit: nat, steps: seq<Step>, s: State, step: Step, t: State)
    requires Run(limit, steps) == Some(s) && Do(limit, s, step) == Some(t)
    ensures Run(limit, steps + [step]) == Some(t)
  {
    assert (steps + [step])[..|steps|] == steps;
  }

  /** Generations restart at 1 after a delete, so a second worker can delete a mark it never saw:
      both note generation 1 and publish, the first deletes, a change marks generation 1 again. */
  lemma TwoWorkersLose(limit: nat)
    requires limit >= 2
    ensures !NeverLoses(limit)
  {
    var steps := BothPublish(limit);
    var s := Race(1, map[1 := Published(1, 1), 2 := Published(1, 1)]);
    var last := map[2 := Published(1, 1)];
    assert s.workers - {1} == last && last - {2} == map[];
    Then(limit, steps, s, CompareAndDelete(1), State(1, None, 1, last));
    Then(limit, steps + [CompareAndDelete(1)], State(1, None, 1, last), Change, State(2, Some(1), 1, last));
    var all := steps + [CompareAndDelete(1)] + [Change];
    Then(limit, all, State(2, Some(1), 1, last), CompareAndDelete(2), State(2, None, 1, map[]));
    assert !NothingLost(Run(limit, all + [CompareAndDelete(2)]).value);
  }

  /** One change, marked with generation 1. */
  function Race(published: int, workers: map<int, Phase>): State { State(1, Some(1), published, workers) }

  lemma FirstPublishes(limit: nat) returns (steps: seq<Step>)
    requires limit >= 2
    ensures Run(limit, steps) == Some(Race(1, map[1 := Published(1, 1)]))
  {
    steps := [];
    Then(limit, steps, INITIAL, Change, Race(0, map[]));
    steps := steps + [Change];
    Then(limit, steps, Race(0, map[]), Note(1), Race(0, map[1 := Noted(1)]));
    steps := steps + [Note(1)];
    assert map[1 := Noted(1)][1 := Reading(1, 1)] == map[1 := Reading(1, 1)];
    Then(limit, steps, Race(0, map[1 := Noted(1)]), Read(1), Race(0, map[1 := Reading(1, 1)]));
    steps := steps + [Read(1)];
    assert map[1 := Reading(1, 1)][1 := Published(1, 1)] == map[1 := Published(1, 1)];
    Then(limit, steps, Race(0, map[1 := Reading(1, 1)]), Commit(1), Race(1, map[1 := Published(1, 1)]));
    steps := steps + [Commit(1)];
  }

  lemma BothPublish(limit: nat) returns (steps: seq<Step>)
    requires limit >= 2
    ensures Run(limit, steps) == Some(Race(1, map[1 := Published(1, 1), 2 := Published(1, 1)]))
  {
    steps := FirstPublishes(limit);
    SecondSteps(limit);
    var one := map[1 := Published(1, 1)];
    Then(limit, steps, Race(1, one), Note(2), Race(1, one[2 := Noted(1)]));
    steps := steps + [Note(2)];
    Then(limit, steps, Race(1, one[2 := Noted(1)]), Read(2), Race(1, one[2 := Reading(1, 1)]));
    steps := steps + [Read(2)];
    Then(limit, steps, Race(1, one[2 := Reading(1, 1)]), Commit(2), Race(1, one[2 := Published(1, 1)]));
    steps := steps + [Commit(2)];
    assert one[2 := Published(1, 1)] == map[1 := Published(1, 1), 2 := Published(1, 1)];
  }

  lemma SecondSteps(limit: nat)
    requires limit >= 2
    ensures var one := map[1 := Published(1, 1)];
      && Do(limit, Race(1, one), Note(2)) == Some(Race(1, one[2 := Noted(1)]))
      && Do(limit, Race(1, one[2 := Noted(1)]), Read(2)) == Some(Race(1, one[2 := Reading(1, 1)]))
      && Do(limit, Race(1, one[2 := Reading(1, 1)]), Commit(2)) == Some(Race(1, one[2 := Published(1, 1)]))
  {
    var one := map[1 := Published(1, 1)];
    assert |one| == 1;
    assert one[2 := Noted(1)][2 := Reading(1, 1)] == one[2 := Reading(1, 1)];
    assert one[2 := Reading(1, 1)][2 := Published(1, 1)] == one[2 := Published(1, 1)];
  }

  /** No wake-up is lost, in any interleaving, exactly when at most one worker serves the hour. */
  lemma NeverLosesIff(limit: nat)
    ensures NeverLoses(limit) <==> limit <= 1
  {
    if limit <= 1 {
      forall steps | Run(limit, steps).Some? ensures NothingLost(Run(limit, steps).value) { RunKeepsInv(limit, steps); }
    } else {
      TwoWorkersLose(limit);
    }
  }

  function DoAll(limit: nat, s: State, steps: seq<Step>): Option<State>
    decreases |steps|
  {
    if steps == [] then Some(s)
    else if Do(limit, s, steps[0]).None? then None
    else DoAll(limit, Do(limit, s, steps[0]).value, steps[1..])
  }

  lemma DoFirst(limit: nat, s: State, step: Step, rest: seq<Step>)
    requires Do(limit, s, step).Some?
    ensures DoAll(limit, s, [step] + rest) == DoAll(limit, Do(limit, s, step).value, rest)
  {
    assert ([step] + rest)[1..] == rest;
  }

  /** Undisturbed, one pass of a worker publishes the current facts and clears the mark. */
  lemma OnePassCatchesUp(limit: nat, s: State, w: int)
    requires limit >= 1 && s.mark.Some? && s.workers == map[]
    ensures DoAll(limit, s, [Note(w), Read(w), Commit(w), CompareAndDelete(w)]) ==
      Some(State(s.facts, None, s.facts, map[]))
  {
    var generation := s.mark.value;
    var a := s.(workers := map[w := Noted(generation)]);
    var b := s.(workers := map[w := Reading(generation, s.facts)]);
    var c := s.(workers := map[w := Published(generation, s.facts)], published := s.facts);
    assert map[w := Noted(generation)][w := Reading(generation, s.facts)] == b.workers;
    assert b.workers[w := Published(generation, s.facts)] == c.workers;
    assert c.workers - {w} == map[];
    assert Do(limit, s, Note(w)) == Some(a) && Do(limit, a, Read(w)) == Some(b) && Do(limit, b, Commit(w)) == Some(c);
    var d := State(s.facts, None, s.facts, map[]);
    assert Do(limit, c, CompareAndDelete(w)) == Some(d);
    DoFirst(limit, c, CompareAndDelete(w), []);
    DoFirst(limit, b, Commit(w), [CompareAndDelete(w)]);
    DoFirst(limit, a, Read(w), [Commit(w), CompareAndDelete(w)]);
    DoFirst(limit, s, Note(w), [Read(w), Commit(w), CompareAndDelete(w)]);
    assert [Note(w)] + [Read(w), Commit(w), CompareAndDelete(w)] == [Note(w), Read(w), Commit(w), CompareAndDelete(w)];
    assert [Read(w)] + [Commit(w), CompareAndDelete(w)] == [Read(w), Commit(w), CompareAndDelete(w)];
    assert [Commit(w)] + [CompareAndDelete(w)] == [Commit(w), CompareAndDelete(w)];
    assert [CompareAndDelete(w)] + [] == [CompareAndDelete(w)];
  }
}
