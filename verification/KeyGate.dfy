/** Ref-counted gates, one per cache key in use: a caller registers under a mutex, waits for the
    one-slot channel or gives up, and the last one to leave removes the gate. Every step below is
    one atomic action of one caller; a run interleaves any number of callers in any way. */
module KeyGate {

  import opened Basics

  type Key = string

  /** full: the one-slot channel holds a token. */
  datatype Gate = Gate(refs: int, full: bool)

  datatype At = Waiting | Holding | Drained | GaveUp

  /** A caller keeps the gate object it registered with, as the closures of the source do. */
  datatype Caller = Caller(key: Key, gate: nat, at: At)

  /** heap: every gate object ever made; gates: the group's map. */
  datatype State = State(gates: map<Key, nat>, heap: map<nat, Gate>, callers: map<nat, Caller>)

  datatype Step =
    | Register(id: nat, key: Key, made: nat)
    | Take(id: nat)
    | GiveUp(id: nat)
    | Drain(id: nat)
    | ReleaseRef(id: nat)

  predicate Enabled(s: State, step: Step) {
    match step
    case Register(id, key, made) => id !in s.callers && made !in s.heap && (key in s.gates ==> s.gates[key] in s.heap)
    case Take(id) => Stands(s, id, Waiting) && !s.heap[s.callers[id].gate].full
    case GiveUp(id) => Stands(s, id, Waiting)
    case Drain(id) => Stands(s, id, Holding) && s.heap[s.callers[id].gate].full
    case ReleaseRef(id) => Stands(s, id, Drained) || Stands(s, id, GaveUp)
  }

  predicate Stands(s: State, id: nat, at: At) {
    id in s.callers && s.callers[id].gate in s.heap && s.callers[id].at == at
  }

  function Moved(s: State, id: nat, at: At): State
    requires id in s.callers
  {
    s.(callers := s.callers[id := s.callers[id].(at := at)])
  }

  function Do(s: State, step: Step): State
    requires Enabled(s, step)
  {
    match step
    case Register(id, key, made) =>
      if key in s.gates then
        var gate := s.gates[key];
        s.(heap := s.heap[gate := s.heap[gate].(refs := s.heap[gate].refs + 1)],
           callers := s.callers[id := Caller(key, gate, Waiting)])
      else
        s.(heap := s.heap[made := Gate(1, false)], gates := s.gates[key := made],
           callers := s.callers[id := Caller(key, made, Waiting)])
    case Take(id) =>
      var gate := s.callers[id].gate;
      Moved(s, id, Holding).(heap := s.heap[gate := s.heap[gate].(full := true)])
    case GiveUp(id) => Moved(s, id, GaveUp)
    case Drain(id) =>
      var gate := s.callers[id].gate;
      Moved(s, id, Drained).(heap := s.heap[gate := s.heap[gate].(full := false)])
    case ReleaseRef(id) =>
      var caller := s.callers[id];
      var refs := s.heap[caller.gate].refs - 1;
      State(if refs == 0 && caller.key in s.gates && s.gates[caller.key] == caller.gate then s.gates - {caller.key}
          else s.gates,
            s.heap[caller.gate := s.heap[caller.gate].(refs := refs)],
            s.callers - {id})
  }

  /** The state a run leads to from the empty group, or None when one of its steps is not enabled. */
  function Run(steps: seq<Step>): Option<State> {
    if steps == [] then Some(State(map[], map[], map[]))
    else
      var before, step := Run(steps[..|steps| - 1]), steps[|steps| - 1];
      if before.Some? && Enabled(before.value, step) then Some(Do(before.value, step)) else None
  }

  ghost predicate Reachable(s: State) { exists steps :: Run(steps) == Some(s) }

  /** The callers between registering for a key and giving the reference back. */
  function Users(s: State, key: Key): set<nat> {
    set id | id in s.callers && s.callers[id].key == key
  }

  function Holders(s: State, key: Key): set<nat> {
    set id | id in s.callers && s.callers[id].key == key && s.callers[id].at == Holding
  }

  // The invariant, one key at a time.

  ghost predicate KeyOk(s: State, key: Key) {
    if key !in s.gates then Users(s, key) == {}
    else
      && s.gates[key] in s.heap
      && s.heap[s.gates[key]].refs == |Users(s, key)| > 0
      && |Holders(s, key)| == (if s.heap[s.gates[key]].full then 1 else 0)
  }

  /** Different keys have different gates, and a caller's gate is the one in the map. */
  ghost predicate Linked(s: State) {
    && (forall key :: key in s.gates ==> s.gates[key] in s.heap)
    && (forall j, k :: j in s.gates && k in s.gates && s.gates[j] == s.gates[k] ==> j == k)
    && (forall id :: id in s.callers ==> OwnGate(s, id))
  }

  predicate OwnGate(s: State, id: nat)
    requires id in s.callers
  {
    s.callers[id].key in s.gates && s.gates[s.callers[id].key] == s.callers[id].gate
  }

  ghost predicate Inv(s: State) { Linked(s) && forall key :: KeyOk(s, key) }

  lemma Added<T>(a: set<T>, b: set<T>, x: T)
    requires b == a + {x} && x !in a
    ensures |b| == |a| + 1
  {
  }

  lemma RegisterKeepsOther(s: State, step: Step, key: Key)
    requires step.Register? && key != step.key && Linked(s) && KeyOk(s, key) && Enabled(s, step)
    ensures KeyOk(Do(s, step), key)
  {
    var t := Do(s, step);
    assert Users(t, key) == Users(s, key) && Holders(t, key) == Holders(s, key);
  }

  lemma RegisterKeepsOwn(s: State, step: Step)
    requires step.Register? && Linked(s) && KeyOk(s, step.key) && Enabled(s, step)
    ensures KeyOk(Do(s, step), step.key)
  {
    var t, key := Do(s, step), step.key;
    assert t.callers == s.callers[step.id := t.callers[step.id]];
    assert Users(t, key) == Users(s, key) + {step.id};
    assert Holders(t, key) == Holders(s, key);
    if key !in s.gates { assert Holders(s, key) <= Users(s, key); }
  }

  lemma MoveKeepsOther(s: State, step: Step, key: Key)
    requires Linked(s) && KeyOk(s, key) && Enabled(s, step) && (step.Take? || step.GiveUp? || step.Drain?)
    requires s.callers[step.id].key != key
    ensures KeyOk(Do(s, step), key)
  {
    var t := Do(s, step);
    assert Users(t, key) == Users(s, key) && Holders(t, key) == Holders(s, key);
  }

  lemma MovedMembers(callers: map<nat, Caller>, id: nat, at: At)
    requires id in callers
    ensures var t, s, key :=
      State(map[], map[], callers[id := callers[id].(at := at)]), State(map[], map[], callers), callers[id].key;
      && Users(t, key) == Users(s, key)
      && Holders(t, key) == if at == Holding then Holders(s, key) + {id} else Holders(s, key) - {id}
  {
  }

  /** Users and holders depend on the callers alone. */
  lemma MembersOf(s: State, key: Key)
    ensures var only := State(map[], map[], s.callers);
      Users(s, key) == Users(only, key) && Holders(s, key) == Holders(only, key)
  {
  }

  lemma MoveKeepsOwn(s: State, step: Step)
    requires (step.Take? || step.GiveUp? || step.Drain?) && Linked(s) && Enabled(s, step)
    requires KeyOk(s, s.callers[step.id].key)
    ensures KeyOk(Do(s, step), s.callers[step.id].key)
  {
    var t, id := Do(s, step), step.id;
    var key, at := s.callers[id].key, t.callers[id].at;
    MovedMembers(s.callers, id, at);
    assert t.callers == s.callers[id := s.callers[id].(at := at)];
    MembersOf(s, key);
    MembersOf(t, key);
    SizeAfter(Holders(s, key), Holders(t, key), id);
  }

  lemma SizeAfter(before: set<nat>, after: set<nat>, id: nat)
    ensures after == before + {id} ==> |after| == |before| + if id in before then 0 else 1
    ensures after == before - {id} ==> |after| == |before| - if id in before then 1 else 0
  {
    assert id in before ==> before + {id} == before;
    assert id !in before ==> before - {id} == before;
  }

  lemma ReleaseKeepsKey(s: State, step: Step, key: Key)
    requires Linked(s) && KeyOk(s, key) && Enabled(s, step) && step.ReleaseRef?
    ensures KeyOk(Do(s, step), key)
  {
    var t, mine := Do(s, step), s.callers[step.id].key;
    assert Holders(t, key) == Holders(s, key);
    if key == mine {
      Added(Users(t, key), Users(s, key), step.id);
    } else {
      assert Users(t, key) == Users(s, key);
    }
  }

  lemma StepKeepsInv(s: State, step: Step)
    requires Inv(s) && Enabled(s, step)
    ensures Inv(Do(s, step))
  {
    forall key ensures KeyOk(Do(s, step), key) {
      match step
      case Register(_, _, _) =>
        if key == step.key { RegisterKeepsOwn(s, step); } else { RegisterKeepsOther(s, step, key); }
      case Take(_) | GiveUp(_) | Drain(_) =>
        if key == s.callers[step.id].key { MoveKeepsOwn(s, step); } else { MoveKeepsOther(s, step, key); }
      case ReleaseRef(_) => ReleaseKeepsKey(s, step, key);
    }
    if step.ReleaseRef? { ReleaseKeepsOwners(s, step); }
    else if step.Register? { assert KeyOk(s, step.key); }
  }

  lemma ReleaseKeepsOwners(s: State, step: Step)
    requires Inv(s) && Enabled(s, step) && step.ReleaseRef?
    ensures var t := Do(s, step);
      forall id :: id in t.callers ==> t.callers[id].key in t.gates && t.gates[t.callers[id].key] == t.callers[id].gate
  {
    var t, mine := Do(s, step), s.callers[step.id].key;
    ReleaseKeepsKey(s, step, mine);
    forall id | id in t.callers ensures t.callers[id].key in t.gates {
      if t.callers[id].key == mine { assert id in Users(t, mine); }
    }
  }

  lemma {:induction false} RunInv(steps: seq<Step>)
    requires Run(steps).Some?
    ensures Inv(Run(steps).value)
    decreases |steps|
  {
    if steps != [] {
      RunInv(steps[..|steps| - 1]);
      StepKeepsInv(Run(steps[..|steps| - 1]).value, steps[|steps| - 1]);
    }
  }

  lemma ReachableInv(s: State)
    requires Reachable(s)
    ensures Inv(s)
  {
    var steps :| Run(steps) == Some(s);
    RunInv(steps);
  }

  /** At most one caller is inside per key, whatever the interleaving. */
  lemma MutualExclusion(s: State, a: nat, b: nat)
    requires Reachable(s) && Stands(s, a, Holding) && Stands(s, b, Holding) && s.callers[a].key == s.callers[b].key
    ensures a == b
  {
    ReachableInv(s);
    var key := s.callers[a].key;
    assert KeyOk(s, key);
    if a != b {
      assert {a, b} <= Holders(s, key);
      SubsetSize({a, b}, Holders(s, key));
    }
  }

  /** A gate is in the map exactly while somebody uses its key, with that many references; so the
      map cannot grow beyond the keys in use. */
  lemma MapHoldsKeysInUse(s: State, key: Key)
    requires Reachable(s)
    ensures key in s.gates <==> Users(s, key) != {}
    ensures key in s.gates ==> s.gates[key] in s.heap && s.heap[s.gates[key]].refs == |Users(s, key)|
  {
    ReachableInv(s);
    assert KeyOk(s, key);
  }

  /** The guard of the removal never fails: a caller always finds its own gate in the map. */
  lemma OwnGateInMap(s: State, id: nat)
    requires Reachable(s) && id in s.callers
    ensures s.callers[id].key in s.gates && s.gates[s.callers[id].key] == s.callers[id].gate
    ensures s.callers[id].gate in s.heap && s.heap[s.callers[id].gate].refs > 0
  {
    ReachableInv(s);
    assert KeyOk(s, s.callers[id].key);
  }

  /** Nobody is stuck: releasing never blocks, and a waiter can enter exactly when no other caller
      of the same key is inside, whatever callers of other keys do. */
  lemma OnlyTheHolderBlocks(s: State, id: nat)
    requires Reachable(s) && id in s.callers
    ensures s.callers[id].at == Holding ==> Enabled(s, Drain(id))
    ensures s.callers[id].at == Waiting ==> (Enabled(s, Take(id)) <==> Holders(s, s.callers[id].key) == {})
    ensures s.callers[id].at.Drained? || s.callers[id].at.GaveUp? ==> Enabled(s, ReleaseRef(id))
  {
    ReachableInv(s);
    var key := s.callers[id].key;
    assert KeyOk(s, key);
    if s.callers[id].at == Holding { assert id in Holders(s, key); }
  }
}
