/** What every run of the activation protocol keeps. */
module ActivationInvariants {

  import opened Basics
  import opened RatePatch
  import opened Activation

  predicate Waits(q: Queue, id: TaskId) { id in q.tasks && q.tasks[id].status == Waiting }

  /** A slot holds a waiting task of its own domain and time. */
  predicate SlotOk(q: Queue, d: string)
    requires d in q.slots
  {
    var slot := q.slots[d];
    Waits(q, slot.task) && q.tasks[slot.task].domain == d && q.tasks[slot.task].effectiveAt == slot.effectiveAt
  }

  /** A waiting task holds the slot of its domain and has its proposal in the matching status. */
  predicate TaskOk(q: Queue, id: TaskId)
    requires id in q.tasks
  {
    var task := q.tasks[id];
    && task.proposal == id.proposal && task.proposal in q.proposals && q.proposals[task.proposal].domain == task.domain
    && (task.status == Waiting ==>
      && task.domain in q.slots && q.slots[task.domain].task == id
      && task.action != Reject
      && q.proposals[task.proposal].status == StatusWhile(task.action))
  }

  predicate InFlight(status: ProposalStatus) { status == Scheduled || status == RollbackScheduled }

  ghost predicate ProposalOk(q: Queue, key: string)
    requires key in q.proposals
  {
    InFlight(q.proposals[key].status) ==> exists id :: Waits(q, id) && q.tasks[id].proposal == key
  }

  predicate PatchOk(task: Task) {
    && NamesTrimmed(task.patch) && TargetOf(task.expectedCurrent, task.patch) == Ok(task.target)
  }

  ghost predicate Inv(q: Queue) {
    && (forall d :: d in q.slots ==> SlotOk(q, d))
    && (forall id :: id in q.tasks ==> TaskOk(q, id))
    && (forall key :: key in q.proposals ==> ProposalOk(q, key))
    && (forall id :: id in q.tasks ==> PatchOk(q.tasks[id]))
  }

  // Scheduling.

  lemma PlanTrimmed(s: State, env: Env, key: string, p: Proposal, r: Request)
    requires EnvOk(s, env) && forall id :: id in s.queue.tasks ==> PatchOk(s.queue.tasks[id])
    ensures PlanFor(s.queue, env, key, p, r).Ok? ==> NamesTrimmed(PlanFor(s.queue, env, key, p, r).value.patch)
  {
    if r.action == Approve {
      if PlanApproval(env, p, r).Ok? { BuiltPatchFits(p.proposed, s.pricing.rates, env.rows); }
    } else if PlanRollback(s.queue, env, key, p).Ok? {
      assert PatchOk(s.queue.tasks[env.applied.value]);
    }
  }

  lemma NoTaskOf(q: Queue, key: string)
    requires Inv(q) && key in q.proposals && !InFlight(q.proposals[key].status)
    ensures forall id :: id in q.tasks && q.tasks[id].proposal == key ==> q.tasks[id].status != Waiting
  {
    forall id | id in q.tasks && q.tasks[id].proposal == key
      ensures q.tasks[id].status != Waiting
    {
      assert TaskOk(q, id);
    }
  }

  /** The queue after a waiting task has been added to it. */
  predicate Enqueued(q: Queue, t: Queue, id: TaskId) {
    && id !in q.tasks && id in t.tasks && t.tasks == q.tasks[id := t.tasks[id]]
    && var task := t.tasks[id];
    && task.status == Waiting && task.proposal == id.proposal && task.action != Reject
    && task.domain !in q.slots && task.domain in t.slots && t.slots == q.slots[task.domain := t.slots[task.domain]]
    && t.slots[task.domain].task == id && t.slots[task.domain].effectiveAt == task.effectiveAt
    && task.proposal in q.proposals && q.proposals[task.proposal].domain == task.domain
    && !InFlight(q.proposals[task.proposal].status)
    && t.proposals == q.proposals[task.proposal := q.proposals[task.proposal].(status := StatusWhile(task.action))]
  }

  predicate Starts(q: Queue, t: Queue, id: TaskId) { Enqueued(q, t, id) && PatchOk(t.tasks[id]) }

  predicate Planned(p: Proposal, r: Request, plan: Plan) {
    r.action != Reject && p.status == plan.from == StatusBefore(r.action) && plan.to == StatusWhile(r.action)
  }

  lemma NewId(q: Queue, key: string, r: Request)
    requires Inv(q) && !KeyTaken(q, key, r.idempotencyKey)
    ensures TaskId(key, r) !in q.tasks
  {
    forall id | id in q.tasks ensures q.tasks[id].proposal == id.proposal { assert TaskOk(q, id); }
  }

  lemma ScheduleEnqueues(s: State, env: Env, key: string, p: Proposal, r: Request, plan: Plan)
    requires key in s.queue.proposals && s.queue.proposals[key] == p && Planned(p, r, plan)
    requires TaskId(key, r) !in s.queue.tasks && Schedule(s, env, key, p, r, plan).Ok?
    ensures var t := Schedule(s, env, key, p, r, plan).value.queue;
      && Enqueued(s.queue, t, TaskId(key, r)) && t.tasks[TaskId(key, r)].patch == plan.patch
      && TargetOf(t.tasks[TaskId(key, r)].expectedCurrent, plan.patch) == Ok(t.tasks[TaskId(key, r)].target)
  {
  }

  lemma StartKeepsSlot(q: Queue, t: Queue, id: TaskId, d: string)
    requires Inv(q) && Starts(q, t, id) && d in t.slots
    ensures SlotOk(t, d)
  {
    if d != t.tasks[id].domain { assert SlotOk(q, d); }
  }

  lemma StartKeepsTask(q: Queue, t: Queue, id: TaskId, i: TaskId)
    requires Inv(q) && Starts(q, t, id) && i in t.tasks
    ensures TaskOk(t, i) && PatchOk(t.tasks[i])
  {
    NoTaskOf(q, t.tasks[id].proposal);
    if i != id { assert TaskOk(q, i) && PatchOk(q.tasks[i]); }
  }

  lemma StartKeepsProposal(q: Queue, t: Queue, id: TaskId, k: string)
    requires Inv(q) && Starts(q, t, id) && k in t.proposals
    ensures ProposalOk(t, k)
  {
    if k == t.tasks[id].proposal { assert Waits(t, id); } else { KeepWitness(q, t, k); }
  }

  lemma StartKeepsInv(q: Queue, t: Queue, id: TaskId)
    requires Inv(q) && Starts(q, t, id)
    ensures Inv(t)
  {
    forall d | d in t.slots ensures SlotOk(t, d) { StartKeepsSlot(q, t, id, d); }
    forall i | i in t.tasks ensures TaskOk(t, i) && PatchOk(t.tasks[i]) { StartKeepsTask(q, t, id, i); }
    forall k | k in t.proposals ensures ProposalOk(t, k) { StartKeepsProposal(q, t, id, k); }
  }

  lemma KeepWitness(q: Queue, t: Queue, key: string)
    requires key in q.proposals && ProposalOk(q, key) && key in t.proposals
    requires t.proposals[key].status == q.proposals[key].status
    requires forall id :: Waits(q, id) && q.tasks[id].proposal == key ==> Waits(t, id) && t.tasks[id].proposal == key
    ensures ProposalOk(t, key)
  {
    if InFlight(t.proposals[key].status) {
      var id :| Waits(q, id) && q.tasks[id].proposal == key;
      assert Waits(t, id);
    }
  }

  /** A decision repeats, rejects, or schedules. */
  lemma DecideCases(s: State, env: Env, key: string, r: Request)
    requires Decide(s, env, key, r).Ok? && Decide(s, env, key, r).value != s
    ensures key in s.queue.proposals && s.queue.proposals[key].status == r.expectedStatus
    ensures r.action == Reject ==>
      var p, t := s.queue.proposals[key], Decide(s, env, key, r).value;
      p.status == Pending && t.pricing == s.pricing
      && t.queue == s.queue.(proposals := s.queue.proposals[key := p.(status := Rejected)])
    ensures r.action != Reject ==>
      var p, plan := s.queue.proposals[key], PlanFor(s.queue, env, key, s.queue.proposals[key], r);
      && plan.Ok? && Decide(s, env, key, r) == Schedule(s, env, key, p, r, plan.value)
      && p.status == plan.value.from == StatusBefore(r.action) && plan.value.to == StatusWhile(r.action)
  {
  }

  lemma DecideKeepsInv(s: State, env: Env, key: string, r: Request)
    requires Inv(s.queue) && EnvOk(s, env) && Decide(s, env, key, r).Ok?
    ensures Inv(Decide(s, env, key, r).value.queue)
  {
    var t := Decide(s, env, key, r).value;
    if t != s {
      DecideCases(s, env, key, r);
      var p := s.queue.proposals[key];
      if r.action == Reject {
        SameTasks(s.queue, t.queue, key);
      } else {
        PlanTrimmed(s, env, key, p, r);
        ScheduledKeepsInv(s, env, key, p, r, PlanFor(s.queue, env, key, p, r).value);
      }
    }
  }

  lemma ScheduledKeepsInv(s: State, env: Env, key: string, p: Proposal, r: Request, plan: Plan)
    requires Inv(s.queue) && key in s.queue.proposals && s.queue.proposals[key] == p && Planned(p, r, plan)
    requires Schedule(s, env, key, p, r, plan).Ok? && NamesTrimmed(plan.patch)
    ensures Inv(Schedule(s, env, key, p, r, plan).value.queue)
  {
    NewId(s.queue, key, r);
    ScheduleEnqueues(s, env, key, p, r, plan);
    StartKeepsInv(s.queue, Schedule(s, env, key, p, r, plan).value.queue, TaskId(key, r));
  }

  /** Changing the status of a proposal that is and stays out of flight disturbs nothing. */
  lemma SameTasks(q: Queue, t: Queue, key: string)
    requires Inv(q) && key in q.proposals && !InFlight(q.proposals[key].status)
    requires t.tasks == q.tasks && t.slots == q.slots && key in t.proposals && !InFlight(t.proposals[key].status)
    requires t.proposals == q.proposals[key := t.proposals[key]] && t.proposals[key].domain == q.proposals[key].domain
    ensures Inv(t)
  {
    NoTaskOf(q, key);
    forall d | d in t.slots ensures SlotOk(t, d) { assert SlotOk(q, d); }
    forall id | id in t.tasks
      ensures TaskOk(t, id) && PatchOk(t.tasks[id])
    {
      assert TaskOk(q, id) && PatchOk(q.tasks[id]);
    }
    forall k | k in t.proposals ensures ProposalOk(t, k) { if k != key { KeepWitness(q, t, k); } }
  }

  // Ending a task.

  /** Everything a waiting task'q end may touch. */
  ghost predicate Ends(q: Queue, t: Queue, id: TaskId)
    requires id in q.tasks
  {
    var key := q.tasks[id].proposal;
    && id in t.tasks && t.tasks == q.tasks[id := t.tasks[id]] && t.tasks[id].status != Waiting
    && t.tasks[id].proposal == key && t.tasks[id].domain == q.tasks[id].domain && PatchOk(t.tasks[id])
    && t.slots == WithoutSlotOf(q.slots, id)
    && key in q.proposals && key in t.proposals && t.proposals == q.proposals[key := t.proposals[key]]
    && !InFlight(t.proposals[key].status) && t.proposals[key].domain == q.proposals[key].domain
  }

  lemma OneTaskPerProposal(q: Queue, a: TaskId, b: TaskId)
    requires Inv(q) && Waits(q, a) && Waits(q, b) && q.tasks[a].proposal == q.tasks[b].proposal
    ensures a == b
  {
    assert TaskOk(q, a) && TaskOk(q, b);
  }

  lemma EndKeepsSlot(q: Queue, t: Queue, id: TaskId, d: string)
    requires Inv(q) && Waits(q, id) && Ends(q, t, id) && d in t.slots
    ensures SlotOk(t, d)
  {
    assert SlotOk(q, d);
  }

  lemma EndKeepsTask(q: Queue, t: Queue, id: TaskId, i: TaskId)
    requires Inv(q) && Waits(q, id) && Ends(q, t, id) && i in t.tasks
    ensures TaskOk(t, i) && PatchOk(t.tasks[i])
  {
    assert TaskOk(q, id);
    if i != id {
      assert TaskOk(q, i) && PatchOk(q.tasks[i]);
      if Waits(q, i) && q.tasks[i].proposal == q.tasks[id].proposal { OneTaskPerProposal(q, i, id); }
    }
  }

  lemma StillWaits(q: Queue, t: Queue, id: TaskId, i: TaskId)
    requires Waits(q, id) && Ends(q, t, id) && Waits(q, i) && q.tasks[i].proposal != q.tasks[id].proposal
    ensures Waits(t, i) && t.tasks[i].proposal == q.tasks[i].proposal
  {
  }

  lemma EndKeepsProposal(q: Queue, t: Queue, id: TaskId, k: string)
    requires Inv(q) && Waits(q, id) && Ends(q, t, id) && k in t.proposals
    ensures ProposalOk(t, k)
  {
    if k != q.tasks[id].proposal && InFlight(t.proposals[k].status) {
      assert k in q.proposals && ProposalOk(q, k);
      var i :| Waits(q, i) && q.tasks[i].proposal == k;
      StillWaits(q, t, id, i);
    }
  }

  lemma EndKeepsInv(q: Queue, t: Queue, id: TaskId)
    requires Inv(q) && Waits(q, id) && Ends(q, t, id)
    ensures Inv(t)
  {
    forall d | d in t.slots ensures SlotOk(t, d) { EndKeepsSlot(q, t, id, d); }
    forall i | i in t.tasks ensures TaskOk(t, i) && PatchOk(t.tasks[i]) { EndKeepsTask(q, t, id, i); }
    forall k | k in t.proposals ensures ProposalOk(t, k) { EndKeepsProposal(q, t, id, k); }
  }

  lemma CancelKeepsInv(q: Queue, id: TaskId)
    requires Inv(q) && Cancel(q, id).Ok?
    ensures Inv(Cancel(q, id).value)
  {
    if q.tasks[id].status == Waiting {
      assert TaskOk(q, id) && PatchOk(q.tasks[id]);
      EndKeepsInv(q, Cancel(q, id).value, id);
    }
  }

  lemma MarkConflictEnds(q: Queue, id: TaskId)
    requires Waits(q, id) && TaskOk(q, id) && PatchOk(q.tasks[id])
    ensures Ends(q, MarkConflict(q, id), id)
  {
  }

  lemma MarkConflictKeepsInv(q: Queue, id: TaskId)
    requires Inv(q) && Waits(q, id)
    ensures Inv(MarkConflict(q, id))
  {
    assert TaskOk(q, id) && PatchOk(q.tasks[id]);
    MarkConflictEnds(q, id);
    EndKeepsInv(q, MarkConflict(q, id), id);
  }

  lemma SettleEnds(q: Queue, id: TaskId, version: int)
    requires Waits(q, id) && TaskOk(q, id) && PatchOk(q.tasks[id]) && Settle(q, id, version).Ok?
    ensures Ends(q, Settle(q, id, version).value, id)
  {
  }

  lemma CommitKeepsInv(s: State, id: TaskId)
    requires Inv(s.queue) && Waits(s.queue, id) && Commit(s, id).Ok?
    ensures Inv(Commit(s, id).value.queue)
  {
    var q := s.queue;
    var version := Latest(Repriced(s.pricing, q.tasks[id]), q.tasks[id].domain);
    assert TaskOk(q, id) && PatchOk(q.tasks[id]);
    SettleEnds(q, id, version);
    EndKeepsInv(q, Settle(q, id, version).value, id);
  }

  /** The worker leaves all as it is, marks a conflict, or commits. */
  lemma ApplyCases(s: State, env: Env)
    requires env.due.Some? && env.due.value in s.queue.slots && s.queue.slots[env.due.value].task in s.queue.tasks
    ensures var t, id := Apply(s, env).0, s.queue.slots[env.due.value].task;
      t == s || t == s.(queue := MarkConflict(s.queue, id)) || (Commit(s, id).Ok? && t == Commit(s, id).value)
  {
  }

  lemma ApplyKeepsInv(s: State, env: Env)
    requires Inv(s.queue) && EnvOk(s, env)
    ensures Inv(Apply(s, env).0.queue)
  {
    if env.due.Some? {
      var id := s.queue.slots[env.due.value].task;
      assert SlotOk(s.queue, env.due.value);
      ApplyCases(s, env);
      MarkConflictKeepsInv(s.queue, id);
      if Commit(s, id).Ok? { CommitKeepsInv(s, id); }
    }
  }

  lemma ProposeKeepsInv(q: Queue, key: string, p: Proposal)
    requires Inv(q) && Propose(q, key, p).Ok?
    ensures Inv(Propose(q, key, p).value)
  {
    var t := Propose(q, key, p).value;
    forall d | d in t.slots ensures SlotOk(t, d) { assert SlotOk(q, d); }
    forall id | id in t.tasks
      ensures TaskOk(t, id) && PatchOk(t.tasks[id])
    {
      assert TaskOk(q, id) && PatchOk(q.tasks[id]);
    }
    forall k | k in t.proposals ensures ProposalOk(t, k) { if k != key { KeepWitness(q, t, k); } }
  }

  /** Only decisions, cancellations, runs of the worker and new proposals touch the queue. */
  lemma StepKeepsInv(s: State, step: Step)
    requires Inv(s.queue) && Truthful(s, step)
    ensures Inv(Do(s, step).queue)
  {
    match step
    case DoDecide(env, key, r) => if Decide(s, env, key, r).Ok? { DecideKeepsInv(s, env, key, r); }
    case DoCancel(id) => if Cancel(s.queue, id).Ok? { CancelKeepsInv(s.queue, id); }
    case DoApply(env) => ApplyKeepsInv(s, env);
    case DoPropose(key, p) => if Propose(s.queue, key, p).Ok? { ProposeKeepsInv(s.queue, key, p); }
    case _ =>
  }

  lemma {:induction false} RunKeepsInv(steps: seq<Step>)
    requires Legal(steps)
    ensures Inv(After(steps).queue)
    decreases |steps|
  {
    if steps != [] {
      var n := |steps| - 1;
      RunKeepsInv(steps[..n]);
      StepKeepsInv(After(steps[..n]), steps[n]);
    }
  }
}
