/** Runs in which, once tasks or versions exist, rates and settings change only through saves and
    activations; recharge repairs may come at any time. There the snapshot checks never strike, and a
    rollback aims at the very snapshot the approval started from. */
module ActivationSettled {

  import opened Basics
  import opened RatePatch
  import opened Activation
  import opened ActivationInvariants
  import opened ActivationTheorems
  import opened ActivationOvertaken

  ghost predicate Settled(steps: seq<Step>) {
    steps == [] ||
    (Settled(steps[..|steps| - 1]) && Quiet(After(steps[..|steps| - 1]), steps[|steps| - 1]))
  }

  predicate Quiet(s: State, step: Step) { step.Drift? ==> s.queue.tasks == map[] && s.pricing.versions == map[] }

  /** The snapshot a task was planned on holds its before-rows, and stands while the task waits. */
  predicate HeldOk(g: Pricing, task: Task) {
    && Holds(task.expectedCurrent.rates, task.patch)
    && (task.status == Waiting ==> Current(g, task.domain) == Ok(task.expectedCurrent))
  }

  /** A done task's version froze its target. */
  predicate DoneOk(g: Pricing, task: Task) {
    task.status == Done ==>
      && 1 <= task.appliedVersion <= Latest(g, task.domain)
      && VersionsOf(g, task.domain)[task.appliedVersion - 1].snapshot == task.target
  }

  /** The latest version is the current snapshot. */
  predicate LastOk(g: Pricing, d: string) {
    var versions := VersionsOf(g, d);
    versions != [] ==> Current(g, d) == Ok(versions[|versions| - 1].snapshot)
  }

  ghost predicate TasksSteady(q: Queue, g: Pricing) {
    forall id :: id in q.tasks ==> HeldOk(g, q.tasks[id]) && DoneOk(g, q.tasks[id])
  }

  ghost predicate Steady(s: State) { TasksSteady(s.queue, s.pricing) && forall d :: LastOk(s.pricing, d) }

  // Planning.

  lemma BuiltPatchHolds(s: State, env: Env, p: Proposal, r: Request, current: Snapshot)
    requires EnvOk(s, env) && PlanApproval(env, p, r).Ok? && Current(s.pricing, p.domain) == Ok(current)
    requires AllIn(PlanApproval(env, p, r).value.patch, current.rates)
    ensures Holds(current.rates, PlanApproval(env, p, r).value.patch)
  {
    BuiltPatchFits(p.proposed, s.pricing.rates, env.rows);
  }

  /** The reverse of an applied patch finds its before-rows in the snapshot the patch produced. */
  lemma ReversedPatchHolds(frozen: map<RateKey, Rate>, patch: seq<Change>)
    requires Target(frozen, patch).Ok?
    ensures Holds(Target(frozen, patch).value, Reverse(patch))
  {
    RewrittenIsExact(frozen, patch);
  }

  /** A rollback that can be planned starts from the original's target. */
  lemma RollbackStartsAtTarget(s: State, env: Env, key: string)
    requires Inv(s.queue) && Steady(s) && key in s.queue.proposals
    requires PlanRollback(s.queue, env, key, s.queue.proposals[key]).Ok?
    requires Latest(s.pricing, s.queue.proposals[key].domain) == s.queue.proposals[key].appliedVersion
    ensures Current(s.pricing, s.queue.proposals[key].domain) == Ok(s.queue.tasks[env.applied.value].target)
  {
    var id := env.applied.value;
    assert TaskOk(s.queue, id) && DoneOk(s.pricing, s.queue.tasks[id]);
    assert LastOk(s.pricing, s.queue.proposals[key].domain);
  }

  lemma PlannedPatchHolds(s: State, env: Env, key: string, r: Request, plan: Plan)
    requires Inv(s.queue) && Steady(s) && EnvOk(s, env) && key in s.queue.proposals
    requires PlanFor(s.queue, env, key, s.queue.proposals[key], r) == Ok(plan)
    requires Schedule(s, env, key, s.queue.proposals[key], r, plan).Ok?
    ensures var current := Current(s.pricing, s.queue.proposals[key].domain);
      current.Ok? && Holds(current.value.rates, plan.patch)
  {
    var p := s.queue.proposals[key];
    if r.action == Approve {
      BuiltPatchHolds(s, env, p, r, Current(s.pricing, p.domain).value);
    } else {
      RollbackStartsAtTarget(s, env, key);
      var original := s.queue.tasks[env.applied.value];
      assert PatchOk(original);
      ReversedPatchHolds(original.expectedCurrent.rates, original.patch);
    }
  }

  // Steps of the queue.

  /** Tasks may only end without being applied. */
  lemma EndingKeepsSteady(q: Queue, t: Queue, g: Pricing)
    requires TasksSteady(q, g) && t.tasks.Keys == q.tasks.Keys
    requires forall id :: id in t.tasks ==>
      || t.tasks[id] == q.tasks[id]
      || (t.tasks[id] == q.tasks[id].(status := t.tasks[id].status) && t.tasks[id].status in {Cancelled, Failed})
    ensures TasksSteady(t, g)
  {
    forall id | id in t.tasks ensures HeldOk(g, t.tasks[id]) && DoneOk(g, t.tasks[id]) {
      assert HeldOk(g, q.tasks[id]) && DoneOk(g, q.tasks[id]);
    }
  }

  lemma ScheduledTask(s: State, env: Env, key: string, p: Proposal, r: Request, plan: Plan)
    requires key in s.queue.proposals && Schedule(s, env, key, p, r, plan).Ok?
    ensures var t, id := Schedule(s, env, key, p, r, plan).value, TaskId(key, r);
      && t.pricing == s.pricing && id in t.queue.tasks && t.queue.tasks == s.queue.tasks[id := t.queue.tasks[id]]
      && var task := t.queue.tasks[id];
      && task.status == Waiting && task.patch == plan.patch && task.domain == p.domain
      && Current(s.pricing, p.domain) == Ok(task.expectedCurrent)
      && TargetOf(task.expectedCurrent, plan.patch) == Ok(task.target)
  {
  }

  lemma StartingKeepsSteady(q: Queue, t: Queue, g: Pricing, id: TaskId)
    requires TasksSteady(q, g) && id in t.tasks && t.tasks == q.tasks[id := t.tasks[id]]
    requires t.tasks[id].status == Waiting && Current(g, t.tasks[id].domain) == Ok(t.tasks[id].expectedCurrent)
    requires Holds(t.tasks[id].expectedCurrent.rates, t.tasks[id].patch)
    ensures TasksSteady(t, g)
  {
    forall i | i in t.tasks ensures HeldOk(g, t.tasks[i]) && DoneOk(g, t.tasks[i]) {
      if i != id { assert HeldOk(g, q.tasks[i]) && DoneOk(g, q.tasks[i]); }
    }
  }

  lemma ScheduleKeepsSteady(s: State, env: Env, key: string, p: Proposal, r: Request, plan: Plan)
    requires TasksSteady(s.queue, s.pricing) && key in s.queue.proposals && Schedule(s, env, key, p, r, plan).Ok?
    requires Current(s.pricing, p.domain).Ok? && Holds(Current(s.pricing, p.domain).value.rates, plan.patch)
    ensures TasksSteady(Schedule(s, env, key, p, r, plan).value.queue, s.pricing)
    ensures Schedule(s, env, key, p, r, plan).value.pricing == s.pricing
  {
    ScheduledTask(s, env, key, p, r, plan);
    StartingKeepsSteady(s.queue, Schedule(s, env, key, p, r, plan).value.queue, s.pricing, TaskId(key, r));
  }

  lemma DecideKeepsSteady(s: State, env: Env, key: string, r: Request)
    requires Inv(s.queue) && Steady(s) && EnvOk(s, env) && Decide(s, env, key, r).Ok?
    ensures Steady(Decide(s, env, key, r).value)
  {
    var t := Decide(s, env, key, r).value;
    if t != s {
      DecideCases(s, env, key, r);
      if r.action != Reject {
        var p := s.queue.proposals[key];
        var plan := PlanFor(s.queue, env, key, p, r).value;
        PlannedPatchHolds(s, env, key, r, plan);
        ScheduleKeepsSteady(s, env, key, p, r, plan);
      }
    }
  }

  lemma CancelKeepsSteady(q: Queue, g: Pricing, id: TaskId)
    requires TasksSteady(q, g) && Cancel(q, id).Ok?
    ensures TasksSteady(Cancel(q, id).value, g)
  {
    EndingKeepsSteady(q, Cancel(q, id).value, g);
  }

  lemma MarkConflictKeepsSteady(q: Queue, g: Pricing, id: TaskId)
    requires TasksSteady(q, g) && id in q.tasks
    ensures TasksSteady(MarkConflict(q, id), g)
  {
    EndingKeepsSteady(q, MarkConflict(q, id), g);
  }

  // Steps of the pricing.

  /** Snapshots and histories of other domains do not see the writes of a task. */
  lemma RepricedLeavesOthers(g: Pricing, task: Task, d: string)
    requires PatchOk(task) && Current(g, task.domain) == Ok(task.expectedCurrent) && d != task.domain
    ensures Current(Repriced(g, task), d) == Current(g, d) && VersionsOf(Repriced(g, task), d) == VersionsOf(g, d)
  {
    assert ChannelsOf(Repriced(g, task), d) == ChannelsOf(g, d);
    WrittenElsewhere(g.rates, ChannelsOf(g, task.domain), ChannelsOf(g, d), task.patch, task.effectiveAt);
  }

  /** Another task is as steady after the writes as before. */
  lemma RepricedKeepsTask(g: Pricing, task: Task, other: Task)
    requires PatchOk(task) && Current(g, task.domain) == Ok(task.expectedCurrent)
    requires HeldOk(g, other) && DoneOk(g, other) && (other.status == Waiting ==> other.domain != task.domain)
    ensures HeldOk(Repriced(g, task), other) && DoneOk(Repriced(g, task), other)
  {
    if other.domain != task.domain { RepricedLeavesOthers(g, task, other.domain); }
  }

  lemma RepricedKeepsLast(g: Pricing, task: Task, d: string)
    requires PatchOk(task) && Current(g, task.domain) == Ok(task.expectedCurrent) && LastOk(g, d)
    requires Current(Repriced(g, task), task.domain) == Ok(task.target)
    ensures LastOk(Repriced(g, task), d)
  {
    if d != task.domain { RepricedLeavesOthers(g, task, d); }
  }

  lemma SettledTask(g: Pricing, task: Task, done: Task)
    requires Holds(task.expectedCurrent.rates, task.patch)
    requires done == task.(status := Done, appliedVersion := Latest(Repriced(g, task), task.domain))
    ensures HeldOk(Repriced(g, task), done) && DoneOk(Repriced(g, task), done)
  {
  }

  lemma CommitKeepsSteady(s: State, id: TaskId)
    requires Inv(s.queue) && Steady(s) && Waits(s.queue, id) && Commit(s, id).Ok?
    ensures Steady(Commit(s, id).value)
  {
    var q, g, task := s.queue, s.pricing, s.queue.tasks[id];
    var t := Commit(s, id).value;
    assert PatchOk(task) && HeldOk(g, task);
    forall i | i in t.queue.tasks ensures HeldOk(t.pricing, t.queue.tasks[i]) && DoneOk(t.pricing, t.queue.tasks[i]) {
      if i == id {
        SettledTask(g, task, t.queue.tasks[id]);
      } else {
        assert HeldOk(g, q.tasks[i]) && DoneOk(g, q.tasks[i]);
        if Waits(q, i) && q.tasks[i].domain == task.domain { OneTaskPerDomain(q, i, id); }
        RepricedKeepsTask(g, task, q.tasks[i]);
      }
    }
    forall d ensures LastOk(t.pricing, d) { RepricedKeepsLast(g, task, d); }
  }

  lemma SavedLeavesOthers(g: Pricing, domain: string, rows: map<RateKey, RateRow>, rest: string, now: int, d: string)
    requires Saved(g, domain, rows, rest, now).Ok? && d != domain
    ensures Current(Saved(g, domain, rows, rest, now).value, d) == Current(g, d)
    ensures VersionsOf(Saved(g, domain, rows, rest, now).value, d) == VersionsOf(g, d)
  {
    assert ChannelsOf(Saved(g, domain, rows, rest, now).value, d) == ChannelsOf(g, d);
    RatesElsewhere(g, domain, rows, d);
  }

  lemma RatesElsewhere(g: Pricing, domain: string, rows: map<RateKey, RateRow>, d: string)
    requires d != domain
    ensures Frozen(SavedRates(g, domain, rows), ChannelsOf(g, d)) == Frozen(g.rates, ChannelsOf(g, d))
  {
  }

  lemma SavedKeepsTask(g: Pricing, domain: string, rows: map<RateKey, RateRow>, rest: string, now: int, task: Task)
    requires Saved(g, domain, rows, rest, now).Ok? && HeldOk(g, task) && DoneOk(g, task)
    requires task.status == Waiting ==> task.domain != domain
    ensures HeldOk(Saved(g, domain, rows, rest, now).value, task)
    ensures DoneOk(Saved(g, domain, rows, rest, now).value, task)
  {
    if task.domain != domain { SavedLeavesOthers(g, domain, rows, rest, now, task.domain); }
  }

  lemma SavedKeepsLast(g: Pricing, domain: string, rows: map<RateKey, RateRow>, rest: string, now: int, d: string)
    requires Saved(g, domain, rows, rest, now).Ok? && LastOk(g, d)
    ensures LastOk(Saved(g, domain, rows, rest, now).value, d)
  {
    var next := Saved(g, domain, rows, rest, now).value;
    if d != domain {
      SavedLeavesOthers(g, domain, rows, rest, now, d);
    } else {
      assert ChannelsOf(next, d) == ChannelsOf(g, d);
    }
  }

  lemma SaveKeepsSteady(s: State, domain: string, rows: map<RateKey, RateRow>, rest: string, now: int)
    requires Inv(s.queue) && Steady(s) && Save(s, domain, rows, rest, now).Ok?
    ensures Steady(s.(pricing := Save(s, domain, rows, rest, now).value))
  {
    var q, g, next := s.queue, s.pricing, Save(s, domain, rows, rest, now).value;
    forall i | i in q.tasks ensures HeldOk(next, q.tasks[i]) && DoneOk(next, q.tasks[i]) {
      assert HeldOk(g, q.tasks[i]) && DoneOk(g, q.tasks[i]) && TaskOk(q, i);
      SavedKeepsTask(g, domain, rows, rest, now, q.tasks[i]);
    }
    forall d ensures LastOk(next, d) {
      assert LastOk(g, d);
      SavedKeepsLast(g, domain, rows, rest, now, d);
    }
  }

  lemma CorrectKeepsSteady(s: State, domain: string, added: seq<Version>)
    requires Steady(s) && Correct(s.pricing, domain, added).Ok?
    ensures Steady(s.(pricing := Correct(s.pricing, domain, added).value))
  {
    var q, g, next := s.queue, s.pricing, Correct(s.pricing, domain, added).value;
    forall d ensures Current(next, d) == Current(g, d) { assert ChannelsOf(next, d) == ChannelsOf(g, d); }
    forall i | i in q.tasks ensures HeldOk(next, q.tasks[i]) && DoneOk(next, q.tasks[i]) {
      assert HeldOk(g, q.tasks[i]) && DoneOk(g, q.tasks[i]);
    }
    forall d ensures LastOk(next, d) { assert LastOk(g, d); }
  }

  // Runs.

  lemma ApplyKeepsSteady(s: State, env: Env)
    requires Inv(s.queue) && Steady(s) && EnvOk(s, env)
    ensures Steady(Apply(s, env).0)
  {
    if env.due.Some? {
      var id := s.queue.slots[env.due.value].task;
      assert SlotOk(s.queue, env.due.value);
      ApplyCases(s, env);
      MarkConflictKeepsSteady(s.queue, s.pricing, id);
      if Commit(s, id).Ok? { CommitKeepsSteady(s, id); }
    }
  }

  lemma StepKeepsSteady(s: State, step: Step)
    requires Inv(s.queue) && Steady(s) && Truthful(s, step) && Quiet(s, step)
    ensures Steady(Do(s, step))
  {
    match step
    case DoDecide(env, key, r) => if Decide(s, env, key, r).Ok? { DecideKeepsSteady(s, env, key, r); }
    case DoCancel(id) => if Cancel(s.queue, id).Ok? { CancelKeepsSteady(s.queue, s.pricing, id); }
    case DoApply(env) => ApplyKeepsSteady(s, env);
    case DoSave(domain, rows, rest, now) =>
      if Save(s, domain, rows, rest, now).Ok? { SaveKeepsSteady(s, domain, rows, rest, now); }
    case DoCorrect(domain, added) => if Correct(s.pricing, domain, added).Ok? { CorrectKeepsSteady(s, domain, added); }
    case _ =>
  }

  lemma {:induction false} SettledRunIsSteady(steps: seq<Step>)
    requires Legal(steps) && Settled(steps)
    ensures Steady(After(steps))
    decreases |steps|
  {
    if steps != [] {
      var n := |steps| - 1;
      SettledRunIsSteady(steps[..n]);
      RunKeepsInv(steps[..n]);
      StepKeepsSteady(After(steps[..n]), steps[n]);
    }
  }

  // Results.

  lemma SteadyIsApprovable(g: Pricing, env: Env, task: Task)
    requires HeldOk(g, task) && PatchOk(task) && task.status == Waiting
    ensures Approvable(g, env, task) <==>
      AccountHolds(env, task) && Decodes(task.patch) && Latest(g, task.domain) == task.expectedBase
  {
    HeldRowsMatch(g.rates, ChannelsOf(g, task.domain), task.patch);
  }

  /** In a settled run the worker applies a due task exactly when its domain's account, key and
      permission still stand, its patch is well formed and no recharge repair of the domain has
      overtaken it; no other check can fail. */
  lemma SettledApply(steps: seq<Step>, env: Env)
    requires Legal(steps) && Settled(steps) && EnvOk(After(steps), env) && env.due.Some?
    ensures After(steps).queue.slots[env.due.value].task in After(steps).queue.tasks
    ensures var s := After(steps);
      var id := s.queue.slots[env.due.value].task;
      var task := s.queue.tasks[id];
      Apply(s, env).1 == NewVersion <==> AccountHolds(env, task) && Decodes(task.patch) && !Overtaken(steps, id)
  {
    var s := After(steps);
    RunKeepsInv(steps);
    SettledRunIsSteady(steps);
    ApplyOutcome(steps, env);
    var id := s.queue.slots[env.due.value].task;
    assert SlotOk(s.queue, env.due.value) && PatchOk(s.queue.tasks[id]);
    BaseIsLatestIff(steps, id);
    SteadyIsApprovable(s.pricing, env, s.queue.tasks[id]);
  }

  lemma RollbackTarget(s: State, env: Env, key: string, r: Request)
    requires Inv(s.queue) && Steady(s) && r.action == Rollback && Decide(s, env, key, r).Ok?
    requires Decide(s, env, key, r).value != s
    ensures var t := Decide(s, env, key, r).value;
      && env.applied.Some? && env.applied.value in s.queue.tasks && TaskId(key, r) in t.queue.tasks
      && t.queue.tasks[TaskId(key, r)].target == s.queue.tasks[env.applied.value].expectedCurrent
  {
    DecideCases(s, env, key, r);
    var p := s.queue.proposals[key];
    ScheduledTask(s, env, key, p, r, PlanFor(s.queue, env, key, p, r).value);
    RollbackStartsAtTarget(s, env, key);
    var original := s.queue.tasks[env.applied.value];
    assert PatchOk(original) && HeldOk(s.pricing, original);
    ReverseUndoesIff(original.expectedCurrent.rates, original.patch);
  }

  /** In a settled run a scheduled rollback aims at the snapshot its approval was planned on. */
  lemma RollbackAimsAtOriginal(steps: seq<Step>, env: Env, key: string, r: Request)
    requires Legal(steps) && Settled(steps) && EnvOk(After(steps), env) && r.action == Rollback
    requires Decide(After(steps), env, key, r).Ok? && Event(key, FromUser(r.idempotencyKey)) !in After(steps).events
    ensures var s, t := After(steps), Decide(After(steps), env, key, r).value;
      && env.applied.Some? && env.applied.value in s.queue.tasks && TaskId(key, r) in t.queue.tasks
      && t.queue.tasks[TaskId(key, r)].target == s.queue.tasks[env.applied.value].expectedCurrent
  {
    RunKeepsInv(steps);
    SettledRunIsSteady(steps);
    RollbackTarget(After(steps), env, key, r);
  }

  /** Approve, apply, roll back, apply: if the rows were left alone in between, every row reads as it
      did before, and rows outside the patch are untouched. */
  lemma ApplyThenRollback(s: State, env: Env, approval: TaskId, u: State, rollback: TaskId)
    requires Inv(s.queue) && Waits(s.queue, approval) && Approvable(s.pricing, env, s.queue.tasks[approval])
    requires Inv(u.queue) && Waits(u.queue, rollback) && Commit(s, approval).Ok? && Commit(u, rollback).Ok?
    requires u.pricing.rates == Commit(s, approval).value.pricing.rates
    requires u.queue.tasks[rollback].patch == Reverse(s.queue.tasks[approval].patch)
    ensures var before, after := s.pricing.rates, Commit(u, rollback).value.pricing.rates;
      && Matches(u.pricing.rates, u.queue.tasks[rollback].patch)
      && after.Keys == before.Keys
      && (forall key :: key in before ==> RateOf(after[key]) == RateOf(before[key]))
      && (forall key :: key in before && !Touches(s.queue.tasks[approval].patch, key) ==> after[key] == before[key])
  {
    var task := s.queue.tasks[approval];
    assert PatchOk(task);
    RollbackRestores(s.pricing.rates, task.patch, task.effectiveAt, u.queue.tasks[rollback].effectiveAt);
  }
}
