/** The promises of the activation protocol, over every run. */
module ActivationTheorems {

  import opened Basics
  import opened RatePatch
  import opened Activation
  import opened ActivationInvariants

  /** Slots and waiting tasks correspond one to one; a domain has at most one of each. */
  lemma SlotsAreWaitingTasks(steps: seq<Step>, d: string, id: TaskId)
    requires Legal(steps)
    ensures var q := After(steps).queue;
      (d in q.slots && q.slots[d].task == id) <==> (Waits(q, id) && q.tasks[id].domain == d)
  {
    RunKeepsInv(steps);
    var q := After(steps).queue;
    if d in q.slots { assert SlotOk(q, d); }
    if id in q.tasks { assert TaskOk(q, id); }
  }

  predicate Serves(q: Queue, key: string, action: Action, id: TaskId) {
    Waits(q, id) && q.tasks[id].proposal == key && q.tasks[id].action == action
  }

  /** A proposal is scheduled exactly while one approval waits for it, scheduled for rollback exactly
      while one rollback waits; never two. */
  lemma StatusSaysWhatWaits(steps: seq<Step>, key: string)
    requires Legal(steps) && key in After(steps).queue.proposals
    ensures var q := After(steps).queue;
      && (q.proposals[key].status == Scheduled <==> exists id :: Serves(q, key, Approve, id))
      && (q.proposals[key].status == RollbackScheduled <==> exists id :: Serves(q, key, Rollback, id))
      && (forall a, b :: Waits(q, a) && Waits(q, b) && q.tasks[a].proposal == key == q.tasks[b].proposal ==> a == b)
  {
    RunKeepsInv(steps);
    var q := After(steps).queue;
    assert ProposalOk(q, key);
    if InFlight(q.proposals[key].status) {
      var id :| Waits(q, id) && q.tasks[id].proposal == key;
      assert TaskOk(q, id);
      assert Serves(q, key, q.tasks[id].action, id);
    }
    forall id | Waits(q, id) && q.tasks[id].proposal == key
      ensures q.proposals[key].status == StatusWhile(q.tasks[id].action)
    {
      assert TaskOk(q, id);
    }
    forall a, b | Waits(q, a) && Waits(q, b) && q.tasks[a].proposal == key == q.tasks[b].proposal ensures a == b {
      OneTaskPerProposal(q, a, b);
    }
  }

  /** A waiting task can always be cancelled: no status mismatch stands in the way. */
  lemma WaitingCanBeCancelled(steps: seq<Step>, id: TaskId)
    requires Legal(steps) && id in After(steps).queue.tasks
    ensures Cancel(After(steps).queue, id).Ok? <==> After(steps).queue.tasks[id].status in {Waiting, Cancelled}
  {
    RunKeepsInv(steps);
    assert TaskOk(After(steps).queue, id);
  }

  // Applying.

  lemma SettleSucceeds(q: Queue, id: TaskId, version: int)
    requires Waits(q, id) && TaskOk(q, id)
    ensures Settle(q, id, version).Ok?
  {
  }

  /** The rows after the writes freeze to the target the task was approved with. */
  lemma RepricedHitsTarget(g: Pricing, env: Env, task: Task)
    requires Approvable(g, env, task) && PatchOk(task)
    ensures Current(Repriced(g, task), task.domain) == Ok(task.target)
  {
    assert ChannelsOf(Repriced(g, task), task.domain) == ChannelsOf(g, task.domain);
    SnapshotFollowsRows(g.rates, ChannelsOf(g, task.domain), task.patch, task.effectiveAt);
  }

  lemma CommitSucceeds(s: State, env: Env, id: TaskId)
    requires Inv(s.queue) && Waits(s.queue, id) && Approvable(s.pricing, env, s.queue.tasks[id])
    ensures Commit(s, id).Ok?
  {
    var task := s.queue.tasks[id];
    assert TaskOk(s.queue, id) && PatchOk(task);
    RepricedHitsTarget(s.pricing, env, task);
    SettleSucceeds(s.queue, id, Latest(Repriced(s.pricing, task), task.domain));
  }

  lemma DueOutcome(s: State, env: Env)
    requires env.due.Some? && env.due.value in s.queue.slots && SlotOk(s.queue, env.due.value)
    requires var id := s.queue.slots[env.due.value].task;
      Approvable(s.pricing, env, s.queue.tasks[id]) ==> Commit(s, id).Ok?
    ensures Apply(s, env).1 in {Retry, Refused, NewVersion}
    ensures Apply(s, env).1 == NewVersion <==>
      Approvable(s.pricing, env, s.queue.tasks[s.queue.slots[env.due.value].task])
  {
  }

  /** What the worker answers, exactly. Orphan slots, slots that disagree with their task, and
      failures after the first write do not happen. */
  lemma ApplyOutcome(steps: seq<Step>, env: Env)
    requires Legal(steps) && EnvOk(After(steps), env)
    ensures var s := After(steps); var outcome := Apply(s, env).1;
      && outcome in {Idle, Retry, Refused, NewVersion}
      && (outcome == Idle <==> env.due.None?)
      && (outcome == NewVersion <==>
            && env.due.Some? && Waits(s.queue, s.queue.slots[env.due.value].task)
            && Approvable(s.pricing, env, s.queue.tasks[s.queue.slots[env.due.value].task]))
  {
    RunKeepsInv(steps);
    var s := After(steps);
    if env.due.Some? {
      var id := s.queue.slots[env.due.value].task;
      assert SlotOk(s.queue, env.due.value);
      if Approvable(s.pricing, env, s.queue.tasks[id]) { CommitSucceeds(s, env, id); }
      DueOutcome(s, env);
    }
  }

  predicate RowsExactly(before: map<RateKey, RateRow>, after: map<RateKey, RateRow>, task: Task) {
    && after.Keys == before.Keys
    && (forall i :: 0 <= i < |task.patch| ==>
          task.patch[i].key in after && after[task.patch[i].key] == WrittenRow(task.patch[i], task.effectiveAt))
    && (forall key :: key in before && !Touches(task.patch, key) ==> after[key] == before[key])
  }

  lemma WrittenExactly(rates: map<RateKey, RateRow>, task: Task)
    requires DistinctKeys(task.patch) && Matches(rates, task.patch)
    ensures RowsExactly(rates, Written(rates, task.patch, task.effectiveAt), task)
  {
    assert forall i :: 0 <= i < |task.patch| ==> task.patch[i].key in rates;
    WrittenIsExact(rates, task.patch, task.effectiveAt);
  }

  /** after is before with the task applied, and nothing else. */
  predicate Exactly(before: Pricing, after: Pricing, task: Task) {
    && RowsExactly(before.rates, after.rates, task)
    && after.versions ==
         before.versions[task.domain := VersionsOf(before, task.domain) + [Version(task.target, task.effectiveAt)]]
    && Latest(after, task.domain) == task.expectedBase + 1
    && Current(after, task.domain) == Ok(task.target)
    && after.channels == before.channels && after.rest == before.rest
  }

  lemma RepricedIsExact(g: Pricing, env: Env, task: Task)
    requires Approvable(g, env, task) && PatchOk(task)
    ensures Exactly(g, Repriced(g, task), task)
  {
    RepricedHitsTarget(g, env, task);
    WrittenExactly(g.rates, task);
  }

  /** An applied task changes exactly the patched rows, appends exactly the next version of its
      domain, and leaves the approved target; every other outcome leaves all rates and versions. */
  lemma ApplyIsAtomic(steps: seq<Step>, env: Env)
    requires Legal(steps) && EnvOk(After(steps), env)
    ensures var s := After(steps); var (t, outcome) := Apply(s, env);
      if outcome == NewVersion then
        && env.due.Some? && Waits(s.queue, s.queue.slots[env.due.value].task)
        && Exactly(s.pricing, t.pricing, s.queue.tasks[s.queue.slots[env.due.value].task])
      else t.pricing == s.pricing
  {
    ApplyOutcome(steps, env);
    if Apply(After(steps), env).1 == NewVersion {
      var s := After(steps);
      var id := s.queue.slots[env.due.value].task;
      RunKeepsInv(steps);
      assert PatchOk(s.queue.tasks[id]);
      RepricedIsExact(s.pricing, env, s.queue.tasks[id]);
    }
  }

  lemma OneSlotPerTask(q: Queue, d: string)
    requires Inv(q) && d in q.slots
    ensures WithoutSlotOf(q.slots, q.slots[d].task) == q.slots - {d}
  {
    forall e | e in q.slots && e != d
      ensures q.slots[e].task != q.slots[d].task
    {
      assert SlotOk(q, d) && SlotOk(q, e);
    }
    OnlySlot(q.slots, d);
  }

  lemma OnlySlot(slots: map<string, Slot>, d: string)
    requires d in slots && forall e :: e in slots && e != d ==> slots[e].task != slots[d].task
    ensures WithoutSlotOf(slots, slots[d].task) == slots - {d}
  {
  }

  lemma ApplySlots(s: State, env: Env)
    requires env.due.Some? && env.due.value in s.queue.slots && s.queue.slots[env.due.value].task in s.queue.tasks
    ensures Apply(s, env).1 != Retry ==>
      Apply(s, env).0.queue.slots == WithoutSlotOf(s.queue.slots, s.queue.slots[env.due.value].task)
  {
  }

  /** The queue advances: unless the settings are missing, a due slot is gone after one run, and
      every other slot is still there. */
  lemma DueSlotIsReleased(steps: seq<Step>, env: Env)
    requires Legal(steps) && EnvOk(After(steps), env) && env.due.Some? && Apply(After(steps), env).1 != Retry
    ensures Apply(After(steps), env).0.queue.slots == After(steps).queue.slots - {env.due.value}
  {
    RunKeepsInv(steps);
    assert SlotOk(After(steps).queue, env.due.value);
    OneSlotPerTask(After(steps).queue, env.due.value);
    ApplySlots(After(steps), env);
  }

  // Versions only grow.

  predicate Grows(a: Pricing, b: Pricing) { forall d :: d in a.versions ==> a.versions[d] <= VersionsOf(b, d) }

  lemma SavedGrows(g: Pricing, domain: string, rows: map<RateKey, RateRow>, rest: string, now: int)
    requires Saved(g, domain, rows, rest, now).Ok?
    ensures Grows(g, Saved(g, domain, rows, rest, now).value)
  {
  }

  lemma RepricedGrows(g: Pricing, task: Task)
    ensures Grows(g, Repriced(g, task))
  {
  }

  lemma ApplyGrows(s: State, env: Env)
    ensures Grows(s.pricing, Apply(s, env).0.pricing)
  {
    if Apply(s, env).1 == NewVersion { RepricedGrows(s.pricing, s.queue.tasks[s.queue.slots[env.due.value].task]); }
  }

  lemma StepGrows(s: State, step: Step)
    ensures Grows(s.pricing, Do(s, step).pricing)
  {
    match step
    case DoApply(env) => ApplyGrows(s, env);
    case DoSave(domain, rows, rest, now) =>
      if Save(s, domain, rows, rest, now).Ok? { SavedGrows(s.pricing, domain, rows, rest, now); }
    case DoDecide(env, key, r) => assert Do(s, step).pricing == s.pricing;
    case _ =>
  }

  lemma GrowsCompose(a: Pricing, b: Pricing, c: Pricing)
    requires Grows(a, b) && Grows(b, c)
    ensures Grows(a, c)
  {
    forall d | d in a.versions ensures a.versions[d] <= VersionsOf(c, d) {
      assert a.versions[d] <= VersionsOf(b, d);
      if d !in b.versions { assert a.versions[d] == []; }
    }
  }

  lemma AfterStep(steps: seq<Step>, step: Step)
    ensures After(steps + [step]) == Do(After(steps), step)
  {
    assert (steps + [step])[..|steps|] == steps;
  }

  lemma {:induction false} VersionsAreAppendOnly(steps: seq<Step>, more: seq<Step>)
    ensures Grows(After(steps).pricing, After(steps + more).pricing)
    decreases |more|
  {
    if more == [] {
      assert steps + more == steps;
    } else {
      var n := |more| - 1;
      var before := After(steps + more[..n]);
      VersionsAreAppendOnly(steps, more[..n]);
      StepGrows(before, more[n]);
      GrowsCompose(After(steps).pricing, before.pricing, Do(before, more[n]).pricing);
      AfterStep(steps + more[..n], more[n]);
      assert steps + more[..n] + [more[n]] == steps + more;
    }
  }

  // Deciding.

  lemma WholeHour(now: int)
    ensures NextWholeHour(now) % 3600 == 0
  {
    var hours := now / 3600;
    assert now == 3600 * hours + now % 3600;
    assert NextWholeHour(now) == 3600 * (hours + 1);
  }

  /** A decision moves no rate and no version; what it schedules takes effect at the next whole hour,
      never at once, and the worker cannot find it earlier. */
  lemma DecisionOnlySchedules(s: State, env: Env, key: string, r: Request)
    requires Decide(s, env, key, r).Ok?
    ensures var t := Decide(s, env, key, r).value; var q := t.queue;
      && t.pricing == s.pricing
      && (forall id :: id in s.queue.tasks && id != TaskId(key, r) ==>
            id in q.tasks && q.tasks[id] == s.queue.tasks[id])
      && (forall d :: d in q.slots && d !in s.queue.slots ==>
            && q.slots[d].task == TaskId(key, r)
            && env.now < q.slots[d].effectiveAt <= env.now + 3600 && q.slots[d].effectiveAt % 3600 == 0)
  {
    WholeHour(env.now);
  }

  /** Sending a decision again, at any later time, succeeds and changes nothing. */
  lemma DecisionRepeats(s: State, env: Env, key: string, r: Request, later: Env)
    requires Decide(s, env, key, r).Ok?
    ensures Decide(Decide(s, env, key, r).value, later, key, r) == Ok(Decide(s, env, key, r).value)
  {
  }

  lemma SlotsRestored(q: Queue, t: Queue, id: TaskId)
    requires Inv(q) && Enqueued(q, t, id)
    ensures WithoutSlotOf(t.slots, id) == q.slots
  {
    forall d | d in q.slots ensures q.slots[d].task != id { assert SlotOk(q, d); }
  }

  /** Cancelling what was just enqueued restores proposals and slots. */
  lemma CancelRestores(q: Queue, t: Queue, id: TaskId)
    requires Enqueued(q, t, id) && q.proposals[t.tasks[id].proposal].status == StatusBefore(t.tasks[id].action)
    ensures Cancel(t, id).Ok? && Cancel(t, id).value.slots == WithoutSlotOf(t.slots, id)
    ensures Cancel(t, id).value.proposals == q.proposals
  {
    var key := t.tasks[id].proposal;
    assert t.proposals[key := q.proposals[key]] == q.proposals;
  }

  /** Cancelling what was just scheduled restores proposals and slots; rates and versions never moved. */
  lemma CancelUndoesSchedule(s: State, env: Env, key: string, r: Request)
    requires Inv(s.queue) && r.action != Reject
    requires Decide(s, env, key, r).Ok? && Decide(s, env, key, r).value != s
    ensures var t := Decide(s, env, key, r).value;
      && t.pricing == s.pricing && Cancel(t.queue, TaskId(key, r)).Ok?
      && var undone := Cancel(t.queue, TaskId(key, r)).value;
      && undone.proposals == s.queue.proposals && undone.slots == s.queue.slots
  {
    DecideCases(s, env, key, r);
    var p := s.queue.proposals[key];
    var plan := PlanFor(s.queue, env, key, p, r).value;
    var t := Schedule(s, env, key, p, r, plan).value.queue;
    NewId(s.queue, key, r);
    ScheduleEnqueues(s, env, key, p, r, plan);
    SlotsRestored(s.queue, t, TaskId(key, r));
    CancelRestores(s.queue, t, TaskId(key, r));
  }
}
