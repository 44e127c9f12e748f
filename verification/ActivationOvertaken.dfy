/** Is a waiting task's base still the latest version? Saves and other activations wait for the slot;
    the repair of a past recharge ratio does not, and overtakes the task. */
module ActivationOvertaken {

  import opened Basics
  import opened RatePatch
  import opened Activation
  import opened ActivationInvariants

  /** The step is a repair of the domain, and it is carried out. */
  predicate Corrects(g: Pricing, step: Step, d: string) {
    step.DoCorrect? && step.domain == d && Correct(g, d, step.added).Ok?
  }

  /** Some repair of the task's domain was carried out while the task waited. */
  ghost predicate Overtaken(steps: seq<Step>, id: TaskId) {
    steps != [] &&
    var n := |steps| - 1;
    var before := After(steps[..n]);
    Overtaken(steps[..n], id)
    || (Waits(before.queue, id) && Corrects(before.pricing, steps[n], before.queue.tasks[id].domain))
  }

  /** Tasks neither come nor change while they wait. */
  predicate SameWaiting(q: Queue, t: Queue, id: TaskId) {
    (id in t.tasks <==> id in q.tasks) && (Waits(t, id) ==> t.tasks[id] == q.tasks[id])
  }

  /** And their domains get no version. */
  predicate Undisturbed(s: State, t: State, id: TaskId) {
    && SameWaiting(s.queue, t.queue, id)
    && (Waits(t.queue, id) ==>
          VersionsOf(t.pricing, t.queue.tasks[id].domain) == VersionsOf(s.pricing, t.queue.tasks[id].domain))
  }

  lemma DecideUndisturbed(s: State, env: Env, key: string, r: Request, id: TaskId)
    requires Inv(s.queue) && id in s.queue.tasks && Decide(s, env, key, r).Ok?
    ensures Undisturbed(s, Decide(s, env, key, r).value, id)
  {
    if Decide(s, env, key, r).value != s {
      DecideCases(s, env, key, r);
      if r.action != Reject {
        var p := s.queue.proposals[key];
        NewId(s.queue, key, r);
        ScheduleEnqueues(s, env, key, p, r, PlanFor(s.queue, env, key, p, r).value);
      }
    }
  }

  /** A task that was not there has been planned on the latest version. */
  lemma DecidedOnLatest(s: State, env: Env, key: string, r: Request, id: TaskId)
    requires Decide(s, env, key, r).Ok? && id !in s.queue.tasks && id in Decide(s, env, key, r).value.queue.tasks
    ensures var t := Decide(s, env, key, r).value;
      t.pricing == s.pricing && t.queue.tasks[id].expectedBase == Latest(s.pricing, t.queue.tasks[id].domain)
  {
    DecideCases(s, env, key, r);
  }

  lemma CancelKeepsWaiting(q: Queue, ended: TaskId, id: TaskId)
    requires Cancel(q, ended).Ok?
    ensures SameWaiting(q, Cancel(q, ended).value, id)
  {
  }

  lemma SettleKeepsWaiting(q: Queue, done: TaskId, version: int, id: TaskId)
    requires done in q.tasks && Settle(q, done, version).Ok?
    ensures SameWaiting(q, Settle(q, done, version).value, id) && !Waits(Settle(q, done, version).value, done)
  {
  }

  lemma OneTaskPerDomain(q: Queue, a: TaskId, b: TaskId)
    requires Inv(q) && Waits(q, a) && Waits(q, b) && q.tasks[a].domain == q.tasks[b].domain
    ensures a == b
  {
    assert TaskOk(q, a) && TaskOk(q, b);
  }

  lemma RepricedElsewhere(g: Pricing, task: Task, d: string)
    requires d != task.domain
    ensures VersionsOf(Repriced(g, task), d) == VersionsOf(g, d)
  {
  }

  lemma CommitUndisturbed(s: State, done: TaskId, id: TaskId)
    requires Inv(s.queue) && Waits(s.queue, done) && Commit(s, done).Ok?
    ensures Undisturbed(s, Commit(s, done).value, id)
  {
    var task := s.queue.tasks[done];
    SettleKeepsWaiting(s.queue, done, Latest(Repriced(s.pricing, task), task.domain), id);
    if Waits(Commit(s, done).value.queue, id) {
      if s.queue.tasks[id].domain == task.domain { OneTaskPerDomain(s.queue, done, id); }
      RepricedElsewhere(s.pricing, task, s.queue.tasks[id].domain);
    }
  }

  lemma ApplyUndisturbed(s: State, env: Env, id: TaskId)
    requires Inv(s.queue) && EnvOk(s, env)
    ensures Undisturbed(s, Apply(s, env).0, id)
  {
    if env.due.Some? {
      var due := s.queue.slots[env.due.value].task;
      assert SlotOk(s.queue, env.due.value);
      ApplyCases(s, env);
      if Commit(s, due).Ok? { CommitUndisturbed(s, due, id); }
    }
  }

  lemma SavedElsewhere(g: Pricing, domain: string, rows: map<RateKey, RateRow>, rest: string, now: int, d: string)
    requires Saved(g, domain, rows, rest, now).Ok? && d != domain
    ensures VersionsOf(Saved(g, domain, rows, rest, now).value, d) == VersionsOf(g, d)
  {
  }

  lemma SaveUndisturbed(s: State, domain: string, rows: map<RateKey, RateRow>, rest: string, now: int, id: TaskId)
    requires Inv(s.queue) && Save(s, domain, rows, rest, now).Ok?
    ensures Undisturbed(s, s.(pricing := Save(s, domain, rows, rest, now).value), id)
  {
    if Waits(s.queue, id) {
      assert TaskOk(s.queue, id);
      SavedElsewhere(s.pricing, domain, rows, rest, now, s.queue.tasks[id].domain);
    }
  }

  lemma CorrectAdds(g: Pricing, domain: string, added: seq<Version>, d: string)
    ensures var after := Kept(g, Correct(g, domain, added));
      if d == domain && Correct(g, d, added).Ok? then Latest(after, d) > Latest(g, d)
        else Latest(after, d) == Latest(g, d)
  {
  }

  /** Nothing but a repair disturbs a stored task, and nothing but a decision starts one. */
  lemma OnlyRepairsDisturb(s: State, step: Step, id: TaskId)
    requires Inv(s.queue) && Truthful(s, step) && !step.DoCorrect? && (id in s.queue.tasks || !step.DoDecide?)
    ensures Undisturbed(s, Do(s, step), id)
  {
    match step
    case DoDecide(env, key, r) => if Decide(s, env, key, r).Ok? { DecideUndisturbed(s, env, key, r, id); }
    case DoCancel(ended) => if Cancel(s.queue, ended).Ok? { CancelKeepsWaiting(s.queue, ended, id); }
    case DoApply(env) => ApplyUndisturbed(s, env, id);
    case DoSave(domain, rows, rest, now) =>
      if Save(s, domain, rows, rest, now).Ok? { SaveUndisturbed(s, domain, rows, rest, now, id); }
    case _ =>
  }

  /** Tasks stay; a waiting one is unchanged, and only a repair of its domain adds a version there. */
  lemma StepKeepsBase(s: State, step: Step, id: TaskId)
    requires Inv(s.queue) && Truthful(s, step) && id in s.queue.tasks
    ensures id in Do(s, step).queue.tasks
    ensures Waits(Do(s, step).queue, id) ==>
      var d := s.queue.tasks[id].domain;
      && Do(s, step).queue.tasks[id] == s.queue.tasks[id]
      && if Corrects(s.pricing, step, d) then Latest(Do(s, step).pricing, d) > Latest(s.pricing, d)
         else Latest(Do(s, step).pricing, d) == Latest(s.pricing, d)
  {
    if step.DoCorrect? {
      CorrectAdds(s.pricing, step.domain, step.added, s.queue.tasks[id].domain);
    } else {
      OnlyRepairsDisturb(s, step, id);
    }
  }

  lemma NewTaskHasLatestBase(s: State, step: Step, id: TaskId)
    requires Inv(s.queue) && Truthful(s, step) && id !in s.queue.tasks && Waits(Do(s, step).queue, id)
    ensures var t := Do(s, step); Latest(t.pricing, t.queue.tasks[id].domain) == t.queue.tasks[id].expectedBase
  {
    if step.DoDecide? {
      DecidedOnLatest(s, step.env, step.key, step.request, id);
    } else if !step.DoCorrect? {
      OnlyRepairsDisturb(s, step, id);
    }
  }

  lemma {:induction false} OvertakenIsStored(steps: seq<Step>, id: TaskId)
    requires Legal(steps) && Overtaken(steps, id)
    ensures id in After(steps).queue.tasks
    decreases |steps|
  {
    var n := |steps| - 1;
    if Overtaken(steps[..n], id) { OvertakenIsStored(steps[..n], id); }
    RunKeepsInv(steps[..n]);
    StepKeepsBase(After(steps[..n]), steps[n], id);
  }

  /** A waiting task's base is still its domain's latest version exactly when no repair of that domain
      was carried out since the task was scheduled. */
  lemma {:induction false} BaseIsLatestIff(steps: seq<Step>, id: TaskId)
    requires Legal(steps) && Waits(After(steps).queue, id)
    ensures var s := After(steps); var task := s.queue.tasks[id];
      && task.expectedBase <= Latest(s.pricing, task.domain)
      && (task.expectedBase == Latest(s.pricing, task.domain) <==> !Overtaken(steps, id))
    decreases |steps|
  {
    var n := |steps| - 1;
    var before := After(steps[..n]);
    RunKeepsInv(steps[..n]);
    if id in before.queue.tasks {
      StepKeepsBase(before, steps[n], id);
      BaseIsLatestIff(steps[..n], id);
    } else {
      NewTaskHasLatestBase(before, steps[n], id);
      if Overtaken(steps[..n], id) { OvertakenIsStored(steps[..n], id); }
    }
  }

  lemma StaleIsRefused(s: State, env: Env)
    requires EnvOk(s, env) && env.due.Some? && SlotOk(s.queue, env.due.value)
    requires var task := s.queue.tasks[s.queue.slots[env.due.value].task];
      Latest(s.pricing, task.domain) != task.expectedBase
    ensures Apply(s, env) == (s.(queue := MarkConflict(s.queue, s.queue.slots[env.due.value].task)), Refused)
  {
  }

  /** An overtaken task never takes effect: when it is due the worker ends it by a conflict, and its
      rates and versions stay. */
  lemma OvertakenIsRefused(steps: seq<Step>, env: Env)
    requires Legal(steps) && EnvOk(After(steps), env) && env.due.Some?
    requires Overtaken(steps, After(steps).queue.slots[env.due.value].task)
    ensures After(steps).queue.slots[env.due.value].task in After(steps).queue.tasks
    ensures var s := After(steps);
      Apply(s, env) == (s.(queue := MarkConflict(s.queue, s.queue.slots[env.due.value].task)), Refused)
  {
    var s := After(steps);
    RunKeepsInv(steps);
    assert SlotOk(s.queue, env.due.value);
    BaseIsLatestIff(steps, s.queue.slots[env.due.value].task);
    StaleIsRefused(s, env);
  }

  // A run in which a task is overtaken.

  const DOMAIN := "a.example"
  const KEY := RateKey(1, "default")
  const ROW := RateRow("plan", 2.0, 1.0, 0)
  const FROZEN := Snapshot("settings", map[KEY := Rate("plan", 2.0, 1.0)])
  const PROPOSAL := Proposal(DOMAIN, "epoch", "hmac", Proposed(1, "plan", 3.0), "digest", 1, 0, Pending)
  const REQUEST := Request(Approve, Pending, 1, "digest", "key", "reason", 0)
  const DECIDER := Env(0, 0, {DOMAIN}, map[DOMAIN := "epoch"], "hmac", true, [(KEY, ROW)], None, None)
  const ID := TaskId("p", REQUEST)

  const SETTLING := Drift(map[KEY := ROW], map[1 := DOMAIN], map[DOMAIN := "settings"])
  const SAVING := DoSave(DOMAIN, map[KEY := ROW], "settings", 0)
  const PROPOSING := DoPropose("p", PROPOSAL)
  const DECIDING := DoDecide(DECIDER, "p", REQUEST)
  const CORRECTING := DoCorrect(DOMAIN, [Version(FROZEN, 0)])

  function Prices(): Pricing {
    Pricing(map[KEY := ROW], map[1 := DOMAIN], map[DOMAIN := "settings"], map[DOMAIN := [Version(FROZEN, 0)]])
  }

  function Proposing(): State { State(Queue(map["p" := PROPOSAL], map[], map[]), Prices(), map[]) }

  lemma PricesFrozen(g: Pricing)
    requires g.rates == map[KEY := ROW] && g.channels == map[1 := DOMAIN] && g.rest == map[DOMAIN := "settings"]
    ensures ChannelsOf(g, DOMAIN) == {1} && Current(g, DOMAIN) == Ok(FROZEN)
  {
    assert Trim("plan") == "plan";
    assert ChannelsOf(g, DOMAIN) == {1};
    assert Frozen(g.rates, {1}) == FROZEN.rates;
  }

  lemma SavedPrices(g: Pricing)
    requires g == Pricing(map[KEY := ROW], map[1 := DOMAIN], map[DOMAIN := "settings"], map[])
    ensures Saved(g, DOMAIN, map[KEY := ROW], "settings", 0) == Ok(Prices())
  {
    assert ChannelsOf(g, DOMAIN) == {1};
    assert SavedRates(g, DOMAIN, map[KEY := ROW]) == map[KEY := ROW] && g.rest[DOMAIN := "settings"] == g.rest;
    PricesFrozen(g);
    assert VersionsOf(g, DOMAIN) + [Version(FROZEN, 0)] == [Version(FROZEN, 0)];
    assert g.versions[DOMAIN := [Version(FROZEN, 0)]] == Prices().versions;
  }

  lemma PlannedPatch(p: Proposed, rows: seq<(RateKey, RateRow)>)
    requires p == PROPOSAL.proposed && rows == DECIDER.rows
    ensures BuildPatch(p, rows) == Ok([Change(KEY, Rate("plan", 2.0, 1.0), Rate("plan", 3.0, 1.0))])
  {
    assert Trim("plan") == "plan";
    assert rows[..|rows| - 1] == [] && Built(p, rows[..|rows| - 1]) == Ok([]);
    assert Wanted(p, rows[0]) && RateOf(ROW) == Rate("plan", 2.0, 1.0) && p.value / 1.0 == 3.0;
    var change := Change(KEY, RateOf(ROW), RateOf(ROW).(multiplier := 3.0));
    assert [] + [change] == [change];
    assert Built(p, rows) == Ok([change]);
  }

  /** What the approval leaves behind. */
  predicate Scheduled(t: State) {
    Waits(t.queue, ID) && t.queue.tasks[ID].domain == DOMAIN && t.queue.tasks[ID].expectedBase == 1
        && t.pricing == Prices()
  }

  lemma TaskScheduled(s: State, env: Env)
    requires s == Proposing() && env == DECIDER
    ensures Decide(s, env, "p", REQUEST).Ok? && Scheduled(Decide(s, env, "p", REQUEST).value)
  {
    PricesFrozen(s.pricing);
    PlannedPatch(PROPOSAL.proposed, env.rows);
    assert PlanApproval(env, PROPOSAL, REQUEST).Ok?;
    assert !KeyTaken(s.queue, "p", "key");
  }

  lemma LegalStep(steps: seq<Step>, s: State, step: Step)
    requires Legal(steps) && After(steps) == s && Truthful(s, step)
    ensures Legal(steps + [step]) && After(steps + [step]) == Do(s, step)
  {
    assert (steps + [step])[..|steps|] == steps;
  }

  lemma ProposedRun()
    ensures Legal([SETTLING, SAVING, PROPOSING]) && After([SETTLING, SAVING, PROPOSING]) == Proposing()
  {
    assert Legal([]) && After([]) == INITIAL;
    LegalStep([], INITIAL, SETTLING);
    assert [] + [SETTLING] == [SETTLING];
    var s := Do(INITIAL, SETTLING);
    SavedPrices(s.pricing);
    LegalStep([SETTLING], s, SAVING);
    assert [SETTLING] + [SAVING] == [SETTLING, SAVING];
    LegalStep([SETTLING, SAVING], State(INITIAL.queue, Prices(), map[]), PROPOSING);
    assert [SETTLING, SAVING] + [PROPOSING] == [SETTLING, SAVING, PROPOSING];
  }

  lemma ScheduledRun(s: State, step: Step)
    requires s == Proposing() && step == DECIDING
    ensures Legal([SETTLING, SAVING, PROPOSING] + [step]) && Scheduled(After([SETTLING, SAVING, PROPOSING] + [step]))
  {
    ProposedRun();
    TaskScheduled(s, step.env);
    LegalStep([SETTLING, SAVING, PROPOSING], s, step);
  }

  lemma CorrectedAfter(steps: seq<Step>, step: Step)
    requires Legal(steps) && Scheduled(After(steps)) && step == CORRECTING
    ensures Legal(steps + [step]) && Waits(After(steps + [step]).queue, ID)
    ensures After(steps + [step]).queue.tasks[ID].expectedBase == 1
    ensures Latest(After(steps + [step]).pricing, DOMAIN) == 2
  {
    LegalStep(steps, After(steps), step);
  }

  /** Settings saved, a change approved, and then a recharge repair of the domain: the waiting task's
      base is no longer the latest version. */
  lemma BaseCanBeOvertaken()
    ensures var steps := [SETTLING, SAVING, PROPOSING, DECIDING, CORRECTING];
      && Legal(steps) && Waits(After(steps).queue, ID)
      && After(steps).queue.tasks[ID].expectedBase == 1 && Latest(After(steps).pricing, DOMAIN) == 2
  {
    ScheduledRun(Proposing(), DECIDING);
    CorrectedAfter([SETTLING, SAVING, PROPOSING] + [DECIDING], CORRECTING);
    assert [SETTLING, SAVING, PROPOSING] + [DECIDING] + [CORRECTING] ==
      [SETTLING, SAVING, PROPOSING, DECIDING, CORRECTING];
  }
}
