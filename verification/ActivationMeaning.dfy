/** What decisions, cancellations and runs of the worker leave behind, status by status and row by row,
    and exactly when each of them is accepted. */
module ActivationMeaning {

  import opened Basics
  import opened RatePatch
  import opened Activation
  import opened ActivationInvariants
  import opened ActivationTheorems

  function History(g: Pricing, d: string): seq<Version> { if d in g.versions then g.versions[d] else [] }

  // The worker.

  /** A task was settled at a version: an approval's proposal is applied, a rollback's is rolled back;
      the task is done, its slot free, and nothing else in the queue moved. */
  ghost predicate Settled(q: Queue, t: Queue, d: string, version: int) {
    && d in q.slots && q.slots[d].task in q.tasks
    && var id := q.slots[d].task;
      var task := q.tasks[id];
      && task.domain == d && task.proposal in q.proposals
      && (task.action == Approve || task.action == Rollback)
      && t.proposals == q.proposals[task.proposal := q.proposals[task.proposal].(
            status := if task.action == Approve then ProposalStatus.Applied else RolledBack,
            appliedVersion := version)]
      && t.tasks == q.tasks[id := task.(status := Done, appliedVersion := version)]
      && t.slots == q.slots - {d}
  }

  /** The due task took effect, at the version just appended to its domain. */
  ghost predicate TookEffect(s: State, t: State, d: string) {
    && Settled(s.queue, t.queue, d, |History(s.pricing, d)| + 1)
    && var id := s.queue.slots[d].task;
      t.events == s.events[Event(s.queue.tasks[id].proposal, FromWorker(id)) := id.request]
  }

  /** The due task was refused: its proposal is conflicted, it has failed, its slot is free, and nothing
      else moved. */
  ghost predicate EndedByConflict(s: State, t: State, d: string) {
    && d in s.queue.slots && s.queue.slots[d].task in s.queue.tasks
    && var id := s.queue.slots[d].task;
      var task := s.queue.tasks[id];
      && task.proposal in s.queue.proposals
      && t.queue.proposals ==
          s.queue.proposals[task.proposal := s.queue.proposals[task.proposal].(status := Conflicted)]
      && t.queue.tasks == s.queue.tasks[id := task.(status := Failed)]
      && t.queue.slots == s.queue.slots - {d}
      && t.pricing == s.pricing && t.events == s.events
  }

  lemma SettleSays(q: Queue, d: string, version: int)
    requires Inv(q) && d in q.slots && SlotOk(q, d) && Settle(q, q.slots[d].task, version).Ok?
    ensures Settled(q, Settle(q, q.slots[d].task, version).value, d, version)
  {
    assert TaskOk(q, q.slots[d].task);
    OneSlotPerTask(q, d);
  }

  lemma CommitSays(s: State, d: string)
    requires Inv(s.queue) && d in s.queue.slots && SlotOk(s.queue, d) && Commit(s, s.queue.slots[d].task).Ok?
    ensures TookEffect(s, Commit(s, s.queue.slots[d].task).value, d)
  {
    SettleSays(s.queue, d, |History(s.pricing, d)| + 1);
  }

  lemma ConflictSays(s: State, d: string)
    requires Inv(s.queue) && d in s.queue.slots
    ensures s.queue.slots[d].task in s.queue.tasks
    ensures EndedByConflict(s, s.(queue := MarkConflict(s.queue, s.queue.slots[d].task)), d)
  {
    assert SlotOk(s.queue, d);
    assert TaskOk(s.queue, s.queue.slots[d].task);
    OneSlotPerTask(s.queue, d);
  }

  lemma OutcomeIs(s: State, env: Env)
    requires env.due.Some? && env.due.value in s.queue.slots && s.queue.slots[env.due.value].task in s.queue.tasks
    ensures var (t, outcome) := Apply(s, env); var id := s.queue.slots[env.due.value].task;
      match outcome
      case NewVersion => Commit(s, id) == Ok(t)
      case Refused => t == s.(queue := MarkConflict(s.queue, id))
      case Retry => t == s
      case _ => true
  {
  }

  lemma OutcomeSays(s: State, env: Env)
    requires Inv(s.queue) && env.due.Some? && env.due.value in s.queue.slots && SlotOk(s.queue, env.due.value)
    ensures Apply(s, env).1 == NewVersion ==> TookEffect(s, Apply(s, env).0, env.due.value)
    ensures Apply(s, env).1 == Refused ==> EndedByConflict(s, Apply(s, env).0, env.due.value)
    ensures Apply(s, env).1 == Retry ==> Apply(s, env).0 == s
  {
    OutcomeIs(s, env);
    if Apply(s, env).1 == NewVersion { CommitSays(s, env.due.value); }
    if Apply(s, env).1 == Refused { ConflictSays(s, env.due.value); }
  }

  /** One run of the worker, after any legal run of the protocol. */
  lemma ApplySays(steps: seq<Step>, env: Env)
    requires Legal(steps) && EnvOk(After(steps), env)
    ensures var s := After(steps); var (t, outcome) := Apply(s, env);
      match outcome
      case NewVersion => env.due.Some? && TookEffect(s, t, env.due.value)
      case Refused => env.due.Some? && EndedByConflict(s, t, env.due.value)
      case _ => t == s
  {
    RunKeepsInv(steps);
    ApplyOutcome(steps, env);
    if env.due.Some? {
      assert SlotOk(After(steps).queue, env.due.value);
      OutcomeSays(After(steps), env);
    }
  }

  // When a task takes effect.

  function Factor(discount: real): real { if discount == 0.0 then 1.0 else discount }

  /** A row reads as a rate says: same trimmed name and multiplier, same discount with 0 for none. */
  predicate ReadsAs(row: RateRow, r: Rate) {
    Trim(row.upstream) == r.upstream && row.multiplier == r.multiplier && Factor(row.discount) == Factor(r.discount)
  }

  /** The settings of a domain as a snapshot freezes them. */
  ghost predicate Freezes(g: Pricing, d: string, current: Snapshot) {
    && d in g.rest && current.rest == g.rest[d]
    && (forall key :: key in current.rates <==>
          key in g.rates && key.channel in g.channels && g.channels[key.channel] == d)
    && forall key :: key in current.rates && key in g.rates ==>
          current.rates[key] ==
            Rate(Trim(g.rates[key].upstream), g.rates[key].multiplier, Factor(g.rates[key].discount))
  }

  predicate Plausible(v: real) { 0.000000001 <= v <= 1000000000.0 }

  /** A stored patch that can be read back. */
  predicate Readable(patch: seq<Change>) {
    && 1 <= |patch| <= 2000
    && forall i :: 0 <= i < |patch| ==>
          && patch[i].key.channel >= 1 && Trim(patch[i].key.group) != []
          && Plausible(patch[i].before.multiplier) && Plausible(patch[i].before.discount)
          && Plausible(patch[i].after.multiplier) && Plausible(patch[i].after.discount)
  }

  lemma FreezesIff(g: Pricing, d: string, current: Snapshot)
    ensures Current(g, d) == Ok(current) <==> Freezes(g, d, current)
    ensures Current(g, d).Ok? <==> d in g.rest
  {
    if Freezes(g, d, current) {
      assert current.rates == Frozen(g.rates, ChannelsOf(g, d));
    }
  }

  lemma ReadableIff(patch: seq<Change>)
    ensures Decodes(patch) <==> Readable(patch)
  {
    if Readable(patch) {
      forall i | 0 <= i < |patch| ensures ValidRate(patch[i].before) && ValidRate(patch[i].after) {}
    }
  }

  lemma ReadsIff(rates: map<RateKey, RateRow>, patch: seq<Change>)
    requires NamesTrimmed(patch)
    ensures Matches(rates, patch) <==>
      forall i :: 0 <= i < |patch| ==> patch[i].key in rates && ReadsAs(rates[patch[i].key], patch[i].before)
  {
  }

  /** The account behind a task is still the one it was planned for, and its domain is still allowed. */
  predicate Stands(env: Env, task: Task) {
    && task.domain in env.allowed && task.domain in env.accounts && env.accounts[task.domain] == task.epoch
    && env.hmacKey == task.hmacKey
  }

  /** The worker applies the due task exactly when its account stands, no version was added since, the
      settings are frozen as planned, its patch can be read back, and every row reads as before. */
  lemma AppliesExactlyWhen(steps: seq<Step>, env: Env)
    requires Legal(steps) && EnvOk(After(steps), env) && env.due.Some?
    ensures var s := After(steps); var d := env.due.value;
      && d in s.queue.slots && s.queue.slots[d].task in s.queue.tasks
      && var task := s.queue.tasks[s.queue.slots[d].task];
        Apply(s, env).1 == NewVersion <==>
          && Stands(env, task) && |History(s.pricing, d)| == task.expectedBase
          && Freezes(s.pricing, d, task.expectedCurrent) && Readable(task.patch)
          && forall i :: 0 <= i < |task.patch| ==>
                && task.patch[i].key in s.pricing.rates
                && ReadsAs(s.pricing.rates[task.patch[i].key], task.patch[i].before)
  {
    var s, d := After(steps), env.due.value;
    RunKeepsInv(steps);
    ApplyOutcome(steps, env);
    assert SlotOk(s.queue, d);
    var task := s.queue.tasks[s.queue.slots[d].task];
    assert PatchOk(task);
    FreezesIff(s.pricing, d, task.expectedCurrent);
    ReadableIff(task.patch);
    ReadsIff(s.pricing.rates, task.patch);
  }

  /** The worker waits only for missing settings, and otherwise ends the task one way or the other. */
  lemma RetriesExactlyWhen(steps: seq<Step>, env: Env)
    requires Legal(steps) && EnvOk(After(steps), env) && env.due.Some?
    ensures var s := After(steps); var d := env.due.value;
      && d in s.queue.slots && s.queue.slots[d].task in s.queue.tasks
      && var task := s.queue.tasks[s.queue.slots[d].task];
        Apply(s, env).1 == Retry <==>
          Stands(env, task) && |History(s.pricing, d)| == task.expectedBase && d !in s.pricing.rest
  {
    RunKeepsInv(steps);
    assert SlotOk(After(steps).queue, env.due.value);
    RetryIff(After(steps), env, env.due.value);
  }

  lemma RetryIff(s: State, env: Env, d: string)
    requires env.due == Some(d) && d in s.queue.slots && SlotOk(s.queue, d)
    ensures var task := s.queue.tasks[s.queue.slots[d].task];
      Apply(s, env).1 == Retry <==>
        Stands(env, task) && |History(s.pricing, d)| == task.expectedBase && d !in s.pricing.rest
  {
  }

  /** The rows and the version that an applied task leaves. */
  ghost predicate Repriced(before: Pricing, after: Pricing, task: Task) {
    && after.channels == before.channels && after.rest == before.rest
    && after.rates.Keys == before.rates.Keys
    && (forall i :: 0 <= i < |task.patch| ==>
          && task.patch[i].key in after.rates
          && var c := task.patch[i];
            after.rates[c.key] == RateRow(c.after.upstream, c.after.multiplier, c.after.discount, task.effectiveAt))
    && (forall key :: key in before.rates && (forall i :: 0 <= i < |task.patch| ==> task.patch[i].key != key) ==>
          after.rates[key] == before.rates[key])
    && (forall d :: d != task.domain ==> History(after, d) == History(before, d))
    && History(after, task.domain) == History(before, task.domain) + [Version(task.target, task.effectiveAt)]
    && Freezes(after, task.domain, task.target)
  }

  /** An applied task writes exactly its rows and appends exactly the version it was approved for; any
      other run leaves every price as it was. */
  lemma ApplyReprices(steps: seq<Step>, env: Env)
    requires Legal(steps) && EnvOk(After(steps), env)
    ensures var s := After(steps); var (t, outcome) := Apply(s, env);
      if outcome == NewVersion then
        && env.due.Some? && env.due.value in s.queue.slots && s.queue.slots[env.due.value].task in s.queue.tasks
        && Repriced(s.pricing, t.pricing, s.queue.tasks[s.queue.slots[env.due.value].task])
      else t.pricing == s.pricing
  {
    var s := After(steps);
    ApplyIsAtomic(steps, env);
    if Apply(s, env).1 == NewVersion {
      ExactlySays(s.pricing, Apply(s, env).0.pricing, s.queue.tasks[s.queue.slots[env.due.value].task]);
    }
  }

  lemma ExactlySays(before: Pricing, after: Pricing, task: Task)
    requires Exactly(before, after, task)
    ensures Repriced(before, after, task)
  {
    FreezesIff(after, task.domain, task.target);
    RowsSay(before.rates, after.rates, task);
  }

  lemma RowsSay(before: map<RateKey, RateRow>, after: map<RateKey, RateRow>, task: Task)
    requires RowsExactly(before, after, task)
    ensures after.Keys == before.Keys
    ensures forall i :: 0 <= i < |task.patch| ==>
      && task.patch[i].key in after
      && var c := task.patch[i];
        after[c.key] == RateRow(c.after.upstream, c.after.multiplier, c.after.discount, task.effectiveAt)
    ensures forall key :: key in before && (forall i :: 0 <= i < |task.patch| ==> task.patch[i].key != key) ==>
      after[key] == before[key]
  {
  }

  // Decisions.

  /** A request that can be decided at all. */
  predicate WellFormed(r: Request) {
    && (r.action == Approve || r.action == Reject ==> r.expectedStatus == Pending)
    && (r.action == Rollback ==> r.expectedStatus == Applied)
    && 1 <= |r.idempotencyKey| && |r.idempotencyKey| <= 64 && 1 <= |r.reason| && |r.reason| <= 512
    && (r.action == Reject || (r.effectiveFrom >= 0 && r.effectiveFrom % 3600 == 0))
  }

  /** at is the first whole hour after now. */
  predicate NextHour(at: int, now: int) { at % 3600 == 0 && now < at && at <= now + 3600 }

  lemma NextHourIff(at: int, now: int)
    ensures at == NextWholeHour(now) <==> NextHour(at, now)
  {
    WholeHour(now);
  }

  /** What is already decided under the request's key is the request itself. */
  predicate Repeats(s: State, key: string, r: Request) {
    var event := Event(key, FromUser(r.idempotencyKey));
    event in s.events && s.events[event] == r && key in s.queue.proposals
  }

  /** When a new decision takes effect: at the hour it names, or at the first one after it was sent. */
  function EffectiveAt(env: Env, r: Request): int {
    if r.effectiveFrom != 0 then r.effectiveFrom else env.requestedAt + 3600 - env.requestedAt % 3600
  }

  /** The approved task a rollback undoes. */
  predicate IsOriginal(s: State, env: Env, key: string, p: Proposal) {
    && p.appliedVersion >= 1 && env.applied.Some? && env.applied.value in s.queue.tasks
    && var original := s.queue.tasks[env.applied.value];
      && original.proposal == key && original.action == Approve && original.status == Done
      && original.appliedVersion == p.appliedVersion && Readable(original.patch)
  }

  /** The patch a decision schedules, and the version it is planned on. */
  ghost predicate PlansWith(s: State, env: Env, key: string, p: Proposal, r: Request, patch: seq<Change>, base: int) {
    if r.action == Approve then
      && r.expectedBase == p.baseVersion && r.expectedDigest == p.digest && env.evidenceFresh
      && BuildPatch(p.proposed, env.rows) == Ok(patch) && base == p.baseVersion
    else
      && IsOriginal(s, env, key, p) && base == p.appliedVersion
      && |patch| == |s.queue.tasks[env.applied.value].patch|
      && forall i :: 0 <= i < |patch| ==>
            && patch[i].key == s.queue.tasks[env.applied.value].patch[i].key
            && patch[i].before == s.queue.tasks[env.applied.value].patch[i].after
            && patch[i].after == s.queue.tasks[env.applied.value].patch[i].before
  }

  /** The same key was not used for the proposal before. */
  predicate FreshKey(s: State, key: string, r: Request) {
    forall id :: id in s.queue.tasks && s.queue.tasks[id].proposal == key ==>
        id.request.idempotencyKey != r.idempotencyKey
  }

  ghost predicate MaySchedule(s: State, env: Env, key: string, p: Proposal, r: Request, patch: seq<Change>, base: int) {
    && NextHour(EffectiveAt(env, r), env.now)
    && p.domain in env.accounts && env.accounts[p.domain] == p.epoch && p.hmacKey == env.hmacKey
    && PlansWith(s, env, key, p, r, patch, base)
    && |History(s.pricing, p.domain)| == base && p.domain in s.pricing.rest
    && 1 <= |patch| <= 2000
    && (forall i, j :: 0 <= i < j < |patch| ==> patch[i].key != patch[j].key)
    && (forall i :: 0 <= i < |patch| ==>
          && patch[i].key in s.pricing.rates && patch[i].key.channel in s.pricing.channels
          && s.pricing.channels[patch[i].key.channel] == p.domain)
    && FreshKey(s, key, r) && p.domain !in s.queue.slots
  }

  /** What a new decision needs. */
  ghost predicate MayDecide(s: State, env: Env, key: string, r: Request) {
    && WellFormed(r) && Event(key, FromUser(r.idempotencyKey)) !in s.events
    && key in s.queue.proposals
    && var p := s.queue.proposals[key];
      && p.domain in env.allowed && p.status == r.expectedStatus
      && (r.action == Reject || exists patch, base :: MaySchedule(s, env, key, p, r, patch, base))
  }

  lemma PlanIff(s: State, env: Env, key: string, p: Proposal, r: Request, patch: seq<Change>, base: int)
    requires r.action != Reject
    ensures PlansWith(s, env, key, p, r, patch, base) <==>
      (PlanFor(s.queue, env, key, p, r).Ok? && PlanFor(s.queue, env, key, p, r).value.patch == patch
        && PlanFor(s.queue, env, key, p, r).value.expectedBase == base)
    ensures PlanFor(s.queue, env, key, p, r).Ok? ==>
      PlanFor(s.queue, env, key, p, r).value.to == if r.action == Approve then Scheduled else RollbackScheduled
  {
    if r.action == Rollback && env.applied.Some? && env.applied.value in s.queue.tasks {
      var original := s.queue.tasks[env.applied.value].patch;
      ReadableIff(original);
      if PlansWith(s, env, key, p, r, patch, base) { assert patch == Reverse(original); }
    }
  }

  lemma TargetIff(g: Pricing, d: string, patch: seq<Change>)
    ensures (Current(g, d).Ok? && TargetOf(Current(g, d).value, patch).Ok?) <==>
      && d in g.rest && (forall i, j :: 0 <= i < j < |patch| ==> patch[i].key != patch[j].key)
      && forall i :: 0 <= i < |patch| ==>
            && patch[i].key in g.rates && patch[i].key.channel in g.channels
            && g.channels[patch[i].key.channel] == d
  {
    if Current(g, d).Ok? {
      FreezesIff(g, d, Current(g, d).value);
      assert AllIn(patch, Current(g, d).value.rates) <==> forall i :: 0 <= i < |patch| ==>
          && patch[i].key in g.rates && patch[i].key.channel in g.channels
          && g.channels[patch[i].key.channel] == d;
    }
  }

  lemma ScheduleIff(s: State, env: Env, key: string, p: Proposal, r: Request, plan: Plan)
    requires key in s.queue.proposals
    ensures Schedule(s, env, key, p, r, plan).Ok? <==>
      && |History(s.pricing, p.domain)| == plan.expectedBase && p.domain in s.pricing.rest
      && 1 <= |plan.patch| <= 2000
      && (forall i, j :: 0 <= i < j < |plan.patch| ==> plan.patch[i].key != plan.patch[j].key)
      && (forall i :: 0 <= i < |plan.patch| ==>
            && plan.patch[i].key in s.pricing.rates && plan.patch[i].key.channel in s.pricing.channels
            && s.pricing.channels[plan.patch[i].key.channel] == p.domain)
      && FreshKey(s, key, r) && p.domain !in s.queue.slots
  {
    TargetIff(s.pricing, p.domain, plan.patch);
  }

  lemma ScheduledIff(s: State, env: Env, key: string, r: Request)
    requires key in s.queue.proposals && r.action != Reject
    ensures var p := s.queue.proposals[key]; var plan := PlanFor(s.queue, env, key, p, r);
      (exists patch, base :: MaySchedule(s, env, key, p, r, patch, base)) <==>
        && EffectiveFrom(env, r) == NextWholeHour(env.now)
        && p.domain in env.accounts && env.accounts[p.domain] == p.epoch && p.hmacKey == env.hmacKey
        && plan.Ok? && Schedule(s, env, key, p, r, plan.value).Ok?
  {
    var p := s.queue.proposals[key];
    var plan := PlanFor(s.queue, env, key, p, r);
    NextHourIff(EffectiveAt(env, r), env.now);
    forall patch, base
      ensures PlansWith(s, env, key, p, r, patch, base) <==>
        plan.Ok? && plan.value.patch == patch && plan.value.expectedBase == base
    {
      PlanIff(s, env, key, p, r, patch, base);
    }
    if plan.Ok? {
      ScheduleIff(s, env, key, p, r, plan.value);
      if Schedule(s, env, key, p, r, plan.value).Ok? && NextHour(EffectiveAt(env, r), env.now)
        && p.domain in env.accounts && env.accounts[p.domain] == p.epoch && p.hmacKey == env.hmacKey {
        assert MaySchedule(s, env, key, p, r, plan.value.patch, plan.value.expectedBase);
      }
    }
  }

  lemma NewDecisionIff(s: State, env: Env, key: string, r: Request)
    requires Event(key, FromUser(r.idempotencyKey)) !in s.events
    ensures Decide(s, env, key, r).Ok? <==> MayDecide(s, env, key, r)
  {
    if key in s.queue.proposals && r.action != Reject { ScheduledIff(s, env, key, r); }
  }

  /** A decision is accepted exactly when it repeats one under the same key, or is new and everything
      it was made on still holds: evidence, base version, account, rows and a free slot. */
  lemma DecidesExactlyWhen(s: State, env: Env, key: string, r: Request)
    ensures Decide(s, env, key, r).Ok? <==> (WellFormed(r) && Repeats(s, key, r)) || MayDecide(s, env, key, r)
  {
    if Event(key, FromUser(r.idempotencyKey)) !in s.events { NewDecisionIff(s, env, key, r); }
  }

  // What a decision leaves.

  /** A rejection changes the proposal and is recorded. */
  ghost predicate Rejects(s: State, t: State, key: string, r: Request) {
    && key in s.queue.proposals
    && t == s.(
          queue := s.queue.(proposals :=
              s.queue.proposals[key := s.queue.proposals[key].(status := Rejected)]),
          events := s.events[Event(key, FromUser(r.idempotencyKey)) := r])
  }

  /** Approving and rolling back only schedule: the proposal waits, a task with the plan takes the
      domain's slot at the next whole hour, and no price moves. */
  ghost predicate Schedules(s: State, t: State, env: Env, key: string, r: Request) {
    && key in s.queue.proposals
    && var p, id, at := s.queue.proposals[key], TaskId(key, r), EffectiveAt(env, r);
      && NextHour(at, env.now) && t.pricing == s.pricing
      && t.queue.proposals == s.queue.proposals[key := p.(
            status := if r.action == Approve then ProposalStatus.Scheduled else RollbackScheduled)]
      && t.queue.slots == s.queue.slots[p.domain := Slot(id, at, env.now)]
      && t.events == s.events[Event(key, FromUser(r.idempotencyKey)) := r]
      && id in t.queue.tasks && t.queue.tasks == s.queue.tasks[id := t.queue.tasks[id]]
      && var task := t.queue.tasks[id];
        && PlansWith(s, env, key, p, r, task.patch, task.expectedBase)
        && |History(s.pricing, p.domain)| == task.expectedBase
        && Freezes(s.pricing, p.domain, task.expectedCurrent)
        && Patched(task.expectedCurrent, task.patch, task.target)
        && task == Task(key, p.domain, p.epoch, p.hmacKey, r.action, Waiting, task.expectedBase,
              task.expectedCurrent, task.patch, task.target, at, 0)
  }

  /** The target is the current snapshot with the patched rates in it. */
  ghost predicate Patched(current: Snapshot, patch: seq<Change>, target: Snapshot) {
    && target.rest == current.rest && target.rates.Keys == current.rates.Keys
    && (forall i :: 0 <= i < |patch| ==>
          && patch[i].key in target.rates
          && var r := patch[i].after;
            target.rates[patch[i].key] == Rate(r.upstream, r.multiplier, Factor(r.discount)))
    && forall key :: key in current.rates && (forall i :: 0 <= i < |patch| ==> patch[i].key != key) ==>
          key in target.rates && target.rates[key] == current.rates[key]
  }

  lemma TargetSays(current: Snapshot, patch: seq<Change>, target: Snapshot)
    requires TargetOf(current, patch) == Ok(target)
    ensures Patched(current, patch, target)
  {
    RewrittenIsExact(current.rates, patch);
  }

  lemma ScheduleSays(s: State, env: Env, key: string, p: Proposal, r: Request, plan: Plan)
    requires key in s.queue.proposals && s.queue.proposals[key] == p && r.action != Reject
    requires PlanFor(s.queue, env, key, p, r) == Ok(plan) && Schedule(s, env, key, p, r, plan).Ok?
    requires EffectiveFrom(env, r) == NextWholeHour(env.now)
    ensures Schedules(s, Schedule(s, env, key, p, r, plan).value, env, key, r)
  {
    var t, id := Schedule(s, env, key, p, r, plan).value, TaskId(key, r);
    var task := t.queue.tasks[id];
    NextHourIff(EffectiveAt(env, r), env.now);
    PlanIff(s, env, key, p, r, task.patch, task.expectedBase);
    FreezesIff(s.pricing, p.domain, task.expectedCurrent);
    TargetSays(task.expectedCurrent, task.patch, task.target);
  }

  /** What an accepted decision does: nothing the second time, a rejection, or a schedule. */
  lemma DecideSays(s: State, env: Env, key: string, r: Request)
    requires Decide(s, env, key, r).Ok?
    ensures var t := Decide(s, env, key, r).value;
      if Event(key, FromUser(r.idempotencyKey)) in s.events then t == s
      else if r.action == Reject then Rejects(s, t, key, r)
      else Schedules(s, t, env, key, r)
  {
    if Event(key, FromUser(r.idempotencyKey)) !in s.events && r.action != Reject {
      var p := s.queue.proposals[key];
      ScheduleSays(s, env, key, p, r, PlanFor(s.queue, env, key, p, r).value);
    }
  }

  // Cancelling.

  /** Cancelling gives the proposal back the status it was decided in, frees the slot and ends the task. */
  ghost predicate Cancels(q: Queue, t: Queue, id: TaskId) {
    && id in q.tasks && q.tasks[id].proposal in q.proposals
    && var task := q.tasks[id];
      && t.proposals == q.proposals[task.proposal := q.proposals[task.proposal].(
            status := if task.action == Rollback then ProposalStatus.Applied else Pending)]
      && t.tasks == q.tasks[id := task.(status := Cancelled)]
      && task.domain in q.slots && q.slots[task.domain].task == id && t.slots == q.slots - {task.domain}
  }

  /** A task can be cancelled exactly while it waits, and again once it was cancelled. */
  lemma CancelSays(steps: seq<Step>, id: TaskId)
    requires Legal(steps)
    ensures var q := After(steps).queue; var cancelled := Cancel(q, id);
      && (cancelled.Ok? <==> id in q.tasks && (q.tasks[id].status == Waiting || q.tasks[id].status == Cancelled))
      && (cancelled.Ok? && q.tasks[id].status == Waiting ==> Cancels(q, cancelled.value, id))
      && (cancelled.Ok? && q.tasks[id].status == Cancelled ==> cancelled.value == q)
  {
    RunKeepsInv(steps);
    var q := After(steps).queue;
    if id in q.tasks {
      WaitingCanBeCancelled(steps, id);
      assert TaskOk(q, id);
      if q.tasks[id].status == Waiting { OneSlotPerTask(q, q.tasks[id].domain); }
    }
  }

  // Other writers.

  /** A manual save replaces the rows of the domain's channels and its settings; it adds a version,
      of the settings as they now stand, exactly when the last version is not already that. */
  ghost predicate Saves(
      g: Pricing, h: Pricing, d: string, rows: map<RateKey, RateRow>, rest: string, now: int, frozen: Snapshot)
  {
    && h.channels == g.channels && h.rest == g.rest[d := rest]
    && (forall key: RateKey :: key.channel in g.channels && g.channels[key.channel] == d ==>
          (key in h.rates <==> key in rows) && (key in rows ==> h.rates[key] == rows[key]))
    && (forall key: RateKey :: !(key.channel in g.channels && g.channels[key.channel] == d) ==>
          (key in h.rates <==> key in g.rates) && (key in g.rates ==> h.rates[key] == g.rates[key]))
    && Freezes(h, d, frozen)
    && (forall e :: e != d ==> History(h, e) == History(g, e))
    && var versions := History(g, d);
      History(h, d) ==
        if versions != [] && versions[|versions| - 1].snapshot == frozen then versions
        else versions + [Version(frozen, now)]
  }

  lemma SavedRowsSay(g: Pricing, d: string, rows: map<RateKey, RateRow>)
    ensures var rates := SavedRates(g, d, rows);
      && (forall key: RateKey :: key.channel in g.channels && g.channels[key.channel] == d ==>
            (key in rates <==> key in rows) && (key in rows ==> rates[key] == rows[key]))
      && forall key: RateKey :: !(key.channel in g.channels && g.channels[key.channel] == d) ==>
            (key in rates <==> key in g.rates) && (key in g.rates ==> rates[key] == g.rates[key])
  {
    assert forall c :: c in ChannelsOf(g, d) <==> c in g.channels && g.channels[c] == d;
  }

  lemma SavedVersionsSay(g: Pricing, d: string, rows: map<RateKey, RateRow>, rest: string, now: int)
    ensures var next := g.(rates := SavedRates(g, d, rows), rest := g.rest[d := rest]);
      && Current(next, d).Ok? && Saved(g, d, rows, rest, now).Ok?
      && var h, frozen := Saved(g, d, rows, rest, now).value, Current(next, d).value;
        && h == next.(versions := h.versions) && Current(h, d) == Ok(frozen)
        && (forall e :: e != d ==> History(h, e) == History(g, e))
        && var versions := History(g, d);
          History(h, d) ==
            if versions != [] && versions[|versions| - 1].snapshot == frozen then versions
            else versions + [Version(frozen, now)]
  {
    var next := g.(rates := SavedRates(g, d, rows), rest := g.rest[d := rest]);
    assert ChannelsOf(Saved(g, d, rows, rest, now).value, d) == ChannelsOf(next, d);
  }

  lemma SaveSays(s: State, d: string, rows: map<RateKey, RateRow>, rest: string, now: int)
    ensures Save(s, d, rows, rest, now).Ok? <==> d !in s.queue.slots
    ensures Save(s, d, rows, rest, now).Ok? ==>
      exists frozen :: Saves(s.pricing, Save(s, d, rows, rest, now).value, d, rows, rest, now, frozen)
  {
    SavedVersionsSay(s.pricing, d, rows, rest, now);
    if d !in s.queue.slots {
      var h := Saved(s.pricing, d, rows, rest, now).value;
      var frozen := Current(h, d).value;
      SavedRowsSay(s.pricing, d, rows);
      FreezesIff(h, d, frozen);
      assert Saves(s.pricing, h, d, rows, rest, now, frozen);
    }
  }

  /** A repair appends to a domain that has versions, and ends on the snapshot that was last. */
  lemma CorrectSays(g: Pricing, d: string, added: seq<Version>)
    ensures Correct(g, d, added).Ok? <==>
      History(g, d) != [] && added != [] && added[|added| - 1].snapshot == History(g, d)[|History(g, d)| - 1].snapshot
    ensures Correct(g, d, added).Ok? ==>
      var h := Correct(g, d, added).value;
      && h.rates == g.rates && h.channels == g.channels && h.rest == g.rest
      && History(h, d) == History(g, d) + added && forall e :: e != d ==> History(h, e) == History(g, e)
  {
  }
}
