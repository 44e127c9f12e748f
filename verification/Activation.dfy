/** Scheduled rate changes: a proposal is approved for the next whole hour, cancelled, applied,
    rolled back or ended by a conflict; one slot per domain; finance versions only grow. Every
    function below is one transaction and answers with the whole next state. */
module Activation {

  import opened Basics
  import opened RatePatch

  datatype ProposalStatus = Pending | Rejected | Scheduled | Applied | RollbackScheduled | RolledBack | Conflicted

  datatype TaskStatus = Waiting | Cancelled | Failed | Done

  datatype Action = Approve | Reject | Rollback

  datatype Proposal = Proposal(
    domain: string, epoch: string, hmacKey: string, proposed: Proposed, digest: string,
    baseVersion: int, appliedVersion: int, status: ProposalStatus)

  /** Everything a request hash covers. */
  datatype Request = Request(
    action: Action, expectedStatus: ProposalStatus, expectedBase: int, expectedDigest: string,
    idempotencyKey: string, reason: string, effectiveFrom: int)

  datatype TaskId = TaskId(proposal: string, request: Request)

  /** rest: every other setting the snapshot freezes. */
  datatype Snapshot = Snapshot(rest: string, rates: map<RateKey, Rate>)

  datatype Task = Task(
    proposal: string, domain: string, epoch: string, hmacKey: string, action: Action, status: TaskStatus,
    expectedBase: int, expectedCurrent: Snapshot, patch: seq<Change>, target: Snapshot,
    effectiveAt: int, appliedVersion: int)

  datatype Slot = Slot(task: TaskId, effectiveAt: int, createdAt: int)

  datatype Version = Version(snapshot: Snapshot, effectiveAt: int)

  datatype EventKey = FromUser(idempotencyKey: string) | FromWorker(task: TaskId)

  datatype Event = Event(proposal: string, key: EventKey)

  /** What waits, and for which proposals. */
  datatype Queue = Queue(proposals: map<string, Proposal>, tasks: map<TaskId, Task>, slots: map<string, Slot>)

  /** channels: the domain of each channel; versions: a domain's history, version 1 first. */
  datatype Pricing = Pricing(
    rates: map<RateKey, RateRow>, channels: map<int, string>, rest: map<string, string>,
    versions: map<string, seq<Version>>)

  datatype State = State(queue: Queue, pricing: Pricing, events: map<Event, Request>)

  /** What a transaction reads outside these tables: configuration, accounts, evidence, and the rows
      its queries return in order. */
  datatype Env = Env(
    now: int, requestedAt: int, allowed: set<string>, accounts: map<string, string>, hmacKey: string,
    evidenceFresh: bool, rows: seq<(RateKey, RateRow)>, applied: Option<TaskId>, due: Option<string>)

  const MAX_ROWS := 2_000

  function NextWholeHour(now: int): int { now - now % 3600 + 3600 }

  function VersionsOf(g: Pricing, domain: string): seq<Version> {
    if domain in g.versions then g.versions[domain] else []
  }

  function Latest(g: Pricing, domain: string): int { |VersionsOf(g, domain)| }

  function ChannelsOf(g: Pricing, domain: string): set<int> { set c | c in g.channels && g.channels[c] == domain }

  /** The snapshot of a domain's current settings; without the site settings there is none. */
  function Current(g: Pricing, domain: string): Result<Snapshot> {
    if domain !in g.rest then Err
    else Ok(Snapshot(g.rest[domain], Frozen(g.rates, ChannelsOf(g, domain))))
  }

  function TargetOf(current: Snapshot, patch: seq<Change>): Result<Snapshot> {
    var rates := Target(current.rates, patch);
    if rates.Err? then Err else Ok(current.(rates := rates.value))
  }

  predicate ValidRate(r: Rate) { ValidNumber(r.multiplier) && ValidNumber(r.discount) }

  predicate Decodes(patch: seq<Change>) {
    && 0 < |patch| <= MAX_ROWS
    && forall i :: 0 <= i < |patch| ==>
         patch[i].key.channel > 0 && Trim(patch[i].key.group) != "" && ValidRate(patch[i].before)
             && ValidRate(patch[i].after)
  }

  // Deciding.

  predicate IsApplied(q: Queue, key: string, version: int, id: TaskId) {
    && id in q.tasks && q.tasks[id].proposal == key && q.tasks[id].action == Approve && q.tasks[id].status == Done
    && q.tasks[id].appliedVersion == version
  }

  /** The answers of the queries are answers about this state. */
  ghost predicate EnvOk(s: State, env: Env) {
    var slots := s.queue.slots;
    && FromTable(s.pricing.rates, env.rows)
    && (env.due.Some? ==> env.due.value in slots && slots[env.due.value].effectiveAt <= env.now)
    && (env.due.Some? ==>
          forall d :: d in slots && slots[d].effectiveAt <= env.now ==> NotAfter(slots[env.due.value], slots[d]))
    && (env.due.None? ==> forall d :: d in slots ==> slots[d].effectiveAt > env.now)
  }

  /** Queue order: by effective time, then by creation. */
  predicate NotAfter(a: Slot, b: Slot) {
    a.effectiveAt < b.effectiveAt || (a.effectiveAt == b.effectiveAt && a.createdAt <= b.createdAt)
  }

  predicate ValidRequest(r: Request) {
    && ((r.action == Approve && r.expectedStatus == Pending) || (r.action == Reject && r.expectedStatus == Pending)
        || (r.action == Rollback && r.expectedStatus == Applied))
    && 0 < |r.idempotencyKey| <= 64 && 0 < |r.reason| <= 512
    && (r.action != Reject ==> r.effectiveFrom >= 0 && r.effectiveFrom % 3600 == 0)
  }

  function EffectiveFrom(env: Env, r: Request): int {
    if r.effectiveFrom == 0 then NextWholeHour(env.requestedAt) else r.effectiveFrom
  }

  datatype Plan = Plan(expectedBase: int, patch: seq<Change>, from: ProposalStatus, to: ProposalStatus)

  function PlanApproval(env: Env, p: Proposal, r: Request): Result<Plan> {
    if r.expectedBase != p.baseVersion || r.expectedDigest != p.digest || !env.evidenceFresh then Err
    else
      var patch := BuildPatch(p.proposed, env.rows);
      if patch.Err? then Err else Ok(Plan(p.baseVersion, patch.value, Pending, Scheduled))
  }

  function PlanRollback(q: Queue, env: Env, key: string, p: Proposal): Result<Plan> {
    if p.appliedVersion <= 0 || env.applied.None? || !IsApplied(q, key, p.appliedVersion, env.applied.value) then Err
    else
      var patch := q.tasks[env.applied.value].patch;
      if !Decodes(patch) then Err else Ok(Plan(p.appliedVersion, Reverse(patch), Applied, RollbackScheduled))
  }

  function PlanFor(q: Queue, env: Env, key: string, p: Proposal, r: Request): Result<Plan> {
    if r.action == Approve then PlanApproval(env, p, r) else PlanRollback(q, env, key, p)
  }

  predicate KeyTaken(q: Queue, key: string, idempotencyKey: string) {
    exists id :: id in q.tasks && q.tasks[id].proposal == key && id.request.idempotencyKey == idempotencyKey
  }

  /** Approving or rolling back only schedules: a task, the domain's slot and the proposal's status. */
  function Schedule(s: State, env: Env, key: string, p: Proposal, r: Request, plan: Plan): Result<State>
    requires key in s.queue.proposals
  {
    var q, current := s.queue, Current(s.pricing, p.domain);
    if current.Err? || Latest(s.pricing, p.domain) != plan.expectedBase then Err
    else
      var target := TargetOf(current.value, plan.patch);
      if target.Err? || !(0 < |plan.patch| <= MAX_ROWS) || KeyTaken(q, key, r.idempotencyKey)
         || p.domain in q.slots then
        Err
      else
        var id, at := TaskId(key, r), EffectiveFrom(env, r);
        var task := Task(key, p.domain, p.epoch, p.hmacKey, r.action, Waiting, plan.expectedBase, current.value,
                         plan.patch, target.value, at, 0);
        var next := Queue(q.proposals[key := p.(status := plan.to)], q.tasks[id := task],
                          q.slots[p.domain := Slot(id, at, env.now)]);
        Ok(s.(queue := next, events := s.events[Event(key, FromUser(r.idempotencyKey)) := r]))
  }

  function Decide(s: State, env: Env, key: string, r: Request): Result<State> {
    var event := Event(key, FromUser(r.idempotencyKey));
    if !ValidRequest(r) then Err
    else if event in s.events then (if s.events[event] == r && key in s.queue.proposals then Ok(s) else Err)
    else if r.action != Reject && EffectiveFrom(env, r) != NextWholeHour(env.now) then Err
    else if key !in s.queue.proposals then Err
    else
      var p := s.queue.proposals[key];
      if p.domain !in env.allowed || p.status != r.expectedStatus then Err
      else if r.action == Reject then
        Ok(s.(queue := s.queue.(proposals := s.queue.proposals[key := p.(status := Rejected)]),
          events := s.events[event := r]))
      else if p.domain !in env.accounts || env.accounts[p.domain] != p.epoch || p.hmacKey != env.hmacKey then Err
      else
        var plan := PlanFor(s.queue, env, key, p, r);
        if plan.Err? then Err else Schedule(s, env, key, p, r, plan.value)
  }

  // Ending a task.

  function WithoutSlotOf(slots: map<string, Slot>, id: TaskId): map<string, Slot> {
    map d | d in slots && slots[d].task != id :: slots[d]
  }

  function StatusWhile(action: Action): ProposalStatus { if action == Rollback then RollbackScheduled else Scheduled }

  function StatusBefore(action: Action): ProposalStatus { if action == Rollback then Applied else Pending }

  function StatusAfter(action: Action): ProposalStatus { if action == Rollback then RolledBack else Applied }

  function Cancel(q: Queue, id: TaskId): Result<Queue> {
    if id !in q.tasks then Err
    else
      var task := q.tasks[id];
      if task.status == Cancelled then Ok(q)
      else if task.status != Waiting then Err
      else if task.proposal !in q.proposals || q.proposals[task.proposal].status != StatusWhile(task.action) then Err
      else
        var p := q.proposals[task.proposal];
        Ok(Queue(q.proposals[task.proposal := p.(status := StatusBefore(task.action))],
                 q.tasks[id := task.(status := Cancelled)], WithoutSlotOf(q.slots, id)))
  }

  /** A conflict ends the task, its proposal and its slot, whatever each of them was. */
  function MarkConflict(q: Queue, id: TaskId): Queue
    requires id in q.tasks
  {
    var task, key := q.tasks[id], q.tasks[id].proposal;
    Queue(if key in q.proposals && q.proposals[key].status in {Scheduled, RollbackScheduled}
          then q.proposals[key := q.proposals[key].(status := Conflicted)] else q.proposals,
          if task.status == Waiting then q.tasks[id := task.(status := Failed)] else q.tasks,
          WithoutSlotOf(q.slots, id))
  }

  // Applying.

  datatype Outcome = Idle | Retry | OrphanRemoved | SlotMismatch | Refused | Recovered | NewVersion

  predicate AccountHolds(env: Env, task: Task) {
    && task.domain in env.allowed && task.domain in env.accounts
    && env.accounts[task.domain] == task.epoch && task.hmacKey == env.hmacKey
  }

  /** The checks before the first write. */
  predicate Approvable(g: Pricing, env: Env, task: Task) {
    && AccountHolds(env, task)
    && Latest(g, task.domain) == task.expectedBase
    && Current(g, task.domain) == Ok(task.expectedCurrent)
    && Decodes(task.patch)
    && TargetOf(task.expectedCurrent, task.patch) == Ok(task.target)
    && Matches(g.rates, task.patch)
  }

  /** The rates a task writes and the version it appends. */
  function Repriced(g: Pricing, task: Task): Pricing {
    g.(rates := Written(g.rates, task.patch, task.effectiveAt),
       versions := g.versions[task.domain := VersionsOf(g, task.domain) + [Version(task.target, task.effectiveAt)]])
  }

  /** The task is done and its proposal settled; the status checks can only fail after writing. */
  function Settle(q: Queue, id: TaskId, version: int): Result<Queue>
    requires id in q.tasks
  {
    var task := q.tasks[id];
    if task.proposal !in q.proposals || q.proposals[task.proposal].status != StatusWhile(task.action)
      || task.status != Waiting then Err
    else
      var p := q.proposals[task.proposal];
      Ok(Queue(q.proposals[task.proposal := p.(status := StatusAfter(task.action), appliedVersion := version)],
               q.tasks[id := task.(status := Done, appliedVersion := version)], WithoutSlotOf(q.slots, id)))
  }

  /** The writes, with the checks in between. */
  function Commit(s: State, id: TaskId): Result<State>
    requires id in s.queue.tasks
  {
    var task := s.queue.tasks[id];
    var pricing := Repriced(s.pricing, task);
    if Current(pricing, task.domain) != Ok(task.target) then Err
    else
      var queue := Settle(s.queue, id, Latest(pricing, task.domain));
      if queue.Err? then Err
      else Ok(State(queue.value, pricing, s.events[Event(task.proposal, FromWorker(id)) := id.request]))
  }

  /** One run of the worker over the earliest due slot. Without the domain's site settings the run
      fails and the slot stays for the next one. */
  function Apply(s: State, env: Env): (State, Outcome) {
    var q := s.queue;
    if env.due.None? || env.due.value !in q.slots then (s, Idle)
    else
      var domain := env.due.value;
      var slot := q.slots[domain];
      if slot.task !in q.tasks then (s.(queue := q.(slots := q.slots - {domain})), OrphanRemoved)
      else
        var task := q.tasks[slot.task];
        if task.status != Waiting || task.domain != domain || task.effectiveAt != slot.effectiveAt then
          (s.(queue := MarkConflict(q, slot.task)), SlotMismatch)
        else if AccountHolds(env, task) && Latest(s.pricing, domain) == task.expectedBase
          && Current(s.pricing, domain).Err? then
          (s, Retry)
        else if !Approvable(s.pricing, env, task) then (s.(queue := MarkConflict(q, slot.task)), Refused)
        else
          var committed := Commit(s, slot.task);
          if committed.Err? then (s.(queue := MarkConflict(q, slot.task)), Recovered) else (committed.value, NewVersion)
  }

  // Other writers.

  /** The domain's own rows are replaced, the rows of other domains stay. */
  function SavedRates(g: Pricing, domain: string, rows: map<RateKey, RateRow>): map<RateKey, RateRow> {
    var mine := ChannelsOf(g, domain);
    map key | key in g.rates.Keys + rows.Keys && (if key.channel in mine then key in rows else key in g.rates) ::
      if key.channel in mine then rows[key] else g.rates[key]
  }

  /** A manual save of a domain's settings: a new version exactly when the normalized snapshot changed. */
  function Saved(g: Pricing, domain: string, rows: map<RateKey, RateRow>, rest: string, now: int): Result<Pricing> {
    var next := g.(rates := SavedRates(g, domain, rows), rest := g.rest[domain := rest]);
    var current, versions := Current(next, domain), VersionsOf(g, domain);
    if current.Err? then Err
    else if versions != [] && versions[|versions| - 1].snapshot == current.value then Ok(next)
    else Ok(next.(versions := g.versions[domain := versions + [Version(current.value, now)]]))
  }

  /** Refused while a task waits for the domain. */
  function Save(s: State, domain: string, rows: map<RateKey, RateRow>, rest: string, now: int): Result<Pricing> {
    if domain in s.queue.slots then Err else Saved(s.pricing, domain, rows, rest, now)
  }

  /** The repair of a past recharge ratio, or its compensation, appends corrected rows and, as the last
      one, the current snapshot again. It does not read the slots. */
  function Correct(g: Pricing, domain: string, added: seq<Version>): Result<Pricing> {
    var versions := VersionsOf(g, domain);
    if versions == [] || added == [] || added[|added| - 1].snapshot != versions[|versions| - 1].snapshot then Err
    else Ok(g.(versions := g.versions[domain := versions + added]))
  }

  function Propose(q: Queue, key: string, p: Proposal): Result<Queue> {
    if key in q.proposals || p.status != Pending then Err else Ok(q.(proposals := q.proposals[key := p]))
  }

  datatype Step =
    | DoDecide(env: Env, key: string, request: Request)
    | DoCancel(id: TaskId)
    | DoApply(env: Env)
    | DoSave(domain: string, rows: map<RateKey, RateRow>, rest: string, now: int)
    | DoPropose(key: string, proposal: Proposal)
    | DoCorrect(domain: string, added: seq<Version>)
    | Drift(rates: map<RateKey, RateRow>, channels: map<int, string>, settings: map<string, string>)

  /** A step; a transaction that fails changes nothing. Drift is any other change of rates, of the
      channels of a domain and of settings. */
  function Do(s: State, step: Step): State {
    match step
    case DoDecide(env, key, r) => Kept(s, Decide(s, env, key, r))
    case DoCancel(id) => s.(queue := Kept(s.queue, Cancel(s.queue, id)))
    case DoApply(env) => Apply(s, env).0
    case DoSave(domain, rows, rest, now) => s.(pricing := Kept(s.pricing, Save(s, domain, rows, rest, now)))
    case DoPropose(key, p) => s.(queue := Kept(s.queue, Propose(s.queue, key, p)))
    case DoCorrect(domain, added) => s.(pricing := Kept(s.pricing, Correct(s.pricing, domain, added)))
    case Drift(rates, channels, settings) =>
      s.(pricing := s.pricing.(rates := rates, channels := channels, rest := settings))
  }

  function Kept<T>(before: T, r: Result<T>): T { if r.Ok? then r.value else before }

  const INITIAL := State(Queue(map[], map[], map[]), Pricing(map[], map[], map[], map[]), map[])

  /** Every query answers truthfully at its step. */
  ghost predicate Truthful(s: State, step: Step) {
    match step
    case DoDecide(env, _, _) => EnvOk(s, env)
    case DoApply(env) => EnvOk(s, env)
    case _ => true
  }

  ghost predicate Legal(steps: seq<Step>) {
    steps == [] || (Legal(steps[..|steps| - 1]) && Truthful(After(steps[..|steps| - 1]), steps[|steps| - 1]))
  }

  function After(steps: seq<Step>): State {
    if steps == [] then INITIAL else Do(After(steps[..|steps| - 1]), steps[|steps| - 1])
  }
}
