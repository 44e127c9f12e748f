/** The same transactions as the service runs them: tables updated step by step, and rolled back as a
    whole when a later step fails. */
module ActivationDesk {

  import opened Basics
  import opened RatePatch
  import A = Activation
  import opened Activation

  class Desk {
    var proposals: map<string, Proposal>
    var tasks: map<TaskId, Task>
    var slots: map<string, Slot>
    var rates: map<RateKey, RateRow>
    var channels: map<int, string>
    var rest: map<string, string>
    var versions: map<string, seq<Version>>
    var events: map<Event, Request>

    function Pending(): Queue
      reads `proposals, `tasks, `slots
    {
      Queue(proposals, tasks, slots)
    }

    function Prices(): Pricing
      reads `rates, `channels, `rest, `versions
    {
      Pricing(rates, channels, rest, versions)
    }

    function Tables(): State
      reads this
    {
      State(Pending(), Prices(), events)
    }

    constructor ()
      ensures Tables() == INITIAL
    {
      proposals, tasks, slots, events := map[], map[], map[], map[];
      rates, channels, rest, versions := map[], map[], map[], map[];
    }

    method Restore(s: State)
      modifies this
      ensures Tables() == s
    {
      proposals, tasks, slots, events := s.queue.proposals, s.queue.tasks, s.queue.slots, s.events;
      rates, channels, rest, versions := s.pricing.rates, s.pricing.channels, s.pricing.rest, s.pricing.versions;
    }

    /** A decision on a proposal; a repeated request answers without a change. */
    method Decide(env: Env, key: string, r: Request) returns (ok: bool)
      modifies this
      ensures ok == A.Decide(old(Tables()), env, key, r).Ok?
      ensures Tables() == Kept(old(Tables()), A.Decide(old(Tables()), env, key, r))
    {
      var event := Event(key, FromUser(r.idempotencyKey));
      if !ValidRequest(r) { return false; }
      if event in events { return events[event] == r && key in proposals; }
      if r.action != Reject && EffectiveFrom(env, r) != NextWholeHour(env.now) { return false; }
      if key !in proposals { return false; }
      var p := proposals[key];
      if p.domain !in env.allowed || p.status != r.expectedStatus { return false; }
      if r.action == Reject {
        proposals := proposals[key := p.(status := Rejected)];
        events := events[event := r];
        return true;
      }
      if p.domain !in env.accounts || env.accounts[p.domain] != p.epoch || p.hmacKey != env.hmacKey { return false; }
      var plan := PlanFor(Pending(), env, key, p, r);
      if plan.Err? { return false; }
      ok := Enqueue(env, key, p, r, plan.value);
    }

    method Enqueue(env: Env, key: string, p: Proposal, r: Request, plan: Plan) returns (ok: bool)
      requires key in proposals
      modifies this
      ensures ok == Schedule(old(Tables()), env, key, p, r, plan).Ok?
      ensures Tables() == Kept(old(Tables()), Schedule(old(Tables()), env, key, p, r, plan))
    {
      if Latest(Prices(), p.domain) != plan.expectedBase { return false; }
      var current := Current(Prices(), p.domain);
      if current.Err? { return false; }
      var target := TargetOf(current.value, plan.patch);
      if target.Err? || plan.patch == [] || |plan.patch| > MAX_ROWS { return false; }
      if KeyTaken(Pending(), key, r.idempotencyKey) || p.domain in slots { return false; }
      var id, at := TaskId(key, r), EffectiveFrom(env, r);
      tasks := tasks[id := Task(key, p.domain, p.epoch, p.hmacKey, r.action, Waiting, plan.expectedBase, current.value,
                                plan.patch, target.value, at, 0)];
      slots := slots[p.domain := Slot(id, at, env.now)];
      proposals := proposals[key := p.(status := plan.to)];
      events := events[Event(key, FromUser(r.idempotencyKey)) := r];
      return true;
    }

    method Cancel(id: TaskId) returns (ok: bool)
      modifies `proposals, `tasks, `slots
      ensures ok == A.Cancel(old(Pending()), id).Ok?
      ensures Pending() == Kept(old(Pending()), A.Cancel(old(Pending()), id))
    {
      if id !in tasks { return false; }
      var task := tasks[id];
      if task.status == Cancelled { return true; }
      if task.status != Waiting { return false; }
      var before := tasks;
      tasks := tasks[id := task.(status := Cancelled)];
      if task.proposal !in proposals || proposals[task.proposal].status != StatusWhile(task.action) {
        tasks := before;
        return false;
      }
      proposals := proposals[task.proposal := proposals[task.proposal].(status := StatusBefore(task.action))];
      slots := WithoutSlotOf(slots, id);
      return true;
    }

    method MarkConflict(id: TaskId)
      requires id in tasks
      modifies `proposals, `tasks, `slots
      ensures Pending() == A.MarkConflict(old(Pending()), id)
    {
      var key := tasks[id].proposal;
      if tasks[id].status == Waiting { tasks := tasks[id := tasks[id].(status := Failed)]; }
      if key in proposals && proposals[key].status in {Scheduled, RollbackScheduled} {
        proposals := proposals[key := proposals[key].(status := Conflicted)];
      }
      slots := WithoutSlotOf(slots, id);
    }

    /** All rows are compared before the first is written. */
    method WritePatch(patch: seq<Change>, at: int) returns (ok: bool)
      modifies `rates
      ensures ok <==> Matches(old(rates), patch)
      ensures rates == if ok then Written(old(rates), patch, at) else old(rates)
    {
      var table := new RateTable(rates);
      ok := table.ApplyPatch(patch, at);
      rates := table.rates;
    }

    /** The writes to the pricing tables, with the check of the snapshot in between. */
    method WritePricing(task: Task) returns (ok: bool)
      requires Matches(rates, task.patch)
      modifies `rates, `versions
      ensures ok == (Current(Repriced(old(Prices()), task), task.domain) == Ok(task.target))
      ensures ok ==> Prices() == Repriced(old(Prices()), task)
    {
      var written := WritePatch(task.patch, task.effectiveAt);
      ghost var repriced := Repriced(old(Prices()), task);
      assert Prices().rates == repriced.rates && ChannelsOf(Prices(), task.domain) == ChannelsOf(repriced, task.domain);
      if Current(Prices(), task.domain) != Ok(task.target) { return false; }
      versions := versions[task.domain := VersionsOf(Prices(), task.domain) + [Version(task.target, task.effectiveAt)]];
      return true;
    }

    /** The writes to the queue. */
    method SettleTask(id: TaskId, version: int) returns (ok: bool)
      requires id in tasks
      modifies `proposals, `tasks, `slots
      ensures ok == Settle(old(Pending()), id, version).Ok?
      ensures ok ==> Pending() == Settle(old(Pending()), id, version).value
    {
      var task := tasks[id];
      if task.proposal !in proposals || proposals[task.proposal].status != StatusWhile(task.action) { return false; }
      proposals :=
        proposals[task.proposal := proposals[task.proposal].(status := StatusAfter(task.action),
            appliedVersion := version)];
      if task.status != Waiting { return false; }
      tasks := tasks[id := task.(status := Done, appliedVersion := version)];
      slots := WithoutSlotOf(slots, id);
      return true;
    }

    /** The writes of an approvable task; fails, after some of them, only by the checks in between. */
    method WriteTask(id: TaskId) returns (ok: bool)
      requires id in tasks && Matches(rates, tasks[id].patch)
      modifies this
      ensures ok == Commit(old(Tables()), id).Ok?
      ensures ok ==> Tables() == Commit(old(Tables()), id).value
    {
      var task := tasks[id];
      var priced := WritePricing(task);
      if !priced { return false; }
      ok := SettleTask(id, Latest(Prices(), task.domain));
      if ok { events := events[Event(task.proposal, FromWorker(id)) := id.request]; }
    }

    /** One run of the worker. A failure after the first write rolls everything back, and a second
        transaction marks the conflict. */
    method ApplyDue(env: Env) returns (outcome: Outcome)
      modifies this
      ensures (Tables(), outcome) == Apply(old(Tables()), env)
    {
      if env.due.None? || env.due.value !in slots { return Idle; }
      var domain := env.due.value;
      var slot := slots[domain];
      if slot.task !in tasks {
        slots := slots - {domain};
        return OrphanRemoved;
      }
      var task := tasks[slot.task];
      if task.status != Waiting || task.domain != domain || task.effectiveAt != slot.effectiveAt {
        MarkConflict(slot.task);
        return SlotMismatch;
      }
      if AccountHolds(env, task) && Latest(Prices(), domain) == task.expectedBase && Current(Prices(), domain).Err? {
        return Retry;
      }
      if !Approvable(Prices(), env, task) {
        MarkConflict(slot.task);
        return Refused;
      }
      var before := Tables();
      var done := WriteTask(slot.task);
      if done { return NewVersion; }
      Restore(before);
      MarkConflict(slot.task);
      return Recovered;
    }
  }
}
