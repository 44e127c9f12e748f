/** How old an answer of the usage cache can be: over any run every version handed out was the
    source's own when it was asked for, and nothing cached is handed out past the lifetime of the fill
    it goes back to, in either tier. */
module CacheLifetimes {

  import opened Basics
  import opened UsageCacheProtocol

  /** Step i of the run asked the source and got this version. */
  ghost predicate AskedAt(p: Params, steps: seq<Step>, version: int, i: nat) {
    i < |steps| && steps[i].CallSource? && Run(p, steps[..i]).Some? && Run(p, steps[..i]).value.source == version
  }

  ghost predicate Asked(p: Params, steps: seq<Step>, version: int) { exists i: nat :: AskedAt(p, steps, version, i) }

  /** Step i of the run filled the cache with this version, to live until a time. */
  ghost predicate FilledAt(p: Params, steps: seq<Step>, version: int, until: int, i: nat) {
    && i < |steps| && steps[i].PutFill? && steps[i].ttl <= p.maxTtl && Run(p, steps[..i]).Some?
    && var s := Run(p, steps[..i]).value;
      s.gate.Some? && s.gate.value.phase == Filled(version, false) && until == s.now + steps[i].ttl
  }

  /** A record that some fill of the run stands behind: it lives no longer than that fill. */
  ghost predicate Backed(p: Params, steps: seq<Step>, r: Record) {
    Asked(p, steps, r.version)
    && exists i: nat, until: int :: FilledAt(p, steps, r.version, until, i) && r.until <= until
  }

  /** A local copy is fresh for at most a minute after the step that put it there. */
  ghost predicate PutAt(p: Params, steps: seq<Step>, r: Record, i: nat) {
    i < |steps| && (steps[i].PutFill? || steps[i].KeepRemoteHit?) && Run(p, steps[..i]).Some?
        && r.until <= Run(p, steps[..i]).value.now + 60_000_000_000
  }

  ghost predicate Recent(p: Params, steps: seq<Step>, r: Record) { exists i: nat :: PutAt(p, steps, r, i) }

  lemma LongerAsked(p: Params, steps: seq<Step>, step: Step, version: int)
    requires Asked(p, steps, version)
    ensures Asked(p, steps + [step], version)
  {
    var i: nat :| AskedAt(p, steps, version, i);
    assert (steps + [step])[..i] == steps[..i];
    assert AskedAt(p, steps + [step], version, i);
  }

  lemma LongerBacked(p: Params, steps: seq<Step>, step: Step, r: Record)
    requires Backed(p, steps, r)
    ensures Backed(p, steps + [step], r)
  {
    LongerAsked(p, steps, step, r.version);
    var i: nat, until: int :| FilledAt(p, steps, r.version, until, i) && r.until <= until;
    assert (steps + [step])[..i] == steps[..i];
    assert FilledAt(p, steps + [step], r.version, until, i);
  }

  lemma LongerRecent(p: Params, steps: seq<Step>, step: Step, r: Record)
    requires Recent(p, steps, r)
    ensures Recent(p, steps + [step], r)
  {
    var i: nat :| PutAt(p, steps, r, i);
    assert (steps + [step])[..i] == steps[..i];
    assert PutAt(p, steps + [step], r, i);
  }

  /** The result a phase carries, if it carries one that did not go through the cache. */
  function ResultOf(phase: Phase): Option<int> {
    match phase
    case Filled(version, _) => Some(version)
    case MustBlock(_, next) => ResultOf(next)
    case BlockSampled(_, _, next) => ResultOf(next)
    case Removing(_, result) => result
    case RemovingRemote(_, result) => result
    case Removed(result) => result
    case Leaving(result) => result
    case _ => None
  }

  function RecordOf(phase: Phase): Option<Record> {
    match phase
    case GotRemote(hit) => Some(hit)
    case Published(record) => Some(record)
    case MustBlock(_, next) => RecordOf(next)
    case BlockSampled(_, _, next) => RecordOf(next)
    case _ => None
  }

  ghost predicate HolderBacked(p: Params, steps: seq<Step>, phase: Phase) {
    && (ResultOf(phase).Some? ==> Asked(p, steps, ResultOf(phase).value))
    && (RecordOf(phase).Some? ==> Backed(p, steps, RecordOf(phase).value))
  }

  ghost predicate TiersBacked(p: Params, steps: seq<Step>, s: State) {
    && (s.local.Some? ==> Backed(p, steps, s.local.value) && Recent(p, steps, s.local.value))
    && (s.remote.Some? ==> Backed(p, steps, s.remote.value))
  }

  ghost predicate AllBacked(p: Params, steps: seq<Step>, s: State) {
    TiersBacked(p, steps, s) && (s.gate.Some? ==> HolderBacked(p, steps, s.gate.value.phase))
  }

  lemma LongerHolder(p: Params, steps: seq<Step>, step: Step, phase: Phase)
    requires HolderBacked(p, steps, phase)
    ensures HolderBacked(p, steps + [step], phase)
  {
    if ResultOf(phase).Some? { LongerAsked(p, steps, step, ResultOf(phase).value); }
    if RecordOf(phase).Some? { LongerBacked(p, steps, step, RecordOf(phase).value); }
  }

  lemma LongerTiers(p: Params, steps: seq<Step>, step: Step, s: State)
    requires TiersBacked(p, steps, s)
    ensures TiersBacked(p, steps + [step], s)
  {
    if s.local.Some? {
      LongerBacked(p, steps, step, s.local.value);
      LongerRecent(p, steps, step, s.local.value);
    }
    if s.remote.Some? { LongerBacked(p, steps, step, s.remote.value); }
  }

  lemma OutsideKeepsTiers(p: Params, s: State, step: Step)
    requires DoOutside(p, s, step).Some?
    ensures var t := DoOutside(p, s, step).value;
      && (t.local == s.local || t.local == None) && t.remote == s.remote
      && (t.gate == s.gate
          || (t.gate.Some? && ResultOf(t.gate.value.phase).None? && RecordOf(t.gate.value.phase).None?))
  {
  }

  lemma OutsideBacked(p: Params, steps: seq<Step>, s: State, step: Step)
    requires AllBacked(p, steps, s) && DoOutside(p, s, step).Some?
    ensures AllBacked(p, steps + [step], DoOutside(p, s, step).value)
  {
    LongerTiers(p, steps, step, s);
    if s.gate.Some? { LongerHolder(p, steps, step, s.gate.value.phase); }
    OutsideKeepsTiers(p, s, step);
  }

  /** What a step of the holder can leave in the tiers: what was there, nothing, its own record in the
      remote one, or a fill or a copy of its remote hit in the local one. */
  lemma HoldingTiers(p: Params, s: State, step: Step)
    requires s.gate.Some? && DoHolding(p, s, step).Some?
    ensures var t, phase := DoHolding(p, s, step).value, s.gate.value.phase;
      && (t.remote == s.remote || t.remote == None || (phase.Published? && t.remote == Some(phase.record)))
      && (t.local == s.local || t.local == None
          || (phase.GotRemote? && step.KeepRemoteHit? && t.local.value.version == phase.hit.version
              && t.local.value.until <= phase.hit.until && t.local.value.until <= s.now + 60_000_000_000)
          || (phase.Filled? && step.PutFill? && !phase.oversize && t.local.value.version == phase.version
              && t.local.value.until <= s.now + step.ttl && t.local.value.until <= s.now + 60_000_000_000))
  {
  }

  /** What a step of the holder can leave it with: an answer of the source, a remote record still alive,
      a fill of its own answer, or the answer it had. */
  lemma HoldingPhase(p: Params, s: State, step: Step)
    requires s.gate.Some? && DoHolding(p, s, step).Some? && DoHolding(p, s, step).value.gate.Some?
    ensures var phase, next := s.gate.value.phase, DoHolding(p, s, step).value.gate.value.phase;
      && (ResultOf(next).Some? ==>
            ResultOf(next) == ResultOf(phase) || (step.CallSource? && ResultOf(next) == Some(s.source)))
      && (RecordOf(next).Some? ==>
            || RecordOf(next) == s.remote || RecordOf(next) == RecordOf(phase)
            || (phase.Filled? && step.PutFill? && !phase.oversize
                && RecordOf(next) == Some(Record(phase.version, s.now + step.ttl))))
  {
  }

  lemma FillsNow(p: Params, steps: seq<Step>, s: State, step: Step)
    requires Run(p, steps) == Some(s) && s.gate.Some? && step.PutFill? && DoHolding(p, s, step).Some?
    requires HolderBacked(p, steps, s.gate.value.phase) && s.gate.value.phase.Filled? && !s.gate.value.phase.oversize
    ensures forall r: Record :: r.version == s.gate.value.phase.version && r.until <= s.now + step.ttl ==>
      Backed(p, steps + [step], r)
  {
    var version := s.gate.value.phase.version;
    assert (steps + [step])[..|steps|] == steps;
    LongerAsked(p, steps, step, version);
    assert FilledAt(p, steps + [step], version, s.now + step.ttl, |steps|);
  }

  lemma AsksNow(p: Params, steps: seq<Step>, s: State, step: Step)
    requires Run(p, steps) == Some(s) && step.CallSource?
    ensures Asked(p, steps + [step], s.source)
  {
    assert (steps + [step])[..|steps|] == steps;
    assert AskedAt(p, steps + [step], s.source, |steps|);
  }

  lemma PutsNow(p: Params, steps: seq<Step>, s: State, step: Step, r: Record)
    requires Run(p, steps) == Some(s) && (step.PutFill? || step.KeepRemoteHit?)
    requires r.until <= s.now + 60_000_000_000
    ensures Recent(p, steps + [step], r)
  {
    assert (steps + [step])[..|steps|] == steps;
    assert PutAt(p, steps + [step], r, |steps|);
  }

  lemma Shorter(p: Params, steps: seq<Step>, long: Record, r: Record)
    requires Backed(p, steps, long) && r.version == long.version && r.until <= long.until
    ensures Backed(p, steps, r)
  {
    var i: nat, until: int :| FilledAt(p, steps, long.version, until, i) && long.until <= until;
    assert FilledAt(p, steps, r.version, until, i) && r.until <= until;
  }

  lemma HoldingTiersBacked(p: Params, steps: seq<Step>, s: State, step: Step)
    requires AllBacked(p, steps, s) && Run(p, steps) == Some(s) && s.gate.Some? && DoHolding(p, s, step).Some?
    ensures TiersBacked(p, steps + [step], DoHolding(p, s, step).value)
  {
    var t, phase := DoHolding(p, s, step).value, s.gate.value.phase;
    LongerTiers(p, steps, step, s);
    LongerHolder(p, steps, step, phase);
    HoldingTiers(p, s, step);
    if phase.Filled? && step.PutFill? && !phase.oversize { FillsNow(p, steps, s, step); }
    if t.local.Some? && t.local != s.local {
      PutsNow(p, steps, s, step, t.local.value);
      if phase.GotRemote? { Shorter(p, steps + [step], phase.hit, t.local.value); }
    }
  }

  lemma HoldingBacked(p: Params, steps: seq<Step>, s: State, step: Step)
    requires AllBacked(p, steps, s) && Run(p, steps) == Some(s) && s.gate.Some? && DoHolding(p, s, step).Some?
    ensures AllBacked(p, steps + [step], DoHolding(p, s, step).value)
  {
    var t, phase := DoHolding(p, s, step).value, s.gate.value.phase;
    HoldingTiersBacked(p, steps, s, step);
    if t.gate.Some? {
      HoldingPhase(p, s, step);
      LongerHolder(p, steps, step, phase);
      if step.CallSource? { AsksNow(p, steps, s, step); }
      if s.remote.Some? { LongerBacked(p, steps, step, s.remote.value); }
      if phase.Filled? && step.PutFill? && !phase.oversize { FillsNow(p, steps, s, step); }
    }
  }

  /** Over any run, everything cached goes back to a fill of the run and lives no longer than it. */
  lemma {:induction false} CachedIsBacked(p: Params, steps: seq<Step>)
    requires Run(p, steps).Some?
    ensures AllBacked(p, steps, Run(p, steps).value)
    decreases |steps|
  {
    if steps != [] {
      var before, step := steps[..|steps| - 1], steps[|steps| - 1];
      CachedIsBacked(p, before);
      var s := Run(p, before).value;
      assert steps == before + [step];
      if DoOutside(p, s, step).Some? { OutsideBacked(p, before, s, step); } else { HoldingBacked(p, before, s, step); }
    }
  }

  /** A version handed out from either tier comes from a fill whose lifetime, at most the longest ttl,
      is not over. */
  ghost predicate Alive(p: Params, steps: seq<Step>, version: int, now: int) {
    exists i: nat, until: int :: FilledAt(p, steps, version, until, i) && now < until
  }

  /** Whatever a run hands out next was the source's version when it was asked for; from a cache it is
      handed out only while the fill it goes back to is alive, and from the local tier only within a
      minute of being put there. */
  lemma ServedIsAlive(p: Params, steps: seq<Step>, s: State, step: Step, version: int)
    requires Run(p, steps) == Some(s) && Do(p, s, step).Some? && Served(s, step) == Some(version)
    ensures Asked(p, steps, version)
    ensures step.HitLocal? || step.CheckLocal? || step.RemoteHit? ==> Alive(p, steps, version, s.now)
    ensures step.HitLocal? || step.CheckLocal? ==>
      exists r :: Recent(p, steps, r) && r.version == version && s.now < r.until
  {
    CachedIsBacked(p, steps);
    ServedFrom(p, s, step, version);
    if step.HitLocal? || step.CheckLocal? {
      BackedIsAlive(p, steps, s.local.value, s.now);
    } else if step.RemoteHit? {
      BackedIsAlive(p, steps, s.remote.value, s.now);
    }
  }

  /** Where a served version comes from. */
  lemma ServedFrom(p: Params, s: State, step: Step, version: int)
    requires Do(p, s, step).Some? && Served(s, step) == Some(version)
    ensures if step.HitLocal? || step.CheckLocal? then
        s.local.Some? && s.local.value.version == version && s.now < s.local.value.until
      else if step.RemoteHit? then s.remote.Some? && s.remote.value.version == version && s.now < s.remote.value.until
      else s.gate.Some? && ResultOf(s.gate.value.phase) == Some(version)
  {
  }

  lemma BackedIsAlive(p: Params, steps: seq<Step>, r: Record, now: int)
    requires Backed(p, steps, r) && now < r.until
    ensures Alive(p, steps, r.version, now)
  {
    var i: nat, until: int :| FilledAt(p, steps, r.version, until, i) && r.until <= until;
    assert FilledAt(p, steps, r.version, until, i) && now < until;
  }
}
