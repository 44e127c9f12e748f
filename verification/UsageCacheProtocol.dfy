/** One key of the two-level usage cache as interleaved steps of one process: unlocked reads of
    the local tier, fills and forced refreshes under the key's gate, deletions that mark the key
    before they wait for the gate, a remote tier whose calls may fail with or without effect, and
    the clock. Other keys appear only as local evictions and as remote back-off. */
module UsageCacheProtocol {

  import opened Basics

  /** Nanoseconds, as in the service: local freshness, and the bypass of a deletion. */
  const LOCAL_TTL := 60_000_000_000
  const BYPASS := 600_000_000_000

  /** maxTtl bounds every fill's ttl; window bounds the time from the moment a deletion computes
      its bypass deadline to the last moment it uses it. */
  datatype Params = Params(maxTtl: int, window: int)

  predicate ValidParams(p: Params) { 1 <= p.maxTtl <= BYPASS && 0 <= p.window }

  datatype Record = Record(version: int, until: int)

  /** Where the holder of the gate stands. */
  datatype Phase =
    | Entered(forced: bool)
    | LocalMissed
    | Unblocked
    | GotRemote(hit: Record)
    | Asking
    | Filled(version: int, oversize: bool)
    | Published(record: Record)
    | Stored
    | MustBlock(until: int, next: Phase)
    | BlockSampled(until: int, at: int, next: Phase)
    | Removing(until: int, result: Option<int>)
    | RemovingRemote(until: int, result: Option<int>)
    | Removed(result: Option<int>)
    | Leaving(result: Option<int>)

  /** A deletion must act by its deadline; a fill has none. */
  datatype Holder = Holder(deadline: Option<int>, phase: Phase)

  datatype DeletePhase = Started | LocalGone | MarkSampled(at: int) | Waiting

  datatype Deletion = Deletion(start: int, phase: DeletePhase)

  datatype State = State(
    now: int, source: int, ttl: int,
    local: Option<Record>, remote: Option<Record>, mark: Option<int>,
    gate: Option<Holder>, deletions: map<int, Deletion>,
    top: int)

  datatype Step =
    | Tick(to: int)
    | SourceAdvances(version: int)
    | Evict
    | HitLocal
    | Acquire(forced: bool)
    | CheckLocal
    | CheckMark
    | RemoteNotAllowed
    | RemoteHit
    | RemoteMissOrError
    | DropExpired(removed: bool, failed: bool)
    | KeepRemoteHit
    | CallSource(oversize: bool)
    | SourceFails
    | PutFill(ttl: int)
    | RefuseOversize(ttl: int)
    | SetSucceeds
    | SetFails(applied: bool)
    | Unblock
    | SampleBlock
    | PutBlock
    | RemoveLocal
    | RemoveNotAllowed
    | RemoveSucceeds
    | RemoveFails(removed: bool)
    | Release
    | StartDelete(id: int)
    | DeleteLocal(id: int)
    | SampleDeleteMark(id: int)
    | PutDeleteMark(id: int)
    | CancelDelete(id: int)
    | EnterDelete(id: int)

  predicate Fresh(s: State) { s.local.Some? && s.now < s.local.value.until }

  predicate MarkActive(s: State) { s.mark.Some? && s.now < s.mark.value }

  function At(s: State, phase: Phase): State
    requires s.gate.Some?
  {
    s.(gate := Some(s.gate.value.(phase := phase)))
  }

  /** Handing out a version to a caller. */
  function Serve(s: State, version: int): State { s.(top := Max(s.top, version)) }

  /** The version a step hands out, if it hands out one. A source result counts from the moment
      it is in the local tier; a result too large to cache, from the return of the call. */
  function Served(s: State, step: Step): Option<int> {
    match step
    case HitLocal => if s.local.Some? then Some(s.local.value.version) else None
    case CheckLocal => if Fresh(s) then Some(s.local.value.version) else None
    case RemoteHit => if s.remote.Some? then Some(s.remote.value.version) else None
    case PutFill(_) => if s.gate.Some? && s.gate.value.phase.Filled? then Some(s.gate.value.phase.version) else None
    case Release => if s.gate.Some? && s.gate.value.phase.Leaving? then s.gate.value.phase.result else None
    case _ => None
  }

  /** Steps that need no gate. */
  function DoOutside(p: Params, s: State, step: Step): Option<State> {
    match step
    case Tick(to) => if to >= s.now then Some(s.(now := to)) else None
    case SourceAdvances(version) => if version >= s.source then Some(s.(source := version)) else None
    case Evict => Some(s.(local := None))
    case HitLocal => if Fresh(s) then Some(s) else None
    case Acquire(forced) => if s.gate == None then Some(s.(gate := Some(Holder(None, Entered(forced))))) else None
    case StartDelete(id) =>
      if id !in s.deletions then Some(s.(deletions := s.deletions[id := Deletion(s.now, Started)])) else None
    case DeleteLocal(id) =>
      if id in s.deletions && s.deletions[id].phase == Started && s.now <= s.deletions[id].start + p.window then
        Some(s.(local := None, deletions := s.deletions[id := Deletion(s.deletions[id].start, LocalGone)]))
      else None
    case SampleDeleteMark(id) =>
      if id in s.deletions && s.deletions[id].phase == LocalGone && s.now <= s.deletions[id].start + p.window then
        Some(s.(deletions := s.deletions[id := Deletion(s.deletions[id].start, MarkSampled(s.now))]))
      else None
    case PutDeleteMark(id) =>
      if id in s.deletions && s.deletions[id].phase.MarkSampled? && s.now <= s.deletions[id].start + p.window then
        var d := s.deletions[id];
        Some(s.(mark := if d.start + BYPASS > d.phase.at then Some(d.start + BYPASS) else s.mark,
                deletions := s.deletions[id := Deletion(d.start, Waiting)]))
      else None
    case CancelDelete(id) =>
      if id in s.deletions && s.deletions[id].phase == Waiting then Some(s.(deletions := s.deletions - {id})) else None
    case EnterDelete(id) =>
      if id in s.deletions && s.deletions[id].phase == Waiting && s.gate == None
        && s.now <= s.deletions[id].start + p.window then
        var start := s.deletions[id].start;
        Some(s.(deletions := s.deletions - {id},
                gate := Some(Holder(Some(start + p.window), Removing(start + BYPASS, None)))))
      else None
    case _ => None
  }

  /** Steps of the holder of the gate. */
  function DoHolding(p: Params, s: State, step: Step): Option<State>
    requires s.gate.Some?
  {
    var phase := s.gate.value.phase;
    match (phase, step)
    case (Entered(forced), CheckLocal) =>
      if forced then None
      else if Fresh(s) then Some(At(s, Leaving(None))) else Some(At(s, LocalMissed))
    case (Entered(forced), CallSource(oversize)) =>
      if forced then Some(At(s, Filled(s.source, oversize))) else None
    case (Entered(forced), SourceFails) => if forced then Some(At(s, Leaving(None))) else None
    case (LocalMissed, RemoteNotAllowed) => Some(At(s, Asking))
    case (LocalMissed, CheckMark) => Some(At(s, if MarkActive(s) then Asking else Unblocked))
    case (Unblocked, RemoteMissOrError) => Some(At(s, Asking))
    case (Unblocked, RemoteHit) =>
      if s.remote.Some? && s.now < s.remote.value.until
        then Some(At(Serve(s, s.remote.value.version), GotRemote(s.remote.value)))
      else None
    case (Unblocked, DropExpired(removed, failed)) =>
      if s.remote.Some? && s.remote.value.until <= s.now && (removed || failed) then
        var t := s.(remote := if removed then None else s.remote);
        Some(At(t, if failed then MustBlock(s.now + BYPASS, Asking) else Asking))
      else None
    case (GotRemote(hit), KeepRemoteHit) =>
      var until := Min(hit.until, s.now + LOCAL_TTL);
      Some(At(if until > s.now then s.(local := Some(Record(hit.version, until))) else s, Leaving(None)))
    case (Asking, CallSource(oversize)) => Some(At(s, Filled(s.source, oversize)))
    case (Asking, SourceFails) => Some(At(s, Leaving(None)))
    case (Filled(version, oversize), PutFill(ttl)) =>
      if !oversize && s.ttl <= ttl <= p.maxTtl then
        var t := Serve(s, version).(ttl := ttl, local := Some(Record(version, Min(s.now + ttl, s.now + LOCAL_TTL))));
        Some(At(t, Published(Record(version, s.now + ttl))))
      else None
    case (Filled(version, oversize), RefuseOversize(ttl)) =>
      if oversize && s.ttl <= ttl <= p.maxTtl then Some(At(s.(ttl := ttl), Removing(s.now + ttl, Some(version))))
        else None
    case (Published(record), SetSucceeds) => Some(At(s.(remote := Some(record)), Stored))
    case (Published(record), SetFails(applied)) =>
      Some(At(s.(remote := if applied then Some(record) else s.remote), MustBlock(record.until, Leaving(None))))
    case (Stored, Unblock) => Some(At(s.(mark := None), Leaving(None)))
    case (MustBlock(until, next), SampleBlock) => Some(At(s, BlockSampled(until, s.now, next)))
    case (BlockSampled(until, at, next), PutBlock) =>
      Some(At(if until > at then s.(mark := Some(until)) else s, next))
    case (Removing(until, result), RemoveLocal) => Some(At(s.(local := None), RemovingRemote(until, result)))
    case (RemovingRemote(until, result), RemoveNotAllowed) => Some(At(s, MustBlock(until, Leaving(result))))
    case (RemovingRemote(until, result), RemoveSucceeds) => Some(At(s.(remote := None), Removed(result)))
    case (RemovingRemote(until, result), RemoveFails(removed)) =>
      Some(At(s.(remote := if removed then None else s.remote), MustBlock(until, Leaving(result))))
    case (Removed(result), Unblock) => Some(At(s.(mark := None), Leaving(result)))
    case (Leaving(result), Release) =>
      Some((if result.Some? then Serve(s, result.value) else s).(gate := None))
    case _ => None
  }

  /** The state after a step, or None when the step is not enabled. */
  function Do(p: Params, s: State, step: Step): Option<State> {
    if DoOutside(p, s, step).Some? then DoOutside(p, s, step)
    else if s.gate.Some? && (s.gate.value.deadline.Some? ==> s.now <= s.gate.value.deadline.value)
      then DoHolding(p, s, step)
    else None
  }

  /** An empty cache; the source starts at version 0. */
  const INITIAL := State(0, 0, 1, None, None, None, None, map[], 0)

  /** The state a run of steps leads to, or None when one of its steps is not enabled. */
  function Run(p: Params, steps: seq<Step>): Option<State> {
    if steps == [] then Some(INITIAL)
    else
      var before := Run(p, steps[..|steps| - 1]);
      if before.None? then None else Do(p, before.value, steps[|steps| - 1])
  }

  ghost predicate Reachable(p: Params, s: State) { exists steps :: Run(p, steps) == Some(s) }

  /** A step that can follow a run hands out nothing older than the run handed out. */
  ghost predicate NotOlder(p: Params, s: State, step: Step) {
    Do(p, s, step).Some? && Served(s, step).Some? ==> Served(s, step).value >= s.top
  }

  /** No step of any run hands out an older version than one handed out before. */
  ghost predicate NeverGoesDown(p: Params) {
    forall s, step :: Reachable(p, s) ==> NotOlder(p, s, step)
  }

  // The invariant.

  /** The remote record is unexpired and older than v. */
  predicate Outdated(s: State, v: int) {
    s.remote.Some? && s.now < s.remote.value.until && s.remote.value.version < v
  }

  /** An outdated remote record is bypassed for as long as it lives. */
  predicate Guarded(s: State, v: int) {
    Outdated(s, v) ==> s.mark.Some? && s.mark.value >= s.remote.value.until
  }

  /** The deadline of a bypass about to be set outlives an outdated remote record. */
  predicate Reaches(s: State, until: int, v: int) {
    Outdated(s, v) ==> until >= s.remote.value.until
  }

  /** What must not be undercut once the holder has left: its own result, if it has one. */
  function Goal(s: State, result: Option<int>): int { if result.Some? then result.value else s.top }

  predicate ResultOk(s: State, result: Option<int>) {
    result.Some? ==> s.top <= result.value <= s.source
  }

  predicate AfterBlock(s: State, until: int, next: Phase) {
    match next
    case Asking => Reaches(s, until, s.top)
    case Leaving(result) => Reaches(s, until, Goal(s, result)) && ResultOk(s, result) && (result.Some? ==> !Fresh(s))
    case _ => false
  }

  predicate PhaseOk(s: State, phase: Phase) {
    match phase
    case Entered(_) => Guarded(s, s.top)
    case LocalMissed => Guarded(s, s.top) && !Fresh(s)
    case Unblocked => !Outdated(s, s.top) && !Fresh(s)
    case GotRemote(hit) => Guarded(s, s.top) && !Fresh(s) && hit.version == s.top
    case Asking => Guarded(s, s.top)
    case Filled(version, _) => Guarded(s, s.top) && s.top <= version <= s.source
    case Published(record) =>
      && record.version == s.top && record.until <= s.now + s.ttl
      && (s.remote.Some? ==> s.remote.value.until <= record.until)
    case Stored => !Outdated(s, s.top)
    case MustBlock(until, next) => AfterBlock(s, until, next)
    case BlockSampled(until, at, next) => at <= s.now && AfterBlock(s, until, next)
    case Removing(until, result) => Reaches(s, until, Goal(s, result)) && ResultOk(s, result)
    case RemovingRemote(until, result) => Reaches(s, until, Goal(s, result)) && ResultOk(s, result) && !Fresh(s)
    case Removed(result) => s.remote == None && ResultOk(s, result) && (result.Some? ==> !Fresh(s))
    case Leaving(result) => Guarded(s, Goal(s, result)) && ResultOk(s, result) && (result.Some? ==> !Fresh(s))
  }

  /** The tables and the clock. */
  ghost predicate TablesOk(p: Params, s: State) {
    && 1 <= s.ttl <= p.maxTtl
    && s.top <= s.source
    && (s.local.Some? ==> s.local.value.version <= s.source)
    && (Fresh(s) ==> s.local.value.version == s.top)
    && (s.remote.Some? ==> s.remote.value.version <= s.source && s.remote.value.until <= s.now + s.ttl)
    && (forall id :: id in s.deletions ==> s.deletions[id].start <= s.now)
    && (forall id :: id in s.deletions && s.deletions[id].phase.MarkSampled? ==> s.deletions[id].phase.at <= s.now)
  }

  ghost predicate Inv(p: Params, s: State) {
    && TablesOk(p, s)
    && (match s.gate case None => Guarded(s, s.top) case Some(holder) => PhaseOk(s, holder.phase))
  }

  lemma OutsideKeepsTables(p: Params, s: State, step: Step)
    requires TablesOk(p, s) && DoOutside(p, s, step).Some?
    ensures TablesOk(p, DoOutside(p, s, step).value)
  {
  }

  lemma OutsideKeepsInv(p: Params, s: State, step: Step)
    requires ValidParams(p) && p.maxTtl + p.window <= BYPASS && Inv(p, s) && DoOutside(p, s, step).Some?
    ensures Inv(p, DoOutside(p, s, step).value)
  {
    OutsideKeepsTables(p, s, step);
    if s.gate.Some? && !step.EnterDelete? { OutsideKeepsPhase(p, s, step, s.gate.value.phase); }
  }

  predicate Ending(phase: Phase) {
    phase.MustBlock? || phase.BlockSampled? || phase.Removing? || phase.RemovingRemote? || phase.Removed?
        || phase.Leaving?
  }

  lemma OutsideKeepsPhase(p: Params, s: State, step: Step, phase: Phase)
    requires ValidParams(p) && p.maxTtl + p.window <= BYPASS && Inv(p, s) && DoOutside(p, s, step).Some?
    requires s.gate.Some? && s.gate.value.phase == phase
    ensures PhaseOk(DoOutside(p, s, step).value, phase)
  {
    if Ending(phase) { OutsideKeepsEnding(p, s, step, phase); } else { OutsideKeepsFilling(p, s, step, phase); }
  }

  lemma OutsideKeepsEnding(p: Params, s: State, step: Step, phase: Phase)
    requires ValidParams(p) && p.maxTtl + p.window <= BYPASS && Inv(p, s) && DoOutside(p, s, step).Some?
    requires s.gate.Some? && s.gate.value.phase == phase && Ending(phase)
    ensures PhaseOk(DoOutside(p, s, step).value, phase)
  {
    if phase.MustBlock? || phase.BlockSampled? {
      OutsideKeepsBlocking(p, s, step, phase);
    } else if phase.Removing? || phase.RemovingRemote? {
      OutsideKeepsRemoving(p, s, step, phase);
    } else {
      OutsideKeepsLeaving(p, s, step, phase);
    }
  }

  lemma OutsideKeepsBlocking(p: Params, s: State, step: Step, phase: Phase)
    requires ValidParams(p) && p.maxTtl + p.window <= BYPASS && Inv(p, s) && DoOutside(p, s, step).Some?
    requires s.gate.Some? && s.gate.value.phase == phase && (phase.MustBlock? || phase.BlockSampled?)
    ensures PhaseOk(DoOutside(p, s, step).value, phase)
  {
  }

  lemma OutsideKeepsRemoving(p: Params, s: State, step: Step, phase: Phase)
    requires ValidParams(p) && p.maxTtl + p.window <= BYPASS && Inv(p, s) && DoOutside(p, s, step).Some?
    requires s.gate.Some? && s.gate.value.phase == phase
    requires phase.Removing? || phase.RemovingRemote?
    ensures PhaseOk(DoOutside(p, s, step).value, phase)
  {
  }

  lemma OutsideKeepsLeaving(p: Params, s: State, step: Step, phase: Phase)
    requires ValidParams(p) && p.maxTtl + p.window <= BYPASS && Inv(p, s) && DoOutside(p, s, step).Some?
    requires s.gate.Some? && s.gate.value.phase == phase && (phase.Removed? || phase.Leaving?)
    ensures PhaseOk(DoOutside(p, s, step).value, phase)
  {
  }

  lemma OutsideKeepsFilling(p: Params, s: State, step: Step, phase: Phase)
    requires ValidParams(p) && p.maxTtl + p.window <= BYPASS && Inv(p, s) && DoOutside(p, s, step).Some?
    requires s.gate.Some? && s.gate.value.phase == phase && !Ending(phase)
    ensures PhaseOk(DoOutside(p, s, step).value, phase)
  {
  }

  lemma LookingKeepsInv(p: Params, s: State, step: Step)
    requires ValidParams(p) && Inv(p, s) && s.gate.Some? && DoHolding(p, s, step).Some?
    requires var h := s.gate.value.phase; h.Entered? || h.LocalMissed?
    ensures Inv(p, DoHolding(p, s, step).value)
  {
  }

  lemma AskingKeepsInv(p: Params, s: State, step: Step)
    requires ValidParams(p) && Inv(p, s) && s.gate.Some? && DoHolding(p, s, step).Some?
    requires var h := s.gate.value.phase; h.GotRemote? || h.Asking?
    ensures Inv(p, DoHolding(p, s, step).value)
  {
  }

  lemma RemoteLookKeepsInv(p: Params, s: State, step: Step)
    requires ValidParams(p) && Inv(p, s) && s.gate.Some? && DoHolding(p, s, step).Some?
    requires s.gate.value.phase.Unblocked?
    ensures Inv(p, DoHolding(p, s, step).value)
  {
  }

  lemma FillingKeepsInv(p: Params, s: State, step: Step)
    requires ValidParams(p) && Inv(p, s) && s.gate.Some? && DoHolding(p, s, step).Some?
    requires var h := s.gate.value.phase; h.Filled? || h.Stored?
    ensures Inv(p, DoHolding(p, s, step).value)
  {
  }

  lemma PublishingKeepsInv(p: Params, s: State, step: Step)
    requires ValidParams(p) && Inv(p, s) && s.gate.Some? && DoHolding(p, s, step).Some?
    requires s.gate.value.phase.Published?
    ensures Inv(p, DoHolding(p, s, step).value)
  {
  }

  lemma BlockingKeepsInv(p: Params, s: State, step: Step)
    requires ValidParams(p) && Inv(p, s) && s.gate.Some? && DoHolding(p, s, step).Some?
    requires var h := s.gate.value.phase; h.MustBlock? || h.BlockSampled?
    ensures Inv(p, DoHolding(p, s, step).value)
  {
  }

  lemma RemovingKeepsInv(p: Params, s: State, step: Step)
    requires ValidParams(p) && Inv(p, s) && s.gate.Some? && DoHolding(p, s, step).Some?
    requires var h := s.gate.value.phase; h.Removing? || h.RemovingRemote?
    ensures Inv(p, DoHolding(p, s, step).value)
  {
  }

  lemma LeavingKeepsInv(p: Params, s: State, step: Step)
    requires ValidParams(p) && Inv(p, s) && s.gate.Some? && DoHolding(p, s, step).Some?
    requires var h := s.gate.value.phase; h.Removed? || h.Leaving?
    ensures Inv(p, DoHolding(p, s, step).value)
  {
  }

  lemma HoldingKeepsInv(p: Params, s: State, step: Step)
    requires ValidParams(p) && Inv(p, s) && s.gate.Some? && DoHolding(p, s, step).Some?
    ensures Inv(p, DoHolding(p, s, step).value)
  {
    match s.gate.value.phase
    case Entered(_) | LocalMissed => LookingKeepsInv(p, s, step);
    case GotRemote(_) | Asking => AskingKeepsInv(p, s, step);
    case Unblocked => RemoteLookKeepsInv(p, s, step);
    case Filled(_, _) | Stored => FillingKeepsInv(p, s, step);
    case Published(_) => PublishingKeepsInv(p, s, step);
    case MustBlock(_, _) | BlockSampled(_, _, _) => BlockingKeepsInv(p, s, step);
    case Removing(_, _) | RemovingRemote(_, _) => RemovingKeepsInv(p, s, step);
    case Removed(_) | Leaving(_) => LeavingKeepsInv(p, s, step);
  }

  lemma {:induction false} ReachableInv(p: Params, steps: seq<Step>)
    requires ValidParams(p) && p.maxTtl + p.window <= BYPASS && Run(p, steps).Some?
    ensures Inv(p, Run(p, steps).value)
    decreases |steps|
  {
    if steps != [] {
      var before, step := steps[..|steps| - 1], steps[|steps| - 1];
      ReachableInv(p, before);
      var r := Run(p, before).value;
      if DoOutside(p, r, step).Some? { OutsideKeepsInv(p, r, step); } else { HoldingKeepsInv(p, r, step); }
    }
  }

  lemma ServesAtLeastTop(p: Params, s: State, step: Step)
    requires Inv(p, s)
    ensures NotOlder(p, s, step)
  {
  }

  // The run that goes down when a deletion may use its deadline too late.

  ghost predicate Path(p: Params, states: seq<State>, steps: seq<Step>) {
    && |states| == |steps| + 1
    && forall i :: 0 <= i < |steps| ==> Do(p, states[i], steps[i]) == Some(states[i + 1])
  }

  lemma {:induction false} Along(p: Params, states: seq<State>, steps: seq<Step>)
    requires Path(p, states, steps) && Reachable(p, states[0])
    ensures Reachable(p, states[|steps|])
    decreases |steps|
  {
    if steps != [] {
      Along(p, states[..|steps|], steps[..|steps| - 1]);
      var before, last := states[|steps| - 1], steps[|steps| - 1];
      var run :| Run(p, run) == Some(before);
      assert (run + [last])[..|run|] == run;
      assert Run(p, run + [last]) == Do(p, before, last);
    }
  }

  lemma Rewrite(d: Deletion, e: Deletion)
    ensures map[0 := d][0 := e] == map[0 := e]
  {
  }

  /** The time at which both fills below run: late enough that version 1 outlives the deletion's
      own deadline, and still within the window. */
  function Late(p: Params): int { BYPASS + 1 - p.maxTtl }

  ghost predicate LateWindow(p: Params) { ValidParams(p) && p.maxTtl + p.window > BYPASS }

  /** A deletion has read the clock for its mark at time 0 and is then slow. */
  function DeletionStarted(p: Params): State {
    State(Late(p), 1, 1, None, None, None, None, map[0 := Deletion(0, MarkSampled(0))], 0)
  }

  /** The local record a fill at that time leaves. */
  function LocalAt(p: Params, version: int): Option<Record> {
    Some(Record(version, Min(Late(p) + p.maxTtl, Late(p) + LOCAL_TTL)))
  }

  function FirstFilled(p: Params): State {
    DeletionStarted(p).(ttl := p.maxTtl, local := LocalAt(p, 1), remote := Some(Record(1, BYPASS + 1)), top := 1)
  }

  /** The second fill failed remotely and protected itself with a mark up to BYPASS + 1. */
  function SecondFilled(p: Params): State {
    FirstFilled(p).(source := 2, local := LocalAt(p, 2), mark := Some(BYPASS + 1), top := 2)
  }

  /** The deletion's own mark has replaced that one and ends before the old remote record does. */
  function OldRecordReadable(p: Params): State {
    SecondFilled(p).(now := BYPASS, local := None, mark := Some(BYPASS),
                     deletions := map[0 := Deletion(0, Waiting)], gate := Some(Holder(None, Unblocked)))
  }

  function Holding(s: State, phase: Phase): State { s.(gate := Some(Holder(None, phase))) }

  lemma DeletionStarts(p: Params) returns (states: seq<State>, steps: seq<Step>)
    requires LateWindow(p)
    ensures Path(p, states, steps) && states[0] == INITIAL && states[|steps|] == DeletionStarted(p)
  {
    Rewrite(Deletion(0, Started), Deletion(0, LocalGone));
    Rewrite(Deletion(0, LocalGone), Deletion(0, MarkSampled(0)));
    var sampled := INITIAL.(deletions := map[0 := Deletion(0, MarkSampled(0))]);
    steps := [StartDelete(0), DeleteLocal(0), SampleDeleteMark(0), Tick(Late(p)), SourceAdvances(1)];
    states := [INITIAL,
               INITIAL.(deletions := map[0 := Deletion(0, Started)]),
               INITIAL.(deletions := map[0 := Deletion(0, LocalGone)]),
               sampled,
               sampled.(now := Late(p)),
               DeletionStarted(p)];
  }

  /** A forced refresh at the longest ttl, up to the point where it has updated the local tier. */
  function Refreshed(p: Params, s: State): State {
    var local := Some(Record(s.source, Min(s.now + p.maxTtl, s.now + LOCAL_TTL)));
    Holding(s.(ttl := p.maxTtl, local := local, top := Max(s.top, s.source)),
        Published(Record(s.source, s.now + p.maxTtl)))
  }

  lemma Refresh(p: Params, s: State) returns (states: seq<State>, steps: seq<Step>)
    requires s.gate == None && s.ttl <= p.maxTtl
    ensures Path(p, states, steps) && states[0] == s && states[|steps|] == Refreshed(p, s)
  {
    steps := [Acquire(true), CallSource(false), PutFill(p.maxTtl)];
    states := [s, Holding(s, Entered(true)), Holding(s, Filled(s.source, false)), Refreshed(p, s)];
  }

  lemma StoredEnds(p: Params, s: State)
    requires s.mark == None && s.gate == None
    ensures Do(p, Holding(s, Stored), Unblock) == Some(Holding(s, Leaving(None)))
    ensures Do(p, Holding(s, Leaving(None)), Release) == Some(s)
  {
  }

  lemma FirstFill(p: Params) returns (states: seq<State>, steps: seq<Step>)
    requires LateWindow(p)
    ensures Path(p, states, steps) && states[0] == Refreshed(p, DeletionStarted(p)) && states[|steps|] == FirstFilled(p)
  {
    var a, b := Refreshed(p, DeletionStarted(p)), FirstFilled(p);
    assert Do(p, a, SetSucceeds) == Some(Holding(b, Stored));
    StoredEnds(p, b);
    steps := [SetSucceeds, Unblock, Release];
    states := [a, Holding(b, Stored), Holding(b, Leaving(None)), b];
  }

  /** The remote write fails without effect, and the holder marks the key until its record's end. */
  lemma FailRemotely(p: Params, s: State, record: Record) returns (states: seq<State>, steps: seq<Step>)
    requires s.gate == Some(Holder(None, Published(record))) && s.now < record.until
    ensures Path(p, states, steps) && states[0] == s
    ensures states[|steps|] == s.(mark := Some(record.until), gate := None)
  {
    var until := record.until;
    steps := [SetFails(false), SampleBlock, PutBlock, Release];
    var blocking, sampled :=
      Holding(s, MustBlock(until, Leaving(None))), Holding(s, BlockSampled(until, s.now, Leaving(None)));
    var marked := Holding(s.(mark := Some(until)), Leaving(None));
    assert Do(p, s, SetFails(false)) == Some(blocking);
    assert Do(p, blocking, SampleBlock) == Some(sampled);
    BlockEnds(p, s, until);
    states := [s, blocking, sampled, marked, s.(mark := Some(until), gate := None)];
  }

  lemma BlockEnds(p: Params, s: State, until: int)
    requires s.now < until
    ensures var marked := Holding(s.(mark := Some(until)), Leaving(None));
            Do(p, Holding(s, BlockSampled(until, s.now, Leaving(None))), PutBlock) == Some(marked)
            && Do(p, marked, Release) == Some(s.(mark := Some(until), gate := None))
  {
  }

  lemma DeletionShortensMark(p: Params) returns (states: seq<State>, steps: seq<Step>)
    requires LateWindow(p)
    ensures Path(p, states, steps) && states[0] == SecondFilled(p) && states[|steps|] == OldRecordReadable(p)
  {
    Rewrite(Deletion(0, MarkSampled(0)), Deletion(0, Waiting));
    var a, b := SecondFilled(p), OldRecordReadable(p);
    var c := a.(mark := Some(BYPASS), deletions := map[0 := Deletion(0, Waiting)]);
    steps := [PutDeleteMark(0), Tick(BYPASS), Evict, Acquire(false), CheckLocal, CheckMark];
    states := [a,
               c,
               c.(now := BYPASS),
               b.(gate := None),
               Holding(b, Entered(false)),
               Holding(b, LocalMissed),
               b];
  }

  lemma AdvanceSource(p: Params)
    requires Reachable(p, FirstFilled(p))
    ensures Reachable(p, FirstFilled(p).(source := 2))
  {
    Along(p, [FirstFilled(p), FirstFilled(p).(source := 2)], [SourceAdvances(2)]);
  }

  lemma OldRecordIsReachable(p: Params)
    requires LateWindow(p)
    ensures Reachable(p, OldRecordReadable(p))
  {
    assert Run(p, []) == Some(INITIAL);
    var s1, a1 := DeletionStarts(p);
    Along(p, s1, a1);
    var s2, a2 := Refresh(p, DeletionStarted(p));
    Along(p, s2, a2);
    var s3, a3 := FirstFill(p);
    Along(p, s3, a3);
    AdvanceSource(p);
    var s5, a5 := Refresh(p, FirstFilled(p).(source := 2));
    Along(p, s5, a5);
    var s6, a6 := FailRemotely(p, Refreshed(p, FirstFilled(p).(source := 2)), Record(2, BYPASS + 1));
    Along(p, s6, a6);
    var s7, a7 := DeletionShortensMark(p);
    Along(p, s7, a7);
  }

  /** Served versions never go down exactly when every deletion uses its deadline early enough
      for the longest fill that may start in between to be over by then. */
  lemma MonotoneIff(p: Params)
    requires ValidParams(p)
    ensures NeverGoesDown(p) <==> p.maxTtl + p.window <= BYPASS
  {
    if p.maxTtl + p.window <= BYPASS {
      forall s, step | Reachable(p, s) ensures NotOlder(p, s, step) {
        var steps :| Run(p, steps) == Some(s);
        ReachableInv(p, steps);
        ServesAtLeastTop(p, s, step);
      }
    } else {
      OldRecordIsReachable(p);
      assert !NotOlder(p, OldRecordReadable(p), RemoteHit);
    }
  }
}
