/** The engine protocol of reconcile.py as value functions.

    The code between two suspension points of a coroutine is one segment: from the journal,
    the process memory and the environment it computes the commits it makes, in order, the
    memory it leaves behind and what its caller sees next. A crash keeps a prefix of the commits. */
module Protocol {
  import opened Basics
  import opened Lifecycle
  import opened Journal

  datatype Instant = Instant(mono: real, wall: real)

  datatype Environment = Environment(vault: Vault, now: Instant, pods: set<string>)

  datatype Signature = Signature(values: Values, config: Values, generation: nat, isFresh: bool)

  /** What a process loses when it stops. */
  datatype Memory = Memory(
    busy: set<string>,
    deadlines: map<nat, real>,
    observations: map<nat, Signature>,
    quiesced: bool)

  const FRESH_PROCESS := Memory({}, map[], map[], false)

  datatype Segment<+T> = Segment(commits: seq<Commit>, memory: Memory, outcome: T)

  datatype Arguments = Arguments(
    intent: Intent, source: string, key: string, run: string, deadline: real, semantic: bool)

  // -- What an execution carries across its suspension points ----------------------

  datatype Status = StatusCommitted | StatusConflict | StatusRejected | StatusUnknown

  datatype SubmitResult = SubmitResult(status: Status, evidence: CommitEvidence, reason: Option<Reason>)

  /** Committed results are marked validated and attributed to a reply; both backends do so. */
  predicate Conforming(reply: Awaited<SubmitResult>) {
    reply.Returned? && reply.value.status == StatusCommitted ==>
      reply.value.evidence.validated && reply.value.evidence.attribution == Reply
  }

  datatype Frame =
    | Planning(op: Operation)
    | Snapshotting(op: Operation)
    | Submitting(op: Operation, attempt: Attempt)
    | Replying(op: Operation, attempt: Attempt, reply: Awaited<SubmitResult>)

  /** How a segment of `execute` ends: it returns, raises what was raised to it, is stopped by a
      guard of `transition`, or suspends. */
  datatype Progress =
    | Finished(op: Operation)
    | Raising(code: Option<Reason>)
    | Guarded(guard: Reason)
    | Waiting(frame: Frame)

  function Release(m: Memory, pod: string): Memory {
    m.(busy := m.busy - {pod})
  }

  // -- request --------------------------------------------------------------------

  predicate PodActive(rows: seq<Operation>, pod: string) {
    exists i :: 0 <= i < |rows| && rows[i].Pod() == pod && rows[i].state in ACTIVE
  }

  function Admission(env: Environment, a: Arguments): Result<Values> {
    var _ :- a.intent.Validate();
    if !a.semantic then Err(MissingPrerequisite)
    else if a.source == "" || a.key == "" || |a.key| > 128 || !(0.0 < a.deadline <= 3600.0) then Err(InvalidInput)
    else if a.intent.podId !in env.pods then Err(UnsupportedOperation)
    else a.intent.Target(env.vault)
  }

  function Refused(op: Operation, code: Reason): Operation
    requires op.state == Requested
  {
    Transition(op, Rejected, NO_EVIDENCE).value.(reason := Some(code))
  }

  function RequestSegment(j: Journal, m: Memory, env: Environment, a: Arguments): Segment<Result<Operation>> {
    match Admission(env, a)
    case Err(code) => Segment([], m, Err(code))
    case Ok(target) =>
      var fingerprint := Fingerprint(a.intent, target);
      match FindKey(j.rows, a.source, a.intent.podId, a.key)
      case Some(old_) =>
        Segment([], m, if old_.fingerprint == fingerprint then Ok(old_) else Err(InvalidInput))
      case None => EnterSegment(j, m, env, a, fingerprint)
  }

  /** Journal a new operation; a busy or conflicted pod then turns it away in a second commit. */
  function EnterSegment(j: Journal, m: Memory, env: Environment, a: Arguments, fingerprint: Fingerprint)
    : Segment<Result<Operation>>
  {
    if |j.rows| >= j.maxOperations then Segment([], m, Err(Busy))
    else
      var pod := a.intent.podId;
      var op := NewOperation(|j.rows|, a.run, a.source, a.intent, fingerprint, a.key, env.now.wall + a.deadline);
      var timed := m.(deadlines := m.deadlines[op.id := env.now.mono + a.deadline]);
      if m.quiesced || pod in m.busy || PodActive(j.rows, pod) then
        Segment([Insert(op), Update(Refused(op, Busy))], timed, Ok(Refused(op, Busy)))
      else if pod in j.conflicts then
        Segment([Insert(op), Update(Refused(op, OwnershipLost))], timed, Ok(Refused(op, OwnershipLost)))
      else
        Segment([Insert(op)], timed, Ok(op))
  }

  // -- execute --------------------------------------------------------------------

  /** From the call to the suspension in `backend.plan`. */
  function StartSegment(j: Journal, m: Memory, env: Environment, id: nat): Segment<Progress> {
    if id >= |j.rows| then Segment([], m, Raising(Some(NotFound)))
    else
      var op := j.rows[id];
      var pod := op.Pod();
      if op.state != Requested then Segment([], m, Finished(op))
      else if pod in m.busy then Segment([], m, Raising(Some(Busy)))
      else if pod !in env.pods then Segment([], m, Raising(None))
      else if pod in j.conflicts then
        Segment([Update(Refused(op, OwnershipLost))], m, Finished(Refused(op, OwnershipLost)))
      else Segment([], m.(busy := m.busy + {pod}), Waiting(Planning(op)))
  }

  /** The handler around validation: reject the copy read at the start, whatever is stored now. */
  function RejectSegment(m: Memory, op: Operation, code: Reason): Segment<Progress> {
    match Transition(op, Rejected, NO_EVIDENCE)
    case Err(guard) => Segment([], Release(m, op.Pod()), Guarded(guard))
    case Ok(rejected) =>
      var final := rejected.(reason := Some(code));
      Segment([Update(final)], Release(m, op.Pod()), Finished(final))
  }

  function PlanSegment(m: Memory, op: Operation, plan: Awaited<bool>): Segment<Progress> {
    match plan
    case Raised(code) => RejectSegment(m, op, code)
    case Broken => Segment([], Release(m, op.Pod()), Raising(None))
    case Returned(_) => Segment([], m, Waiting(Snapshotting(op)))
  }

  function EvidenceFrom(snap: Snapshot, noop: bool): ApplicationEvidence {
    ApplicationEvidence(snap.observed.isFresh, true, snap.generation, snap.observed.revision, noop, false)
  }

  function Presented(e: ApplicationEvidence): Evidence {
    Evidence(false, e.isFresh, e.satisfied, e.noop)
  }

  function SnapshotSegment(
    j: Journal, m: Memory, env: Environment, op: Operation, answer: Awaited<Snapshot>,
    attemptId: nat, transactionId: nat): Segment<Progress>
    requires op.id < |j.rows|
  {
    var released := Release(m, op.Pod());
    match answer
    case Raised(code) => RejectSegment(m, op, code)
    case Broken => Segment([], released, Raising(None))
    case Returned(snap) =>
      if !snap.ready then RejectSegment(m, op, NotReady)
      else if j.rows[op.id].state != Requested then Segment([], released, Finished(j.rows[op.id]))
      else
        match Transition(op, Validated, NO_EVIDENCE)
        case Err(guard) => RejectSegment(m, op, guard)
        case Ok(validated) => ValidatedSegment(m, env, validated, snap, attemptId, transactionId)
  }

  /** Once VALIDATED is stored: a target that no longer resolves leaves it there, a target that
      already holds is a no-op, and anything else is made durable as SUBMITTED before it is sent. */
  function ValidatedSegment(
    m: Memory, env: Environment, op: Operation, snap: Snapshot, attemptId: nat, transactionId: nat): Segment<Progress>
  {
    match op.intent.Target(env.vault)
    case Err(code) => Segment([Update(op)], Release(m, op.Pod()), Raising(Some(code)))
    case Ok(target) =>
      if snap.observed.Satisfies(target) && Matches(snap.config, target) then
        NoopSegment(m, op, EvidenceFrom(snap, true))
      else
        SendSegment(m, op, Attempt(attemptId, transactionId, snap.generation, env.now.wall))
  }

  function NoopSegment(m: Memory, op: Operation, evidence: ApplicationEvidence): Segment<Progress> {
    match Transition(op, ObservedApplied, Presented(evidence))
    case Err(guard) => Segment([Update(op)], Release(m, op.Pod()), Guarded(guard))
    case Ok(applied) =>
      var final := applied.(changed := Some(false), applied := Some(evidence));
      Segment([Update(op), Update(final)], Release(m, op.Pod()), Finished(final))
  }

  function SendSegment(m: Memory, op: Operation, attempt: Attempt): Segment<Progress> {
    match Transition(op.(attempts := op.attempts + [attempt]), Submitted, NO_EVIDENCE)
    case Err(guard) => Segment([Update(op)], Release(m, op.Pod()), Guarded(guard))
    case Ok(submitted) =>
      var final := submitted.(commit := UNATTRIBUTED);
      Segment([Update(op), Update(final)], m, Waiting(Submitting(final, attempt)))
  }

  /** The state and record a submission outcome asks for. */
  function Resolution(op: Operation, reply: Awaited<SubmitResult>): Result<Operation> {
    if !reply.Returned? || reply.value.status == StatusUnknown then
      var next :- Transition(op, Indeterminate, NO_EVIDENCE);
      Ok(next.(reason := Some(OutcomeUnknown)))
    else
      var result := reply.value;
      match result.status
      case StatusCommitted =>
        var next :- Transition(op, ConfigCommitted, Evidence(result.evidence.validated, false, false, false));
        Ok(next.(commit := result.evidence, changed := Some(true)))
      case StatusConflict =>
        var next :- Transition(op, OwnershipConflict, NO_EVIDENCE);
        Ok(next.(reason := Some(OwnershipLost)))
      case StatusRejected =>
        var next :- Transition(op, Failed, NO_EVIDENCE);
        Ok(next.(reason := result.reason))
  }

  function ReplySegment(m: Memory, op: Operation, reply: Awaited<SubmitResult>): Segment<Progress> {
    var released := Release(m, op.Pod());
    match Resolution(op, reply)
    case Err(guard) => Segment([], released, Guarded(guard))
    case Ok(final) =>
      var conflict :=
        if reply.Returned? && reply.value.status == StatusConflict
        then [Conflict(op.Pod(), ConflictRecord(op.id, GuardFailed(reply.value.reason)))] else [];
      Segment(conflict + [Update(final)], released, Finished(final))
  }

  // -- reconcile ------------------------------------------------------------------

  const WATCHED := {ConfigCommitted, Indeterminate, TimedOut, ObservedApplied}
  const LANDED := {Submitted, ConfigCommitted, ObservedApplied, Indeterminate, TimedOut, OwnershipConflict}

  predicate LandedOn(op: Operation, pod: string) {
    op.Pod() == pod && op.state in LANDED
  }

  function LastLanded(rows: seq<Operation>, pod: string): (last: int)
    ensures -1 <= last < |rows|
    ensures last >= 0 ==> LandedOn(rows[last], pod)
    ensures forall k :: last < k < |rows| ==> !LandedOn(rows[k], pod)
  {
    if rows == [] then -1
    else if LandedOn(rows[|rows| - 1], pod) then |rows| - 1
    else LastLanded(rows[..|rows| - 1], pod)
  }

  function RealMax(a: real, b: real): real {
    if a < b then b else a
  }

  /** The deadline this process holds for an operation, established from the persisted one
      when the process has none yet. */
  function DeadlineOf(m: Memory, op: Operation, now: Instant): real {
    if op.id in m.deadlines then m.deadlines[op.id] else now.mono + RealMax(0.0, op.deadlineAt - now.wall)
  }

  function Expired(m: Memory, op: Operation, now: Instant): bool {
    now.mono >= DeadlineOf(m, op, now)
  }

  /** One look at one operation: the record it leaves and what it writes on the way. */
  datatype Verdict = Verdict(op: Operation, changed: bool, conflict: bool, raised: Option<Reason>)

  function MarkDeadline(op: Operation, expired: bool): Verdict {
    if expired && op.state in {ConfigCommitted, Indeterminate} then
      var marked := if op.deadlineElapsed then op
                    else op.(originalOutcome := Some(op.state), deadlineElapsed := true);
      if op.state == ConfigCommitted then
        match Transition(marked, TimedOut, NO_EVIDENCE)
        case Err(guard) => Verdict(marked, !op.deadlineElapsed, false, Some(guard))
        case Ok(timed) => Verdict(timed.(reason := Some(ApplyTimeout)), !op.deadlineElapsed, false, None)
      else Verdict(marked, !op.deadlineElapsed, false, None)
    else Verdict(op, false, false, None)
  }

  function Compare(v: Verdict, snap: Snapshot, target: Values): Verdict {
    var op := v.op;
    if !(snap.ready && snap.observed.isFresh) then v
    else if !Matches(snap.config, target) && op.state in {ConfigCommitted, ObservedApplied, TimedOut} then
      match (if op.state == ConfigCommitted then Transition(op, OwnershipConflict, NO_EVIDENCE) else Ok(op))
      case Err(guard) => v.(conflict := true, raised := Some(guard))
      case Ok(lost) =>
        Verdict(lost.(reason := Some(OwnershipLost)), v.changed || op.reason != Some(OwnershipLost), true, None)
    else if Matches(snap.config, target) && snap.observed.Satisfies(target) && op.applied == None then
      var evidence := EvidenceFrom(snap, false);
      var resolved := op.(applied := Some(evidence), late := op.late || op.deadlineElapsed);
      match (if op.state != TimedOut then Transition(resolved, ObservedApplied, Presented(evidence)) else Ok(resolved))
      case Err(guard) => v.(op := resolved, raised := Some(guard))
      case Ok(final) =>
        Verdict(
          if op.commit.attribution == Unknown
          then final.(applied := Some(evidence.(currentConditionOnly := true)))
          else final.(reason := if op.deadlineElapsed then Some(ApplyTimeout) else None),
          true, false, None)
    else v
  }

  function Judge(op: Operation, snap: Snapshot, expired: bool, target: Result<Values>): Verdict {
    var v := MarkDeadline(op, expired);
    if v.raised.Some? then v
    else
      match target
      case Err(_) => Verdict(v.op.(blocked := true), v.changed || !v.op.blocked, false, None)
      case Ok(values) => Compare(v, snap, values)
  }

  function SignatureOf(snap: Snapshot): Signature {
    Signature(snap.observed.values, snap.config, snap.observed.generation, snap.observed.isFresh)
  }

  function ReconcileRow(m: Memory, env: Environment, op: Operation, snap: Snapshot): Segment<Option<Reason>> {
    var target := op.intent.Target(env.vault);
    var v := Judge(op, snap, Expired(m, op, env.now), target);
    var timed := m.(deadlines := m.deadlines[op.id := DeadlineOf(m, op, env.now)]);
    if target.Err? || MarkDeadline(op, Expired(m, op, env.now)).raised.Some? then
      Segment(if v.changed && v.raised == None then [Update(v.op)] else [], timed, v.raised)
    else
      var seen := op.id in m.observations && m.observations[op.id] == SignatureOf(snap);
      Segment(
        (if seen then [] else [Observe(op.run, op.Pod(), op.id)])
        + (if v.conflict then [Conflict(op.Pod(), ConflictRecord(op.id, ConfigurationChanged))] else [])
        + (if v.changed && v.raised == None then [Update(v.op)] else []),
        timed.(observations := timed.observations[op.id := SignatureOf(snap)]),
        v.raised)
  }

  /** Only the newest landed operation of the pod is looked at. */
  function ReconcileSegment(j: Journal, m: Memory, env: Environment, pod: string, snap: Snapshot)
    : Segment<Option<Reason>>
  {
    var last := LastLanded(j.rows, pod);
    if last < 0 || j.rows[last].state !in WATCHED then Segment([], m, None)
    else ReconcileRow(m, env, j.rows[last], snap)
  }

  // -- recover and cancel ----------------------------------------------------------

  function Recovered(op: Operation): Option<Operation> {
    match op.state
    case Submitted =>
      Some(Transition(op, Indeterminate, NO_EVIDENCE).value.(commit := UNATTRIBUTED, reason := Some(OutcomeUnknown)))
    case Validated => Some(Transition(op, Cancelled, NO_EVIDENCE).value)
    case _ => None
  }

  function RecoverCommits(rows: seq<Operation>): seq<Commit> {
    if rows == [] then []
    else
      RecoverCommits(rows[..|rows| - 1])
      + match Recovered(rows[|rows| - 1])
        case Some(op) => [Update(op)]
        case None => []
  }

  function CancelSegment(j: Journal, m: Memory, id: nat): Segment<Result<Operation>> {
    if id >= |j.rows| then Segment([], m, Err(NotFound))
    else
      match Transition(j.rows[id], Cancelled, NO_EVIDENCE)
      case Err(guard) => Segment([], m, Err(guard))
      case Ok(op) => Segment([Update(op)], m, Ok(op))
  }
}
