/** The durable operation record and its guarded lifecycle (model.py, operations.py). */
module Lifecycle {
  import opened Basics

  datatype State =
    | Requested
    | Validated
    | Submitted
    | ConfigCommitted
    | ObservedApplied
    | Rejected
    | Failed
    | TimedOut
    | Indeterminate
    | OwnershipConflict
    | Cancelled

  const ACTIVE := {Requested, Validated, Submitted, ConfigCommitted, Indeterminate}

  // -- Desired and observed values ------------------------------------------------

  datatype Field = Ssid | Enabled | Mode | SecurityMode | Credential

  /** Fingerprints are keyed and collision free in the model, so a credential is
      represented by itself. */
  datatype Value = Text(text: Bytes) | Flag(flag: bool) | Secret(secret: Bytes)

  type Values = map<Field, Value>

  const AP := Ascii("ap")
  const WPA2_PSK := Ascii("wpa2-psk")

  /** What resolving each secret reference yields; a reference without an entry is absent. */
  type Vault = map<string, Result<Bytes>>

  function Resolve(vault: Vault, ref: string): Result<Bytes> {
    if ref in vault then vault[ref] else Err(MissingPrerequisite)
  }

  datatype Intent = Intent(
    podId: string,
    radioId: string,
    bssId: string,
    ssid: Bytes,
    secretRef: string,
    enabled: bool,
    securityMode: string)
  {
    function Validate(): Result<bool> {
      if !(1 <= |ssid| <= 32) || 0 in ssid then Err(InvalidInput)
      else if securityMode != "wpa2-psk" || !enabled then Err(UnsupportedOperation)
      else if podId == "" || radioId == "" || bssId == "" || secretRef == "" then Err(InvalidInput)
      else Ok(true)
    }

    function Target(vault: Vault): Result<Values> {
      var _ :- Validate();
      var secret :- Resolve(vault, secretRef);
      Ok(map[
        Ssid := Text(ssid),
        Enabled := Flag(enabled),
        Mode := Text(AP),
        SecurityMode := Text(WPA2_PSK),
        Credential := Secret(secret)])
    }
  }

  /** Every target field is present with the target value. */
  predicate Matches(values: Values, target: Values) {
    forall k :: k in target ==> k in values && values[k] == target[k]
  }

  datatype Observation = Observation(values: Values, generation: nat, isFresh: bool, revision: nat) {
    predicate Satisfies(target: Values) {
      isFresh && Matches(values, target)
    }
  }

  datatype Snapshot = Snapshot(config: Values, observed: Observation, ready: bool, generation: nat)

  // -- Operation records ----------------------------------------------------------

  datatype Attempt = Attempt(attemptId: nat, transactionId: nat, generation: nat, preparedAt: real)

  datatype Attribution = NotSubmitted | Unknown | Reply

  datatype CommitEvidence = CommitEvidence(
    attribution: Attribution,
    validated: bool,
    transactionId: Option<nat>)

  datatype ApplicationEvidence = ApplicationEvidence(
    isFresh: bool,
    satisfied: bool,
    generation: nat,
    revision: nat,
    noop: bool,
    currentConditionOnly: bool)

  /** The keyed digest of the intent and of the target it resolved to. */
  datatype Fingerprint = Fingerprint(intent: Intent, target: Values)

  datatype Operation = Operation(
    id: nat,
    run: string,
    source: string,
    intent: Intent,
    fingerprint: Fingerprint,
    key: string,
    deadlineAt: real,
    state: State,
    reason: Option<Reason>,
    attempts: seq<Attempt>,
    commit: CommitEvidence,
    applied: Option<ApplicationEvidence>,
    changed: Option<bool>,
    deadlineElapsed: bool,
    originalOutcome: Option<State>,
    late: bool,
    blocked: bool)
  {
    function Pod(): string {
      intent.podId
    }
  }

  const UNSENT := CommitEvidence(NotSubmitted, false, None)
  const UNATTRIBUTED := CommitEvidence(Unknown, false, None)

  function NewOperation(
    id: nat, run: string, source: string, intent: Intent, fingerprint: Fingerprint, key: string, deadlineAt: real)
    : Operation
  {
    Operation(id, run, source, intent, fingerprint, key, deadlineAt, Requested, None, [], UNSENT,
              None, None, false, None, false, false)
  }

  // -- The guarded edge relation --------------------------------------------------

  function Edges(from: State): set<State> {
    match from
    case Requested => {Validated, Rejected, Cancelled}
    case Validated => {Submitted, Rejected, OwnershipConflict, Cancelled, ObservedApplied}
    case Submitted => {ConfigCommitted, Indeterminate, Failed, OwnershipConflict}
    case ConfigCommitted => {ObservedApplied, Failed, TimedOut, OwnershipConflict}
    case Indeterminate => {ConfigCommitted, ObservedApplied, OwnershipConflict, Failed}
    case _ => {}
  }

  datatype Evidence = Evidence(
    transactionValidated: bool,
    isFresh: bool,
    predicateSatisfied: bool,
    observedNoop: bool)

  const NO_EVIDENCE := Evidence(false, false, false, false)

  /** The guards of `transition`: the edge exists and carries the evidence it needs. */
  predicate MayMove(op: Operation, to: State, evidence: Evidence) {
    && to in Edges(op.state)
    && (to == Submitted ==> op.attempts != [])
    && (to == ConfigCommitted ==> evidence.transactionValidated)
    && (to == ObservedApplied ==> evidence.isFresh && evidence.predicateSatisfied)
    && (to == ObservedApplied && op.state == Validated ==> evidence.observedNoop)
    && (to == TimedOut ==> op.deadlineElapsed)
  }

  function Transition(op: Operation, to: State, evidence: Evidence): Result<Operation> {
    if MayMove(op, to, evidence) then Ok(op.(state := to)) else Err(PreconditionFailed)
  }

  // -- What the lifecycle means ---------------------------------------------------

  /** The longest chain of state changes still open to an operation. */
  function Rank(state: State): nat {
    match state
    case Requested => 4
    case Validated => 3
    case Submitted => 2
    case ConfigCommitted => 1
    case Indeterminate => 1
    case Cancelled => 1
    case _ => 0
  }

  /** Edges the engine really persists: those of the table, and the one overwrite of a
      cancellation by the rejection of an execution that had already read the record. */
  predicate PersistedEdge(from: State, to: State) {
    || from == to
    || to in Edges(from)
    || (from == Cancelled && to == Rejected)
  }

  /** Which evidence each state carries. */
  predicate EvidenceTable(op: Operation) {
    match op.state
    case Requested => Untouched(op) && op.reason == None
    case Validated => Untouched(op) && op.reason == None
    case Rejected => Untouched(op) && op.reason.Some?
    case Cancelled => Untouched(op) && op.reason == None
    case Submitted => Sent(op, Unknown) && Unresolved(op) && op.changed == None && op.reason == None
    case Failed => Sent(op, Unknown) && Unresolved(op) && op.changed == None
    case ConfigCommitted =>
      Sent(op, Reply) && Unresolved(op) && op.changed == Some(true) && op.reason == None
    case Indeterminate =>
      && Sent(op, Unknown) && op.applied == None && op.changed == None && !op.late
      && op.originalOutcome == (if op.deadlineElapsed then Some(Indeterminate) else None)
    case OwnershipConflict =>
      && |op.attempts| == 1 && op.commit.attribution != NotSubmitted && Unresolved(op)
      && op.reason == Some(OwnershipLost)
    case TimedOut =>
      && Sent(op, Reply) && op.changed == Some(true)
      && op.deadlineElapsed && op.originalOutcome == Some(ConfigCommitted)
      && (op.late <==> op.applied.Some?)
      && (op.applied.Some? ==> Proven(op.applied.value) && !op.applied.value.noop)
    case ObservedApplied =>
      && op.applied.Some? && Proven(op.applied.value)
      && (op.late <==> op.deadlineElapsed)
      && if op.attempts == [] then
           && op.applied.value.noop && op.commit == UNSENT && op.changed == Some(false)
           && !op.deadlineElapsed && op.originalOutcome == None
         else
           && |op.attempts| == 1 && !op.applied.value.noop
           && match op.commit.attribution
              case NotSubmitted => false
              case Unknown =>
                && op.changed == None && op.applied.value.currentConditionOnly
                && op.originalOutcome == (if op.deadlineElapsed then Some(Indeterminate) else None)
              case Reply =>
                op.changed == Some(true) && !op.deadlineElapsed && op.originalOutcome == None
  }

  predicate Untouched(op: Operation) {
    op.attempts == [] && op.commit == UNSENT && op.changed == None && Unresolved(op)
  }

  predicate Sent(op: Operation, attribution: Attribution) {
    |op.attempts| == 1 && op.commit.attribution == attribution
  }

  predicate Unresolved(op: Operation) {
    op.applied == None && !op.deadlineElapsed && op.originalOutcome == None && !op.late
  }

  predicate Proven(evidence: ApplicationEvidence) {
    evidence.isFresh && evidence.satisfied
  }

  /** How one persisted update may change a stored record. */
  predicate Evolves(before: Operation, after: Operation) {
    && PersistedEdge(before.state, after.state) && Accumulates(before, after)
    && (before.state != after.state ==> Rank(after.state) < Rank(before.state))
  }

  /** The part of `Evolves` that composes over any number of updates. */
  predicate Accumulates(before: Operation, after: Operation) {
    && after.id == before.id && after.run == before.run && after.source == before.source
    && after.intent == before.intent && after.fingerprint == before.fingerprint
    && after.key == before.key && after.deadlineAt == before.deadlineAt
    && before.attempts <= after.attempts
    && (before.deadlineElapsed ==> after.deadlineElapsed)
    && (before.blocked ==> after.blocked)
    && (before.late ==> after.late)
    && (before.originalOutcome.Some? ==> after.originalOutcome == before.originalOutcome)
    && (before.applied.Some? ==> after.applied == before.applied)
    && (before.changed.Some? ==> after.changed == before.changed)
    && (before.commit.attribution == Reply ==> after.commit == before.commit)
    && (before.commit.attribution == Unknown && Rank(before.state) < 2 ==> after.commit == before.commit)
    && (before.state !in ACTIVE ==> after.state !in ACTIVE)
    && Rank(after.state) <= Rank(before.state)
  }
}
