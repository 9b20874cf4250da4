/** What each step of the engine answers and leaves stored, as conditions on what was stored and
    what arrived: the other half of `Safety`, which says what no step may do. */
module Outcomes {
  import opened Basics
  import opened Lifecycle
  import opened Journal
  import opened Protocol
  import opened Records
  import opened Runs
  import opened Safety
  import opened Theorems
  import opened OneActive
  import opened Reconciling
  import opened Races

  // -- The transition table read from its targets ---------------------------------------

  /** From which states each state is reached, and which states nothing leaves. */
  lemma EdgesByTarget(from: State, to: State)
    ensures to in Edges(from) <==>
            match to
            case Requested => false
            case Validated => from == Requested
            case Submitted => from == Validated
            case ConfigCommitted => from == Submitted || from == Indeterminate
            case ObservedApplied => from == Validated || from == ConfigCommitted || from == Indeterminate
            case Rejected => from == Requested || from == Validated
            case Failed => from == Submitted || from == ConfigCommitted || from == Indeterminate
            case TimedOut => from == ConfigCommitted
            case Indeterminate => from == Submitted
            case OwnershipConflict => from in {Validated, Submitted, ConfigCommitted, Indeterminate}
            case Cancelled => from == Requested || from == Validated
    ensures from in ACTIVE <==> Edges(from) != {}
  {
  }

  /** What each transition needs besides its edge; a refused one leaves nothing but the error. */
  lemma GuardsByTarget(op: Operation, to: State, evidence: Evidence)
    ensures Transition(op, to, evidence)
         == (if to in Edges(op.state)
                && (match to
                    case Submitted => op.attempts != []
                    case ConfigCommitted => evidence.transactionValidated
                    case ObservedApplied =>
                      && evidence.isFresh && evidence.predicateSatisfied
                      && (op.state != Validated || evidence.observedNoop)
                    case TimedOut => op.deadlineElapsed
                    case _ => true)
             then Ok(op.(state := to)) else Err(PreconditionFailed))
  {
  }

  /** The target of an intent is met exactly by the five values it asks for. */
  lemma MatchesExactly(values: Values, intent: Intent, vault: Vault)
    requires intent.Target(vault).Ok?
    ensures intent.secretRef in vault && vault[intent.secretRef].Ok?
    ensures Matches(values, intent.Target(vault).value) <==>
            && Ssid in values && values[Ssid] == Text(intent.ssid)
            && Enabled in values && values[Enabled] == Flag(true)
            && Mode in values && values[Mode] == Text(Ascii("ap"))
            && SecurityMode in values && values[SecurityMode] == Text(Ascii("wpa2-psk"))
            && Credential in values && values[Credential] == Secret(vault[intent.secretRef].value)
  {
    var target := intent.Target(vault).value;
    assert target.Keys == {Ssid, Enabled, Mode, SecurityMode, Credential};
    if Matches(values, target) {
      assert Ssid in target && Enabled in target && Mode in target && SecurityMode in target && Credential in target;
    }
  }

  // -- request ---------------------------------------------------------------------------

  predicate SsidFits(ssid: Bytes) {
    1 <= |ssid| <= 32 && forall i :: 0 <= i < |ssid| ==> ssid[i] != 0
  }

  predicate Profile(i: Intent) {
    i.enabled && i.securityMode == "wpa2-psk"
  }

  predicate Complete(i: Intent) {
    i.podId != "" && i.radioId != "" && i.bssId != "" && i.secretRef != ""
  }

  predicate Bounded(a: Arguments) {
    a.source != "" && 1 <= |a.key| <= 128 && 0.0 < a.deadline && a.deadline <= 3600.0
  }

  /** A request is admitted exactly when every check passes, with the five values it asks for. */
  lemma AdmissionExactly(env: Environment, a: Arguments)
    ensures Admission(env, a).Ok? <==>
            && SsidFits(a.intent.ssid) && Profile(a.intent) && Complete(a.intent) && a.semantic && Bounded(a)
            && a.intent.podId in env.pods && a.intent.secretRef in env.vault && env.vault[a.intent.secretRef].Ok?
    ensures Admission(env, a).Ok? ==>
              Admission(env, a).value == map[
                Ssid := Text(a.intent.ssid), Enabled := Flag(true), Mode := Text(AP), SecurityMode := Text(WPA2_PSK),
                Credential := Secret(env.vault[a.intent.secretRef].value)]
  {
  }

  /** Why a request is not admitted: the first failing check decides. */
  lemma RefusedAdmission(env: Environment, a: Arguments)
    ensures !SsidFits(a.intent.ssid) ==> Admission(env, a) == Err(InvalidInput)
    ensures SsidFits(a.intent.ssid) && !Profile(a.intent) ==> Admission(env, a) == Err(UnsupportedOperation)
    ensures (SsidFits(a.intent.ssid) && Profile(a.intent) && !Complete(a.intent)) ==> Admission(env, a) == Err(InvalidInput)
    ensures a.intent.Validate().Ok? && !a.semantic ==> Admission(env, a) == Err(MissingPrerequisite)
    ensures a.intent.Validate().Ok? && a.semantic && !Bounded(a) ==> Admission(env, a) == Err(InvalidInput)
    ensures (a.intent.Validate().Ok? && a.semantic && Bounded(a)) ==>
              if a.intent.podId !in env.pods then Admission(env, a) == Err(UnsupportedOperation)
              else if a.intent.secretRef !in env.vault then Admission(env, a) == Err(MissingPrerequisite)
              else env.vault[a.intent.secretRef].Err? ==> Admission(env, a) == Err(env.vault[a.intent.secretRef].code)
  {
  }

  /** A refused request leaves everything as it was. */
  lemma RefusedRequest(j: Journal, m: Memory, env: Environment, a: Arguments)
    requires Admission(env, a).Err?
    ensures RequestSegment(j, m, env, a) == Segment([], m, Err(Admission(env, a).code))
  {
  }

  /** A stored operation has this source, pod and idempotency key. */
  predicate SameRequest(op: Operation, source: string, pod: string, key: string) {
    op.source == source && op.intent.podId == pod && op.key == key
  }

  /** An operation of the pod is neither finished nor given up. */
  predicate Occupied(rows: seq<Operation>, pod: string) {
    exists i :: 0 <= i < |rows| && rows[i].intent.podId == pod
                && rows[i].state in {Requested, Validated, Submitted, ConfigCommitted, Indeterminate}
  }

  lemma OccupiedIs(rows: seq<Operation>, pod: string)
    ensures Occupied(rows, pod) <==> PodActive(rows, pod)
  {
  }

  lemma SameRequestIs(op: Operation, source: string, pod: string, key: string)
    ensures SameRequest(op, source, pod, key) <==> Keyed(op, source, pod, key)
  {
  }

  /** A repeated key is answered with the stored operation exactly when it asked for the same, in
      intent and in the target that resolved to; otherwise with INVALID_INPUT. Nothing changes. */
  lemma RepeatedKeyAnswered(worlds: seq<World>, actions: seq<Action>, k: nat, a: Arguments, i: nat)
    requires IsRun(worlds, actions) && k < |worlds| && i < |worlds[k].journal.rows|
    requires SameRequest(worlds[k].journal.rows[i], a.source, a.intent.podId, a.key)
    requires Admission(worlds[k].env, a).Ok?
    ensures var w, old_ := worlds[k], worlds[k].journal.rows[i];
            var segment := RequestSegment(w.journal, w.memory, w.env, a);
            && segment.commits == [] && segment.memory == w.memory
            && (segment.outcome == Ok(old_) <==>
                  old_.intent == a.intent && Ok(old_.fingerprint.target) == a.intent.Target(w.env.vault))
            && (segment.outcome != Ok(old_) ==> segment.outcome == Err(InvalidInput))
  {
    hide EvidenceTable, FramesOk, CallsOk, NotYetCalled, LatchOk, Intent.Target, Intent.Validate, Keyed;
    var w, old_ := worlds[k], worlds[k].journal.rows[i];
    SameRequestIs(old_, a.source, a.intent.podId, a.key);
    RunSafe(worlds, actions, k);
    RunAdmitted(worlds, actions, k);
    var found := FindKey(w.journal.rows, a.source, a.intent.podId, a.key);
    assert old_ in w.journal.rows;
    var n :| 0 <= n < |w.journal.rows| && w.journal.rows[n] == found.value;
    SameKey(w.journal.rows[n], w.journal.rows[i], a.source, a.intent.podId, a.key);
    OneOperationPerKey(worlds, actions, k, n, i);
  }

  lemma SameKey(one: Operation, other: Operation, source: string, pod: string, key: string)
    requires Keyed(one, source, pod, key) && Keyed(other, source, pod, key)
    ensures Keyed(one, other.source, other.Pod(), other.key)
  {
  }

  /** A new request is journalled exactly when the budget allows, as what was asked for; it is left
      REQUESTED exactly when nothing holds the pod, and otherwise answered with the reason. */
  lemma NewRequestAnswered(j: Journal, m: Memory, env: Environment, a: Arguments)
    requires Admission(env, a).Ok?
    requires forall i :: 0 <= i < |j.rows| ==> !SameRequest(j.rows[i], a.source, a.intent.podId, a.key)
    ensures var segment := RequestSegment(j, m, env, a);
            var later := ApplyAll(j, segment.commits);
            var pod := a.intent.podId;
            var held := m.quiesced || pod in m.busy || Occupied(j.rows, pod);
            if |j.rows| >= j.maxOperations then segment == Segment([], m, Err(Busy))
            else
              && segment.outcome.Ok?
              && var op := segment.outcome.value;
                 && later.rows == j.rows + [op] && later.conflicts == j.conflicts
                 && op.id == |j.rows| && op.run == a.run && op.source == a.source && op.key == a.key
                 && op.intent == a.intent && op.fingerprint == Fingerprint(a.intent, Admission(env, a).value)
                 && op.deadlineAt == env.now.wall + a.deadline && Untouched(op)
                 && (op.state == Requested || op.state == Rejected)
                 && (op.state == Requested <==> !held && pod !in j.conflicts)
                 && (op.reason == Some(Busy) <==> held)
                 && (op.reason == Some(OwnershipLost) <==> !held && pod in j.conflicts)
                 && (op.reason == None <==> op.state == Requested)
                 && segment.memory == m.(deadlines := m.deadlines[op.id := env.now.mono + a.deadline])
  {
    hide Admission, PodActive, Occupied, ApplyAll, Apply, RequestSegment, EnterSegment, NewOperation, Refused, Keyed, SameRequest;
    OccupiedIs(j.rows, a.intent.podId);
    forall i | 0 <= i < |j.rows|
      ensures !Keyed(j.rows[i], a.source, a.intent.podId, a.key)
    {
      SameRequestIs(j.rows[i], a.source, a.intent.podId, a.key);
    }
    NewRequestCommits(j, m, env, a);
    var commits := RequestSegment(j, m, env, a).commits;
    if |commits| == 1 {
      assert commits == [Insert(commits[0].op)];
      One(j, commits[0]);
      InsertedRow(j, commits[0].op);
    } else if |commits| == 2 {
      assert commits == [Insert(commits[0].op), Update(commits[1].op)];
      Two(j, commits[0], commits[1]);
      InsertedRow(j, commits[0].op);
      UpdatedRow(Apply(j, commits[0]), commits[1].op);
    }
  }

  /** The commits of a new request, which end with the record that is answered. */
  lemma NewRequestCommits(j: Journal, m: Memory, env: Environment, a: Arguments)
    requires Admission(env, a).Ok?
    requires forall i :: 0 <= i < |j.rows| ==> !Keyed(j.rows[i], a.source, a.intent.podId, a.key)
    ensures var segment := RequestSegment(j, m, env, a);
            var pod := a.intent.podId;
            var held := m.quiesced || pod in m.busy || PodActive(j.rows, pod);
            if |j.rows| >= j.maxOperations then segment == Segment([], m, Err(Busy))
            else
              && segment.outcome.Ok?
              && var op := segment.outcome.value;
                 && op.id == |j.rows| && op.run == a.run && op.source == a.source && op.key == a.key
                 && op.intent == a.intent && op.fingerprint == Fingerprint(a.intent, Admission(env, a).value)
                 && op.deadlineAt == env.now.wall + a.deadline && Untouched(op)
                 && op.state == (if !held && pod !in j.conflicts then Requested else Rejected)
                 && op.reason == (if held then Some(Busy) else if pod in j.conflicts then Some(OwnershipLost) else None)
                 && segment.memory == m.(deadlines := m.deadlines[op.id := env.now.mono + a.deadline])
                 && (segment.commits == [Insert(op)]
                     || (|segment.commits| == 2 && segment.commits[0].Insert? && segment.commits[0].op.id == op.id
                         && segment.commits[1] == Update(op)))
  {
    hide Admission, PodActive, FindKey, Keyed;
    assert FindKey(j.rows, a.source, a.intent.podId, a.key).None?;
  }

  // -- execute ---------------------------------------------------------------------------

  function RejectedFor(op: Operation, code: Reason): Operation {
    op.(state := Rejected, reason := Some(code))
  }

  /** An execution opens exactly for a REQUESTED operation of a known pod that is neither busy nor
      conflicted; a conflicted one is rejected; in every other case nothing changes. */
  lemma StartOutcome(w: World, id: nat)
    requires Inv(w) && w.up
    ensures var s := ExecStart(id);
            var next, rows := Next(w, Do(s)), w.journal.rows;
            var waits := id < |rows| && rows[id].state == Requested && rows[id].Pod() !in w.memory.busy
                         && rows[id].Pod() in w.env.pods;
            var opens := waits && rows[id].Pod() !in w.journal.conflicts;
            && next.journal.rows == (if waits && !opens then rows[id := RejectedFor(rows[id], OwnershipLost)] else rows)
            && next.journal.conflicts == w.journal.conflicts
            && next.frames == (if opens then w.frames[rows[id].Pod() := Planning(rows[id])] else w.frames)
            && next.memory == (if opens then w.memory.(busy := w.memory.busy + {rows[id].Pod()}) else w.memory)
    ensures var rows, outcome := w.journal.rows, ProgressOf(w, ExecStart(id)).outcome;
            && (outcome == Raising(Some(NotFound)) <==> id >= |rows|)
            && (id < |rows| && rows[id].state != Requested ==> outcome == Finished(rows[id]))
            && (outcome == Raising(Some(Busy)) <==>
                  id < |rows| && rows[id].state == Requested && rows[id].Pod() in w.memory.busy)
  {
    hide FramesOk, CallsOk, NotYetCalled, LatchOk, EvidenceTable, Keyed, Apply, ApplyAll;
    Nothing(w.journal);
    var commits := Commits(w, ExecStart(id));
    if id < |w.journal.rows| {
      assert GoodRow(w.journal, id);
    }
    if commits != [] {
      One(w.journal, commits[0]);
      UpdatedRow(w.journal, commits[0].op);
    }
  }

  /** Planning goes on to the snapshot, rejects the operation, or leaves it as it is. */
  lemma PlanOutcome(w: World, pod: string, plan: Awaited<bool>)
    requires Inv(w) && CanStep(w, PlanReturn(pod, plan))
    ensures var next, op := Next(w, Do(PlanReturn(pod, plan))), w.frames[pod].op;
            && op.id < |w.journal.rows|
            && next.journal.rows == (if plan.Raised? then w.journal.rows[op.id := RejectedFor(op, plan.code)] else w.journal.rows)
            && next.journal.conflicts == w.journal.conflicts
            && next.frames == (if plan.Returned? then w.frames[pod := Snapshotting(op)] else w.frames - {pod})
            && next.memory == (if plan.Returned? then w.memory else w.memory.(busy := w.memory.busy - {pod}))
  {
    hide Inv, EvidenceTable, Apply, ApplyAll;
    FrameKnown(w, pod);
    var commits := Commits(w, PlanReturn(pod, plan));
    Nothing(w.journal);
    if plan.Raised? {
      One(w.journal, commits[0]);
      UpdatedRow(w.journal, commits[0].op);
    }
  }

  /** The journal and the execution after a snapshot, for one of five endings. */
  ghost predicate After(w: World, next: World, pod: string, row: Operation, frame: Option<Frame>)
    requires pod in w.frames && w.frames[pod].op.id < |w.journal.rows|
  {
    && next.journal.rows == w.journal.rows[w.frames[pod].op.id := row]
    && next.journal.conflicts == w.journal.conflicts
    && next.frames == (if frame.Some? then w.frames[pod := frame.value] else w.frames - {pod})
    && next.memory == (if frame.Some? then w.memory else w.memory.(busy := w.memory.busy - {pod}))
  }

  /** After the snapshot: rejected when it raised or was not ready; left alone when it broke off or the
      operation was cancelled meanwhile; otherwise VALIDATED when the target no longer resolves, a
      no-op with its evidence exactly when the snapshot shows the target, and SUBMITTED with
      its one attempt exactly when it does not. */
  lemma SnapshotOutcome(w: World, s: Step)
    requires Inv(w) && CanStep(w, s) && s.SnapshotReturn?
    ensures var next, op := Next(w, Do(s)), w.frames[s.pod].op;
            && op.id < |w.journal.rows|
            && var row := w.journal.rows[op.id];
            && (s.answer.Raised? ==> After(w, next, s.pod, RejectedFor(op, s.answer.code), None))
            && (s.answer.Broken? ==> After(w, next, s.pod, row, None))
            && (s.answer.Returned? ==>
                  var snap, target := s.answer.value, op.intent.Target(w.env.vault);
                  if !snap.ready then After(w, next, s.pod, RejectedFor(op, NotReady), None)
                  else if row.state != Requested then After(w, next, s.pod, row, None)
                  else if target.Err? then After(w, next, s.pod, op.(state := Validated), None)
                  else if Shows(op.intent, w.env.vault, snap) then
                    After(w, next, s.pod,
                          op.(state := ObservedApplied, changed := Some(false),
                              applied := Some(ApplicationEvidence(
                                true, true, snap.generation, snap.observed.revision, true, false))),
                          None)
                  else
                    var attempt := Attempt(s.attemptId, s.transactionId, snap.generation, w.env.now.wall);
                    var sent := op.(state := Submitted, attempts := [attempt], commit := CommitEvidence(Unknown, false, None));
                    After(w, next, s.pod, sent, Some(Submitting(sent, attempt))))
  {
    hide Inv, EvidenceTable, Apply, ApplyAll, Commits, ProgressOf, Intent.Target, Shows, FrameOk, Validating;
    FrameKnown(w, s.pod);
    var op := w.frames[s.pod].op;
    SnapshotEnds(w, s);
    Nothing(w.journal);
    RowItself(w.journal.rows, op.id);
    assert Rest(w, s) == Advanced(w, s.pod, ProgressOf(w, s)) && Commits(w, s) == ProgressOf(w, s).commits by {
      SnapshotAdvanced(w, s);
    }
    var commits := ProgressOf(w, s).commits;
    if |commits| == 1 {
      OneUpdated(w.journal, commits[0].op);
    } else if |commits| == 2 {
      TwoUpdated(w.journal, commits[0].op, commits[1].op);
    }
  }

  lemma SnapshotAdvanced(w: World, s: Step)
    requires CanStep(w, s) && s.SnapshotReturn?
    ensures Rest(w, s) == Advanced(w, s.pod, ProgressOf(w, s)) && Commits(w, s) == ProgressOf(w, s).commits
  {
    hide ProgressOf;
  }

  lemma RowItself(rows: seq<Operation>, id: nat)
    requires id < |rows|
    ensures rows[id := rows[id]] == rows
  {
  }

  lemma OneUpdated(j: Journal, op: Operation)
    requires op.id < |j.rows|
    ensures ApplyAll(j, [Update(op)]).rows == j.rows[op.id := op]
    ensures ApplyAll(j, [Update(op)]).conflicts == j.conflicts
  {
    hide Apply, ApplyAll;
    One(j, Update(op));
    UpdatedRow(j, op);
  }

  lemma TwoUpdated(j: Journal, first: Operation, op: Operation)
    requires op.id < |j.rows| && first.id == op.id
    ensures ApplyAll(j, [Update(first), Update(op)]).rows == j.rows[op.id := op]
    ensures ApplyAll(j, [Update(first), Update(op)]).conflicts == j.conflicts
  {
    hide Apply, ApplyAll;
    Two(j, Update(first), Update(op));
    UpdatedRow(j, first);
    UpdatedRow(Apply(j, Update(first)), op);
  }

  /** The segment after a snapshot, spelled out for each ending. */
  lemma SnapshotEnds(w: World, s: Step)
    requires Inv(w) && CanStep(w, s) && s.SnapshotReturn?
    ensures var segment, op := ProgressOf(w, s), w.frames[s.pod].op;
            var row, free := w.journal.rows[op.id], w.memory.(busy := w.memory.busy - {s.pod});
            var refused := (code: Reason) => Segment([Update(RejectedFor(op, code))], free, Finished(RejectedFor(op, code)));
            && (s.answer.Raised? ==> segment == refused(s.answer.code))
            && (s.answer.Broken? ==> segment == Segment([], free, Raising(None)))
            && (s.answer.Returned? ==>
                  var snap, target, validated := s.answer.value, op.intent.Target(w.env.vault), op.(state := Validated);
                  if !snap.ready then segment == refused(NotReady)
                  else if row.state != Requested then segment == Segment([], free, Finished(row))
                  else if target.Err? then segment == Segment([Update(validated)], free, Raising(Some(target.code)))
                  else if Shows(op.intent, w.env.vault, snap) then
                    var final := op.(state := ObservedApplied, changed := Some(false),
                                     applied := Some(ApplicationEvidence(
                                       true, true, snap.generation, snap.observed.revision, true, false)));
                    segment == Segment([Update(validated), Update(final)], free, Finished(final))
                  else
                    var attempt := Attempt(s.attemptId, s.transactionId, snap.generation, w.env.now.wall);
                    var sent := op.(state := Submitted, attempts := [attempt], commit := CommitEvidence(Unknown, false, None));
                    segment == Segment([Update(validated), Update(sent)], w.memory, Waiting(Submitting(sent, attempt))))
  {
    hide Inv, EvidenceTable, Matches, Intent.Target;
    FrameKnown(w, s.pod);
    var op := w.frames[s.pod].op;
    CopyUnsent(w.journal.rows, op);
    if s.answer.Returned? && s.answer.value.ready && w.journal.rows[op.id].state == Requested {
      ValidatedEnds(w.memory, w.env, op.(state := Validated), s.answer.value, s.attemptId, s.transactionId);
    }
  }

  lemma ValidatedEnds(m: Memory, env: Environment, op: Operation, snap: Snapshot, attemptId: nat, transactionId: nat)
    requires op.state == Validated && op.attempts == [] && snap.ready
    ensures var segment := ValidatedSegment(m, env, op, snap, attemptId, transactionId);
            var target, free := op.intent.Target(env.vault), m.(busy := m.busy - {op.Pod()});
            if target.Err? then segment == Segment([Update(op)], free, Raising(Some(target.code)))
            else if Shows(op.intent, env.vault, snap) then
              var final := op.(state := ObservedApplied, changed := Some(false),
                               applied := Some(ApplicationEvidence(
                                 true, true, snap.generation, snap.observed.revision, true, false)));
              segment == Segment([Update(op), Update(final)], free, Finished(final))
            else
              var attempt := Attempt(attemptId, transactionId, snap.generation, env.now.wall);
              var sent := op.(state := Submitted, attempts := [attempt], commit := CommitEvidence(Unknown, false, None));
              segment == Segment([Update(op), Update(sent)], m, Waiting(Submitting(sent, attempt)))
  {
    hide Matches, Intent.Target;
    assert [] + [Attempt(attemptId, transactionId, snap.generation, env.now.wall)]
      == [Attempt(attemptId, transactionId, snap.generation, env.now.wall)];
  }

  lemma CopyUnsent(rows: seq<Operation>, op: Operation)
    requires op.id < |rows| && Validating(rows, op)
    ensures op.attempts == []
  {
  }

  /** What a submission's outcome leaves stored: INDETERMINATE exactly when nothing was returned or the
      outcome is unknown, FAILED exactly when it was rejected, CONFIG_COMMITTED with the reply's
      evidence exactly when committed, and OWNERSHIP_CONFLICT with the pod's record exactly on conflict. */
  lemma ReplyOutcome(w: World, pod: string)
    requires Inv(w) && CanStep(w, SubmitReturn(pod))
    ensures var next, op, reply := Next(w, Do(SubmitReturn(pod))), w.frames[pod].op, w.frames[pod].reply;
            && op.id < |next.journal.rows| && w.journal.rows[op.id] == op
            && var after := next.journal.rows[op.id];
            && next.journal.rows == w.journal.rows[op.id := after]
            && after == op.(state := after.state, reason := after.reason, commit := after.commit, changed := after.changed)
            && (after.state == Indeterminate <==> !reply.Returned? || reply.value.status == StatusUnknown)
            && (after.state == Failed <==> reply.Returned? && reply.value.status == StatusRejected)
            && (after.state == ConfigCommitted <==> reply.Returned? && reply.value.status == StatusCommitted)
            && (after.state == OwnershipConflict <==> reply.Returned? && reply.value.status == StatusConflict)
            && (after.state == Indeterminate ==> after.reason == Some(OutcomeUnknown))
            && (after.state == Failed ==> after.reason == reply.value.reason)
            && (after.state == ConfigCommitted ==> after.reason == None)
            && (after.state == OwnershipConflict ==> after.reason == Some(OwnershipLost))
            && after.commit == (if after.state == ConfigCommitted then reply.value.evidence else op.commit)
            && after.changed == (if after.state == ConfigCommitted then Some(true) else op.changed)
            && next.journal.conflicts
               == (if after.state == OwnershipConflict
                   then w.journal.conflicts[pod := ConflictRecord(op.id, GuardFailed(reply.value.reason))]
                   else w.journal.conflicts)
            && next.frames == w.frames - {pod} && next.memory == w.memory.(busy := w.memory.busy - {pod})
  {
    hide Inv, EvidenceTable, Apply, ApplyAll, Resolution;
    FrameKnown(w, pod);
    var op, reply := w.frames[pod].op, w.frames[pod].reply;
    ResolutionTable(op, reply);
    var final := Resolution(op, reply).value;
    var commits := Commits(w, SubmitReturn(pod));
    if final.state == OwnershipConflict {
      var record := ConflictRecord(op.id, GuardFailed(reply.value.reason));
      assert commits == [Conflict(pod, record), Update(final)];
      Two(w.journal, Conflict(pod, record), Update(final));
      ConflictedPod(w.journal, pod, record);
      UpdatedRow(Apply(w.journal, Conflict(pod, record)), final);
    } else {
      assert commits == [Update(final)];
      OneUpdated(w.journal, final);
    }
  }

  lemma ResolutionTable(op: Operation, reply: Awaited<SubmitResult>)
    requires op.state == Submitted && EvidenceTable(op) && Conforming(reply)
    ensures Resolution(op, reply).Ok?
    ensures var after := Resolution(op, reply).value;
            && after == op.(state := after.state, reason := after.reason, commit := after.commit, changed := after.changed)
            && (after.state == Indeterminate <==> !reply.Returned? || reply.value.status == StatusUnknown)
            && (after.state == Failed <==> reply.Returned? && reply.value.status == StatusRejected)
            && (after.state == ConfigCommitted <==> reply.Returned? && reply.value.status == StatusCommitted)
            && (after.state == OwnershipConflict <==> reply.Returned? && reply.value.status == StatusConflict)
            && (after.state == Indeterminate ==> after.reason == Some(OutcomeUnknown))
            && (after.state == Failed ==> after.reason == reply.value.reason)
            && (after.state == ConfigCommitted ==> after.reason == None)
            && (after.state == OwnershipConflict ==> after.reason == Some(OwnershipLost))
            && after.commit == (if after.state == ConfigCommitted then reply.value.evidence else op.commit)
            && after.changed == (if after.state == ConfigCommitted then Some(true) else op.changed)
  {
  }

  // -- cancel and recover ------------------------------------------------------------------

  /** A cancellation is stored exactly for an operation that was never sent and is not yet settled;
      otherwise it is answered with the error and nothing changes. */
  lemma CancelOutcome(w: World, id: nat)
    requires Inv(w) && w.up
    ensures var rows, next := w.journal.rows, Next(w, Do(Cancel(id)));
            var open := id < |rows| && (rows[id].state == Requested || rows[id].state == Validated);
            && next == w.(journal := next.journal)
            && next.journal.conflicts == w.journal.conflicts
            && next.journal.rows == (if open then rows[id := rows[id].(state := Cancelled)] else rows)
            && CancelSegment(w.journal, w.memory, id).outcome
               == (if id >= |rows| then Err(NotFound)
                   else if open then Ok(rows[id].(state := Cancelled)) else Err(PreconditionFailed))
  {
    hide FramesOk, CallsOk, NotYetCalled, LatchOk, EvidenceTable, Keyed, Apply, ApplyAll, MayMove;
    Nothing(w.journal);
    if id < |w.journal.rows| {
      assert GoodRow(w.journal, id);
      MayCancel(w.journal.rows[id]);
      OneUpdated(w.journal, w.journal.rows[id].(state := Cancelled));
    }
  }

  lemma MayCancel(op: Operation)
    ensures MayMove(op, Cancelled, NO_EVIDENCE) <==> op.state == Requested || op.state == Validated
  {
  }

  /** Recovery: what may have been sent is left to observation, what was not is cancelled, and everything
      else is as it was. */
  lemma RecoverOutcome(w: World, mono: real)
    requires Inv(w) && !w.up
    ensures var rows, next := w.journal.rows, Next(w, Do(Restart(mono)));
            && |next.journal.rows| == |rows| && next.journal.conflicts == w.journal.conflicts
            && forall i :: 0 <= i < |rows| ==>
                 next.journal.rows[i] ==
                   (if rows[i].state == Submitted then
                      rows[i].(state := Indeterminate, commit := CommitEvidence(Unknown, false, None),
                               reason := Some(OutcomeUnknown))
                    else if rows[i].state == Validated then rows[i].(state := Cancelled)
                    else rows[i])
  {
    hide FramesOk, CallsOk, NotYetCalled, LatchOk, EvidenceTable, GoodJournal, ApplyAll, LawfulAll, RecoverCommits;
    var rows := w.journal.rows;
    RecoverLawful(w.journal, |rows|);
    assert rows[..|rows|] == rows;
  }

  // -- reconcile -----------------------------------------------------------------------------

  /** What one look at a watched record leaves of it, as conditions on its state, on whether its deadline
      has passed, on its target and on the snapshot. */
  ghost predicate Reconciled(op: Operation, after: Operation, expired: bool, vault: Vault, snap: Snapshot) {
    var target := op.intent.Target(vault);
    var overdue := expired && (op.state == ConfigCommitted || op.state == Indeterminate);
    var applies := op.applied == None && Shows(op.intent, vault, snap);
    && after == op.(state := after.state, reason := after.reason, applied := after.applied,
                    deadlineElapsed := after.deadlineElapsed, originalOutcome := after.originalOutcome,
                    late := after.late, blocked := after.blocked)
    && (after.state == ObservedApplied <==>
          op.state == ObservedApplied || (applies && (op.state == Indeterminate || (op.state == ConfigCommitted && !expired))))
    && (after.state == TimedOut <==> op.state == TimedOut || (op.state == ConfigCommitted && expired))
    && (after.state == OwnershipConflict <==> op.state == ConfigCommitted && !expired && Overwritten(op, vault, snap))
    && (after.state == ConfigCommitted <==>
          op.state == ConfigCommitted && !expired && !applies && !Overwritten(op, vault, snap))
    && (after.state == Indeterminate <==> op.state == Indeterminate && !applies)
    && (after.applied != op.applied <==> applies)
    && (applies ==> after.applied == Some(ApplicationEvidence(
          true, true, snap.generation, snap.observed.revision, false, op.commit.attribution == Unknown)))
    && (after.deadlineElapsed <==> op.deadlineElapsed || overdue)
    && after.originalOutcome == (if overdue && !op.deadlineElapsed then Some(op.state) else op.originalOutcome)
    && (after.late <==> op.late || (applies && after.deadlineElapsed))
    && (after.blocked <==> op.blocked || target.Err?)
    && after.reason ==
         (if Overwritten(op, vault, snap) && op.state != Indeterminate then Some(OwnershipLost)
          else if applies && op.commit.attribution != Unknown then
            if after.deadlineElapsed then Some(ApplyTimeout) else None
          else if op.state == ConfigCommitted && expired then Some(ApplyTimeout)
          else op.reason)
  }

  /** A ready and fresh snapshot whose configuration is not the target's. */
  ghost predicate Overwritten(op: Operation, vault: Vault, snap: Snapshot) {
    && op.intent.Target(vault).Ok? && snap.ready && snap.observed.isFresh
    && !Matches(snap.config, op.intent.Target(vault).value)
  }

  /** The record once its deadline is marked. */
  function Marked(op: Operation, expired: bool): Operation {
    if expired && op.state == ConfigCommitted then
      op.(state := TimedOut, reason := Some(ApplyTimeout), deadlineElapsed := true, originalOutcome := Some(ConfigCommitted))
    else if expired && op.state == Indeterminate then
      op.(deadlineElapsed := true, originalOutcome := Some(Indeterminate))
    else op
  }

  lemma MarkIs(op: Operation, expired: bool)
    requires EvidenceTable(op) && op.state in WATCHED
    ensures MarkDeadline(op, expired).op == Marked(op, expired)
    ensures MarkDeadline(op, expired).raised == None && !MarkDeadline(op, expired).conflict
    ensures op.state == ObservedApplied ==> op.applied.Some?
    ensures op.state == ConfigCommitted || op.state == Indeterminate ==> op.applied == None && !op.late
    ensures op.state == ConfigCommitted ==> !op.deadlineElapsed && op.commit.attribution == Reply
    ensures op.state == TimedOut ==> op.deadlineElapsed && op.commit.attribution == Reply
    ensures op.state == Indeterminate && op.deadlineElapsed ==> op.originalOutcome == Some(Indeterminate)
    ensures op.state == Indeterminate ==> op.commit.attribution == Unknown
  {
  }

  /** A marked record once it is compared with the snapshot. */
  ghost function Compared(op: Operation, vault: Vault, snap: Snapshot): Operation {
    if op.intent.Target(vault).Err? then op.(blocked := true)
    else if Overwritten(op, vault, snap) && op.state != Indeterminate then
      op.(state := if op.state == ConfigCommitted then OwnershipConflict else op.state, reason := Some(OwnershipLost))
    else if op.applied == None && Shows(op.intent, vault, snap) then
      op.(state := if op.state == TimedOut then TimedOut else ObservedApplied,
          applied := Some(ApplicationEvidence(
            true, true, snap.generation, snap.observed.revision, false, op.commit.attribution == Unknown)),
          late := op.late || op.deadlineElapsed,
          reason := if op.commit.attribution == Unknown then op.reason
                    else if op.deadlineElapsed then Some(ApplyTimeout) else None)
    else op
  }

  lemma JudgeIs(op: Operation, snap: Snapshot, expired: bool, vault: Vault)
    requires EvidenceTable(op) && op.state in WATCHED
    ensures var v := Judge(op, snap, expired, op.intent.Target(vault));
            && v.op == Compared(Marked(op, expired), vault, snap)
            && (v.conflict <==> op.state != Indeterminate && Overwritten(op, vault, snap))
  {
    hide Matches, Intent.Target, MarkDeadline, EvidenceTable, Compare;
    MarkIs(op, expired);
    var target := op.intent.Target(vault);
    if target.Ok? {
      CompareIs(MarkDeadline(op, expired), snap, vault);
    }
  }

  lemma CompareIs(v: Verdict, snap: Snapshot, vault: Vault)
    requires v.op.state in WATCHED && v.raised == None && !v.conflict && (v.op.state == ObservedApplied ==> v.op.applied.Some?)
    requires v.op.intent.Target(vault).Ok?
    ensures var c := Compare(v, snap, v.op.intent.Target(vault).value);
            && c.op == Compared(v.op, vault, snap)
            && c.conflict == (Overwritten(v.op, vault, snap) && v.op.state != Indeterminate)
  {
    hide Matches, Intent.Target;
  }

  lemma JudgeOutcome(op: Operation, snap: Snapshot, expired: bool, vault: Vault)
    requires EvidenceTable(op) && op.state in WATCHED
    ensures var v := Judge(op, snap, expired, op.intent.Target(vault));
            && Reconciled(op, v.op, expired, vault, snap)
            && (v.conflict <==> op.state != Indeterminate && Overwritten(op, vault, snap))
  {
    hide Judge, Reconciled;
    JudgeIs(op, snap, expired, vault);
    MarkIs(op, expired);
    NotBoth(op.intent, vault, snap, op);
    ComparedTable(op, expired, vault, snap);
  }

  lemma NotBoth(intent: Intent, vault: Vault, snap: Snapshot, op: Operation)
    requires op.intent == intent
    ensures Shows(intent, vault, snap) ==> !Overwritten(op, vault, snap) && intent.Target(vault).Ok?
    ensures Overwritten(op, vault, snap) ==> intent.Target(vault).Ok?
  {
    hide Matches, Intent.Target;
  }

  lemma ComparedTable(op: Operation, expired: bool, vault: Vault, snap: Snapshot)
    requires op.state in WATCHED
    requires op.state == ObservedApplied ==> op.applied.Some?
    requires op.state == ConfigCommitted || op.state == Indeterminate ==> op.applied == None && !op.late
    requires op.state == ConfigCommitted ==> !op.deadlineElapsed && op.commit.attribution == Reply
    requires op.state == TimedOut ==> op.deadlineElapsed && op.commit.attribution == Reply
    requires op.state == Indeterminate && op.deadlineElapsed ==> op.originalOutcome == Some(Indeterminate)
    requires op.state == Indeterminate ==> op.commit.attribution == Unknown
    requires Shows(op.intent, vault, snap) ==> !Overwritten(op, vault, snap) && op.intent.Target(vault).Ok?
    requires Overwritten(op, vault, snap) ==> op.intent.Target(vault).Ok?
    ensures Reconciled(op, Compared(Marked(op, expired), vault, snap), expired, vault, snap)
  {
    hide Shows, Intent.Target, Overwritten;
    assert Overwritten(Marked(op, expired), vault, snap) == Overwritten(op, vault, snap) by {
      SameIntentOverwritten(op, Marked(op, expired), vault, snap);
    }
  }

  lemma SameIntentOverwritten(op: Operation, other: Operation, vault: Vault, snap: Snapshot)
    requires other.intent == op.intent
    ensures Overwritten(other, vault, snap) == Overwritten(op, vault, snap)
  {
  }

  /** One reconciliation of a pod: the whole outcome for its last landed operation, and nothing else. The
      pod's conflict is recorded exactly when a ready and fresh snapshot's configuration is not the target
      of an operation known to have committed, and an observation is noted exactly when the target
      resolves and the snapshot differs from the one noted last. */
  lemma ReconcileOutcome(j: Journal, m: Memory, env: Environment, pod: string, snap: Snapshot)
    requires GoodJournal(j)
    ensures var last, segment := LastLanded(j.rows, pod), ReconcileSegment(j, m, env, pod, snap);
            var later := ApplyAll(j, segment.commits);
            if last < 0 || j.rows[last].state !in {ConfigCommitted, Indeterminate, TimedOut, ObservedApplied} then
              later == j && segment.memory == m
            else
              var op := j.rows[last];
              && |later.rows| == |j.rows| && later.rows == j.rows[last := later.rows[last]]
              && Reconciled(op, later.rows[last], Expired(m, op, env.now), env.vault, snap)
              && later.conflicts
                 == (if op.state != Indeterminate && Overwritten(op, env.vault, snap)
                     then j.conflicts[pod := ConflictRecord(last, ConfigurationChanged)] else j.conflicts)
              && ((exists k :: 0 <= k < |segment.commits| && segment.commits[k] == Observe(op.run, pod, last))
                  <==> op.intent.Target(env.vault).Ok? && !NotedAlready(m, last, snap))
              && (op.intent.Target(env.vault).Ok? ==> NotedAlready(segment.memory, last, snap))
              && segment.memory.deadlines == m.deadlines[last := DeadlineOf(m, op, env.now)]
  {
    hide EvidenceTable, Keyed, Judge, Expired, Evolves, ReconcileRow, ApplyAll, Reconciled, Overwritten, Intent.Target, Matches,
      SignatureOf, Lawful, LawfulAll, DeadlineOf, NotedAlready;
    var last := LastLanded(j.rows, pod);
    Nothing(j);
    if last >= 0 && j.rows[last].state in WATCHED {
      var op := j.rows[last];
      assert GoodRow(j, last);
      JudgeKeeps(op, snap, Expired(m, op, env.now), op.intent.Target(env.vault));
      KeepsIdentity(op, Judge(op, snap, Expired(m, op, env.now), op.intent.Target(env.vault)).op);
      RowEffect(j, m, env, op, snap);
      JudgeOutcome(op, snap, Expired(m, op, env.now), env.vault);
      RowNotes(m, env, op, snap);
    }
  }

  /** The last snapshot noted for the operation was this one, in its values, configuration, generation
      and freshness. */
  predicate NotedAlready(m: Memory, id: nat, snap: Snapshot) {
    && id in m.observations
    && m.observations[id].values == snap.observed.values && m.observations[id].config == snap.config
    && m.observations[id].generation == snap.observed.generation && m.observations[id].isFresh == snap.observed.isFresh
  }

  lemma RowNotes(m: Memory, env: Environment, op: Operation, snap: Snapshot)
    requires EvidenceTable(op) && op.state in WATCHED
    ensures var segment := ReconcileRow(m, env, op, snap);
            && ((exists k :: 0 <= k < |segment.commits| && segment.commits[k] == Observe(op.run, op.Pod(), op.id))
                <==> op.intent.Target(env.vault).Ok? && !NotedAlready(m, op.id, snap))
            && (op.intent.Target(env.vault).Ok? ==> NotedAlready(segment.memory, op.id, snap))
            && segment.memory.deadlines == m.deadlines[op.id := DeadlineOf(m, op, env.now)]
  {
    hide EvidenceTable, Judge, Evolves, ReconcileRow, Intent.Target, DeadlineOf, Expired;
    RowSpelled(m, env, op, snap);
    var segment := ReconcileRow(m, env, op, snap);
    if op.intent.Target(env.vault).Ok? && !NotedAlready(m, op.id, snap) {
      assert segment.commits[0] == Observe(op.run, op.Pod(), op.id);
    }
  }

  /** An operation that is known or believed to have been written and has no evidence yet gets it, and with
      it OBSERVED_APPLIED, exactly when the snapshot shows its target; one whose deadline passed
      after it committed gets it late. */
  lemma ReconcileConfirms(j: Journal, m: Memory, env: Environment, pod: string, snap: Snapshot)
    requires GoodJournal(j)
    requires var last := LastLanded(j.rows, pod);
             last >= 0 && j.rows[last].applied == None && j.rows[last].state in {ConfigCommitted, Indeterminate, TimedOut}
    ensures var last := LastLanded(j.rows, pod);
            var op, expired := j.rows[last], Expired(m, j.rows[last], env.now);
            var later := ApplyAll(j, ReconcileSegment(j, m, env, pod, snap).commits);
            && last < |later.rows|
            && var after := later.rows[last];
            && (after.applied.Some? <==> Shows(op.intent, env.vault, snap))
            && (op.state == Indeterminate || (op.state == ConfigCommitted && !expired) ==>
                  (after.state == ObservedApplied <==> Shows(op.intent, env.vault, snap)))
            && (op.state == TimedOut || (op.state == ConfigCommitted && expired) ==>
                  after.state == TimedOut && (after.late <==> after.applied.Some?))
  {
    hide Keyed, Expired, ReconcileSegment, ApplyAll, Shows, Overwritten, Lawful, LawfulAll, EvidenceTable;
    ReconcileOutcome(j, m, env, pod, snap);
    var last := LastLanded(j.rows, pod);
    assert GoodRow(j, last);
    MarkIs(j.rows[last], false);
    LateOnlyApplied(j.rows[last]);
  }

  lemma LateOnlyApplied(op: Operation)
    requires EvidenceTable(op) && op.state in WATCHED && op.applied == None
    ensures !op.late && (op.state == TimedOut ==> op.deadlineElapsed)
  {
  }

  /** Landed operations are those that were sent and not refused, and those found already applied. */
  lemma LandedMeans(op: Operation)
    requires EvidenceTable(op)
    ensures op.state in LANDED <==> op.state != Failed && (op.attempts != [] || op.state == ObservedApplied)
  {
  }

  // -- Where a stored outcome came from --------------------------------------------------------

  /** What nothing may change any more is never written again, by any step, complete or cut short. */
  lemma SettledStays(w: World, a: Action, id: nat)
    requires Inv(w) && Possible(w, a) && id < |w.journal.rows|
    requires w.journal.rows[id].state in {Rejected, Failed, OwnershipConflict}
    ensures id < |Next(w, a).journal.rows| && Next(w, a).journal.rows[id] == w.journal.rows[id]
  {
    hide Inv, CanStep, Commits, Rest, RejectsCopy, ApplyAll, Apply;
    var commits := Commits(w, a.step);
    var kept := if a.Do? then |commits| else a.kept;
    assert Kept(w, a) == commits[..kept];
    if RejectsCopy(w, a.step, id) {
      CopyIsOpen(w, a.step, id);
    }
    StepSpares(w, a.step, id);
    SparedPrefix(commits, kept, id);
    SparedRow(w.journal, commits[..kept], id);
  }

  lemma CopyIsOpen(w: World, s: Step, id: nat)
    requires Inv(w) && CanStep(w, s) && RejectsCopy(w, s, id) && id < |w.journal.rows|
    ensures w.journal.rows[id].state == Requested || w.journal.rows[id].state == Cancelled
  {
    hide Inv, EvidenceTable;
    FrameKnown(w, s.pod);
  }

  /** A record that a step adds or alters is what one of its commits wrote. */
  lemma ChangedRowWritten(w: World, a: Action, id: nat) returns (k: nat)
    requires Inv(w) && Possible(w, a) && id < |Next(w, a).journal.rows|
    requires id >= |w.journal.rows| || Next(w, a).journal.rows[id] != w.journal.rows[id]
    ensures var commits := Commits(w, a.step);
            && k < |commits| && (commits[k].Insert? || commits[k].Update?)
            && commits[k].op == Next(w, a).journal.rows[id] && commits[k].op.id == id
  {
    hide Inv, CanStep, Commits, Rest, ApplyAll, LawfulAll, Addressed, LastWrite;
    CommitsLawful(w, a.step);
    if a.Crash? {
      LawfulPrefix(w.journal, Commits(w, a.step), a.kept);
    }
    LawfulIsAddressed(w.journal, Kept(w, a));
    RowIsLastWrite(w.journal, Kept(w, a), id);
    k := LastWriteAt(Kept(w, a), id);
    assert Commits(w, a.step)[k] == Kept(w, a)[k];
  }

  lemma {:induction false} LastWriteAt(commits: seq<Commit>, id: nat) returns (k: nat)
    requires LastWrite(commits, id).Some?
    ensures k < |commits| && (commits[k].Insert? || commits[k].Update?)
    ensures commits[k].op == LastWrite(commits, id).value && commits[k].op.id == id
  {
    k := |commits| - 1;
    if !((commits[k].Insert? || commits[k].Update?) && commits[k].op.id == id) {
      k := LastWriteAt(commits[..k], id);
    }
  }

  predicate Writes(c: Commit) {
    c.Insert? || c.Update?
  }

  /** FAILED is only ever written for a reply that rejected the submission, with its reason. */
  lemma FailedWritten(w: World, s: Step, k: nat)
    requires Inv(w) && CanStep(w, s) && k < |Commits(w, s)| && Writes(Commits(w, s)[k])
    requires Commits(w, s)[k].op.state == Failed
    ensures s.SubmitReturn? && Commits(w, s)[k].op.id == w.frames[s.pod].op.id
    ensures var reply := w.frames[s.pod].reply;
            reply.Returned? && reply.value.status == StatusRejected && Commits(w, s)[k].op.reason == reply.value.reason
  {
    hide Inv, EvidenceTable, ReconcileSegment, RequestSegment, SnapshotSegment, RecoverCommits;
    match s
    case Request(a) => RequestStates(w, a);
    case SnapshotReturn(_, _, _, _) => SnapshotStates(w, s);
    case Reconcile(_, _) => ReconcileStates(w, s);
    case Restart(_) => RecoverStates(w.journal.rows);
    case SubmitReturn(pod) =>
      FrameKnown(w, pod);
      ResolutionTable(w.frames[pod].op, w.frames[pod].reply);
    case _ =>
  }

  lemma RequestStates(w: World, a: Arguments)
    requires CanStep(w, Request(a))
    ensures forall k :: 0 <= k < |Commits(w, Request(a))| ==> Commits(w, Request(a))[k].op.state in {Requested, Rejected}
  {
    hide Admission, FindKey, PodActive;
  }

  lemma SnapshotStates(w: World, s: Step)
    requires Inv(w) && CanStep(w, s) && s.SnapshotReturn?
    ensures forall k :: 0 <= k < |Commits(w, s)| ==>
              Commits(w, s)[k].Update? && Commits(w, s)[k].op.state in {Rejected, Validated, ObservedApplied, Submitted}
  {
    hide Inv, ProgressOf, Intent.Target, Shows;
    SnapshotEnds(w, s);
    SnapshotAdvanced(w, s);
  }

  lemma ReconcileStates(w: World, s: Step)
    requires Inv(w) && CanStep(w, s) && s.Reconcile?
    ensures forall k :: 0 <= k < |Commits(w, s)| && Writes(Commits(w, s)[k]) ==> Commits(w, s)[k].op.state in LANDED
  {
    hide FramesOk, CallsOk, NotYetCalled, LatchOk, EvidenceTable, Judge, MarkDeadline, Expired, SignatureOf, Keyed,
      Evolves, Intent.Target;
    var last := LastLanded(w.journal.rows, s.pod);
    if last >= 0 && w.journal.rows[last].state in WATCHED {
      var op := w.journal.rows[last];
      assert GoodRow(w.journal, last);
      JudgeKeeps(op, s.snap, Expired(w.memory, op, w.env.now), op.intent.Target(w.env.vault));
    }
  }

  lemma {:induction false} RecoverStates(rows: seq<Operation>)
    ensures forall k :: 0 <= k < |RecoverCommits(rows)| ==>
              RecoverCommits(rows)[k].Update? && RecoverCommits(rows)[k].op.state in {Indeterminate, Cancelled}
  {
    if rows != [] {
      RecoverStates(rows[..|rows| - 1]);
    }
  }

  /** In every run, an operation stored as FAILED had its submission rejected, for the reason that is stored
      with it; no broken, raised or unknown submission is ever taken for one. */
  lemma {:induction false} FailedWasRejected(worlds: seq<World>, actions: seq<Action>, k: nat, id: nat) returns (n: nat)
    requires IsRun(worlds, actions) && k < |worlds| && id < |worlds[k].journal.rows|
    requires worlds[k].journal.rows[id].state == Failed
    ensures n < k && actions[n].step.SubmitReturn? && CanStep(worlds[n], actions[n].step)
    ensures var frame := worlds[n].frames[actions[n].step.pod];
            && frame.op.id == id && frame.reply.Returned? && frame.reply.value.status == StatusRejected
            && worlds[k].journal.rows[id].reason == frame.reply.value.reason
  {
    hide Inv, CanStep, Commits, Rest, ApplyAll;
    assert k > 0;
    var w, a := worlds[k - 1], actions[k - 1];
    assert Possible(w, a) && worlds[k] == Next(w, a);
    RunSafe(worlds, actions, k - 1);
    if id < |w.journal.rows| && w.journal.rows[id] == worlds[k].journal.rows[id] {
      n := FailedWasRejected(worlds, actions, k - 1, id);
    } else {
      var c := ChangedRowWritten(w, a, id);
      FailedWritten(w, a.step, c);
      n := k - 1;
    }
  }

  ghost predicate Attributed(op: Operation) {
    op.commit.attribution == Reply
  }

  /** Commit evidence attributed to a reply is only ever written for that reply. */
  lemma AttributedWritten(w: World, s: Step, k: nat)
    requires Inv(w) && CanStep(w, s) && k < |Commits(w, s)| && Writes(Commits(w, s)[k])
    requires var op := Commits(w, s)[k].op;
             Attributed(op) && !(op.id < |w.journal.rows| && Attributed(w.journal.rows[op.id]))
    ensures s.SubmitReturn? && Commits(w, s)[k].op.id == w.frames[s.pod].op.id
    ensures var reply := w.frames[s.pod].reply;
            reply.Returned? && reply.value.status == StatusCommitted && Commits(w, s)[k].op.commit == reply.value.evidence
  {
    hide Inv, EvidenceTable, ReconcileSegment, RequestSegment, SnapshotSegment, RecoverCommits;
    match s
    case Request(a) => RequestUnsent(w, a);
    case ExecStart(id) => StartUnattributed(w, s);
    case PlanReturn(pod, _) =>
      FrameKnown(w, pod);
      CopyUnattributed(w.journal.rows, w.frames[pod].op);
    case SnapshotReturn(pod, _, _, _) =>
      FrameKnown(w, pod);
      CopyUnattributed(w.journal.rows, w.frames[pod].op);
      SnapshotUnattributed(w, s);
    case Reconcile(_, _) => ReconcileUnattributed(w, s);
    case Restart(_) => RecoverUnattributed(w, s);
    case Cancel(_) => CancelUnattributed(w, s);
    case SubmitReturn(pod) =>
      FrameKnown(w, pod);
      ResolutionTable(w.frames[pod].op, w.frames[pod].reply);
      SentUnattributed(w.journal.rows, w.frames[pod].op, w.frames[pod].attempt);
    case _ =>
  }

  lemma RequestUnsent(w: World, a: Arguments)
    requires CanStep(w, Request(a))
    ensures forall k :: 0 <= k < |Commits(w, Request(a))| ==> Commits(w, Request(a))[k].op.commit == UNSENT
  {
    hide Admission, FindKey, PodActive;
  }

  lemma CopyUnattributed(rows: seq<Operation>, op: Operation)
    requires op.id < |rows| && Validating(rows, op)
    ensures !Attributed(op)
  {
  }

  lemma SentUnattributed(rows: seq<Operation>, op: Operation, attempt: Attempt)
    requires op.id < |rows| && Sending(rows, op, attempt)
    ensures !Attributed(op)
  {
  }

  lemma StartUnattributed(w: World, s: Step)
    requires Inv(w) && CanStep(w, s) && s.ExecStart?
    ensures forall k :: 0 <= k < |Commits(w, s)| ==> !Attributed(Commits(w, s)[k].op)
  {
    hide FramesOk, CallsOk, NotYetCalled, LatchOk, Keyed;
    if s.id < |w.journal.rows| {
      assert GoodRow(w.journal, s.id);
    }
  }

  lemma SnapshotUnattributed(w: World, s: Step)
    requires Inv(w) && CanStep(w, s) && s.SnapshotReturn? && !Attributed(w.frames[s.pod].op)
    ensures forall k :: 0 <= k < |Commits(w, s)| ==> Commits(w, s)[k].Update? && !Attributed(Commits(w, s)[k].op)
  {
    hide Inv, ProgressOf, Intent.Target, Shows;
    SnapshotEnds(w, s);
    SnapshotAdvanced(w, s);
  }

  /** Looking at a record leaves its attribution alone. */
  lemma ReconcileUnattributed(w: World, s: Step)
    requires Inv(w) && CanStep(w, s) && s.Reconcile?
    ensures forall k :: 0 <= k < |Commits(w, s)| && Writes(Commits(w, s)[k]) ==>
              var op := Commits(w, s)[k].op;
              op.id < |w.journal.rows| && op.commit == w.journal.rows[op.id].commit
  {
    hide FramesOk, CallsOk, NotYetCalled, LatchOk, EvidenceTable, Judge, Expired, SignatureOf, Keyed, Evolves, Intent.Target,
      ReconcileRow, Reconciled, DeadlineOf;
    var last := LastLanded(w.journal.rows, s.pod);
    if last >= 0 && w.journal.rows[last].state in WATCHED {
      var op := w.journal.rows[last];
      assert GoodRow(w.journal, last);
      RowSpelled(w.memory, w.env, op, s.snap);
      JudgeOutcome(op, s.snap, Expired(w.memory, op, w.env.now), w.env.vault);
      JudgeSame(op, s.snap, Expired(w.memory, op, w.env.now), w.env.vault);
    }
  }

  lemma JudgeSame(op: Operation, snap: Snapshot, expired: bool, vault: Vault)
    requires Reconciled(op, Judge(op, snap, expired, op.intent.Target(vault)).op, expired, vault, snap)
    ensures var after := Judge(op, snap, expired, op.intent.Target(vault)).op;
            after.id == op.id && after.commit == op.commit
  {
    hide Judge, Shows, Overwritten, Intent.Target;
  }

  lemma RecoverUnattributed(w: World, s: Step)
    requires Inv(w) && CanStep(w, s) && s.Restart?
    ensures forall k :: 0 <= k < |Commits(w, s)| && Writes(Commits(w, s)[k]) ==>
              var op := Commits(w, s)[k].op;
              op.id < |w.journal.rows| && (Attributed(op) ==> Attributed(w.journal.rows[op.id]))
  {
    hide FramesOk, CallsOk, NotYetCalled, LatchOk, EvidenceTable, Keyed;
    RowsNumbered(w.journal);
    RecoveredUnattributed(w.journal.rows);
  }

  lemma {:induction false} RecoveredUnattributed(rows: seq<Operation>)
    requires forall i :: 0 <= i < |rows| ==> rows[i].id == i
    ensures forall k :: 0 <= k < |RecoverCommits(rows)| && Writes(RecoverCommits(rows)[k]) ==>
              var op := RecoverCommits(rows)[k].op;
              op.id < |rows| && (Attributed(op) ==> Attributed(rows[op.id]))
  {
    if rows != [] {
      var n := |rows| - 1;
      var all, before := RecoverCommits(rows), RecoverCommits(rows[..n]);
      RecoveredUnattributed(rows[..n]);
      forall k | 0 <= k < |all| && Writes(all[k])
        ensures all[k].op.id < |rows| && (Attributed(all[k].op) ==> Attributed(rows[all[k].op.id]))
      {
        if k < |before| {
          assert all[k] == before[k] && rows[..n][before[k].op.id] == rows[before[k].op.id];
        }
      }
    }
  }

  lemma CancelUnattributed(w: World, s: Step)
    requires Inv(w) && CanStep(w, s) && s.Cancel?
    ensures forall k :: 0 <= k < |Commits(w, s)| ==>
              var op := Commits(w, s)[k].op;
              op.id < |w.journal.rows| && op.commit == w.journal.rows[op.id].commit
  {
    hide FramesOk, CallsOk, NotYetCalled, LatchOk, EvidenceTable, Keyed;
    RowsNumbered(w.journal);
  }

  /** In every run, commit evidence attributed to a reply is the evidence of a reply that the operation's own
      submission got, saying "committed". */
  lemma {:induction false} AttributedHadReply(worlds: seq<World>, actions: seq<Action>, k: nat, id: nat) returns (n: nat)
    requires IsRun(worlds, actions) && k < |worlds| && id < |worlds[k].journal.rows|
    requires worlds[k].journal.rows[id].commit.attribution == Reply
    ensures n < k && actions[n].step.SubmitReturn? && CanStep(worlds[n], actions[n].step)
    ensures var frame := worlds[n].frames[actions[n].step.pod];
            && frame.op.id == id && frame.reply.Returned? && frame.reply.value.status == StatusCommitted
            && worlds[k].journal.rows[id].commit == frame.reply.value.evidence
  {
    hide Inv, CanStep, Commits, Rest, ApplyAll, EvidenceTable;
    assert k > 0;
    var w, a := worlds[k - 1], actions[k - 1];
    assert Possible(w, a) && worlds[k] == Next(w, a);
    RunSafe(worlds, actions, k - 1);
    if id < |w.journal.rows| && Attributed(w.journal.rows[id]) {
      n := AttributedHadReply(worlds, actions, k - 1, id);
      RecordsAccumulate(worlds, actions, k - 1, k, id);
    } else {
      var c := ChangedRowWritten(w, a, id);
      AttributedWritten(w, a.step, c);
      n := k - 1;
    }
  }
}
