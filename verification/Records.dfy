/** The record every protocol step writes is consistent and only adds to the stored one. */
module Records {
  import opened Basics
  import opened Lifecycle
  import opened Protocol

  /** What a lawful update needs to know about the stored record and its replacement. */
  ghost predicate Keeps(before: Operation, after: Operation) {
    Evolves(before, after) && EvidenceTable(after)
  }

  lemma RejectKeeps(op: Operation, stored: Operation, code: Reason)
    requires op.state == Requested && EvidenceTable(op)
    requires stored == op || stored == op.(state := Cancelled)
    ensures Keeps(stored, Refused(op, code))
  {
  }

  lemma ValidateKeeps(op: Operation)
    requires op.state == Requested && EvidenceTable(op)
    ensures Keeps(op, op.(state := Validated))
  {
  }

  lemma NoopKeeps(op: Operation, evidence: ApplicationEvidence)
    requires op.state == Validated && EvidenceTable(op) && Proven(evidence) && evidence.noop
    ensures Keeps(op, op.(state := ObservedApplied, changed := Some(false), applied := Some(evidence)))
  {
  }

  lemma SendKeeps(op: Operation, attempt: Attempt)
    requires op.state == Validated && EvidenceTable(op)
    ensures op.attempts == []
    ensures Keeps(op, op.(attempts := op.attempts + [attempt], state := Submitted, commit := UNATTRIBUTED))
  {
  }

  lemma ResolveKeeps(op: Operation, reply: Awaited<SubmitResult>)
    requires op.state == Submitted && EvidenceTable(op) && Conforming(reply)
    ensures Resolution(op, reply).Ok? && Keeps(op, Resolution(op, reply).value)
    ensures Resolution(op, reply).value.state == OwnershipConflict
            <==> reply.Returned? && reply.value.status == StatusConflict
  {
  }

  lemma RecoverKeeps(op: Operation)
    requires EvidenceTable(op) && Recovered(op).Some?
    ensures Keeps(op, Recovered(op).value) && Recovered(op).value.state != OwnershipConflict
  {
  }

  lemma CancelKeeps(op: Operation)
    requires EvidenceTable(op) && MayMove(op, Cancelled, NO_EVIDENCE)
    ensures Keeps(op, op.(state := Cancelled))
  {
  }

  lemma MarkKeeps(op: Operation, expired: bool)
    requires EvidenceTable(op) && op.state in WATCHED
    ensures var v := MarkDeadline(op, expired);
            && v.raised == None && !v.conflict
            && Keeps(op, v.op) && (v.changed <==> v.op != op)
            && v.op.state == (if expired && op.state == ConfigCommitted then TimedOut else op.state)
  {
  }

  lemma ConflictKeeps(op: Operation)
    requires EvidenceTable(op) && op.state in {ConfigCommitted, ObservedApplied, TimedOut}
    ensures var state := if op.state == ConfigCommitted then OwnershipConflict else op.state;
            Keeps(op, op.(state := state, reason := Some(OwnershipLost)))
    ensures op.state == ConfigCommitted ==> op.reason == None
  {
  }

  lemma ApplyKeeps(op: Operation, evidence: ApplicationEvidence)
    requires EvidenceTable(op) && op.state in WATCHED && op.applied == None
    requires Proven(evidence) && !evidence.noop && !evidence.currentConditionOnly
    ensures op.state in {ConfigCommitted, Indeterminate, TimedOut}
    ensures var state := if op.state == TimedOut then TimedOut else ObservedApplied;
            var resolved := op.(applied := Some(evidence), late := op.late || op.deadlineElapsed, state := state);
            Keeps(op, if op.commit.attribution == Unknown
                      then resolved.(applied := Some(evidence.(currentConditionOnly := true)))
                      else resolved.(reason := if op.deadlineElapsed then Some(ApplyTimeout) else None))
  {
  }

  lemma BlockKeeps(op: Operation)
    requires EvidenceTable(op)
    ensures Keeps(op, op.(blocked := true))
  {
  }

  lemma KeepsItself(op: Operation)
    requires EvidenceTable(op)
    ensures Keeps(op, op)
  {
    hide EvidenceTable;
  }

  /** The edges a comparison may take. */
  lemma Reachable(op: Operation)
    requires op.state in WATCHED
    ensures op.state == ConfigCommitted ==> OwnershipConflict in Edges(op.state) && ObservedApplied in Edges(op.state)
    ensures op.state == Indeterminate ==> ObservedApplied in Edges(op.state)
  {
  }

  /** What a comparison may conclude from a consistent record. */
  ghost predicate Concluded(v: Verdict, c: Verdict) {
    && c.raised == None && Keeps(v.op, c.op) && c.op.state in LANDED
    && (c.op.state == OwnershipConflict ==> c.conflict)
    && (v.op.state == TimedOut ==> c.op.state == TimedOut)
    && (c.changed <==> v.changed || c.op != v.op)
  }

  lemma ConflictConcluded(v: Verdict, snap: Snapshot, target: Values)
    requires EvidenceTable(v.op) && v.op.state in {ConfigCommitted, ObservedApplied, TimedOut}
    requires snap.ready && snap.observed.isFresh && !Matches(snap.config, target)
    ensures Concluded(v, Compare(v, snap, target))
  {
    hide Matches, Keeps, EvidenceTable, Edges;
    ConflictKeeps(v.op);
    Reachable(v.op);
  }

  lemma ApplicationConcluded(v: Verdict, snap: Snapshot, target: Values)
    requires EvidenceTable(v.op) && v.op.state in WATCHED && v.op.applied == None
    requires snap.ready && snap.observed.isFresh && Matches(snap.config, target) && snap.observed.Satisfies(target)
    ensures Concluded(v, Compare(v, snap, target))
  {
    hide Matches, Keeps, EvidenceTable, Edges;
    ApplyKeeps(v.op, EvidenceFrom(snap, false));
    Reachable(v.op);
  }

  lemma CompareKeeps(v: Verdict, snap: Snapshot, target: Values)
    requires EvidenceTable(v.op) && v.op.state in WATCHED && v.raised == None && !v.conflict
    ensures Concluded(v, Compare(v, snap, target))
  {
    hide Matches, Keeps, EvidenceTable, Transition;
    var op := v.op;
    KeepsItself(op);
    if snap.ready && snap.observed.isFresh {
      if !Matches(snap.config, target) && op.state in {ConfigCommitted, ObservedApplied, TimedOut} {
        ConflictConcluded(v, snap, target);
      } else if Matches(snap.config, target) && snap.observed.Satisfies(target) && op.applied == None {
        ApplicationConcluded(v, snap, target);
      }
    }
  }

  lemma KeepsThroughTimeout(a: Operation, b: Operation, c: Operation)
    requires Keeps(a, b) && Keeps(b, c)
    requires b.state == a.state || (a.state == ConfigCommitted && b.state == TimedOut && c.state == TimedOut)
    ensures Keeps(a, c)
  {
    hide EvidenceTable;
  }

  /** Judging a consistent record never meets a guard and only adds to it. */
  lemma JudgeKeeps(op: Operation, snap: Snapshot, expired: bool, target: Result<Values>)
    requires EvidenceTable(op) && op.state in WATCHED
    ensures var v := Judge(op, snap, expired, target);
            && v.raised == None && MarkDeadline(op, expired).raised == None
            && Keeps(op, v.op) && v.op.state in LANDED
            && (v.op.state == OwnershipConflict ==> v.conflict)
            && (!v.changed ==> v.op == op)
            && (v.conflict ==> target.Ok?)
  {
    hide EvidenceTable, Evolves, MarkDeadline, Compare;
    var v := MarkDeadline(op, expired);
    MarkKeeps(op, expired);
    match target
    case Err(_) =>
      BlockKeeps(v.op);
      KeepsThroughTimeout(op, v.op, v.op.(blocked := true));
    case Ok(values) =>
      CompareKeeps(v, snap, values);
      KeepsThroughTimeout(op, v.op, Compare(v, snap, values).op);
  }
}
