/** What every run of the engine keeps. */
module Safety {
  import opened Basics
  import opened Lifecycle
  import opened Journal
  import opened Protocol
  import opened Records
  import opened Runs

  // -- Lawful commits ---------------------------------------------------------------

  ghost predicate FreshKey(rows: seq<Operation>, op: Operation) {
    forall i :: 0 <= i < |rows| ==> !Keyed(rows[i], op.source, op.Pod(), op.key)
  }

  /** The law every single commit obeys, so that it also holds between two commits. */
  ghost predicate Lawful(j: Journal, c: Commit) {
    match c
    case Insert(op) => op.id == |j.rows| && op.state == Requested && EvidenceTable(op) && FreshKey(j.rows, op)
    case Update(op) =>
      && op.id < |j.rows| && Keeps(j.rows[op.id], op)
      && (op.state == OwnershipConflict ==> op.Pod() in j.conflicts)
    case Conflict(_, _) => true
    case Observe(_, _, _) => true
  }

  ghost predicate LawfulAll(j: Journal, commits: seq<Commit>) {
    commits == [] ||
    var n := |commits| - 1;
    LawfulAll(j, commits[..n]) && Lawful(ApplyAll(j, commits[..n]), commits[n])
  }

  ghost predicate GoodRow(j: Journal, i: nat)
    requires i < |j.rows|
  {
    && j.rows[i].id == i && EvidenceTable(j.rows[i])
    && (j.rows[i].state == OwnershipConflict ==> j.rows[i].Pod() in j.conflicts)
  }

  ghost predicate GoodJournal(j: Journal) {
    && (forall i :: 0 <= i < |j.rows| ==> GoodRow(j, i))
    && forall i, k :: 0 <= i < k < |j.rows| ==> !Keyed(j.rows[i], j.rows[k].source, j.rows[k].Pod(), j.rows[k].key)
  }

  /** Nothing recorded is ever taken back. */
  ghost predicate Extends(j: Journal, later: Journal) {
    && |j.rows| <= |later.rows|
    && (forall i :: 0 <= i < |j.rows| ==> Accumulates(j.rows[i], later.rows[i]))
    && j.conflicts.Keys <= later.conflicts.Keys
  }

  lemma LawfulKeeps(j: Journal, c: Commit)
    requires GoodJournal(j) && Lawful(j, c)
    ensures GoodJournal(Apply(j, c)) && Extends(j, Apply(j, c))
  {
    var later := Apply(j, c);
    forall i | 0 <= i < |later.rows|
      ensures GoodRow(later, i)
    {
      if i < |j.rows| { assert GoodRow(j, i); }
    }
    if c.Update? {
      assert GoodRow(j, c.op.id);
    }
  }

  lemma ExtendsTransitive(a: Journal, b: Journal, c: Journal)
    requires Extends(a, b) && Extends(b, c)
    ensures Extends(a, c)
  {
    forall i | 0 <= i < |a.rows|
      ensures Accumulates(a.rows[i], c.rows[i])
    {
      assert Accumulates(a.rows[i], b.rows[i]) && Accumulates(b.rows[i], c.rows[i]);
    }
  }

  lemma {:induction false} LawfulAllKeeps(j: Journal, commits: seq<Commit>)
    requires GoodJournal(j) && LawfulAll(j, commits)
    ensures GoodJournal(ApplyAll(j, commits)) && Extends(j, ApplyAll(j, commits))
  {
    if commits != [] {
      var n := |commits| - 1;
      var before := ApplyAll(j, commits[..n]);
      LawfulAllKeeps(j, commits[..n]);
      LawfulKeeps(before, commits[n]);
      ExtendsTransitive(j, before, Apply(before, commits[n]));
    }
  }

  lemma {:induction false} LawfulPrefix(j: Journal, commits: seq<Commit>, kept: nat)
    requires LawfulAll(j, commits) && kept <= |commits|
    ensures LawfulAll(j, commits[..kept])
  {
    if kept == |commits| {
      assert commits[..kept] == commits;
    } else {
      var n := |commits| - 1;
      LawfulPrefix(j, commits[..n], kept);
      assert commits[..n][..kept] == commits[..kept];
    }
  }

  lemma LawfulOneMore(j: Journal, commits: seq<Commit>, c: Commit)
    ensures LawfulAll(j, commits + [c]) <==> LawfulAll(j, commits) && Lawful(ApplyAll(j, commits), c)
  {
    hide ApplyAll, Lawful;
    var whole := commits + [c];
    assert whole[..|whole| - 1] == commits && whole[|whole| - 1] == c;
  }

  lemma {:induction false} LawfulConcat(j: Journal, first: seq<Commit>, second: seq<Commit>)
    requires LawfulAll(j, first) && LawfulAll(ApplyAll(j, first), second)
    ensures LawfulAll(j, first + second)
  {
    hide ApplyAll, Lawful, LawfulAll;
    if second == [] {
      assert first + second == first;
    } else {
      var n := |second| - 1;
      assert second == second[..n] + [second[n]];
      LawfulOneMore(ApplyAll(j, first), second[..n], second[n]);
      LawfulConcat(j, first, second[..n]);
      ApplyAllConcat(j, first, second[..n]);
      LawfulOneMore(j, first + second[..n], second[n]);
      assert first + second == first + second[..n] + [second[n]];
    }
  }

  lemma One(j: Journal, c: Commit)
    ensures ApplyAll(j, [c]) == Apply(j, c)
  {
    hide Apply;
    assert [c][..0] == [];
    assert ApplyAll(j, [c][..0]) == j;
  }

  lemma OneLawful(j: Journal, c: Commit)
    ensures ApplyAll(j, [c]) == Apply(j, c)
    ensures LawfulAll(j, [c]) <==> Lawful(j, c)
  {
    hide Apply, Lawful;
    One(j, c);
    assert [c][..0] == [];
    assert ApplyAll(j, [c][..0]) == j;
  }

  lemma Two(j: Journal, c: Commit, d: Commit)
    ensures ApplyAll(j, [c, d]) == Apply(Apply(j, c), d)
  {
    hide Apply;
    One(j, c);
    assert [c, d][..1] == [c];
    assert ApplyAll(j, [c, d]) == Apply(ApplyAll(j, [c, d][..1]), d);
  }

  lemma TwoLawful(j: Journal, c: Commit, d: Commit)
    ensures ApplyAll(j, [c, d]) == Apply(Apply(j, c), d)
    ensures LawfulAll(j, [c, d]) <==> Lawful(j, c) && Lawful(Apply(j, c), d)
  {
    hide Apply, Lawful;
    OneLawful(j, c);
    assert [c, d][..1] == [c];
    assert ApplyAll(j, [c, d]) == Apply(ApplyAll(j, [c, d][..1]), d);
  }

  // -- The invariant ----------------------------------------------------------------

  ghost predicate FrameOk(rows: seq<Operation>, pod: string, f: Frame) {
    && f.op.Pod() == pod && f.op.id < |rows|
    && match f
       case Planning(op) => Validating(rows, op)
       case Snapshotting(op) => Validating(rows, op)
       case Submitting(op, attempt) => Sending(rows, op, attempt)
       case Replying(op, attempt, reply) => Sending(rows, op, attempt) && Conforming(reply)
  }

  /** The execution's copy is still what is stored, unless it was cancelled meanwhile. */
  ghost predicate Validating(rows: seq<Operation>, op: Operation)
    requires op.id < |rows|
  {
    op.state == Requested && EvidenceTable(op) && (rows[op.id] == op || rows[op.id] == op.(state := Cancelled))
  }

  ghost predicate Sending(rows: seq<Operation>, op: Operation, attempt: Attempt)
    requires op.id < |rows|
  {
    op.state == Submitted && EvidenceTable(op) && op.attempts == [attempt] && rows[op.id] == op
  }

  ghost predicate FramesOk(rows: seq<Operation>, frames: map<string, Frame>) {
    forall pod :: pod in frames ==> FrameOk(rows, pod, frames[pod])
  }

  ghost predicate CallsOk(rows: seq<Operation>, calls: seq<Call>) {
    && (forall k :: 0 <= k < |calls| ==>
          && calls[k].id < |rows| && rows[calls[k].id].attempts == [calls[k].attempt]
          && rows[calls[k].id].Pod() == calls[k].pod)
    && forall k, l :: 0 <= k < l < |calls| ==> calls[k].id != calls[l].id
  }

  ghost predicate NotYetCalled(frames: map<string, Frame>, calls: seq<Call>) {
    forall pod, k :: pod in frames && frames[pod].Submitting? && 0 <= k < |calls| ==>
      calls[k].id != frames[pod].op.id
  }

  function LateCalls(calls: seq<Call>, pod: string): nat {
    if calls == [] then 0
    else
      var last := calls[|calls| - 1];
      LateCalls(calls[..|calls| - 1], pod) + if last.pod == pod && last.conflicted then 1 else 0
  }

  predicate MayStillCall(frames: map<string, Frame>, pod: string) {
    pod in frames && !frames[pod].Replying?
  }

  ghost predicate LatchOk(w: World) {
    forall pod ::
      LateCalls(w.calls, pod) + (if MayStillCall(w.frames, pod) then 1 else 0)
        <= if pod in w.journal.conflicts || MayStillCall(w.frames, pod) then 1 else 0
  }

  ghost predicate Inv(w: World) {
    && GoodJournal(w.journal)
    && w.memory.busy == w.frames.Keys
    && (!w.up ==> w.frames == map[])
    && FramesOk(w.journal.rows, w.frames)
    && CallsOk(w.journal.rows, w.calls)
    && NotYetCalled(w.frames, w.calls)
    && LatchOk(w)
  }

  // -- Every step commits lawfully ----------------------------------------------------

  lemma RequestLawful(j: Journal, m: Memory, env: Environment, a: Arguments)
    requires GoodJournal(j)
    ensures LawfulAll(j, RequestSegment(j, m, env, a).commits)
  {
    hide GoodJournal, Admission, Apply, Keeps;
    var commits := RequestSegment(j, m, env, a).commits;
    if commits != [] {
      var op := commits[0].op;
      InsertedRow(j, op);
      if |commits| == 2 {
        RejectKeeps(op, op, commits[1].op.reason.value);
        TwoLawful(j, commits[0], commits[1]);
      } else {
        OneLawful(j, commits[0]);
        assert commits == [commits[0]];
      }
    }
  }

  lemma InsertedRow(j: Journal, op: Operation)
    ensures Apply(j, Insert(op)).rows == j.rows + [op]
    ensures Apply(j, Insert(op)).conflicts == j.conflicts
  {
  }

  lemma UpdatedRow(j: Journal, op: Operation)
    requires op.id < |j.rows|
    ensures Apply(j, Update(op)).rows == j.rows[op.id := op]
    ensures Apply(j, Update(op)).conflicts == j.conflicts
  {
  }

  lemma ConflictedPod(j: Journal, pod: string, record: ConflictRecord)
    ensures Apply(j, Conflict(pod, record)).rows == j.rows
    ensures Apply(j, Conflict(pod, record)).conflicts == j.conflicts[pod := record]
  {
  }

  lemma ObservedRow(j: Journal, run: string, pod: string, operation: nat)
    ensures Apply(j, Observe(run, pod, operation)).rows == j.rows
    ensures Apply(j, Observe(run, pod, operation)).conflicts == j.conflicts
  {
  }

  lemma StartLawful(j: Journal, m: Memory, env: Environment, id: nat)
    requires GoodJournal(j)
    ensures LawfulAll(j, StartSegment(j, m, env, id).commits)
  {
    var commits := StartSegment(j, m, env, id).commits;
    hide Apply, Keeps, EvidenceTable, Keyed;
    if commits != [] {
      assert GoodRow(j, id);
      RejectKeeps(j.rows[id], j.rows[id], OwnershipLost);
      OneLawful(j, commits[0]);
    }
  }

  /** Also covers the overwrite of a cancellation: the copy is older than the stored row. */
  lemma RejectLawful(j: Journal, m: Memory, op: Operation, code: Reason)
    requires op.id < |j.rows| && Validating(j.rows, op)
    ensures LawfulAll(j, RejectSegment(m, op, code).commits) && RejectSegment(m, op, code).outcome.Finished?
  {
    hide Apply, Keeps, EvidenceTable;
    RejectKeeps(op, j.rows[op.id], code);
    OneLawful(j, Update(Refused(op, code)));
  }

  lemma SnapshotLawful(
    j: Journal, m: Memory, env: Environment, op: Operation, answer: Awaited<Snapshot>, attemptId: nat, transactionId: nat)
    requires op.id < |j.rows| && Validating(j.rows, op)
    ensures var segment := SnapshotSegment(j, m, env, op, answer, attemptId, transactionId);
            LawfulAll(j, segment.commits) && !segment.outcome.Guarded?
  {
    hide Apply, EvidenceTable, Keeps, RejectSegment, NoopSegment, SendSegment;
    var segment := SnapshotSegment(j, m, env, op, answer, attemptId, transactionId);
    if answer.Raised? {
      RejectLawful(j, m, op, answer.code);
    } else if answer.Returned? && !answer.value.ready {
      RejectLawful(j, m, op, NotReady);
    } else if answer.Returned? && j.rows[op.id].state == Requested {
      var validated := op.(state := Validated);
      ValidateKeeps(op);
      OneLawful(j, Update(validated));
      UpdatedRow(j, validated);
      match op.intent.Target(env.vault)
      case Err(_) =>
      case Ok(target) =>
        var snap := answer.value;
        if snap.observed.Satisfies(target) && Matches(snap.config, target) {
          NoopLawful(j, m, validated, EvidenceFrom(snap, true));
        } else {
          SendLawful(j, m, validated, Attempt(attemptId, transactionId, snap.generation, env.now.wall));
        }
    }
  }

  lemma NoopLawful(j: Journal, m: Memory, op: Operation, evidence: ApplicationEvidence)
    requires op.id < |j.rows| && Keeps(j.rows[op.id], op) && op.state == Validated
    requires Proven(evidence) && evidence.noop
    ensures LawfulAll(j, NoopSegment(m, op, evidence).commits) && NoopSegment(m, op, evidence).outcome.Finished?
  {
    hide Apply, EvidenceTable, Evolves;
    var final := op.(state := ObservedApplied, changed := Some(false), applied := Some(evidence));
    NoopKeeps(op, evidence);
    UpdatedRow(j, op);
    TwoLawful(j, Update(op), Update(final));
  }

  lemma SendLawful(j: Journal, m: Memory, op: Operation, attempt: Attempt)
    requires op.id < |j.rows| && Keeps(j.rows[op.id], op) && op.state == Validated
    ensures LawfulAll(j, SendSegment(m, op, attempt).commits)
    ensures SendSegment(m, op, attempt).outcome.Waiting?
  {
    hide Apply, EvidenceTable, Evolves;
    SendKeeps(op, attempt);
    var final := op.(attempts := op.attempts + [attempt], state := Submitted, commit := UNATTRIBUTED);
    UpdatedRow(j, op);
    TwoLawful(j, Update(op), Update(final));
  }

  lemma ReplyLawful(j: Journal, m: Memory, op: Operation, attempt: Attempt, reply: Awaited<SubmitResult>)
    requires op.id < |j.rows| && Sending(j.rows, op, attempt) && Conforming(reply)
    ensures LawfulAll(j, ReplySegment(m, op, reply).commits) && ReplySegment(m, op, reply).outcome.Finished?
  {
    hide Apply, EvidenceTable, Evolves, Resolution;
    ResolveKeeps(op, reply);
    var final := Resolution(op, reply).value;
    if final.state == OwnershipConflict {
      var record := ConflictRecord(op.id, GuardFailed(reply.value.reason));
      ConflictedPod(j, op.Pod(), record);
      KeepsIdentity(op, final);
      TwoLawful(j, Conflict(op.Pod(), record), Update(final));
    } else {
      KeepsIdentity(op, final);
      OneLawful(j, Update(final));
    }
  }

  lemma KeepsIdentity(before: Operation, after: Operation)
    requires Keeps(before, after)
    ensures after.id == before.id && after.intent == before.intent && Accumulates(before, after)
  {
    hide EvidenceTable;
  }

  lemma RowLawful(j: Journal, m: Memory, env: Environment, op: Operation, snap: Snapshot)
    requires op.id < |j.rows| && j.rows[op.id] == op && EvidenceTable(op) && op.state in WATCHED
    ensures LawfulAll(j, ReconcileRow(m, env, op, snap).commits) && ReconcileRow(m, env, op, snap).outcome == None
  {
    hide Apply, ApplyAll, LawfulAll, EvidenceTable, Evolves, Judge, MarkDeadline, Expired, SignatureOf;
    var target := op.intent.Target(env.vault);
    var v := Judge(op, snap, Expired(m, op, env.now), target);
    JudgeKeeps(op, snap, Expired(m, op, env.now), target);
    KeepsIdentity(op, v.op);
    var seen := op.id in m.observations && m.observations[op.id] == SignatureOf(snap);
    var note := Observe(op.run, op.Pod(), op.id);
    var loss := Conflict(op.Pod(), ConflictRecord(op.id, ConfigurationChanged));
    var j1 := if target.Err? || seen then j else Apply(j, note);
    var j2 := if v.conflict then Apply(j1, loss) else j1;
    ObservedRow(j, op.run, op.Pod(), op.id);
    ConflictedPod(j1, op.Pod(), loss.record);
    UpTo(j, !(target.Err? || seen), note);
    UpTo(j1, v.conflict, loss);
    UpTo(j2, v.changed, Update(v.op));
    LawfulConcat(j, Optional(!(target.Err? || seen), note), Optional(v.conflict, loss));
    ApplyAllConcat(j, Optional(!(target.Err? || seen), note), Optional(v.conflict, loss));
    LawfulConcat(
      j, Optional(!(target.Err? || seen), note) + Optional(v.conflict, loss), Optional(v.changed, Update(v.op)));
    assert ReconcileRow(m, env, op, snap).commits
      == Optional(!(target.Err? || seen), note) + Optional(v.conflict, loss) + Optional(v.changed, Update(v.op));
  }

  function Optional(present: bool, c: Commit): seq<Commit> {
    if present then [c] else []
  }

  lemma UpTo(j: Journal, present: bool, c: Commit)
    requires present ==> Lawful(j, c)
    ensures LawfulAll(j, Optional(present, c))
    ensures ApplyAll(j, Optional(present, c)) == if present then Apply(j, c) else j
  {
    One(j, c);
  }

  lemma ReconcileLawful(j: Journal, m: Memory, env: Environment, pod: string, snap: Snapshot)
    requires GoodJournal(j)
    ensures var segment := ReconcileSegment(j, m, env, pod, snap);
            LawfulAll(j, segment.commits) && segment.outcome == None
  {
    hide Apply, EvidenceTable, ReconcileRow, Keyed;
    var last := LastLanded(j.rows, pod);
    if last >= 0 && j.rows[last].state in WATCHED {
      assert GoodRow(j, last);
      RowLawful(j, m, env, j.rows[last], snap);
    }
  }

  lemma {:induction false} RecoverLawful(j: Journal, n: nat)
    requires GoodJournal(j) && n <= |j.rows|
    ensures var commits := RecoverCommits(j.rows[..n]);
            && LawfulAll(j, commits)
            && |ApplyAll(j, commits).rows| == |j.rows|
            && ApplyAll(j, commits).conflicts == j.conflicts
            && (forall i :: n <= i < |j.rows| ==> ApplyAll(j, commits).rows[i] == j.rows[i])
            && (forall i :: 0 <= i < n ==> ApplyAll(j, commits).rows[i] == AfterRecovery(j.rows[i]))
  {
    hide Apply, ApplyAll, Lawful, LawfulAll, EvidenceTable, Evolves, Recovered, Keyed, Keeps;
    if n == 0 {
      Nothing(j);
    } else {
      RecoverLawful(j, n - 1);
      var rows := j.rows[..n];
      var first := RecoverCommits(j.rows[..n - 1]);
      assert rows[..n - 1] == j.rows[..n - 1] && rows[|rows| - 1] == j.rows[n - 1];
      var before := ApplyAll(j, first);
      assert GoodRow(j, n - 1);
      match Recovered(j.rows[n - 1])
      case None =>
        assert RecoverCommits(rows) == first;
      case Some(op) =>
        RecoverKeeps(j.rows[n - 1]);
        KeepsIdentity(j.rows[n - 1], op);
        UpdateLawful(before, op);
        LawfulOneMore(j, first, Update(op));
        ApplyAllOneMore(j, first, Update(op));
        UpdatedRow(before, op);
    }
  }

  lemma UpdateLawful(j: Journal, op: Operation)
    requires op.id < |j.rows| && Keeps(j.rows[op.id], op) && op.state != OwnershipConflict
    ensures Lawful(j, Update(op))
  {
    hide Keeps;
  }

  function AfterRecovery(op: Operation): Operation {
    match Recovered(op)
    case Some(recovered) => recovered
    case None => op
  }

  lemma CancelLawful(j: Journal, m: Memory, id: nat)
    requires GoodJournal(j)
    ensures LawfulAll(j, CancelSegment(j, m, id).commits)
  {
    hide Apply, EvidenceTable, Evolves, Keyed;
    var commits := CancelSegment(j, m, id).commits;
    if commits != [] {
      assert GoodRow(j, id);
      CancelKeeps(j.rows[id]);
      OneLawful(j, commits[0]);
    }
  }

  lemma CommitsLawful(w: World, s: Step)
    requires Inv(w) && CanStep(w, s)
    ensures LawfulAll(w.journal, Commits(w, s))
  {
    hide GoodJournal, RequestSegment, StartSegment, RejectSegment, SnapshotSegment, ReplySegment, ReconcileSegment,
      CancelSegment, CallsOk, NotYetCalled, LatchOk, EvidenceTable, Validating, Sending, Apply;
    var j, m, env := w.journal, w.memory, w.env;
    match s
    case Request(a) => RequestLawful(j, m, env, a);
    case ExecStart(id) => StartLawful(j, m, env, id);
    case PlanReturn(pod, plan) =>
      if plan.Raised? {
        assert FrameOk(j.rows, pod, w.frames[pod]);
        RejectLawful(j, m, w.frames[pod].op, plan.code);
      }
    case SnapshotReturn(pod, answer, attemptId, transactionId) =>
      assert FrameOk(j.rows, pod, w.frames[pod]);
      SnapshotLawful(j, m, env, w.frames[pod].op, answer, attemptId, transactionId);
    case SubmitReturn(pod) =>
      assert FrameOk(j.rows, pod, w.frames[pod]);
      ReplyLawful(j, m, w.frames[pod].op, w.frames[pod].attempt, w.frames[pod].reply);
    case Reconcile(pod, snap) => ReconcileLawful(j, m, env, pod, snap);
    case Cancel(id) => CancelLawful(j, m, id);
    case Restart(_) =>
      RecoverLawful(j, |j.rows|);
      assert j.rows[..|j.rows|] == j.rows;
    case _ =>
  }

  // -- What each step leaves alone ------------------------------------------------------

  /** Rows from `size` on are new; of the older ones only those in `touched` may differ. */
  ghost predicate Confined(commits: seq<Commit>, size: nat, touched: set<nat>) {
    forall k :: 0 <= k < |commits| && commits[k].Update? ==> commits[k].op.id in touched || commits[k].op.id >= size
  }

  lemma {:induction false} OthersUntouched(j: Journal, commits: seq<Commit>, touched: set<nat>)
    requires Confined(commits, |j.rows|, touched)
    ensures |j.rows| <= |ApplyAll(j, commits).rows|
    ensures forall i :: 0 <= i < |j.rows| && i !in touched ==> ApplyAll(j, commits).rows[i] == j.rows[i]
  {
    if commits != [] {
      var n := |commits| - 1;
      assert forall k :: 0 <= k < n ==> commits[..n][k] == commits[k];
      OthersUntouched(j, commits[..n], touched);
      var before := ApplyAll(j, commits[..n]);
      LastTouches(before, commits[n]);
      assert ApplyAll(j, commits) == Apply(before, commits[n]);
    }
  }

  lemma LastTouches(j: Journal, c: Commit)
    ensures |j.rows| <= |Apply(j, c).rows|
    ensures forall i :: 0 <= i < |j.rows| && !(c.Update? && c.op.id == i) ==> Apply(j, c).rows[i] == j.rows[i]
  {
  }

  lemma FrameKept(rows: seq<Operation>, later: seq<Operation>, pod: string, f: Frame)
    requires FrameOk(rows, pod, f) && |rows| <= |later| && later[f.op.id] == rows[f.op.id]
    ensures FrameOk(later, pod, f)
  {
    hide EvidenceTable;
  }

  /** A frame's stored row belongs to its pod and is not one that reconciliation looks at. */
  lemma FrameRow(rows: seq<Operation>, pod: string, f: Frame)
    requires FrameOk(rows, pod, f)
    ensures rows[f.op.id].Pod() == pod && rows[f.op.id].state !in WATCHED && rows[f.op.id].id == f.op.id
    ensures rows[f.op.id].state in {Requested, Cancelled, Submitted}
  {
    hide EvidenceTable;
  }

  /** Frames other than the stepping pod's survive any step confined to that pod's row. */
  lemma FramesKept(j: Journal, commits: seq<Commit>, frames: map<string, Frame>, touched: set<nat>)
    requires FramesOk(j.rows, frames) && Confined(commits, |j.rows|, touched)
    requires forall pod :: pod in frames ==> frames[pod].op.id !in touched
    ensures FramesOk(ApplyAll(j, commits).rows, frames)
  {
    hide FrameOk, ApplyAll;
    OthersUntouched(j, commits, touched);
    forall pod | pod in frames
      ensures FrameOk(ApplyAll(j, commits).rows, pod, frames[pod])
    {
      assert frames[pod].op.id < |j.rows| by { FrameInRange(j.rows, pod, frames[pod]); }
      FrameKept(j.rows, ApplyAll(j, commits).rows, pod, frames[pod]);
    }
  }

  lemma FrameInRange(rows: seq<Operation>, pod: string, f: Frame)
    requires FrameOk(rows, pod, f)
    ensures f.op.id < |rows| && f.op.Pod() == pod
  {
    hide EvidenceTable;
  }

  lemma AttemptsBound(op: Operation)
    requires EvidenceTable(op)
    ensures |op.attempts| <= 1
  {
  }

  lemma CallsKept(j: Journal, later: Journal, calls: seq<Call>)
    requires CallsOk(j.rows, calls) && Extends(j, later) && GoodJournal(later)
    ensures CallsOk(later.rows, calls)
  {
    hide EvidenceTable;
    forall k | 0 <= k < |calls|
      ensures later.rows[calls[k].id].attempts == [calls[k].attempt]
      ensures later.rows[calls[k].id].Pod() == calls[k].pod
    {
      var id := calls[k].id;
      assert GoodRow(later, id) && Accumulates(j.rows[id], later.rows[id]);
      AttemptsBound(later.rows[id]);
    }
  }

  lemma LatchKept(w: World, later: World)
    requires LatchOk(w) && later.calls == w.calls
    requires w.journal.conflicts.Keys <= later.journal.conflicts.Keys
    requires forall pod :: MayStillCall(later.frames, pod) ==> MayStillCall(w.frames, pod)
    ensures LatchOk(later)
  {
    forall pod
      ensures LateCalls(later.calls, pod) + (if MayStillCall(later.frames, pod) then 1 else 0)
        <= if pod in later.journal.conflicts || MayStillCall(later.frames, pod) then 1 else 0
    {
      assert LateCalls(w.calls, pod) + (if MayStillCall(w.frames, pod) then 1 else 0)
        <= if pod in w.journal.conflicts || MayStillCall(w.frames, pod) then 1 else 0;
    }
  }

  // -- Every step keeps the invariant -----------------------------------------------------

  lemma CrashKeepsInv(w: World, s: Step, kept: nat)
    requires Inv(w) && Possible(w, Crash(s, kept))
    ensures Inv(Next(w, Crash(s, kept)))
    ensures Extends(w.journal, Next(w, Crash(s, kept)).journal)
  {
    hide GoodJournal, Commits, CanStep, Extends, CallsOk, ApplyAll, LatchOk, MayStillCall;
    var later := Next(w, Crash(s, kept));
    CommitsLawful(w, s);
    LawfulPrefix(w.journal, Commits(w, s), kept);
    LawfulAllKeeps(w.journal, Commits(w, s)[..kept]);
    CallsKept(w.journal, later.journal, w.calls);
    LatchAfterCrash(w, later);
  }

  lemma LatchAfterCrash(w: World, later: World)
    requires LatchOk(w) && later.calls == w.calls && later.frames == map[]
    requires Extends(w.journal, later.journal)
    ensures LatchOk(later)
  {
    LatchKept(w, later);
  }

  /** A step that makes no call, opens no execution and moves no frame's row. */
  lemma QuietStepKeepsInv(w: World, later: World, commits: seq<Commit>, touched: set<nat>)
    requires Inv(w) && LawfulAll(w.journal, commits) && later.journal == ApplyAll(w.journal, commits)
    requires later.calls == w.calls && later.frames == w.frames && later.memory.busy == w.memory.busy
    requires later.up == w.up
    requires Confined(commits, |w.journal.rows|, touched)
    requires forall pod :: pod in w.frames ==> w.frames[pod].op.id !in touched
    ensures Inv(later) && Extends(w.journal, later.journal)
  {
    hide GoodJournal, LawfulAll, Lawful, Extends, CallsOk, FramesOk, ApplyAll, LatchOk, MayStillCall, Confined;
    LawfulAllKeeps(w.journal, commits);
    FramesKept(w.journal, commits, w.frames, touched);
    CallsKept(w.journal, later.journal, w.calls);
    LatchUnchanged(w, later);
  }

  lemma LatchUnchanged(w: World, later: World)
    requires LatchOk(w) && later.calls == w.calls && later.frames == w.frames
    requires Extends(w.journal, later.journal)
    ensures LatchOk(later)
  {
    LatchKept(w, later);
  }

  /** What an execution step of `pod` has to establish besides its commits being lawful. */
  ghost predicate Advances(w: World, pod: string, segment: Segment<Progress>) {
    && pod in w.frames
    && LawfulAll(w.journal, segment.commits)
    && Confined(segment.commits, |w.journal.rows|, {w.frames[pod].op.id})
    && segment.memory.busy == (if segment.outcome.Waiting? then w.memory.busy else w.memory.busy - {pod})
    && (segment.outcome.Waiting? ==>
          && FrameOk(ApplyAll(w.journal, segment.commits).rows, pod, segment.outcome.frame)
          && !w.frames[pod].Replying? && w.frames[pod].op.attempts == []
          && segment.outcome.frame.op.id == w.frames[pod].op.id)
  }

  lemma AdvanceKeepsInv(w: World, pod: string, segment: Segment<Progress>)
    requires Inv(w) && w.up && Advances(w, pod, segment)
    ensures var later := Advanced(w, pod, segment).(journal := ApplyAll(w.journal, segment.commits));
            Inv(later) && Extends(w.journal, later.journal)
  {
    hide GoodJournal, LawfulAll, Lawful, Extends, CallsOk, ApplyAll, LatchOk, Confined, FrameOk, FramesOk, NotYetCalled;
    var j := w.journal;
    var later := Advanced(w, pod, segment).(journal := ApplyAll(j, segment.commits));
    LawfulAllKeeps(j, segment.commits);
    CallsKept(j, later.journal, w.calls);
    OtherFramesKept(w, pod, segment);
    FrameCalls(w, pod, segment);
    LatchAdvances(w, later, pod);
  }

  lemma LatchAdvances(w: World, later: World, pod: string)
    requires LatchOk(w) && later.calls == w.calls && pod in w.frames
    requires later.frames - {pod} == w.frames - {pod}
    requires pod in later.frames ==> !w.frames[pod].Replying?
    requires Extends(w.journal, later.journal)
    ensures LatchOk(later)
  {
    forall p | MayStillCall(later.frames, p)
      ensures MayStillCall(w.frames, p)
    {
      if p != pod {
        assert p in later.frames - {pod} && (later.frames - {pod})[p] == (w.frames - {pod})[p];
      }
    }
    LatchKept(w, later);
  }

  lemma OtherFramesKept(w: World, pod: string, segment: Segment<Progress>)
    requires Inv(w) && Advances(w, pod, segment)
    ensures FramesOk(ApplyAll(w.journal, segment.commits).rows, Landing(w.frames, pod, segment.outcome))
  {
    hide GoodJournal, LawfulAll, Lawful, Extends, CallsOk, ApplyAll, LatchOk, Confined, FrameOk, NotYetCalled;
    var others := w.frames - {pod};
    forall p | p in others
      ensures others[p].op.id != w.frames[pod].op.id
    {
      assert FrameOk(w.journal.rows, p, w.frames[p]) && FrameOk(w.journal.rows, pod, w.frames[pod]);
      FrameRow(w.journal.rows, p, w.frames[p]);
      FrameRow(w.journal.rows, pod, w.frames[pod]);
    }
    FramesKept(w.journal, segment.commits, others, {w.frames[pod].op.id});
    var rows := ApplyAll(w.journal, segment.commits).rows;
    var later := Landing(w.frames, pod, segment.outcome);
    forall p | p in later
      ensures FrameOk(rows, p, later[p])
    {
      if p != pod {
        assert p in others && later[p] == others[p];
      }
    }
  }

  lemma FrameCalls(w: World, pod: string, segment: Segment<Progress>)
    requires Inv(w) && Advances(w, pod, segment)
    ensures NotYetCalled(Landing(w.frames, pod, segment.outcome), w.calls)
  {
    hide GoodJournal, LawfulAll, Lawful, ApplyAll, LatchOk, Confined, EvidenceTable;
    var later := Landing(w.frames, pod, segment.outcome);
    forall p, k | p in later && later[p].Submitting? && 0 <= k < |w.calls|
      ensures w.calls[k].id != later[p].op.id
    {
      if p == pod {
        assert FrameOk(w.journal.rows, pod, w.frames[pod]);
      }
    }
  }

  // -- The execution steps advance ----------------------------------------------------------

  lemma PlanAdvances(w: World, pod: string, plan: Awaited<bool>)
    requires Inv(w) && CanStep(w, PlanReturn(pod, plan))
    ensures Advances(w, pod, PlanSegment(w.memory, w.frames[pod].op, plan))
  {
    hide GoodJournal, CallsOk, NotYetCalled, LatchOk, EvidenceTable;
    var f := w.frames[pod];
    assert FrameOk(w.journal.rows, pod, f);
    UntouchedCopy(w.journal.rows, f.op);
    if plan.Raised? {
      RejectLawful(w.journal, w.memory, f.op, plan.code);
    }
    assert ApplyAll(w.journal, []) == w.journal;
  }

  lemma UntouchedCopy(rows: seq<Operation>, op: Operation)
    requires op.id < |rows| && Validating(rows, op)
    ensures op.attempts == []
  {
  }

  lemma SnapshotAdvances(w: World, pod: string, answer: Awaited<Snapshot>, attemptId: nat, transactionId: nat)
    requires Inv(w) && CanStep(w, SnapshotReturn(pod, answer, attemptId, transactionId))
    ensures Advances(w, pod,
              SnapshotSegment(w.journal, w.memory, w.env, w.frames[pod].op, answer, attemptId, transactionId))
  {
    hide GoodJournal, CallsOk, NotYetCalled, LatchOk, EvidenceTable, ApplyAll, LawfulAll, SnapshotSegment, SendSegment;
    var f := w.frames[pod];
    var op := f.op;
    assert FrameOk(w.journal.rows, pod, f);
    UntouchedCopy(w.journal.rows, op);
    SnapshotLawful(w.journal, w.memory, w.env, op, answer, attemptId, transactionId);
    var attempt := SnapshotShape(w.journal, w.memory, w.env, op, answer, attemptId, transactionId);
    var segment := SnapshotSegment(w.journal, w.memory, w.env, op, answer, attemptId, transactionId);
    if segment.outcome.Waiting? {
      SentFrame(w.journal, w.memory, op, attempt);
    }
  }

  /** A segment that writes one row only and frees its pod unless it suspends. */
  ghost predicate Local(segment: Segment<Progress>, m: Memory, op: Operation) {
    && (forall k :: 0 <= k < |segment.commits| ==> segment.commits[k].Update? && segment.commits[k].op.id == op.id)
    && segment.memory.busy == (if segment.outcome.Waiting? then m.busy else m.busy - {op.Pod()})
  }

  lemma RejectLocal(m: Memory, op: Operation, code: Reason)
    ensures Local(RejectSegment(m, op, code), m, op) && !RejectSegment(m, op, code).outcome.Waiting?
  {
  }

  lemma NoopLocal(m: Memory, op: Operation, evidence: ApplicationEvidence)
    ensures Local(NoopSegment(m, op, evidence), m, op) && !NoopSegment(m, op, evidence).outcome.Waiting?
  {
  }

  lemma SendLocal(m: Memory, op: Operation, attempt: Attempt)
    ensures Local(SendSegment(m, op, attempt), m, op)
  {
  }

  lemma SnapshotShape(
    j: Journal, m: Memory, env: Environment, op: Operation, answer: Awaited<Snapshot>, attemptId: nat, transactionId: nat)
    returns (attempt: Attempt)
    requires op.id < |j.rows| && Validating(j.rows, op)
    ensures var segment := SnapshotSegment(j, m, env, op, answer, attemptId, transactionId);
            && Local(segment, m, op)
            && (segment.outcome.Waiting? ==>
                  j.rows[op.id] == op && segment == SendSegment(m, op.(state := Validated), attempt))
  {
    hide EvidenceTable, RejectSegment, SendSegment, NoopSegment, Matches;
    attempt := Attempt(
      attemptId, transactionId, if answer.Returned? then answer.value.generation else 0, env.now.wall);
    match answer
    case Raised(code) => RejectLocal(m, op, code);
    case Broken =>
    case Returned(snap) =>
      RejectLocal(m, op, NotReady);
      NoopLocal(m, op.(state := Validated), EvidenceFrom(snap, true));
      SendLocal(m, op.(state := Validated), attempt);
  }

  lemma SentFrame(j: Journal, m: Memory, op: Operation, attempt: Attempt)
    requires op.id < |j.rows| && Validating(j.rows, op) && j.rows[op.id] == op
    ensures var segment := SendSegment(m, op.(state := Validated), attempt);
            && segment.outcome.Waiting? && segment.outcome.frame.op.id == op.id
            && FrameOk(ApplyAll(j, segment.commits).rows, op.Pod(), segment.outcome.frame)
  {
    hide EvidenceTable, LawfulAll, Lawful, Evolves, Apply, ApplyAll, SendSegment;
    var validated := op.(state := Validated);
    var final := validated.(attempts := [attempt], state := Submitted, commit := UNATTRIBUTED);
    ValidateKeeps(op);
    SendKeeps(validated, attempt);
    assert validated.attempts + [attempt] == [attempt];
    SendOutcome(m, validated, attempt);
    Two(j, Update(validated), Update(final));
    UpdatedRow(j, validated);
    UpdatedRow(Apply(j, Update(validated)), final);
  }

  lemma SendOutcome(m: Memory, op: Operation, attempt: Attempt)
    requires op.state == Validated
    ensures var final := op.(attempts := op.attempts + [attempt], state := Submitted, commit := UNATTRIBUTED);
            SendSegment(m, op, attempt) == Segment([Update(op), Update(final)], m, Waiting(Submitting(final, attempt)))
  {
  }

  lemma ReplyAdvances(w: World, pod: string)
    requires Inv(w) && CanStep(w, SubmitReturn(pod))
    ensures Advances(w, pod, ReplySegment(w.memory, w.frames[pod].op, w.frames[pod].reply))
  {
    hide GoodJournal, CallsOk, NotYetCalled, LatchOk, EvidenceTable, ApplyAll, LawfulAll, Resolution, Evolves;
    var f := w.frames[pod];
    assert FrameOk(w.journal.rows, pod, f);
    ReplyLawful(w.journal, w.memory, f.op, f.attempt, f.reply);
    ResolveKeeps(f.op, f.reply);
    KeepsIdentity(f.op, Resolution(f.op, f.reply).value);
  }

  // -- The remaining steps ------------------------------------------------------------------

  ghost predicate StepKeepsInv(w: World, s: Step)
    requires CanStep(w, s)
  {
    Inv(Next(w, Do(s))) && Extends(w.journal, Next(w, Do(s)).journal)
  }

  lemma RequestKeepsInv(w: World, a: Arguments)
    requires Inv(w) && w.up
    ensures StepKeepsInv(w, Request(a))
  {
    hide GoodJournal, FramesOk, CallsOk, NotYetCalled, LatchOk, ApplyAll, LawfulAll, Admission, Extends, EvidenceTable;
    RequestLawful(w.journal, w.memory, w.env, a);
    QuietStepKeepsInv(w, Next(w, Do(Request(a))), Commits(w, Request(a)), {});
  }

  lemma StartKeepsInv(w: World, id: nat)
    requires Inv(w) && w.up
    ensures StepKeepsInv(w, ExecStart(id))
  {
    hide GoodJournal, FramesOk, CallsOk, NotYetCalled, LatchOk, ApplyAll, LawfulAll, Extends, EvidenceTable, Keyed;
    var s := ExecStart(id);
    var later := Next(w, Do(s));
    StartLawful(w.journal, w.memory, w.env, id);
    Nothing(w.journal);
    if later.frames != w.frames {
      OpeningKeepsInv(w, later, id);
    } else if Commits(w, s) == [] {
      QuietStepKeepsInv(w, later, [], {});
    } else {
      NotInFlight(w, id);
      StartTouches(w.journal, w.memory, w.env, id);
      QuietStepKeepsInv(w, later, Commits(w, s), {id});
    }
  }

  lemma StartTouches(j: Journal, m: Memory, env: Environment, id: nat)
    requires GoodJournal(j)
    ensures Confined(StartSegment(j, m, env, id).commits, |j.rows|, {id})
  {
    hide EvidenceTable, Keyed;
    if id < |j.rows| {
      assert GoodRow(j, id);
    }
  }

  /** No execution holds an operation of a pod that is not busy. */
  lemma NotInFlight(w: World, id: nat)
    requires Inv(w) && id < |w.journal.rows| && w.journal.rows[id].Pod() !in w.memory.busy
    ensures forall pod :: pod in w.frames ==> w.frames[pod].op.id != id
  {
    hide GoodJournal, CallsOk, NotYetCalled, LatchOk, FrameOk;
    forall pod | pod in w.frames
      ensures w.frames[pod].op.id != id
    {
      assert FrameOk(w.journal.rows, pod, w.frames[pod]);
      FrameRow(w.journal.rows, pod, w.frames[pod]);
    }
  }

  lemma OpeningKeepsInv(w: World, later: World, id: nat)
    requires Inv(w) && w.up && id < |w.journal.rows|
    requires var pod := w.journal.rows[id].Pod();
             && w.journal.rows[id].state == Requested && pod !in w.memory.busy && pod !in w.journal.conflicts
             && later == w.(memory := w.memory.(busy := w.memory.busy + {pod}),
                            frames := w.frames[pod := Planning(w.journal.rows[id])])
    ensures Inv(later) && Extends(w.journal, later.journal)
  {
    hide EvidenceTable, Keyed, FrameOk, CallsOk;
    var j := w.journal;
    var pod := j.rows[id].Pod();
    assert GoodRow(j, id);
    OpenedFrame(j, id);
    Nothing(j);
    LawfulAllKeeps(j, []);
  }

  lemma OpenedFrame(j: Journal, id: nat)
    requires id < |j.rows| && GoodRow(j, id) && j.rows[id].state == Requested
    ensures FrameOk(j.rows, j.rows[id].Pod(), Planning(j.rows[id]))
  {
    hide EvidenceTable;
  }

  lemma CallKeepsInv(w: World, pod: string, reply: Awaited<SubmitResult>)
    requires Inv(w) && CanStep(w, SubmitCall(pod, reply))
    ensures StepKeepsInv(w, SubmitCall(pod, reply))
  {
    hide EvidenceTable, GoodJournal, FrameOk, CallsOk, NotYetCalled, LatchOk, LawfulAll, ApplyAll;
    var j := w.journal;
    var f := w.frames[pod];
    var later := Next(w, Do(SubmitCall(pod, reply)));
    Nothing(j);
    LawfulAllKeeps(j, []);
    assert FrameOk(j.rows, pod, f);
    CallRecorded(w, pod, reply);
    CallLatched(w, later, pod, reply);
  }

  lemma CallRecorded(w: World, pod: string, reply: Awaited<SubmitResult>)
    requires Inv(w) && CanStep(w, SubmitCall(pod, reply))
    ensures var later := Rest(w, SubmitCall(pod, reply));
            && FrameOk(w.journal.rows, pod, later.frames[pod]) && CallsOk(w.journal.rows, later.calls)
            && NotYetCalled(later.frames, later.calls)
  {
    hide EvidenceTable, GoodJournal, LatchOk, Keyed, Validating, ProgressOf;
    assert FrameOk(w.journal.rows, pod, w.frames[pod]);
    var later := Rest(w, SubmitCall(pod, reply));
    forall p, k | p in later.frames && later.frames[p].Submitting? && 0 <= k < |later.calls|
      ensures later.calls[k].id != later.frames[p].op.id
    {
      assert FrameOk(w.journal.rows, p, w.frames[p]);
    }
  }

  lemma CallLatched(w: World, later: World, pod: string, reply: Awaited<SubmitResult>)
    requires LatchOk(w) && CanStep(w, SubmitCall(pod, reply))
    requires later == Rest(w, SubmitCall(pod, reply))
    ensures LatchOk(later)
  {
    forall p
      ensures LateCalls(later.calls, p) + (if MayStillCall(later.frames, p) then 1 else 0)
        <= if p in later.journal.conflicts || MayStillCall(later.frames, p) then 1 else 0
    {
      assert later.calls[..|later.calls| - 1] == w.calls;
      assert LateCalls(w.calls, p) + (if MayStillCall(w.frames, p) then 1 else 0)
        <= if p in w.journal.conflicts || MayStillCall(w.frames, p) then 1 else 0;
    }
  }

  lemma AbandonKeepsInv(w: World, pod: string)
    requires Inv(w) && CanStep(w, Abandon(pod))
    ensures StepKeepsInv(w, Abandon(pod))
  {
    hide EvidenceTable, Keyed, GoodJournal, FrameOk, CallsOk;
    var later := Next(w, Do(Abandon(pod)));
    assert later.journal == w.journal;
    Nothing(w.journal);
    LawfulAllKeeps(w.journal, []);
    LatchAdvances(w, later, pod);
  }

  lemma ReconcileKeepsInv(w: World, pod: string, snap: Snapshot)
    requires Inv(w) && w.up
    ensures StepKeepsInv(w, Reconcile(pod, snap))
  {
    hide GoodJournal, FramesOk, CallsOk, NotYetCalled, LatchOk, ApplyAll, LawfulAll, Extends, EvidenceTable,
      ReconcileSegment, FrameOk, Confined;
    var s := Reconcile(pod, snap);
    var later := Next(w, Do(s));
    ReconcileLawful(w.journal, w.memory, w.env, pod, snap);
    var touched := ReconcileTouches(w, pod, snap);
    QuietStepKeepsInv(w, later, Commits(w, s), touched);
  }

  lemma ReconcileTouches(w: World, pod: string, snap: Snapshot) returns (touched: set<nat>)
    requires Inv(w)
    ensures var segment := ReconcileSegment(w.journal, w.memory, w.env, pod, snap);
            && Confined(segment.commits, |w.journal.rows|, touched)
            && segment.memory.busy == w.memory.busy
    ensures forall p :: p in w.frames ==> w.frames[p].op.id !in touched
  {
    hide CallsOk, NotYetCalled, LatchOk, EvidenceTable, Judge, MarkDeadline, Expired, SignatureOf, FrameOk, Evolves, Keyed;
    var last := LastLanded(w.journal.rows, pod);
    touched := {};
    if last >= 0 && w.journal.rows[last].state in WATCHED {
      touched := {last};
      var op := w.journal.rows[last];
      assert GoodRow(w.journal, last);
      JudgeKeeps(op, snap, Expired(w.memory, op, w.env.now), op.intent.Target(w.env.vault));
      KeepsIdentity(op, Judge(op, snap, Expired(w.memory, op, w.env.now), op.intent.Target(w.env.vault)).op);
      forall p | p in w.frames
        ensures w.frames[p].op.id != last
      {
        assert FrameOk(w.journal.rows, p, w.frames[p]);
        FrameRow(w.journal.rows, p, w.frames[p]);
      }
    }
  }

  lemma CancelKeepsInv(w: World, id: nat)
    requires Inv(w) && w.up
    ensures StepKeepsInv(w, Cancel(id))
  {
    hide GoodJournal, FramesOk, CallsOk, NotYetCalled, LatchOk, ApplyAll, LawfulAll, Extends, EvidenceTable, Keyed, Confined;
    var s := Cancel(id);
    var later := Next(w, Do(s));
    var commits := Commits(w, s);
    CancelLawful(w.journal, w.memory, id);
    if commits == [] {
      Nothing(w.journal);
      QuietStepKeepsInv(w, later, [], {});
    } else {
      LawfulAllKeeps(w.journal, commits);
      CancelledFrames(w, id);
      CallsKept(w.journal, later.journal, w.calls);
      LatchUnchanged(w, later);
    }
  }

  lemma Nothing(j: Journal)
    ensures ApplyAll(j, []) == j && LawfulAll(j, []) && Confined([], |j.rows|, {})
  {
  }

  lemma CancelledFrames(w: World, id: nat)
    requires Inv(w) && id < |w.journal.rows| && MayMove(w.journal.rows[id], Cancelled, NO_EVIDENCE)
    ensures FramesOk(ApplyAll(w.journal, CancelSegment(w.journal, w.memory, id).commits).rows, w.frames)
  {
    hide CallsOk, NotYetCalled, LatchOk, EvidenceTable, Keyed, Apply, ApplyAll, LawfulAll, FrameOk, MayMove;
    var op := w.journal.rows[id];
    var cancelled := op.(state := Cancelled);
    assert GoodRow(w.journal, id);
    One(w.journal, Update(cancelled));
    UpdatedRow(w.journal, cancelled);
    forall pod | pod in w.frames
      ensures FrameOk(w.journal.rows[id := cancelled], pod, w.frames[pod])
    {
      CancelledFrame(w.journal.rows, id, pod, w.frames[pod]);
    }
  }

  /** A cancellation leaves every execution consistent: it reaches no operation being sent. */
  lemma CancelledFrame(rows: seq<Operation>, id: nat, pod: string, f: Frame)
    requires id < |rows| && MayMove(rows[id], Cancelled, NO_EVIDENCE) && rows[id].id == id
    requires FrameOk(rows, pod, f)
    ensures FrameOk(rows[id := rows[id].(state := Cancelled)], pod, f)
  {
    hide EvidenceTable;
  }

  lemma RestartKeepsInv(w: World, mono: real)
    requires Inv(w) && !w.up
    ensures StepKeepsInv(w, Restart(mono))
  {
    hide GoodJournal, CallsOk, LatchOk, ApplyAll, LawfulAll, Extends, EvidenceTable, FrameOk;
    var later := Next(w, Do(Restart(mono)));
    CommitsLawful(w, Restart(mono));
    LawfulAllKeeps(w.journal, Commits(w, Restart(mono)));
    CallsKept(w.journal, later.journal, w.calls);
    LatchUnchanged(w, later);
  }

  lemma DoKeepsInv(w: World, s: Step)
    requires Inv(w) && CanStep(w, s)
    ensures StepKeepsInv(w, s)
  {
    hide GoodJournal, FramesOk, CallsOk, NotYetCalled, LatchOk, LawfulAll, Extends, EvidenceTable, FrameOk, Advances,
      PlanSegment, SnapshotSegment, ReplySegment;
    match s
    case Request(a) => RequestKeepsInv(w, a);
    case ExecStart(id) => StartKeepsInv(w, id);
    case PlanReturn(pod, plan) =>
      PlanAdvances(w, pod, plan);
      AdvanceKeepsInv(w, pod, ProgressOf(w, s));
    case SnapshotReturn(pod, answer, attemptId, transactionId) =>
      SnapshotAdvances(w, pod, answer, attemptId, transactionId);
      AdvanceKeepsInv(w, pod, ProgressOf(w, s));
    case SubmitReturn(pod) =>
      ReplyAdvances(w, pod);
      AdvanceKeepsInv(w, pod, ProgressOf(w, s));
    case SubmitCall(pod, reply) => CallKeepsInv(w, pod, reply);
    case Abandon(pod) => AbandonKeepsInv(w, pod);
    case Reconcile(pod, snap) => ReconcileKeepsInv(w, pod, snap);
    case Cancel(id) => CancelKeepsInv(w, id);
    case Restart(mono) => RestartKeepsInv(w, mono);
    case _ =>
      Nothing(w.journal);
      QuietStepKeepsInv(w, Next(w, Do(s)), [], {});
  }

  /** One step of any kind, whole or cut short by a crash, keeps the invariant and takes
      nothing back. */
  lemma StepSafe(w: World, a: Action)
    requires Inv(w) && Possible(w, a)
    ensures Inv(Next(w, a)) && Extends(w.journal, Next(w, a).journal)
  {
    hide Inv, Extends, Next, CanStep, Commits;
    match a
    case Do(s) => DoKeepsInv(w, s);
    case Crash(s, kept) => CrashKeepsInv(w, s, kept);
  }
}
