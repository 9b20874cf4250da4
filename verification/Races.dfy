/** What two executions of the same pod, or an execution and a cancellation, can still do to
    each other: exactly when a submission follows a recorded conflict, and exactly when a
    cancellation is final. */
module Races {
  import opened Basics
  import opened Lifecycle
  import opened Journal
  import opened Protocol
  import opened Records
  import opened Runs
  import opened Safety
  import opened Theorems
  import opened OneActive
  import opened Undisturbed

  // -- Submissions after a recorded conflict --------------------------------------------

  /** An execution past its ownership check that has yet to submit: it is about to, or it is
      still validating an operation that nobody cancelled. */
  predicate SubmissionAhead(w: World, pod: string) {
    && pod in w.frames && !w.frames[pod].Replying?
    && (w.frames[pod].Submitting? || StillRequested(w.journal.rows, w.frames[pod].op.id))
  }

  predicate StillRequested(rows: seq<Operation>, id: nat) {
    id < |rows| && rows[id].state == Requested
  }

  /** The calls to a pod that a stretch of a run has added. */
  ghost predicate SubmittedTo(before: seq<Call>, after: seq<Call>, pod: string) {
    exists n :: |before| <= n < |after| && after[n].pod == pod
  }

  /** What a stretch from `w` to `later` may have sent to a conflicted pod: only what the execution
      then in flight had ahead of it, marked as late. */
  ghost predicate OnlyAhead(w: World, later: World, pod: string) {
    && pod in later.journal.conflicts && w.calls <= later.calls
    && (SubmissionAhead(later, pod) ==>
          SubmissionAhead(w, pod) && later.frames[pod].op.id == w.frames[pod].op.id)
    && forall n :: |w.calls| <= n < |later.calls| && later.calls[n].pod == pod ==>
         SubmissionAhead(w, pod) && later.calls[n].id == w.frames[pod].op.id && later.calls[n].conflicted
  }

  lemma SameFrameOnlyAhead(w: World, later: World, pod: string)
    requires Inv(w) && pod in w.journal.conflicts && Extends(w.journal, later.journal) && later.calls == w.calls
    requires pod in later.frames ==> pod in w.frames && later.frames[pod] == w.frames[pod]
    ensures OnlyAhead(w, later, pod)
  {
    hide EvidenceTable, LatchOk, CallsOk, NotYetCalled, Validating, Sending, Keyed;
    if SubmissionAhead(later, pod) && !w.frames[pod].Submitting? {
      assert FrameOk(w.journal.rows, pod, w.frames[pod]);
      StaysRequested(w.journal, later.journal, w.frames[pod].op.id);
    }
  }

  lemma StaysRequested(j: Journal, later: Journal, id: nat)
    requires Extends(j, later) && id < |j.rows| && later.rows[id].state == Requested
    ensures j.rows[id].state == Requested
  {
    hide EvidenceTable;
    assert Accumulates(j.rows[id], later.rows[id]);
  }

  lemma StartOnlyAhead(w: World, id: nat, pod: string)
    requires Inv(w) && CanStep(w, ExecStart(id)) && pod in w.journal.conflicts
    ensures OnlyAhead(w, Next(w, Do(ExecStart(id))), pod)
  {
    hide Inv, Extends, ApplyAll, OnlyAhead;
    StepSafe(w, Do(ExecStart(id)));
    SameFrameOnlyAhead(w, Next(w, Do(ExecStart(id))), pod);
  }

  lemma PlanOnlyAhead(w: World, p: string, plan: Awaited<bool>, pod: string)
    requires Inv(w) && CanStep(w, PlanReturn(p, plan)) && pod in w.journal.conflicts
    ensures OnlyAhead(w, Next(w, Do(PlanReturn(p, plan))), pod)
  {
    hide Inv, Extends, ApplyAll, RejectSegment;
    var s := PlanReturn(p, plan);
    var later := Next(w, Do(s));
    StepSafe(w, Do(s));
    if p == pod {
      RejectOpensNothing(w.memory, w.frames[p].op);
      ConflictsExtend(w.journal, later.journal, pod);
      if pod in later.frames {
        FrameKnown(w, pod);
        if SubmissionAhead(later, pod) {
          StaysRequested(w.journal, later.journal, w.frames[pod].op.id);
        }
      }
    } else {
      SameFrameOnlyAhead(w, later, pod);
    }
  }

  lemma ConflictsExtend(j: Journal, later: Journal, pod: string)
    requires Extends(j, later) && pod in j.conflicts
    ensures pod in later.conflicts
  {
    hide Accumulates;
  }

  lemma FrameKnown(w: World, pod: string)
    requires Inv(w) && pod in w.frames
    ensures w.frames[pod].op.id < |w.journal.rows| && FrameOk(w.journal.rows, pod, w.frames[pod])
  {
    hide GoodJournal, CallsOk, NotYetCalled, LatchOk, EvidenceTable, Validating, Sending;
    assert FrameOk(w.journal.rows, pod, w.frames[pod]);
  }

  lemma SnapshotOnlyAhead(w: World, s: Step, pod: string)
    requires Inv(w) && CanStep(w, s) && s.SnapshotReturn? && pod in w.journal.conflicts
    ensures OnlyAhead(w, Next(w, Do(s)), pod)
  {
    hide Inv, Extends, ApplyAll, SnapshotSegment, FrameOk, SendSegment;
    var later := Next(w, Do(s));
    StepSafe(w, Do(s));
    if s.pod == pod {
      ConflictsExtend(w.journal, later.journal, pod);
      FrameKnown(w, pod);
      SnapshotFrame(w, s);
    } else {
      SameFrameOnlyAhead(w, later, pod);
    }
  }

  /** An execution gets past its snapshot only if its operation was still stored as REQUESTED. */
  lemma SnapshotFrame(w: World, s: Step)
    requires Inv(w) && CanStep(w, s) && s.SnapshotReturn?
    ensures var segment := ProgressOf(w, s);
            segment.outcome.Waiting? ==>
              && StillRequested(w.journal.rows, w.frames[s.pod].op.id)
              && segment.outcome.frame.op.id == w.frames[s.pod].op.id && segment.outcome.frame.Submitting?
  {
    hide GoodJournal, CallsOk, NotYetCalled, LatchOk, EvidenceTable, ApplyAll, SnapshotSegment, SendSegment;
    var op := w.frames[s.pod].op;
    FrameKnown(w, s.pod);
    var attempt := SnapshotShape(w.journal, w.memory, w.env, op, s.answer, s.attemptId, s.transactionId);
    SendOutcome(w.memory, op.(state := Validated), attempt);
  }

  lemma ReplyOnlyAhead(w: World, p: string, pod: string)
    requires Inv(w) && CanStep(w, SubmitReturn(p)) && pod in w.journal.conflicts
    ensures OnlyAhead(w, Next(w, Do(SubmitReturn(p))), pod)
  {
    hide Inv, Extends, ApplyAll, OnlyAhead, Resolution;
    StepSafe(w, Do(SubmitReturn(p)));
    SameFrameOnlyAhead(w, Next(w, Do(SubmitReturn(p))), pod);
  }

  lemma CallOnlyAhead(w: World, p: string, reply: Awaited<SubmitResult>, pod: string)
    requires Inv(w) && CanStep(w, SubmitCall(p, reply)) && pod in w.journal.conflicts
    ensures OnlyAhead(w, Next(w, Do(SubmitCall(p, reply))), pod)
  {
    hide Inv, Extends, ApplyAll;
    var s := SubmitCall(p, reply);
    var later := Next(w, Do(s));
    StepSafe(w, Do(s));
    ConflictsExtend(w.journal, later.journal, pod);
    if p != pod && SubmissionAhead(later, pod) && !w.frames[pod].Submitting? {
      FrameKnown(w, pod);
      StaysRequested(w.journal, later.journal, w.frames[pod].op.id);
    }
  }

  /** One step, whole or cut short, sends to a conflicted pod only what was ahead of it. */
  lemma StepOnlyAhead(w: World, a: Action, pod: string)
    requires Inv(w) && Possible(w, a) && pod in w.journal.conflicts
    ensures OnlyAhead(w, Next(w, a), pod)
  {
    hide Inv, Extends, ApplyAll, OnlyAhead, Commits, RequestSegment, ReconcileSegment, ProgressOf;
    match a
    case Crash(s, kept) =>
      StepSafe(w, a);
      SameFrameOnlyAhead(w, Next(w, a), pod);
    case Do(s) =>
      match s
      case ExecStart(id) => StartOnlyAhead(w, id, pod);
      case PlanReturn(p, plan) => PlanOnlyAhead(w, p, plan, pod);
      case SnapshotReturn(_, _, _, _) => SnapshotOnlyAhead(w, s, pod);
      case SubmitReturn(p) => ReplyOnlyAhead(w, p, pod);
      case SubmitCall(p, reply) => CallOnlyAhead(w, p, reply, pod);
      case _ =>
        StepSafe(w, a);
        SameFrameOnlyAhead(w, Next(w, a), pod);
  }

  lemma OnlyAheadTransitive(a: World, b: World, c: World, pod: string)
    requires OnlyAhead(a, b, pod) && OnlyAhead(b, c, pod)
    ensures OnlyAhead(a, c, pod)
  {
    forall n | |a.calls| <= n < |c.calls| && c.calls[n].pod == pod
      ensures SubmissionAhead(a, pod) && c.calls[n].id == a.frames[pod].op.id && c.calls[n].conflicted
    {
      if n < |b.calls| {
        assert b.calls[n] == c.calls[n];
      }
    }
  }

  lemma {:induction false} PathOnlyAhead(worlds: seq<World>, actions: seq<Action>, pod: string, k: nat)
    requires Path(worlds, actions) && k < |worlds| && Inv(worlds[0]) && pod in worlds[0].journal.conflicts
    ensures Inv(worlds[k]) && OnlyAhead(worlds[0], worlds[k], pod)
  {
    hide Inv, Next, Possible;
    if k > 0 {
      PathOnlyAhead(worlds, actions, pod, k - 1);
      StepSafe(worlds[k - 1], actions[k - 1]);
      StepOnlyAhead(worlds[k - 1], actions[k - 1], pod);
      OnlyAheadTransitive(worlds[0], worlds[k - 1], worlds[k], pod);
    }
  }

  ghost predicate AtMostOneTo(before: seq<Call>, after: seq<Call>, pod: string) {
    forall m, n ::
      |before| <= m < |after| && |before| <= n < |after| && after[m].pod == pod && after[n].pod == pod ==> m == n
  }

  /** Once a conflict is recorded, everything the rest of the run submits to the pod is one call, of
      the execution that was in flight and still had its submission ahead; if none had, nothing. */
  lemma AfterConflict(worlds: seq<World>, actions: seq<Action>, pod: string, i: nat, k: nat)
    requires IsRun(worlds, actions) && i <= k < |worlds| && pod in worlds[i].journal.conflicts
    ensures worlds[i].calls <= worlds[k].calls
    ensures forall n :: |worlds[i].calls| <= n < |worlds[k].calls| && worlds[k].calls[n].pod == pod ==>
              && SubmissionAhead(worlds[i], pod) && worlds[k].calls[n].id == worlds[i].frames[pod].op.id
              && worlds[k].calls[n].conflicted
    ensures AtMostOneTo(worlds[i].calls, worlds[k].calls, pod)
  {
    hide GoodJournal, FramesOk, NotYetCalled, LatchOk, Next, Possible, SubmissionAhead;
    RunSafe(worlds, actions, i);
    var before, steps := worlds[i..k + 1], actions[i..k];
    PathPart(worlds, actions, i, k);
    PathOnlyAhead(before, steps, pod, k - i);
    assert before[0] == worlds[i] && before[k - i] == worlds[k];
    RunSafe(worlds, actions, k);
    DistinctCalls(worlds[k].journal.rows, worlds[k].calls);
  }

  lemma DistinctCalls(rows: seq<Operation>, calls: seq<Call>)
    requires CallsOk(rows, calls)
    ensures forall m, n :: 0 <= m < |calls| && 0 <= n < |calls| && calls[m].id == calls[n].id ==> m == n
  {
  }

  lemma PathPart(worlds: seq<World>, actions: seq<Action>, i: nat, k: nat)
    requires Path(worlds, actions) && i <= k < |worlds|
    ensures Path(worlds[i..k + 1], actions[i..k])
  {
    hide Possible, Next;
    var part, steps := worlds[i..k + 1], actions[i..k];
    forall n | 0 <= n < |steps|
      ensures Possible(part[n], steps[n]) && part[n + 1] == Next(part[n], steps[n])
    {
      assert steps[n] == actions[i + n] && part[n] == worlds[i + n] && part[n + 1] == worlds[i + n + 1];
    }
  }

  // -- What is stored was admitted --------------------------------------------------------

  ghost predicate AllAdmitted(rows: seq<Operation>) {
    forall i :: 0 <= i < |rows| ==> Admitted(rows[i])
  }

  predicate Admissible(intent: Intent) {
    intent.Validate().Ok?
  }

  /** The intent passed validation and is the one the fingerprint was taken of. */
  predicate Admitted(op: Operation) {
    Admissible(op.intent) && op.fingerprint.intent == op.intent
  }

  lemma StepAdmitted(w: World, a: Action)
    requires Inv(w) && AllAdmitted(w.journal.rows) && Possible(w, a)
    ensures AllAdmitted(Next(w, a).journal.rows)
  {
    hide Inv, Admitted, CanStep, Commits, Rest, ApplyAll, Accumulates;
    var later := Next(w, a).journal;
    var commits := Commits(w, a.step);
    var kept := if a.Do? then |commits| else a.kept;
    assert commits[..|commits|] == commits;
    assert later == ApplyAll(w.journal, commits[..kept]);
    StepSafe(w, a);
    if a.step.Request? {
      assert a.step == Request(a.step.a);
      RequestAdmitted(w, a.step.a, kept);
    } else {
      OnlyRequestsInsert(w, a.step);
      PrefixInsertsNothing(commits, kept);
      SizeKept(w.journal, commits[..kept]);
    }
    IntentsKept(w.journal, later);
  }

  lemma IntentsKept(j: Journal, later: Journal)
    requires Extends(j, later) && AllAdmitted(j.rows)
    requires forall i :: |j.rows| <= i < |later.rows| ==> Admitted(later.rows[i])
    ensures AllAdmitted(later.rows)
  {
    hide Admissible, EvidenceTable;
    forall i | 0 <= i < |later.rows|
      ensures Admitted(later.rows[i])
    {
      if i < |j.rows| {
        assert Accumulates(j.rows[i], later.rows[i]) && Admitted(j.rows[i]);
      }
    }
  }

  lemma RequestAdmitted(w: World, a: Arguments, kept: nat)
    requires CanStep(w, Request(a)) && kept <= |Commits(w, Request(a))|
    ensures var later := ApplyAll(w.journal, Commits(w, Request(a))[..kept]);
            forall i :: |w.journal.rows| <= i < |later.rows| ==> Admitted(later.rows[i])
  {
    hide RequestSegment, ApplyAll, Apply;
    EnteredOps(w.journal, w.memory, w.env, a);
    EnteredRows(w.journal, w.memory, w.env, a, kept);
  }

  lemma {:induction false} RunAdmitted(worlds: seq<World>, actions: seq<Action>, k: nat)
    requires IsRun(worlds, actions) && k < |worlds|
    ensures AllAdmitted(worlds[k].journal.rows)
  {
    hide Inv, Next, Possible;
    if k > 0 {
      RunAdmitted(worlds, actions, k - 1);
      RunSafe(worlds, actions, k - 1);
      StepAdmitted(worlds[k - 1], actions[k - 1]);
    }
  }

  // -- The continuation that submits ------------------------------------------------------

  lemma SendsNow(w: World, pod: string) returns (worlds: seq<World>, actions: seq<Action>)
    requires Inv(w) && pod in w.frames && w.frames[pod].Submitting?
    ensures Path(worlds, actions) && worlds[0] == w
    ensures worlds[|actions|].calls == w.calls + [Call(w.frames[pod].op.id, w.frames[pod].attempt, pod, pod in w.journal.conflicts)]
  {
    hide GoodJournal, FramesOk, CallsOk, NotYetCalled, LatchOk, ApplyAll;
    var a := Do(SubmitCall(pod, Broken));
    worlds, actions := [w, Next(w, a)], [a];
  }

  /** A device that is ready and shows none of what is wanted. */
  const BLANK := Snapshot(map[], Observation(map[], 0, true, 0), true, 0)

  lemma TargetWith(intent: Intent, vault: Vault)
    requires Admissible(intent)
    ensures intent.Target(vault[intent.secretRef := Ok([])]).Ok?
    ensures !Matches(map[], intent.Target(vault[intent.secretRef := Ok([])]).value)
  {
    var target := intent.Target(vault[intent.secretRef := Ok([])]).value;
    assert Ssid in target;
  }

  lemma SnapshotSendsOn(w: World, pod: string)
    requires Inv(w) && pod in w.frames && w.frames[pod].Snapshotting? && SubmissionAhead(w, pod)
    requires var target := w.frames[pod].op.intent.Target(w.env.vault); target.Ok? && !Matches(map[], target.value)
    ensures var s := SnapshotReturn(pod, Returned(BLANK), 0, 0);
            && CanStep(w, s) && pod in Next(w, Do(s)).frames && Next(w, Do(s)).frames[pod].Submitting?
            && Next(w, Do(s)).calls == w.calls
  {
    hide GoodJournal, CallsOk, NotYetCalled, LatchOk, EvidenceTable, ApplyAll, Matches;
    FrameKnown(w, pod);
  }

  lemma SendsAfterSnapshot(w: World, pod: string) returns (worlds: seq<World>, actions: seq<Action>)
    requires Inv(w) && pod in w.frames && w.frames[pod].Snapshotting? && SubmissionAhead(w, pod)
    requires AllAdmitted(w.journal.rows)
    ensures Path(worlds, actions) && worlds[0] == w && SubmittedTo(w.calls, worlds[|actions|].calls, pod)
  {
    hide Inv, FrameOk, Next, Admissible, Matches, Intent.Target;
    FrameKnown(w, pod);
    var intent := w.frames[pod].op.intent;
    SameIntent(w, pod);
    TargetWith(intent, w.env.vault);
    var a := Do(ChangeVault(w.env.vault[intent.secretRef := Ok([])]));
    var w1 := Next(w, a);
    StepSafe(w, a);
    VaultChanged(w, a.step.vault);
    var b := Do(SnapshotReturn(pod, Returned(BLANK), 0, 0));
    SnapshotSendsOn(w1, pod);
    var w2 := Next(w1, b);
    StepSafe(w1, b);
    var more, steps := SendsNow(w2, pod);
    worlds, actions := [w, w1, w2] + more[1..], [a, b] + steps;
    PathJoin([w, w1, w2], [a, b], more, steps);
    Called(w.calls, worlds[|actions|].calls, pod);
  }

  lemma Called(before: seq<Call>, after: seq<Call>, pod: string)
    requires |after| == |before| + 1 && after[|before|].pod == pod
    ensures SubmittedTo(before, after, pod)
  {
  }

  lemma SameIntent(w: World, pod: string)
    requires Inv(w) && pod in w.frames && AllAdmitted(w.journal.rows)
    ensures Admissible(w.frames[pod].op.intent)
  {
    hide GoodJournal, CallsOk, NotYetCalled, LatchOk, EvidenceTable, Admissible;
    FrameKnown(w, pod);
  }

  lemma VaultChanged(w: World, vault: Vault)
    ensures Next(w, Do(ChangeVault(vault))) == w.(env := w.env.(vault := vault))
  {
    Nothing(w.journal);
  }

  lemma PlanPassesOn(w: World, pod: string)
    requires Inv(w) && pod in w.frames && w.frames[pod].Planning? && SubmissionAhead(w, pod)
    ensures var s := PlanReturn(pod, Returned(true));
            && CanStep(w, s) && Next(w, Do(s)) == w.(frames := w.frames[pod := Snapshotting(w.frames[pod].op)])
  {
    hide GoodJournal, CallsOk, NotYetCalled, LatchOk, EvidenceTable, FrameOk, Apply;
    Nothing(w.journal);
  }

  lemma SendsOn(w: World, pod: string) returns (worlds: seq<World>, actions: seq<Action>)
    requires Inv(w) && SubmissionAhead(w, pod) && AllAdmitted(w.journal.rows)
    ensures Path(worlds, actions) && worlds[0] == w && SubmittedTo(w.calls, worlds[|actions|].calls, pod)
  {
    hide Inv, Next, AllAdmitted, CanStep;
    match w.frames[pod]
    case Submitting(_, _) =>
      worlds, actions := SendsNow(w, pod);
      Called(w.calls, worlds[|actions|].calls, pod);
    case Snapshotting(_) =>
      worlds, actions := SendsAfterSnapshot(w, pod);
    case Planning(op) =>
      PlanPassesOn(w, pod);
      var a := Do(PlanReturn(pod, Returned(true)));
      var w1 := Next(w, a);
      StepSafe(w, a);
      var more, steps := SendsAfterSnapshot(w1, pod);
      PathJoin([w, w1], [a], more, steps);
      worlds, actions := [w, w1] + more[1..], [a] + steps;
    case Replying(_, _, _) =>
  }

  /** A submission can still follow a recorded conflict if and only if an execution of the pod is past
      its ownership check with its submission ahead: exactly then some continuation submits. */
  lemma LateSubmissionExactly(worlds: seq<World>, actions: seq<Action>, pod: string, i: nat)
    requires IsRun(worlds, actions) && i < |worlds| && pod in worlds[i].journal.conflicts
    ensures SubmissionAhead(worlds[i], pod)
        <==> exists more: seq<World>, steps: seq<Action> ::
               && Path(more, steps) && more[0] == worlds[i]
               && SubmittedTo(worlds[i].calls, more[|steps|].calls, pod)
  {
    hide Inv, Next, Possible, AllAdmitted, SubmissionAhead;
    RunSafe(worlds, actions, i);
    RunAdmitted(worlds, actions, i);
    if SubmissionAhead(worlds[i], pod) {
      var more, steps := SendsOn(worlds[i], pod);
    }
    forall more: seq<World>, steps: seq<Action>
      | Path(more, steps) && more[0] == worlds[i] && SubmittedTo(worlds[i].calls, more[|steps|].calls, pod)
      ensures SubmissionAhead(worlds[i], pod)
    {
      PathOnlyAhead(more, steps, pod, |steps|);
    }
  }

  // -- Cancellations that do not last -----------------------------------------------------

  /** The steps that store a rejection from the copy an execution of `id` read at its start: planning
      or the snapshot raised an error, or the pod was not ready. */
  predicate RejectsCopy(w: World, s: Step, id: nat) {
    match s
    case PlanReturn(pod, plan) => plan.Raised? && pod in w.frames && w.frames[pod].op.id == id
    case SnapshotReturn(pod, answer, _, _) =>
      && pod in w.frames && w.frames[pod].op.id == id
      && (answer.Raised? || (answer.Returned? && !answer.value.ready))
    case _ => false
  }

  ghost predicate Spares(commits: seq<Commit>, id: nat) {
    forall k :: 0 <= k < |commits| && commits[k].Update? ==> commits[k].op.id != id
  }

  lemma {:induction false} SparedRow(j: Journal, commits: seq<Commit>, id: nat)
    requires Spares(commits, id) && id < |j.rows|
    ensures id < |ApplyAll(j, commits).rows| && ApplyAll(j, commits).rows[id] == j.rows[id]
  {
    hide Apply;
    if commits != [] {
      var n := |commits| - 1;
      SparedRow(j, commits[..n], id);
      LastTouches(ApplyAll(j, commits[..n]), commits[n]);
    }
  }

  lemma RequestSpares(w: World, a: Arguments, id: nat)
    requires CanStep(w, Request(a)) && id < |w.journal.rows|
    ensures Spares(Commits(w, Request(a)), id)
  {
    hide RequestSegment;
    EnteredOps(w.journal, w.memory, w.env, a);
  }

  /** A record no guard lets change any more and no observation is taken of. */
  predicate Inert(op: Operation) {
    op.state in {Cancelled, Rejected, Failed, OwnershipConflict}
  }

  lemma StartSpares(w: World, s: Step, id: nat)
    requires Inv(w) && CanStep(w, s) && s.ExecStart? && id < |w.journal.rows| && Inert(w.journal.rows[id])
    ensures Spares(Commits(w, s), id)
  {
    hide FramesOk, CallsOk, NotYetCalled, LatchOk, EvidenceTable, Keyed;
    if s.id < |w.journal.rows| {
      assert GoodRow(w.journal, s.id);
    }
  }

  lemma PlanSpares(w: World, s: Step, id: nat)
    requires Inv(w) && CanStep(w, s) && s.PlanReturn? && id < |w.journal.rows| && !RejectsCopy(w, s, id)
    ensures Spares(Commits(w, s), id)
  {
    hide Inv;
  }

  lemma SnapshotSpares(w: World, s: Step, id: nat)
    requires Inv(w) && CanStep(w, s) && s.SnapshotReturn?
    requires id < |w.journal.rows| && Inert(w.journal.rows[id]) && !RejectsCopy(w, s, id)
    ensures Spares(Commits(w, s), id)
  {
    hide Inv, EvidenceTable, RejectSegment, ValidatedSegment, Validating;
    var op := w.frames[s.pod].op;
    FrameKnown(w, s.pod);
    if op.id != id {
      hide SnapshotSegment;
      SnapshotWrites(w, s);
    }
  }

  lemma SnapshotWrites(w: World, s: Step)
    requires Inv(w) && CanStep(w, s) && s.SnapshotReturn?
    ensures Local(ProgressOf(w, s), w.memory, w.frames[s.pod].op)
  {
    hide Inv, SnapshotSegment, EvidenceTable, Local;
    var op := w.frames[s.pod].op;
    FrameKnown(w, s.pod);
    assert Validating(w.journal.rows, op);
    var attempt := SnapshotShape(w.journal, w.memory, w.env, op, s.answer, s.attemptId, s.transactionId);
  }

  lemma ReplySpares(w: World, s: Step, id: nat)
    requires Inv(w) && CanStep(w, s) && s.SubmitReturn? && id < |w.journal.rows| && Inert(w.journal.rows[id])
    ensures Spares(Commits(w, s), id)
  {
    hide Inv, EvidenceTable;
    FrameKnown(w, s.pod);
  }

  lemma ReconcileSpares(w: World, s: Step, id: nat)
    requires Inv(w) && CanStep(w, s) && s.Reconcile? && id < |w.journal.rows| && Inert(w.journal.rows[id])
    ensures Spares(Commits(w, s), id)
  {
    hide FramesOk, CallsOk, NotYetCalled, LatchOk, EvidenceTable, Judge, MarkDeadline, Expired, SignatureOf, Keyed,
      Evolves, Intent.Target;
    var last := LastLanded(w.journal.rows, s.pod);
    if last >= 0 && w.journal.rows[last].state in WATCHED {
      var op := w.journal.rows[last];
      assert GoodRow(w.journal, last);
      JudgeKeeps(op, s.snap, Expired(w.memory, op, w.env.now), op.intent.Target(w.env.vault));
      KeepsIdentity(op, Judge(op, s.snap, Expired(w.memory, op, w.env.now), op.intent.Target(w.env.vault)).op);
    }
  }

  lemma CancelSpares(w: World, s: Step, id: nat)
    requires Inv(w) && CanStep(w, s) && s.Cancel? && id < |w.journal.rows| && Inert(w.journal.rows[id])
    ensures Spares(Commits(w, s), id)
  {
    hide FramesOk, CallsOk, NotYetCalled, LatchOk, EvidenceTable, Keyed;
    if s.id < |w.journal.rows| {
      assert GoodRow(w.journal, s.id);
    }
  }

  lemma {:induction false} RecoverSpares(rows: seq<Operation>, id: nat)
    requires forall i :: 0 <= i < |rows| ==> rows[i].id == i
    requires id < |rows| ==> Inert(rows[id])
    ensures Spares(RecoverCommits(rows), id)
  {
    if rows != [] {
      RecoverSpares(rows[..|rows| - 1], id);
    }
  }

  lemma RestartSpares(w: World, s: Step, id: nat)
    requires Inv(w) && CanStep(w, s) && s.Restart? && id < |w.journal.rows| && Inert(w.journal.rows[id])
    ensures Spares(Commits(w, s), id)
  {
    hide FramesOk, CallsOk, NotYetCalled, LatchOk, EvidenceTable, Keyed;
    var rows := w.journal.rows;
    forall i | 0 <= i < |rows|
      ensures rows[i].id == i
    {
      assert GoodRow(w.journal, i);
    }
    RecoverSpares(rows, id);
  }

  lemma StepSpares(w: World, s: Step, id: nat)
    requires Inv(w) && CanStep(w, s) && id < |w.journal.rows| && Inert(w.journal.rows[id])
    requires !RejectsCopy(w, s, id)
    ensures Spares(Commits(w, s), id)
  {
    match s
    case Request(a) => RequestSpares(w, a, id);
    case ExecStart(_) => StartSpares(w, s, id);
    case PlanReturn(_, _) => PlanSpares(w, s, id);
    case SnapshotReturn(_, _, _, _) => SnapshotSpares(w, s, id);
    case SubmitReturn(_) => ReplySpares(w, s, id);
    case Reconcile(_, _) => ReconcileSpares(w, s, id);
    case Cancel(_) => CancelSpares(w, s, id);
    case Restart(_) => RestartSpares(w, s, id);
    case _ =>
  }

  lemma CopyRejected(w: World, s: Step, id: nat)
    requires Inv(w) && CanStep(w, s) && RejectsCopy(w, s, id)
    ensures exists op: Operation, code: Reason ::
              op.id == id && op.state == Requested && Commits(w, s) == [Update(Refused(op, code))]
  {
    hide Inv, EvidenceTable;
    FrameKnown(w, s.pod);
    var op := w.frames[s.pod].op;
    var code := if s.PlanReturn? then s.plan.code else if s.answer.Raised? then s.answer.code else NotReady;
    assert Commits(w, s) == [Update(Refused(op, code))];
  }

  /** A stored cancellation is overwritten by a step, with a rejection, if and only if the step ends
      planning or the snapshot of that operation's own execution with an error or a pod that is
      not ready, and its commit is kept. Nothing else touches the record. */
  lemma CancellationOverwrittenExactly(w: World, a: Action, id: nat)
    requires Inv(w) && Possible(w, a) && id < |w.journal.rows| && w.journal.rows[id].state == Cancelled
    ensures id < |Next(w, a).journal.rows|
    ensures var later := Next(w, a).journal.rows[id];
            if RejectsCopy(w, a.step, id) && (a.Do? || a.kept >= 1) then later.state == Rejected
            else later == w.journal.rows[id]
  {
    hide Inv, CanStep, Commits, Rest, RejectsCopy, ApplyAll, Apply;
    var commits := Commits(w, a.step);
    var kept := if a.Do? then |commits| else a.kept;
    assert Kept(w, a) == commits[..kept];
    if RejectsCopy(w, a.step, id) {
      CopyRejected(w, a.step, id);
      var op: Operation, code: Reason :| op.id == id && op.state == Requested && commits == [Update(Refused(op, code))];
      if kept == 1 {
        assert commits[..1] == [Update(Refused(op, code))];
        One(w.journal, Update(Refused(op, code)));
        UpdatedRow(w.journal, Refused(op, code));
      } else {
        Nothing(w.journal);
      }
    } else {
      StepSpares(w, a.step, id);
      SparedPrefix(commits, kept, id);
      SparedRow(w.journal, commits[..kept], id);
    }
  }

  lemma SparedPrefix(commits: seq<Commit>, kept: nat, id: nat)
    requires Spares(commits, id) && kept <= |commits|
    ensures Spares(commits[..kept], id)
  {
  }

  /** The operation's own execution is waiting for its plan or its snapshot. */
  predicate Held(w: World, id: nat)
    requires id < |w.journal.rows|
  {
    var pod := w.journal.rows[id].Pod();
    pod in w.frames && w.frames[pod].op.id == id && (w.frames[pod].Planning? || w.frames[pod].Snapshotting?)
  }

  lemma HeldBeforeStart(w: World, s: Step, id: nat)
    requires Inv(w) && CanStep(w, s) && s.ExecStart? && id < |w.journal.rows| && w.journal.rows[id].state == Cancelled
    ensures var pod, frames := w.journal.rows[id].Pod(), Rest(w, s).frames;
            pod in frames && frames[pod].op.id == id && !frames[pod].Submitting? ==>
              pod in w.frames && w.frames[pod] == frames[pod]
  {
    hide FramesOk, CallsOk, NotYetCalled, LatchOk, EvidenceTable, Keyed;
    if s.id < |w.journal.rows| {
      assert GoodRow(w.journal, s.id);
    }
  }

  lemma HeldBeforePlan(w: World, s: Step)
    requires CanStep(w, s) && s.PlanReturn?
    ensures var frames := Rest(w, s).frames;
            && (forall pod :: pod in frames && pod != s.pod ==> pod in w.frames && w.frames[pod] == frames[pod])
            && (s.pod in frames ==> frames[s.pod] == Snapshotting(w.frames[s.pod].op))
  {
    hide RejectSegment;
    RejectOpensNothing(w.memory, w.frames[s.pod].op);
  }

  lemma HeldBeforeSnapshot(w: World, s: Step)
    requires Inv(w) && CanStep(w, s) && s.SnapshotReturn?
    ensures var frames := Rest(w, s).frames;
            && (forall pod :: pod in frames && pod != s.pod ==> pod in w.frames && w.frames[pod] == frames[pod])
            && (s.pod in frames ==> frames[s.pod].Submitting?)
  {
    hide Inv, SnapshotSegment;
    SnapshotFrame(w, s);
  }

  lemma HeldBeforeReply(w: World, s: Step)
    requires CanStep(w, s) && s.SubmitReturn?
    ensures Rest(w, s).frames == w.frames - {s.pod}
  {
    hide Resolution;
  }

  /** While the cancellation stands, no step puts its operation into the hands of an execution. */
  lemma HeldBefore(w: World, a: Action, id: nat)
    requires Inv(w) && Possible(w, a) && id < |w.journal.rows| && w.journal.rows[id].state == Cancelled
    requires id < |Next(w, a).journal.rows| && Next(w, a).journal.rows[id] == w.journal.rows[id]
    requires Held(Next(w, a), id)
    ensures Held(w, id)
  {
    hide Inv, Commits, ApplyAll, ProgressOf, RequestSegment, ReconcileSegment;
    if a.Do? {
      match a.step
      case ExecStart(_) => HeldBeforeStart(w, a.step, id);
      case PlanReturn(_, _) => HeldBeforePlan(w, a.step);
      case SnapshotReturn(_, _, _, _) => HeldBeforeSnapshot(w, a.step);
      case SubmitReturn(_) => HeldBeforeReply(w, a.step);
      case _ =>
    }
  }

  lemma {:induction false} FreeStaysCancelled(worlds: seq<World>, actions: seq<Action>, id: nat, k: nat)
    requires Path(worlds, actions) && k < |worlds| && Inv(worlds[0])
    requires id < |worlds[0].journal.rows| && worlds[0].journal.rows[id].state == Cancelled && !Held(worlds[0], id)
    ensures Inv(worlds[k]) && StillCancelled(worlds[k], id) && !Held(worlds[k], id)
  {
    hide Inv, Next, Possible, RejectsCopy, Held;
    if k > 0 {
      var w, a := worlds[k - 1], actions[k - 1];
      FreeStaysCancelled(worlds, actions, id, k - 1);
      StepSafe(w, a);
      CancellationOverwrittenExactly(w, a, id);
      if RejectsCopy(w, a.step, id) {
        RejectsHeld(w, a, id);
      }
      if Held(worlds[k], id) {
        HeldBefore(w, a, id);
      }
    }
  }

  predicate StillCancelled(w: World, id: nat) {
    id < |w.journal.rows| && w.journal.rows[id].state == Cancelled
  }

  lemma RejectsHeld(w: World, a: Action, id: nat)
    requires Inv(w) && Possible(w, a) && RejectsCopy(w, a.step, id) && id < |w.journal.rows|
    ensures Held(w, id)
  {
    hide Inv, EvidenceTable;
    FrameKnown(w, a.step.pod);
  }

  lemma HeldIsOverwritten(w: World, id: nat) returns (a: Action)
    requires Inv(w) && id < |w.journal.rows| && w.journal.rows[id].state == Cancelled && Held(w, id)
    ensures Possible(w, a) && !StillCancelled(Next(w, a), id)
  {
    hide GoodJournal, FramesOk, CallsOk, NotYetCalled, LatchOk, Next, ProgressOf;
    var pod := w.journal.rows[id].Pod();
    a := if w.frames[pod].Planning? then Do(PlanReturn(pod, Raised(NotReady)))
         else Do(SnapshotReturn(pod, Raised(NotReady), 0, 0));
    CancellationOverwrittenExactly(w, a, id);
  }

  /** A stored cancellation stands in every continuation of a run if and only if no execution of the
      operation is waiting for its plan or its snapshot. */
  lemma CancellationFinalExactly(worlds: seq<World>, actions: seq<Action>, k: nat, id: nat)
    requires IsRun(worlds, actions) && k < |worlds| && StillCancelled(worlds[k], id)
    ensures !Held(worlds[k], id)
        <==> forall more: seq<World>, steps: seq<Action> ::
               Path(more, steps) && more[0] == worlds[k] ==> StillCancelled(more[|steps|], id)
  {
    hide Inv, Next, Possible, Held;
    RunSafe(worlds, actions, k);
    if Held(worlds[k], id) {
      var a := HeldIsOverwritten(worlds[k], id);
      assert Path([worlds[k], Next(worlds[k], a)], [a]);
    } else {
      forall more: seq<World>, steps: seq<Action> | Path(more, steps) && more[0] == worlds[k]
        ensures StillCancelled(more[|steps|], id)
      {
        FreeStaysCancelled(more, steps, id, |steps|);
      }
    }
  }

  /** So whether a cancellation will last is decided when it is made: exactly when no execution of the
      operation is then waiting for its plan or its snapshot. */
  lemma CancelLastsExactly(worlds: seq<World>, actions: seq<Action>, k: nat, id: nat)
    requires IsRun(worlds, actions) && k < |actions| && actions[k] == Do(Cancel(id))
    requires id < |worlds[k].journal.rows| && MayMove(worlds[k].journal.rows[id], Cancelled, NO_EVIDENCE)
    ensures StillCancelled(worlds[k + 1], id)
    ensures !Held(worlds[k], id)
        <==> forall more: seq<World>, steps: seq<Action> ::
               Path(more, steps) && more[0] == worlds[k + 1] ==> StillCancelled(more[|steps|], id)
  {
    hide Inv, Next, CanStep, Held, MayMove;
    RunSafe(worlds, actions, k);
    CancelStored(worlds[k], id);
    CancellationFinalExactly(worlds, actions, k + 1, id);
  }

  lemma CancelStored(w: World, id: nat)
    requires Inv(w) && CanStep(w, Cancel(id)) && id < |w.journal.rows| && MayMove(w.journal.rows[id], Cancelled, NO_EVIDENCE)
    ensures var later := Next(w, Do(Cancel(id)));
            StillCancelled(later, id) && (Held(later, id) <==> Held(w, id))
  {
    hide FramesOk, CallsOk, NotYetCalled, LatchOk, EvidenceTable, Keyed, Apply, ApplyAll, MayMove;
    assert GoodRow(w.journal, id);
    var cancelled := w.journal.rows[id].(state := Cancelled);
    One(w.journal, Update(cancelled));
    UpdatedRow(w.journal, cancelled);
  }

  // -- Which commit leaves the transition table -------------------------------------------

  /** A rejection is written only to a REQUESTED record, or from an execution's copy. */
  ghost predicate RejectsRequested(w: World, s: Step, commits: seq<Commit>) {
    forall n :: 0 <= n < |commits| && commits[n].Update? && commits[n].op.state == Rejected ==>
      && commits[n].op.id < |ApplyAll(w.journal, commits[..n]).rows|
      && (ApplyAll(w.journal, commits[..n]).rows[commits[n].op.id].state == Requested || RejectsCopy(w, s, commits[n].op.id))
  }

  ghost predicate NeverRejects(commits: seq<Commit>) {
    forall n :: 0 <= n < |commits| && commits[n].Update? ==> commits[n].op.state != Rejected
  }

  lemma RequestRejects(w: World, s: Step)
    requires CanStep(w, s) && s.Request?
    ensures RejectsRequested(w, s, Commits(w, s))
  {
    hide Admission, PodActive, FindKey, ApplyAll, Apply;
    var commits := Commits(w, s);
    if |commits| == 2 {
      assert commits[..1] == [commits[0]];
      One(w.journal, commits[0]);
      InsertedRow(w.journal, commits[0].op);
    }
  }

  lemma StartRejects(w: World, s: Step)
    requires Inv(w) && CanStep(w, s) && s.ExecStart?
    ensures RejectsRequested(w, s, Commits(w, s))
  {
    hide FramesOk, CallsOk, NotYetCalled, LatchOk, EvidenceTable, Keyed, ApplyAll;
    if s.id < |w.journal.rows| {
      assert GoodRow(w.journal, s.id);
      assert Commits(w, s)[..0] == [];
      Nothing(w.journal);
    }
  }

  lemma ReconcileNeverRejects(w: World, s: Step)
    requires Inv(w) && CanStep(w, s) && s.Reconcile?
    ensures NeverRejects(Commits(w, s))
  {
    hide FramesOk, CallsOk, NotYetCalled, LatchOk, EvidenceTable, Judge, MarkDeadline, Expired, SignatureOf, Keyed,
      Evolves, Intent.Target;
    var last := LastLanded(w.journal.rows, s.pod);
    if last >= 0 && w.journal.rows[last].state in WATCHED {
      var op := w.journal.rows[last];
      assert GoodRow(w.journal, last);
      JudgeKeeps(op, s.snap, Expired(w.memory, op, w.env.now), op.intent.Target(w.env.vault));
    }
  }

  lemma {:induction false} RecoverNeverRejects(rows: seq<Operation>)
    ensures NeverRejects(RecoverCommits(rows))
  {
    if rows != [] {
      RecoverNeverRejects(rows[..|rows| - 1]);
    }
  }

  lemma SnapshotCopyOrNever(w: World, s: Step)
    requires Inv(w) && CanStep(w, s) && s.SnapshotReturn?
    ensures NeverRejects(Commits(w, s)) || RejectsCopy(w, s, w.frames[s.pod].op.id)
  {
    hide Inv, EvidenceTable, RejectSegment, ValidatedSegment;
    var op := w.frames[s.pod].op;
    FrameKnown(w, s.pod);
    if s.answer.Returned? {
      ValidatedNeverRejects(w.memory, w.env, op.(state := Validated), s.answer.value, s.attemptId, s.transactionId);
    }
  }

  lemma ValidatedNeverRejects(
    m: Memory, env: Environment, op: Operation, snap: Snapshot, attemptId: nat, transactionId: nat)
    requires op.state == Validated
    ensures NeverRejects(ValidatedSegment(m, env, op, snap, attemptId, transactionId).commits)
  {
    hide Matches, Intent.Target, MayMove;
  }

  lemma CopyOrNever(w: World, s: Step)
    requires Inv(w) && CanStep(w, s) && (s.PlanReturn? || s.SnapshotReturn? || s.SubmitReturn?)
    ensures NeverRejects(Commits(w, s)) || RejectsCopy(w, s, w.frames[s.pod].op.id)
  {
    hide Inv, EvidenceTable, RejectSegment, SnapshotSegment;
    FrameKnown(w, s.pod);
    if s.SnapshotReturn? {
      SnapshotCopyOrNever(w, s);
    }
  }

  lemma StepRejects(w: World, s: Step)
    requires Inv(w) && CanStep(w, s)
    ensures RejectsRequested(w, s, Commits(w, s))
  {
    hide Inv, ApplyAll, Commits;
    match s
    case Request(_) => RequestRejects(w, s);
    case ExecStart(_) => StartRejects(w, s);
    case Reconcile(_, _) => ReconcileNeverRejects(w, s);
    case Restart(_) => RestartNeverRejects(w, s);
    case Cancel(_) => CancelNeverRejects(w, s);
    case PlanReturn(_, _) => CopyRejects(w, s);
    case SnapshotReturn(_, _, _, _) => CopyRejects(w, s);
    case SubmitReturn(_) => CopyRejects(w, s);
    case _ => QuietNeverRejects(w, s);
  }

  lemma RestartNeverRejects(w: World, s: Step)
    requires CanStep(w, s) && s.Restart?
    ensures NeverRejects(Commits(w, s))
  {
    RecoverNeverRejects(w.journal.rows);
  }

  lemma CancelNeverRejects(w: World, s: Step)
    requires CanStep(w, s) && s.Cancel?
    ensures NeverRejects(Commits(w, s))
  {
  }

  lemma QuietNeverRejects(w: World, s: Step)
    requires CanStep(w, s)
    requires s.SubmitCall? || s.Abandon? || s.Quiesce? || s.Tick? || s.ChangeVault?
    ensures NeverRejects(Commits(w, s))
  {
  }

  lemma CopyRejects(w: World, s: Step)
    requires Inv(w) && CanStep(w, s) && (s.PlanReturn? || s.SnapshotReturn? || s.SubmitReturn?)
    ensures RejectsRequested(w, s, Commits(w, s))
  {
    hide Inv, ApplyAll, Commits, RejectsCopy;
    CopyOrNever(w, s);
    if RejectsCopy(w, s, w.frames[s.pod].op.id) {
      CopyRejected(w, s, w.frames[s.pod].op.id);
      var op: Operation, code: Reason :|
        op.id == w.frames[s.pod].op.id && op.state == Requested && Commits(w, s) == [Update(Refused(op, code))];
      CopyInRange(w, s);
    }
  }

  lemma CopyInRange(w: World, s: Step)
    requires Inv(w) && CanStep(w, s) && (s.PlanReturn? || s.SnapshotReturn? || s.SubmitReturn?)
    ensures w.frames[s.pod].op.id < |ApplyAll(w.journal, Commits(w, s)[..0]).rows|
  {
    hide Inv, FrameOk;
    FrameKnown(w, s.pod);
    Nothing(w.journal);
    assert Commits(w, s)[..0] == [];
  }

  ghost predicate OffTable(from: State, to: State) {
    from != to && to !in Edges(from)
  }

  /** Every commit of every step of a run follows the transition table, except, exactly, the rejection
      stored by `RejectsCopy` over a record that is CANCELLED. */
  lemma OffTableExactly(worlds: seq<World>, actions: seq<Action>, i: nat, n: nat)
    requires IsRun(worlds, actions) && i < |actions|
    requires Possible(worlds[i], actions[i]) && n < |Kept(worlds[i], actions[i])| && Kept(worlds[i], actions[i])[n].Update?
    ensures var c := Kept(worlds[i], actions[i])[n];
            var before := ApplyAll(worlds[i].journal, Kept(worlds[i], actions[i])[..n]);
            && c.op.id < |before.rows|
            && (OffTable(before.rows[c.op.id].state, c.op.state)
                <==> before.rows[c.op.id].state == Cancelled && RejectsCopy(worlds[i], actions[i].step, c.op.id))
  {
    hide Inv, Next, CanStep, Commits, ApplyAll, RejectsCopy;
    var w, s := worlds[i], actions[i].step;
    RunSafe(worlds, actions, i);
    var commits := Commits(w, s);
    CommitsLawful(w, s);
    LawfulPrefix(w.journal, commits, n + 1);
    assert commits[..n + 1][..n] == commits[..n];
    assert Kept(w, actions[i])[..n] == commits[..n] && Kept(w, actions[i])[n] == commits[n];
    StepRejects(w, s);
    if RejectsCopy(w, s, commits[n].op.id) {
      CopyRejected(w, s, commits[n].op.id);
    }
    LawfulEdge(ApplyAll(w.journal, commits[..n]), commits[n].op);
  }

  lemma LawfulEdge(j: Journal, op: Operation)
    requires Lawful(j, Update(op))
    ensures op.id < |j.rows| && PersistedEdge(j.rows[op.id].state, op.state)
  {
    hide EvidenceTable;
  }
}
