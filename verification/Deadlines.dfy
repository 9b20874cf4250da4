/** Deadlines are truthful over whole runs, restarts included, when both clocks advance together. */
module Deadlines {
  import opened Basics
  import opened Lifecycle
  import opened Journal
  import opened Protocol
  import opened Records
  import opened Runs
  import opened Safety
  import opened Theorems

  predicate Lockstep(a: Action) {
    a.Do? && a.step.Tick? ==> a.step.mono == a.step.wall
  }

  ghost predicate Truthful(deadlines: map<nat, real>, now: Instant, rows: seq<Operation>) {
    forall id :: id in deadlines ==>
      && id < |rows|
      && (|| deadlines[id] - now.mono == rows[id].deadlineAt - now.wall
          || (deadlines[id] <= now.mono && rows[id].deadlineAt <= now.wall))
  }

  ghost predicate MarksAreDue(rows: seq<Operation>, wall: real) {
    forall i :: 0 <= i < |rows| && rows[i].deadlineElapsed ==> rows[i].deadlineAt <= wall
  }

  ghost predicate DeadlineInv(w: World) {
    && Truthful(w.memory.deadlines, w.env.now, w.journal.rows)
    && MarksAreDue(w.journal.rows, w.env.now.wall)
    && (!w.up ==> w.memory.deadlines == map[])
  }

  /** The process's own deadline has passed exactly when the persisted one has. */
  lemma ExpiredIsDue(m: Memory, op: Operation, now: Instant, rows: seq<Operation>)
    requires Truthful(m.deadlines, now, rows) && op.id < |rows| && rows[op.id] == op
    ensures Expired(m, op, now) <==> now.wall >= op.deadlineAt
    ensures Truthful(m.deadlines[op.id := DeadlineOf(m, op, now)], now, rows)
  {
  }

  lemma DeadlinesSurviveUpdates(j: Journal, later: Journal, deadlines: map<nat, real>, now: Instant)
    requires Truthful(deadlines, now, j.rows) && Extends(j, later)
    ensures Truthful(deadlines, now, later.rows)
  {
    forall id | id in deadlines
      ensures id < |later.rows| && later.rows[id].deadlineAt == j.rows[id].deadlineAt
    {
      assert Accumulates(j.rows[id], later.rows[id]);
    }
  }

  /** A commit marks a deadline only on a record whose deadline is due. */
  ghost predicate DueOnly(rows: seq<Operation>, commits: seq<Commit>, wall: real) {
    forall k :: 0 <= k < |commits| ==>
      && (commits[k].Insert? ==> !commits[k].op.deadlineElapsed)
      && (commits[k].Update? && commits[k].op.deadlineElapsed ==>
            commits[k].op.deadlineAt <= wall
            || (commits[k].op.id < |rows| && rows[commits[k].op.id].deadlineElapsed
                && rows[commits[k].op.id].deadlineAt == commits[k].op.deadlineAt))
  }

  lemma {:induction false} MarksStayDue(j: Journal, commits: seq<Commit>, wall: real)
    requires MarksAreDue(j.rows, wall) && DueOnly(j.rows, commits, wall)
    ensures MarksAreDue(ApplyAll(j, commits).rows, wall)
  {
    if commits != [] {
      var n := |commits| - 1;
      assert DueOnly(j.rows, commits[..n], wall);
      MarksStayDue(j, commits[..n], wall);
      var before := ApplyAll(j, commits[..n]);
      MarkStep(before, commits[n], j.rows, wall);
      assert ApplyAll(j, commits) == Apply(before, commits[n]);
    }
  }

  lemma MarkStep(j: Journal, c: Commit, rows: seq<Operation>, wall: real)
    requires MarksAreDue(j.rows, wall) && MarksAreDue(rows, wall) && DueOnly(rows, [c], wall)
    ensures MarksAreDue(Apply(j, c).rows, wall)
  {
    assert [c][0] == c;
  }

  lemma CommitsDue(w: World, s: Step)
    requires Inv(w) && DeadlineInv(w) && CanStep(w, s)
    ensures DueOnly(w.journal.rows, Commits(w, s), w.env.now.wall)
  {
    hide GoodJournal, EvidenceTable, CallsOk, NotYetCalled, LatchOk, Judge, MarkDeadline, Matches, SignatureOf, Recovered,
      SnapshotSegment, ReplySegment, ReconcileSegment, Admission, Resolution, RejectSegment, Expired;
    var rows := w.journal.rows;
    match s
    case SnapshotReturn(pod, answer, attemptId, transactionId) =>
      assert FrameOk(rows, pod, w.frames[pod]);
      SnapshotUnmarked(w.journal, w.memory, w.env, w.frames[pod].op, answer, attemptId, transactionId);
    case PlanReturn(pod, plan) =>
      assert FrameOk(rows, pod, w.frames[pod]);
      if plan.Raised? { RejectUnmarked(w.memory, w.frames[pod].op, plan.code); }
    case SubmitReturn(pod) =>
      assert FrameOk(rows, pod, w.frames[pod]);
      ReplyUnmarked(w.memory, w.frames[pod].op, w.frames[pod].reply);
    case Reconcile(pod, snap) => ReconcileDue(w, pod, snap);
    case Restart(_) => RecoverUnmarked(w.journal);
    case ExecStart(id) => if id < |rows| { assert GoodRow(w.journal, id) by { GoodAt(w.journal, id); } }
    case Cancel(id) => if id < |rows| { assert GoodRow(w.journal, id) by { GoodAt(w.journal, id); } }
    case _ =>
  }

  lemma GoodAt(j: Journal, id: nat)
    requires GoodJournal(j) && id < |j.rows|
    ensures GoodRow(j, id)
  {
  }

  ghost predicate Unmarked(commits: seq<Commit>) {
    forall k :: 0 <= k < |commits| ==> (commits[k].Update? ==> !commits[k].op.deadlineElapsed) && !commits[k].Insert?
  }

  lemma RejectUnmarked(m: Memory, op: Operation, code: Reason)
    requires EvidenceTable(op) && op.state == Requested
    ensures Unmarked(RejectSegment(m, op, code).commits)
  {
  }

  lemma SnapshotUnmarked(
    j: Journal, m: Memory, env: Environment, op: Operation, answer: Awaited<Snapshot>, attemptId: nat, transactionId: nat)
    requires op.id < |j.rows| && EvidenceTable(op) && op.state == Requested
    ensures Unmarked(SnapshotSegment(j, m, env, op, answer, attemptId, transactionId).commits)
  {
    assert !op.deadlineElapsed;
    hide EvidenceTable, Matches, RejectSegment;
    match answer
    case Raised(code) => assert Unmarked(RejectSegment(m, op, code).commits) by { RejectUnmarked(m, op, code); }
    case Broken =>
    case Returned(_) => assert Unmarked(RejectSegment(m, op, NotReady).commits) by { RejectUnmarked(m, op, NotReady); }
  }

  lemma ReplyUnmarked(m: Memory, op: Operation, reply: Awaited<SubmitResult>)
    requires EvidenceTable(op) && op.state == Submitted
    ensures Unmarked(ReplySegment(m, op, reply).commits)
  {
  }

  lemma RecoverUnmarked(j: Journal)
    requires GoodJournal(j)
    ensures Unmarked(RecoverCommits(j.rows))
  {
    forall i | 0 <= i < |j.rows|
      ensures EvidenceTable(j.rows[i])
    {
      assert GoodRow(j, i);
    }
    RowsRecoverUnmarked(j.rows);
  }

  lemma {:induction false} RowsRecoverUnmarked(rows: seq<Operation>)
    requires forall i :: 0 <= i < |rows| ==> EvidenceTable(rows[i])
    ensures Unmarked(RecoverCommits(rows))
  {
    if rows != [] {
      RowsRecoverUnmarked(rows[..|rows| - 1]);
      RecoveredUnmarked(rows[|rows| - 1]);
    }
  }

  lemma RecoveredUnmarked(op: Operation)
    requires EvidenceTable(op)
    ensures Recovered(op).Some? ==> !Recovered(op).value.deadlineElapsed
  {
  }

  lemma CompareKeepsDeadline(v: Verdict, snap: Snapshot, target: Values)
    ensures var c := Compare(v, snap, target).op;
            c.deadlineElapsed == v.op.deadlineElapsed && c.id == v.op.id && c.deadlineAt == v.op.deadlineAt
  {
    hide Matches, SignatureOf;
  }

  lemma MarkedWhenExpired(op: Operation, snap: Snapshot, expired: bool, target: Result<Values>)
    ensures var v := Judge(op, snap, expired, target);
            (v.op.deadlineElapsed ==> op.deadlineElapsed || expired) && v.op.id == op.id && v.op.deadlineAt == op.deadlineAt
  {
    hide Compare;
    if target.Ok? {
      CompareKeepsDeadline(MarkDeadline(op, expired), snap, target.value);
    }
  }

  lemma ReconcileDue(w: World, pod: string, snap: Snapshot)
    requires Inv(w) && DeadlineInv(w)
    ensures DueOnly(w.journal.rows, ReconcileSegment(w.journal, w.memory, w.env, pod, snap).commits, w.env.now.wall)
  {
    hide EvidenceTable, FramesOk, CallsOk, NotYetCalled, LatchOk, Judge, MarkDeadline, Expired, Keyed, SignatureOf;
    var rows := w.journal.rows;
    var last := LastLanded(rows, pod);
    if last >= 0 && rows[last].state in WATCHED {
      assert GoodRow(w.journal, last);
      var op := rows[last];
      MarkedWhenExpired(op, snap, Expired(w.memory, op, w.env.now), op.intent.Target(w.env.vault));
      ExpiredIsDue(w.memory, op, w.env.now, rows);
    }
  }

  lemma DeadlineStep(w: World, a: Action)
    requires Inv(w) && DeadlineInv(w) && Possible(w, a) && Lockstep(a)
    ensures DeadlineInv(Next(w, a))
  {
    hide Inv, Extends, MarksAreDue, DueOnly, Commits, ApplyAll, Truthful;
    var later := Next(w, a);
    StepSafe(w, a);
    CommitsDue(w, a.step);
    PrefixDue(w.journal.rows, Commits(w, a.step), w.env.now.wall, if a.Do? then |Commits(w, a.step)| else a.kept);
    assert Commits(w, a.step)[..|Commits(w, a.step)|] == Commits(w, a.step);
    MarksStayDue(w.journal, Kept(w, a), w.env.now.wall);
    MarksStayDueLater(later.journal.rows, w.env.now.wall, later.env.now.wall);
    DeadlinesSurviveUpdates(w.journal, later.journal, w.memory.deadlines, w.env.now);
    if a.Do? {
      DeadlinesKept(w, a.step);
    } else {
      NoDeadlines(later.env.now, later.journal.rows);
    }
  }

  lemma NoDeadlines(now: Instant, rows: seq<Operation>)
    ensures Truthful(map[], now, rows)
  {
  }

  lemma PrefixDue(rows: seq<Operation>, commits: seq<Commit>, wall: real, kept: nat)
    requires DueOnly(rows, commits, wall) && kept <= |commits|
    ensures DueOnly(rows, commits[..kept], wall)
  {
  }

  lemma MarksStayDueLater(rows: seq<Operation>, wall: real, later: real)
    requires MarksAreDue(rows, wall) && wall <= later
    ensures MarksAreDue(rows, later)
  {
  }

  lemma DeadlinesKept(w: World, s: Step)
    requires Inv(w) && DeadlineInv(w) && CanStep(w, s) && Lockstep(Do(s))
    ensures var later := Next(w, Do(s));
            Truthful(later.memory.deadlines, later.env.now, later.journal.rows)
            && (!later.up ==> later.memory.deadlines == map[])
  {
    hide GoodJournal, EvidenceTable, FramesOk, CallsOk, NotYetCalled, LatchOk, Extends, MarksAreDue, ApplyAll,
      RequestSegment, ReconcileSegment, SnapshotSegment, ReplySegment, PlanSegment;
    var later := Next(w, Do(s));
    DoKeepsInv(w, s);
    DeadlinesSurviveUpdates(w.journal, later.journal, w.memory.deadlines, w.env.now);
    match s
    case Request(a) => RequestDeadline(w, a);
    case Reconcile(pod, snap) => ReconcileDeadline(w, pod, snap);
    case PlanReturn(pod, plan) => PlanDeadlines(w.memory, w.frames[pod].op, plan);
    case SnapshotReturn(pod, answer, attemptId, transactionId) =>
      SnapshotDeadlines(w.journal, w.memory, w.env, w.frames[pod].op, answer, attemptId, transactionId);
    case SubmitReturn(pod) => ReplyDeadlines(w.memory, w.frames[pod].op, w.frames[pod].reply);
    case _ =>
  }

  lemma PlanDeadlines(m: Memory, op: Operation, plan: Awaited<bool>)
    ensures PlanSegment(m, op, plan).memory.deadlines == m.deadlines
  {
  }

  lemma SnapshotDeadlines(
    j: Journal, m: Memory, env: Environment, op: Operation, answer: Awaited<Snapshot>, attemptId: nat, transactionId: nat)
    requires op.id < |j.rows|
    ensures SnapshotSegment(j, m, env, op, answer, attemptId, transactionId).memory.deadlines == m.deadlines
  {
    hide MayMove, Matches;
  }

  lemma ReplyDeadlines(m: Memory, op: Operation, reply: Awaited<SubmitResult>)
    ensures ReplySegment(m, op, reply).memory.deadlines == m.deadlines
  {
    hide Resolution;
  }

  lemma RequestDeadline(w: World, a: Arguments)
    requires Truthful(w.memory.deadlines, w.env.now, w.journal.rows)
    ensures var segment := RequestSegment(w.journal, w.memory, w.env, a);
            Truthful(segment.memory.deadlines, w.env.now, ApplyAll(w.journal, segment.commits).rows)
  {
    hide RequestSegment, Apply, ApplyAll, Truthful;
    var j := w.journal;
    var segment := RequestSegment(j, w.memory, w.env, a);
    Nothing(j);
    RequestShape(j, w.memory, w.env, a);
    if segment.commits != [] {
      var op := segment.commits[0].op;
      InsertedRow(j, op);
      One(j, segment.commits[0]);
      if |segment.commits| == 2 {
        Two(j, segment.commits[0], segment.commits[1]);
        UpdatedRow(Apply(j, segment.commits[0]), segment.commits[1].op);
      }
      NewDeadline(w.memory.deadlines, w.env.now, j.rows, ApplyAll(j, segment.commits).rows, a.deadline);
    }
  }

  lemma RequestShape(j: Journal, m: Memory, env: Environment, a: Arguments)
    ensures var segment := RequestSegment(j, m, env, a);
            if segment.commits == [] then segment.memory == m
            else
              && segment.commits[0].Insert?
              && var op := segment.commits[0].op;
                 && op.id == |j.rows| && op.deadlineAt == env.now.wall + a.deadline
                 && segment.memory.deadlines == m.deadlines[|j.rows| := env.now.mono + a.deadline]
                 && (segment.commits == [Insert(op)]
                     || (|segment.commits| == 2 && segment.commits[1].Update?
                         && segment.commits == [Insert(op), Update(segment.commits[1].op)]
                         && segment.commits[1].op.id == op.id && segment.commits[1].op.deadlineAt == op.deadlineAt))
  {
    hide Admission, PodActive, FindKey;
  }

  lemma NewDeadline(deadlines: map<nat, real>, now: Instant, rows: seq<Operation>, later: seq<Operation>, budget: real)
    requires Truthful(deadlines, now, rows)
    requires |later| == |rows| + 1 && later[..|rows|] == rows && later[|rows|].deadlineAt == now.wall + budget
    ensures Truthful(deadlines[|rows| := now.mono + budget], now, later)
  {
    assert forall i :: 0 <= i < |rows| ==> later[i] == rows[i];
  }

  lemma ReconcileDeadline(w: World, pod: string, snap: Snapshot)
    requires Inv(w) && Truthful(w.memory.deadlines, w.env.now, w.journal.rows)
    ensures var segment := ReconcileSegment(w.journal, w.memory, w.env, pod, snap);
            Truthful(segment.memory.deadlines, w.env.now, ApplyAll(w.journal, segment.commits).rows)
  {
    hide EvidenceTable, FramesOk, CallsOk, NotYetCalled, LatchOk, Judge, MarkDeadline, Expired, Keyed, SignatureOf,
      LawfulAll, ApplyAll, Extends, DeadlineOf;
    var last := LastLanded(w.journal.rows, pod);
    var segment := ReconcileSegment(w.journal, w.memory, w.env, pod, snap);
    ReconcileLawful(w.journal, w.memory, w.env, pod, snap);
    LawfulAllKeeps(w.journal, segment.commits);
    if last >= 0 && w.journal.rows[last].state in WATCHED {
      assert GoodRow(w.journal, last);
      ExpiredIsDue(w.memory, w.journal.rows[last], w.env.now, w.journal.rows);
    }
    DeadlinesSurviveUpdates(
      w.journal, ApplyAll(w.journal, segment.commits), segment.memory.deadlines, w.env.now);
  }

  /** In every run whose clocks advance together, the engine judges an operation expired
      exactly when its persisted deadline has passed: a restart never extends a deadline, and
      no deadline is ever marked elapsed early. */
  lemma {:induction false} DeadlinesTruthful(worlds: seq<World>, actions: seq<Action>, k: nat)
    requires IsRun(worlds, actions) && k < |worlds|
    requires forall n :: 0 <= n < k ==> Lockstep(actions[n])
    ensures DeadlineInv(worlds[k])
    ensures var w := worlds[k];
            forall i :: 0 <= i < |w.journal.rows| ==>
              && (Expired(w.memory, w.journal.rows[i], w.env.now) <==> w.env.now.wall >= w.journal.rows[i].deadlineAt)
              && (w.journal.rows[i].deadlineElapsed ==> w.journal.rows[i].deadlineAt <= w.env.now.wall)
  {
    hide Next, Possible, Lockstep, FramesOk, CallsOk, NotYetCalled, LatchOk, EvidenceTable, Keyed, Expired;
    RunSafe(worlds, actions, k);
    if k > 0 {
      DeadlinesTruthful(worlds, actions, k - 1);
      RunSafe(worlds, actions, k - 1);
      DeadlineStep(worlds[k - 1], actions[k - 1]);
    }
    var w := worlds[k];
    forall i | 0 <= i < |w.journal.rows|
      ensures Expired(w.memory, w.journal.rows[i], w.env.now) <==> w.env.now.wall >= w.journal.rows[i].deadlineAt
    {
      assert GoodRow(w.journal, i);
      ExpiredIsDue(w.memory, w.journal.rows[i], w.env.now, w.journal.rows);
    }
  }
}
