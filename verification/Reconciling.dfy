/** Reconciliation is local and idempotent, and success always rests on a past observation. */
module Reconciling {
  import opened Basics
  import opened Lifecycle
  import opened Journal
  import opened Protocol
  import opened Records
  import opened Runs
  import opened Safety
  import opened Theorems

  // -- One call touches one operation ----------------------------------------------------

  /** One reconciliation alters at most the newest landed operation of its pod: every other
      record, every other pod's ownership and every other run's events stay as they were, and
      so does what the process remembers about any other operation. */
  lemma ReconcileIsLocal(j: Journal, m: Memory, env: Environment, pod: string, snap: Snapshot)
    requires GoodJournal(j)
    ensures var segment := ReconcileSegment(j, m, env, pod, snap);
            var later := ApplyAll(j, segment.commits);
            var last := LastLanded(j.rows, pod);
            && |later.rows| == |j.rows|
            && (forall i :: 0 <= i < |j.rows| && i != last ==> later.rows[i] == j.rows[i])
            && later.conflicts - {pod} == j.conflicts - {pod}
            && segment.memory.busy == m.busy && segment.memory.quiesced == m.quiesced
            && segment.memory.deadlines - {last} == m.deadlines - {last}
            && segment.memory.observations - {last} == m.observations - {last}
            && (last < 0 ==> later == j)
            && (forall run :: last >= 0 && run != j.rows[last].run ==> later.Log(run) == j.Log(run))
  {
    hide EvidenceTable, Keyed, Judge, MarkDeadline, Expired, SignatureOf, Evolves, LawfulAll, ApplyAll, DeadlineOf;
    var last := LastLanded(j.rows, pod);
    Nothing(j);
    if last >= 0 && j.rows[last].state in WATCHED {
      var op := j.rows[last];
      assert GoodRow(j, last);
      var commits := RowCommits(m, env, op, snap);
      JudgeKeeps(op, snap, Expired(m, op, env.now), op.intent.Target(env.vault));
      KeepsIdentity(op, Judge(op, snap, Expired(m, op, env.now), op.intent.Target(env.vault)).op);
      CommitsLocal(j, commits, op.id, pod, op.run);
    }
  }

  lemma RowCommits(m: Memory, env: Environment, op: Operation, snap: Snapshot) returns (commits: seq<Commit>)
    ensures commits == ReconcileRow(m, env, op, snap).commits
    ensures forall k :: 0 <= k < |commits| ==>
              match commits[k]
              case Insert(_) => false
              case Update(updated) =>
                updated == Judge(op, snap, Expired(m, op, env.now), op.intent.Target(env.vault)).op
              case Conflict(pod, _) => pod == op.Pod()
              case Observe(run, _, _) => run == op.run
  {
    hide Judge, MarkDeadline, Expired, SignatureOf, DeadlineOf;
    commits := ReconcileRow(m, env, op, snap).commits;
  }

  lemma {:induction false} CommitsLocal(j: Journal, commits: seq<Commit>, id: nat, pod: string, run: string)
    requires id < |j.rows|
    requires forall k :: 0 <= k < |commits| ==>
               match commits[k]
               case Insert(_) => false
               case Update(op) => op.id == id && op.run == run
               case Conflict(p, _) => p == pod
               case Observe(r, _, _) => r == run
    ensures var later := ApplyAll(j, commits);
            && |later.rows| == |j.rows|
            && (forall i :: 0 <= i < |j.rows| && i != id ==> later.rows[i] == j.rows[i])
            && later.conflicts - {pod} == j.conflicts - {pod}
            && (forall other :: other != run ==> later.Log(other) == j.Log(other))
  {
    if commits != [] {
      var n := |commits| - 1;
      CommitsLocal(j, commits[..n], id, pod, run);
      var before := ApplyAll(j, commits[..n]);
      assert ApplyAll(j, commits) == Apply(before, commits[n]);
      hide Appended, ApplyAll;
      match commits[n]
      case Insert(_) => assert false;
      case Update(op) =>
      case Conflict(p, record) => assert before.conflicts[p := record] - {pod} == before.conflicts - {pod};
      case Observe(_, _, _) =>
    }
  }

  // -- A second look changes nothing -------------------------------------------------------

  lemma MarkTwice(op: Operation, expired: bool)
    requires EvidenceTable(op) && op.state in WATCHED
    ensures MarkDeadline(MarkDeadline(op, expired).op, expired) == Verdict(MarkDeadline(op, expired).op, false, false, None)
  {
  }

  /** Comparing again finds the same conflict, if any, and nothing new to record. */
  lemma CompareTwice(v: Verdict, snap: Snapshot, target: Values)
    requires EvidenceTable(v.op) && v.op.state in WATCHED && v.raised == None && !v.conflict
    requires Compare(v, snap, target).op.state in WATCHED
    ensures var first := Compare(v, snap, target);
            Compare(Verdict(first.op, false, false, None), snap, target)
              == Verdict(first.op, false, first.conflict, None)
  {
    hide Matches;
  }

  /** Nothing that a comparison writes makes the deadline mark due again. */
  lemma MarkAfterCompare(v: Verdict, snap: Snapshot, expired: bool, target: Values)
    requires EvidenceTable(v.op) && v.op.state in WATCHED && v.raised == None && !v.conflict
    requires MarkDeadline(v.op, expired) == Verdict(v.op, false, false, None)
    ensures var first := Compare(v, snap, target);
            first.op.state in WATCHED ==> MarkDeadline(first.op, expired) == Verdict(first.op, false, false, None)
  {
    hide Matches;
  }

  lemma JudgeTwice(op: Operation, snap: Snapshot, expired: bool, target: Result<Values>)
    requires EvidenceTable(op) && op.state in WATCHED
    ensures var first := Judge(op, snap, expired, target);
            first.op.state in WATCHED ==>
              Judge(first.op, snap, expired, target) == Verdict(first.op, false, first.conflict, None)
  {
    hide EvidenceTable, MarkDeadline, Compare, Evolves;
    var marked := MarkDeadline(op, expired);
    MarkKeeps(op, expired);
    MarkTwice(op, expired);
    match target
    case Err(_) =>
      MarkBlocked(marked.op, expired);
    case Ok(values) =>
      MarkAfterCompare(marked, snap, expired, values);
      if Compare(marked, snap, values).op.state in WATCHED {
        CompareKeeps(marked, snap, values);
        CompareTwice(marked, snap, values);
      }
  }

  lemma MarkBlocked(op: Operation, expired: bool)
    requires MarkDeadline(op, expired) == Verdict(op, false, false, None)
    ensures MarkDeadline(op.(blocked := true), expired) == Verdict(op.(blocked := true), false, false, None)
  {
  }

  /** The commits of looking at one record, spelled out. */
  lemma RowSpelled(m: Memory, env: Environment, op: Operation, snap: Snapshot)
    requires EvidenceTable(op) && op.state in WATCHED
    ensures var target := op.intent.Target(env.vault);
            var v := Judge(op, snap, Expired(m, op, env.now), target);
            var seen := op.id in m.observations && m.observations[op.id] == SignatureOf(snap);
            var timed := m.(deadlines := m.deadlines[op.id := DeadlineOf(m, op, env.now)]);
            ReconcileRow(m, env, op, snap) == Segment(
              Optional(target.Ok? && !seen, Observe(op.run, op.Pod(), op.id))
              + Optional(v.conflict, Conflict(op.Pod(), ConflictRecord(op.id, ConfigurationChanged)))
              + Optional(v.changed, Update(v.op)),
              if target.Err? then timed else timed.(observations := timed.observations[op.id := SignatureOf(snap)]),
              None)
  {
    hide EvidenceTable, Judge, MarkDeadline, Expired, SignatureOf, DeadlineOf, Evolves;
    JudgeKeeps(op, snap, Expired(m, op, env.now), op.intent.Target(env.vault));
    assert [] + Optional(true, Update(op)) == [Update(op)];
  }

  lemma FoldRow(j: Journal, seen: bool, conflict: bool, changed: bool, note: Commit, loss: Commit, save: Commit)
    ensures var j1 := if seen then Apply(j, note) else j;
            var j2 := if conflict then Apply(j1, loss) else j1;
            ApplyAll(j, Optional(seen, note) + Optional(conflict, loss) + Optional(changed, save))
              == if changed then Apply(j2, save) else j2
  {
    hide Apply;
    var j1 := if seen then Apply(j, note) else j;
    var j2 := if conflict then Apply(j1, loss) else j1;
    One(j, note);
    One(j1, loss);
    One(j2, save);
    ApplyAllConcat(j, Optional(seen, note), Optional(conflict, loss));
    ApplyAllConcat(j, Optional(seen, note) + Optional(conflict, loss), Optional(changed, save));
  }

  /** Reconciling again with the same snapshot, secrets and clock changes no operation, no
      event, no ownership record and nothing the process remembers. */
  lemma ReconcileIsIdempotent(j: Journal, m: Memory, env: Environment, pod: string, snap: Snapshot)
    requires GoodJournal(j)
    ensures var first := ReconcileSegment(j, m, env, pod, snap);
            var later := ApplyAll(j, first.commits);
            var second := ReconcileSegment(later, first.memory, env, pod, snap);
            ApplyAll(later, second.commits) == later && second.memory == first.memory && second.outcome == first.outcome
  {
    hide EvidenceTable, Keyed, ReconcileRow, LawfulAll, ApplyAll, Judge, Expired;
    var first := ReconcileSegment(j, m, env, pod, snap);
    var later := ApplyAll(j, first.commits);
    var last := LastLanded(j.rows, pod);
    Nothing(j);
    ReconcileLawful(j, m, env, pod, snap);
    if last >= 0 && j.rows[last].state in WATCHED {
      var op := j.rows[last];
      assert GoodRow(j, last);
      var v := Judge(op, snap, Expired(m, op, env.now), op.intent.Target(env.vault));
      JudgeKeeps(op, snap, Expired(m, op, env.now), op.intent.Target(env.vault));
      KeepsIdentity(op, v.op);
      RowEffect(j, m, env, op, snap);
      SameLastLanded(j.rows, later.rows, pod, last);
      if v.op.state in WATCHED {
        SecondRow(j, m, env, op, snap);
      } else {
        Nothing(later);
      }
    }
  }

  lemma SameLastLanded(rows: seq<Operation>, later: seq<Operation>, pod: string, last: nat)
    requires last < |rows| && LastLanded(rows, pod) == last
    requires |later| == |rows| && (forall i :: 0 <= i < |rows| && i != last ==> later[i] == rows[i])
    requires LandedOn(later[last], pod)
    ensures LastLanded(later, pod) == last
  {
    var l := LastLanded(later, pod);
    assert forall k :: last < k < |rows| ==> !LandedOn(rows[k], pod);
  }

  /** The journal after one look: the judged record in its row, and the conflict on record. */
  lemma RowEffect(j: Journal, m: Memory, env: Environment, op: Operation, snap: Snapshot)
    requires op.id < |j.rows| && j.rows[op.id] == op && EvidenceTable(op) && op.state in WATCHED
    ensures var v := Judge(op, snap, Expired(m, op, env.now), op.intent.Target(env.vault));
            var later := ApplyAll(j, ReconcileRow(m, env, op, snap).commits);
            && later.rows == j.rows[op.id := v.op]
            && later.conflicts
               == (if v.conflict then j.conflicts[op.Pod() := ConflictRecord(op.id, ConfigurationChanged)] else j.conflicts)
  {
    hide EvidenceTable, Judge, Expired, Evolves, ReconcileRow, ApplyAll, Apply, SignatureOf, DeadlineOf;
    var target := op.intent.Target(env.vault);
    var v := Judge(op, snap, Expired(m, op, env.now), target);
    var seen := op.id in m.observations && m.observations[op.id] == SignatureOf(snap);
    var note := Observe(op.run, op.Pod(), op.id);
    var loss := Conflict(op.Pod(), ConflictRecord(op.id, ConfigurationChanged));
    JudgeKeeps(op, snap, Expired(m, op, env.now), target);
    KeepsIdentity(op, v.op);
    RowSpelled(m, env, op, snap);
    FoldRow(j, target.Ok? && !seen, v.conflict, v.changed, note, loss, Update(v.op));
    var j1 := if target.Ok? && !seen then Apply(j, note) else j;
    var j2 := if v.conflict then Apply(j1, loss) else j1;
    ObservedRow(j, op.run, op.Pod(), op.id);
    ConflictedPod(j1, op.Pod(), loss.record);
    UpdatedRow(j2, v.op);
  }

  lemma SecondRow(j: Journal, m: Memory, env: Environment, op: Operation, snap: Snapshot)
    requires op.id < |j.rows| && j.rows[op.id] == op && EvidenceTable(op) && op.state in WATCHED
    requires Judge(op, snap, Expired(m, op, env.now), op.intent.Target(env.vault)).op.state in WATCHED
    ensures var first := ReconcileRow(m, env, op, snap);
            var later := ApplyAll(j, first.commits);
            var second := ReconcileRow(
              first.memory, env, Judge(op, snap, Expired(m, op, env.now), op.intent.Target(env.vault)).op, snap);
            ApplyAll(later, second.commits) == later && second.memory == first.memory && second.outcome == first.outcome
  {
    hide EvidenceTable, Judge, Evolves, ReconcileRow, ApplyAll, SignatureOf;
    var target := op.intent.Target(env.vault);
    var expired := Expired(m, op, env.now);
    var v := Judge(op, snap, expired, target);
    JudgeKeeps(op, snap, expired, target);
    KeepsIdentity(op, v.op);
    RowSpelled(m, env, op, snap);
    RowEffect(j, m, env, op, snap);
    var first := ReconcileRow(m, env, op, snap);
    var later := ApplyAll(j, first.commits);
    assert later.rows[op.id] == v.op && v.op.Pod() == op.Pod() && v.op.deadlineAt == op.deadlineAt;
    assert DeadlineOf(first.memory, v.op, env.now) == DeadlineOf(m, op, env.now);
    assert Expired(first.memory, v.op, env.now) == expired;
    JudgeTwice(op, snap, expired, target);
    RowSpelled(first.memory, env, v.op, snap);
    var loss := Conflict(op.Pod(), ConflictRecord(op.id, ConfigurationChanged));
    FoldRow(later, false, v.conflict, false, Observe(v.op.run, v.op.Pod(), v.op.id), loss, Update(v.op));
    if v.conflict {
      SameConflict(later, op.Pod(), loss.record);
    }
    assert first.memory.deadlines[op.id := DeadlineOf(m, op, env.now)] == first.memory.deadlines;
  }

  lemma SameConflict(j: Journal, pod: string, record: ConflictRecord)
    requires pod in j.conflicts && j.conflicts[pod] == record
    ensures Apply(j, Conflict(pod, record)) == j
  {
    assert j.conflicts[pod := record] == j.conflicts;
  }

  // -- Success rests on evidence ----------------------------------------------------------

  /** A snapshot that was complete and fresh, and whose configuration and observation both met
      the target of the intent. */
  ghost predicate Shows(intent: Intent, vault: Vault, snap: Snapshot) {
    && intent.Target(vault).Ok? && snap.ready && snap.observed.isFresh
    && Matches(snap.config, intent.Target(vault).value) && snap.observed.Satisfies(intent.Target(vault).value)
  }

  ghost predicate Evidenced(w: World, s: Step, intent: Intent) {
    || (s.Reconcile? && Shows(intent, w.env.vault, s.snap))
    || (s.SnapshotReturn? && s.answer.Returned? && Shows(intent, w.env.vault, s.answer.value))
  }

  ghost predicate NewlyApplied(rows: seq<Operation>, c: Commit) {
    c.Update? && c.op.applied.Some? && !(c.op.id < |rows| && rows[c.op.id].applied.Some?)
  }

  lemma JudgeShows(op: Operation, snap: Snapshot, expired: bool, target: Result<Values>)
    requires EvidenceTable(op) && op.state in WATCHED
    requires Judge(op, snap, expired, target).op.applied.Some? && op.applied == None
    ensures target.Ok? && snap.ready && snap.observed.isFresh
    ensures Matches(snap.config, target.value) && snap.observed.Satisfies(target.value)
  {
    hide Matches;
  }

  lemma AppliedIsEvidenced(w: World, s: Step, k: nat)
    requires Inv(w) && CanStep(w, s) && k < |Commits(w, s)|
    requires NewlyApplied(w.journal.rows, Commits(w, s)[k])
    ensures Evidenced(w, s, Commits(w, s)[k].op.intent)
  {
    hide GoodJournal, EvidenceTable, CallsOk, NotYetCalled, LatchOk, ReconcileSegment, SnapshotSegment, Resolution, Admission,
      Matches, Refused;
    var rows := w.journal.rows;
    match s
    case SnapshotReturn(pod, answer, attemptId, transactionId) =>
      assert FrameOk(rows, pod, w.frames[pod]);
      CopyUnresolved(rows, pod, w.frames[pod]);
      SnapshotShows(w.journal, w.memory, w.env, w.frames[pod].op, answer, attemptId, transactionId, k);
    case Reconcile(pod, snap) => ReconcileShows(w, pod, snap, k);
    case Restart(_) =>
      RowsNumbered(w.journal);
      RecoverShowsNothing(rows, k);
    case SubmitReturn(pod) =>
      assert FrameOk(rows, pod, w.frames[pod]);
      CopyUnresolved(rows, pod, w.frames[pod]);
      ReplyShowsNothing(w.memory, w.frames[pod].op, w.frames[pod].reply, k);
    case PlanReturn(pod, _) =>
      assert FrameOk(rows, pod, w.frames[pod]);
      CopyUnresolved(rows, pod, w.frames[pod]);
    case ExecStart(_) =>
      RowsNumbered(w.journal);
      RefusalKeepsEvidence();
    case Cancel(_) => RowsNumbered(w.journal);
    case Request(_) => RefusalKeepsEvidence();
    case _ =>
  }

  lemma RowsNumbered(j: Journal)
    requires GoodJournal(j)
    ensures forall i :: 0 <= i < |j.rows| ==> j.rows[i].id == i
  {
    hide EvidenceTable, Keyed;
    forall i | 0 <= i < |j.rows|
      ensures j.rows[i].id == i
    {
      assert GoodRow(j, i);
    }
  }

  lemma RefusalKeepsEvidence()
    ensures forall op: Operation, code: Reason :: op.state == Requested ==>
              Refused(op, code).applied == op.applied && Refused(op, code).id == op.id
  {
  }

  /** No execution in flight carries evidence of application. */
  lemma CopyUnresolved(rows: seq<Operation>, pod: string, f: Frame)
    requires FrameOk(rows, pod, f)
    ensures f.op.applied == None
  {
  }

  lemma ValidatedShows(m: Memory, env: Environment, op: Operation, snap: Snapshot, attemptId: nat, transactionId: nat)
    requires op.state == Validated && snap.ready
    ensures var commits := ValidatedSegment(m, env, op, snap, attemptId, transactionId).commits;
            forall k :: 0 <= k < |commits| ==>
              && commits[k].Update? && commits[k].op.id == op.id && commits[k].op.intent == op.intent
              && commits[k].op.fingerprint == op.fingerprint
              && commits[k].op.state in {Validated, ObservedApplied, Submitted}
              && (commits[k].op.state == ObservedApplied || (op.applied == None && commits[k].op.applied.Some?) ==>
                    Shows(op.intent, env.vault, snap))
  {
    hide Matches, MayMove;
  }

  lemma SnapshotShows(
    j: Journal, m: Memory, env: Environment, op: Operation, answer: Awaited<Snapshot>, attemptId: nat,
    transactionId: nat, k: nat)
    requires op.id < |j.rows| && op.applied == None
    requires var commits := SnapshotSegment(j, m, env, op, answer, attemptId, transactionId).commits;
             k < |commits| && commits[k].Update? && commits[k].op.applied.Some?
    ensures answer.Returned? && Shows(op.intent, env.vault, answer.value)
    ensures SnapshotSegment(j, m, env, op, answer, attemptId, transactionId).commits[k].op.intent == op.intent
  {
    hide Matches, MayMove, ValidatedSegment;
    if answer.Returned? {
      ValidatedShows(m, env, op.(state := Validated), answer.value, attemptId, transactionId);
    }
  }

  lemma ReplyShowsNothing(m: Memory, op: Operation, reply: Awaited<SubmitResult>, k: nat)
    requires k < |ReplySegment(m, op, reply).commits| && op.applied == None
    ensures var c := ReplySegment(m, op, reply).commits[k];
            c.Update? ==> c.op.applied == None
  {
  }

  lemma {:induction false} RecoverShowsNothing(rows: seq<Operation>, k: nat)
    requires k < |RecoverCommits(rows)| && forall i :: 0 <= i < |rows| ==> rows[i].id == i
    ensures var c := RecoverCommits(rows)[k];
            c.Update? ==> c.op.id < |rows| && c.op.applied == rows[c.op.id].applied
  {
    if k < |RecoverCommits(rows[..|rows| - 1])| {
      RecoverShowsNothing(rows[..|rows| - 1], k);
    }
  }

  lemma ReconcileShows(w: World, pod: string, snap: Snapshot, k: nat)
    requires Inv(w)
    requires var commits := ReconcileSegment(w.journal, w.memory, w.env, pod, snap).commits;
             k < |commits| && NewlyApplied(w.journal.rows, commits[k])
    ensures Shows(ReconcileSegment(w.journal, w.memory, w.env, pod, snap).commits[k].op.intent, w.env.vault, snap)
  {
    hide EvidenceTable, FramesOk, CallsOk, NotYetCalled, LatchOk, Judge, MarkDeadline, Expired, Keyed, SignatureOf,
      ReconcileRow, Evolves, Matches;
    var last := LastLanded(w.journal.rows, pod);
    var op := w.journal.rows[last];
    assert GoodRow(w.journal, last);
    var commits := RowCommits(w.memory, w.env, op, snap);
    var target := op.intent.Target(w.env.vault);
    JudgeKeeps(op, snap, Expired(w.memory, op, w.env.now), target);
    KeepsIdentity(op, Judge(op, snap, Expired(w.memory, op, w.env.now), target).op);
    JudgeShows(op, snap, Expired(w.memory, op, w.env.now), target);
  }

  lemma {:induction false} AppliedComesFromCommit(j: Journal, commits: seq<Commit>, id: nat) returns (k: nat)
    requires id < |ApplyAll(j, commits).rows| && ApplyAll(j, commits).rows[id].applied.Some?
    requires id < |j.rows| ==> j.rows[id].applied == None
    requires LawfulAll(j, commits) && GoodJournal(j)
    ensures k < |commits| && commits[k].Update? && commits[k].op.applied.Some? && commits[k].op.id == id
    ensures commits[k].op.intent == ApplyAll(j, commits).rows[id].intent
  {
    hide EvidenceTable, Keyed, Accumulates, Appended;
    var n := |commits| - 1;
    Nothing(j);
    assert commits != [];
    var before := ApplyAll(j, commits[..n]);
    LastTouches(before, commits[n]);
    assert ApplyAll(j, commits) == Apply(before, commits[n]);
    if commits[n].Insert? {
      NewIsUnresolved(commits[n].op);
    }
    if commits[n].Update? && commits[n].op.id == id && commits[n].op.applied.Some? {
      k := n;
    } else {
      k := AppliedComesFromCommit(j, commits[..n], id);
    }
  }

  lemma NewIsUnresolved(op: Operation)
    requires op.state == Requested && EvidenceTable(op)
    ensures op.applied == None
  {
  }

  /** In every run, an operation that carries evidence of application, being OBSERVED_APPLIED or
      found applied after its deadline, got it in a step that looked at a ready, fresh snapshot whose
      configuration and observation met its target. */
  lemma {:induction false} AppliedHasWitness(worlds: seq<World>, actions: seq<Action>, k: nat, id: nat) returns (n: nat)
    requires IsRun(worlds, actions) && k < |worlds| && id < |worlds[k].journal.rows|
    requires worlds[k].journal.rows[id].state == ObservedApplied || worlds[k].journal.rows[id].applied.Some?
    ensures n < k && Evidenced(worlds[n], actions[n].step, worlds[k].journal.rows[id].intent)
  {
    hide Inv, CanStep, Evidenced, Commits, LawfulAll, ApplyAll, Rest;
    assert k > 0;
    EvidenceInEveryState(worlds, actions, k, id);
    var w, a := worlds[k - 1], actions[k - 1];
    assert Possible(w, a) && worlds[k] == Next(w, a);
    RunSafe(worlds, actions, k - 1);
    if id < |w.journal.rows| && w.journal.rows[id].applied.Some? {
      n := AppliedHasWitness(worlds, actions, k - 1, id);
      RecordsAccumulate(worlds, actions, k - 1, k, id);
    } else {
      n := k - 1;
      FoundInStep(w, a, id);
    }
  }

  lemma FoundInStep(w: World, a: Action, id: nat)
    requires Inv(w) && Possible(w, a)
    requires var later := Next(w, a).journal.rows;
             id < |later| && later[id].applied.Some?
    requires id < |w.journal.rows| ==> w.journal.rows[id].applied == None
    ensures Evidenced(w, a.step, Next(w, a).journal.rows[id].intent)
  {
    hide FramesOk, CallsOk, NotYetCalled, LatchOk, CanStep, Evidenced, Commits, LawfulAll, ApplyAll, Rest, GoodJournal;
    CommitsLawful(w, a.step);
    if a.Crash? {
      LawfulPrefix(w.journal, Commits(w, a.step), a.kept);
    }
    var k := AppliedComesFromCommit(w.journal, Kept(w, a), id);
    assert Commits(w, a.step)[k] == Kept(w, a)[k];
    AppliedIsEvidenced(w, a.step, k);
  }
}
