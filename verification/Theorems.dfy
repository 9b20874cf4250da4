/** The properties of the engine over whole runs. */
module Theorems {
  import opened Basics
  import opened Lifecycle
  import opened Journal
  import opened Protocol
  import opened Records
  import opened Runs
  import opened Safety

  // -- Runs and their histories -------------------------------------------------------

  lemma InitialSafe(w: World)
    requires Initial(w)
    ensures Inv(w)
  {
  }

  lemma {:induction false} RunSafe(worlds: seq<World>, actions: seq<Action>, k: nat)
    requires IsRun(worlds, actions) && k < |worlds|
    ensures Inv(worlds[k])
  {
    hide Inv, Next, Possible;
    if k == 0 {
      InitialSafe(worlds[0]);
    } else {
      RunSafe(worlds, actions, k - 1);
      StepSafe(worlds[k - 1], actions[k - 1]);
    }
  }

  lemma {:induction false} RunExtends(worlds: seq<World>, actions: seq<Action>, i: nat, k: nat)
    requires IsRun(worlds, actions) && i <= k < |worlds|
    ensures Extends(worlds[i].journal, worlds[k].journal)
  {
    hide Inv, Next, Possible, Extends;
    if i == k {
      ExtendsItself(worlds[i].journal);
    } else {
      RunExtends(worlds, actions, i, k - 1);
      RunSafe(worlds, actions, k - 1);
      StepSafe(worlds[k - 1], actions[k - 1]);
      ExtendsTransitive(worlds[i].journal, worlds[k - 1].journal, worlds[k].journal);
    }
  }

  lemma ExtendsItself(j: Journal)
    ensures Extends(j, j)
  {
  }

  // -- At most one submission ---------------------------------------------------------

  function CallsOf(calls: seq<Call>, id: nat): nat {
    if calls == [] then 0
    else CallsOf(calls[..|calls| - 1], id) + if calls[|calls| - 1].id == id then 1 else 0
  }

  lemma {:induction false} DistinctCallsCount(calls: seq<Call>, id: nat)
    requires forall k, l :: 0 <= k < l < |calls| ==> calls[k].id != calls[l].id
    ensures CallsOf(calls, id) <= 1
    ensures CallsOf(calls, id) == 1 <==> exists k :: 0 <= k < |calls| && calls[k].id == id
  {
    if calls != [] {
      DistinctCallsCount(calls[..|calls| - 1], id);
    }
  }

  /** Whatever crashes, recoveries and interleavings happened, `backend.submit` was called at
      most as often as an operation has durable attempts, and that is at most once. */
  lemma SubmittedAtMostOnce(worlds: seq<World>, actions: seq<Action>, k: nat, id: nat)
    requires IsRun(worlds, actions) && k < |worlds| && id < |worlds[k].journal.rows|
    ensures CallsOf(worlds[k].calls, id) <= |worlds[k].journal.rows[id].attempts| <= 1
  {
    hide EvidenceTable, FramesOk, NotYetCalled, LatchOk, Keyed;
    RunSafe(worlds, actions, k);
    assert GoodRow(worlds[k].journal, id);
    AttemptsBound(worlds[k].journal.rows[id]);
    DistinctCallsCount(worlds[k].calls, id);
  }

  /** Only a submission step calls the backend, and what it sends was durable before: the
      stored record is SUBMITTED and holds exactly the attempt that is sent. */
  lemma SubmissionWasDurable(worlds: seq<World>, actions: seq<Action>, k: nat)
    requires IsRun(worlds, actions) && k < |actions|
    requires worlds[k + 1].calls != worlds[k].calls
    ensures actions[k].Do? && actions[k].step.SubmitCall?
    ensures exists call ::
              && worlds[k + 1].calls == worlds[k].calls + [call]
              && call.id < |worlds[k].journal.rows|
              && worlds[k].journal.rows[call.id].state == Submitted
              && worlds[k].journal.rows[call.id].attempts == [call.attempt]
              && worlds[k].journal == worlds[k + 1].journal
  {
    hide EvidenceTable, CallsOk, NotYetCalled, LatchOk, Keyed, ApplyAll;
    RunSafe(worlds, actions, k);
    var w := worlds[k];
    assert worlds[k + 1] == Next(w, actions[k]);
    var pod := actions[k].step.pod;
    assert FrameOk(w.journal.rows, pod, w.frames[pod]);
    Nothing(w.journal);
    var f := w.frames[pod];
    assert worlds[k + 1].calls == w.calls + [Call(f.op.id, f.attempt, pod, pod in w.journal.conflicts)];
  }

  // -- Evidence, ownership and what never changes back --------------------------------

  /** The state of every stored record fixes its attempts, attribution and evidence. */
  lemma EvidenceInEveryState(worlds: seq<World>, actions: seq<Action>, k: nat, id: nat)
    requires IsRun(worlds, actions) && k < |worlds| && id < |worlds[k].journal.rows|
    ensures EvidenceTable(worlds[k].journal.rows[id])
  {
    hide EvidenceTable, FramesOk, CallsOk, NotYetCalled, LatchOk, Keyed;
    RunSafe(worlds, actions, k);
    assert GoodRow(worlds[k].journal, id);
  }

  /** A recorded ownership conflict is on record in every later state, and from then on the pod
      receives at most one more submission in the rest of the run. */
  lemma OwnershipLatch(worlds: seq<World>, actions: seq<Action>, i: nat, k: nat, pod: string)
    requires IsRun(worlds, actions) && i <= k < |worlds| && pod in worlds[i].journal.conflicts
    ensures pod in worlds[k].journal.conflicts
    ensures LateCalls(worlds[k].calls, pod) <= 1
  {
    hide EvidenceTable, FramesOk, CallsOk, NotYetCalled, Keyed, Accumulates;
    RunSafe(worlds, actions, k);
    RunExtends(worlds, actions, i, k);
    LateAtMostOnce(worlds[k], pod);
  }

  /** An operation stored as OWNERSHIP_CONFLICT is backed by the record of its pod, then and later. */
  lemma ConflictIsRecorded(worlds: seq<World>, actions: seq<Action>, i: nat, k: nat, id: nat)
    requires IsRun(worlds, actions) && i <= k < |worlds| && id < |worlds[i].journal.rows|
    requires worlds[i].journal.rows[id].state == OwnershipConflict
    ensures worlds[i].journal.rows[id].Pod() in worlds[k].journal.conflicts
  {
    hide EvidenceTable, FramesOk, CallsOk, NotYetCalled, LatchOk, Keyed, Accumulates;
    RunSafe(worlds, actions, i);
    assert GoodRow(worlds[i].journal, id);
    OwnershipLatch(worlds, actions, i, k, worlds[i].journal.rows[id].Pod());
  }

  lemma LateAtMostOnce(w: World, pod: string)
    requires LatchOk(w)
    ensures LateCalls(w.calls, pod) <= 1
  {
    assert LateCalls(w.calls, pod) + (if MayStillCall(w.frames, pod) then 1 else 0)
      <= if pod in w.journal.conflicts || MayStillCall(w.frames, pod) then 1 else 0;
  }

  /** Records only accumulate: identity never changes, and no deadline mark, evidence, outcome,
      attribution or inactive state is ever taken back, over any number of steps. */
  lemma RecordsAccumulate(worlds: seq<World>, actions: seq<Action>, i: nat, k: nat, id: nat)
    requires IsRun(worlds, actions) && i <= k < |worlds| && id < |worlds[i].journal.rows|
    ensures id < |worlds[k].journal.rows|
    ensures Accumulates(worlds[i].journal.rows[id], worlds[k].journal.rows[id])
  {
    hide Accumulates, EvidenceTable;
    RunExtends(worlds, actions, i, k);
  }

  /** No run ever stores two operations under one idempotency key of one source and pod. */
  lemma OneOperationPerKey(worlds: seq<World>, actions: seq<Action>, k: nat, a: nat, b: nat)
    requires IsRun(worlds, actions) && k < |worlds| && a < |worlds[k].journal.rows| && b < |worlds[k].journal.rows|
    requires var other := worlds[k].journal.rows[b];
             Keyed(worlds[k].journal.rows[a], other.source, other.Pod(), other.key)
    ensures a == b
  {
    hide EvidenceTable, FramesOk, CallsOk, NotYetCalled, LatchOk;
    RunSafe(worlds, actions, k);
  }

  // -- Guards -------------------------------------------------------------------------

  /** No transition attempted by an execution, a reconciliation or a recovery of any run is
      refused by the guards of `transition`. */
  lemma GuardsNeverFire(worlds: seq<World>, actions: seq<Action>, k: nat)
    requires IsRun(worlds, actions) && k < |actions|
    ensures var w, s := worlds[k], actions[k].step;
            && (s.PlanReturn? || s.SnapshotReturn? || s.SubmitReturn? || s.ExecStart? ==>
                  !ProgressOf(w, s).outcome.Guarded?)
            && (s.PlanReturn? || s.SnapshotReturn? ==>
                  MayMove(w.frames[s.pod].op, Validated, NO_EVIDENCE) && MayMove(w.frames[s.pod].op, Rejected, NO_EVIDENCE))
            && (s.Reconcile? ==> ReconcileSegment(w.journal, w.memory, w.env, s.pod, s.snap).outcome == None)
  {
    hide EvidenceTable, CallsOk, NotYetCalled, LatchOk, GoodJournal, SnapshotSegment, ReplySegment, ReconcileSegment,
      LawfulAll, ApplyAll, Next;
    RunSafe(worlds, actions, k);
    var w, s := worlds[k], actions[k].step;
    match s
    case PlanReturn(pod, plan) => assert FrameOk(w.journal.rows, pod, w.frames[pod]);
    case SnapshotReturn(pod, answer, attemptId, transactionId) =>
      assert FrameOk(w.journal.rows, pod, w.frames[pod]);
      SnapshotLawful(w.journal, w.memory, w.env, w.frames[pod].op, answer, attemptId, transactionId);
    case SubmitReturn(pod) =>
      assert FrameOk(w.journal.rows, pod, w.frames[pod]);
      ReplyLawful(w.journal, w.memory, w.frames[pod].op, w.frames[pod].attempt, w.frames[pod].reply);
    case Reconcile(pod, snap) => ReconcileLawful(w.journal, w.memory, w.env, pod, snap);
    case _ =>
  }

  // -- Lifecycle edges and the bound on persisted changes -----------------------------

  /** All commits made up to a point of a run, including those of steps cut short. */
  ghost function History(worlds: seq<World>, actions: seq<Action>, k: nat): seq<Commit>
    requires IsRun(worlds, actions) && k < |worlds|
  {
    if k == 0 then [] else History(worlds, actions, k - 1) + Kept(worlds[k - 1], actions[k - 1])
  }

  lemma {:induction false} HistoryLawful(worlds: seq<World>, actions: seq<Action>, k: nat)
    requires IsRun(worlds, actions) && k < |worlds|
    ensures LawfulAll(worlds[0].journal, History(worlds, actions, k))
    ensures ApplyAll(worlds[0].journal, History(worlds, actions, k)) == worlds[k].journal
  {
    hide Inv, LawfulAll, ApplyAll, CanStep, Commits, Rest;
    if k == 0 {
      Nothing(worlds[0].journal);
    } else {
      HistoryLawful(worlds, actions, k - 1);
      var w, a := worlds[k - 1], actions[k - 1];
      assert Possible(w, a) && worlds[k] == Next(w, a);
      RunSafe(worlds, actions, k - 1);
      CommitsLawful(w, a.step);
      if a.Crash? {
        LawfulPrefix(w.journal, Commits(w, a.step), a.kept);
      }
      LawfulConcat(worlds[0].journal, History(worlds, actions, k - 1), Kept(w, a));
      ApplyAllConcat(worlds[0].journal, History(worlds, actions, k - 1), Kept(w, a));
    }
  }

  lemma {:induction false} LawfulIsAddressed(j: Journal, commits: seq<Commit>)
    requires LawfulAll(j, commits)
    ensures Addressed(j, commits)
  {
    hide Keeps, EvidenceTable, Apply;
    if commits != [] {
      LawfulIsAddressed(j, commits[..|commits| - 1]);
    }
  }

  /** In every state of a run, each record is the one last committed under its identifier, by whichever
      step, complete or cut short; and a pod's ownership record is the last one committed for it. */
  lemma StoredIsLastCommitted(worlds: seq<World>, actions: seq<Action>, k: nat, id: nat, pod: string)
    requires IsRun(worlds, actions) && k < |worlds|
    ensures var h := History(worlds, actions, k);
            if id < |worlds[k].journal.rows| then LastWrite(h, id) == Some(worlds[k].journal.rows[id])
            else LastWrite(h, id) == None
    ensures var h := History(worlds, actions, k);
            if pod in worlds[k].journal.conflicts then LastRecorded(h, pod) == Some(worlds[k].journal.conflicts[pod])
            else LastRecorded(h, pod) == None
  {
    hide Next, Possible, ApplyAll, History, LastWrite, LastRecorded, LawfulAll;
    HistoryLawful(worlds, actions, k);
    LawfulIsAddressed(worlds[0].journal, History(worlds, actions, k));
    RowIsLastWrite(worlds[0].journal, History(worlds, actions, k), id);
    ConflictIsLastRecorded(worlds[0].journal, History(worlds, actions, k), pod);
  }

  /** How many commits of a history changed the stored state of an operation. */
  ghost function StateChanges(j: Journal, commits: seq<Commit>, id: nat): nat {
    if commits == [] then 0
    else
      var n := |commits| - 1;
      var before := ApplyAll(j, commits[..n]);
      StateChanges(j, commits[..n], id)
      + if commits[n].Update? && commits[n].op.id == id && id < |before.rows| && before.rows[id].state != commits[n].op.state
        then 1 else 0
  }

  lemma {:induction false} ChangesBounded(j: Journal, commits: seq<Commit>, id: nat)
    requires j.rows == [] && LawfulAll(j, commits)
    ensures var rows := ApplyAll(j, commits).rows;
            StateChanges(j, commits, id) + (if id < |rows| then Rank(rows[id].state) else 4) <= 4
  {
    if commits != [] {
      var n := |commits| - 1;
      var before := ApplyAll(j, commits[..n]);
      ChangesBounded(j, commits[..n], id);
      assert Lawful(before, commits[n]);
      assert ApplyAll(j, commits) == Apply(before, commits[n]);
      RankStep(before, commits[n], id);
    }
  }

  lemma RankStep(j: Journal, c: Commit, id: nat)
    requires Lawful(j, c)
    ensures |j.rows| <= |Apply(j, c).rows|
    ensures id < |j.rows| ==>
              Rank(Apply(j, c).rows[id].state)
                + (if c.Update? && c.op.id == id && j.rows[id].state != c.op.state then 1 else 0)
              <= Rank(j.rows[id].state)
    ensures id >= |j.rows| && id < |Apply(j, c).rows| ==> Rank(Apply(j, c).rows[id].state) == 4
  {
    hide EvidenceTable, Accumulates;
    match c
    case Insert(op) => InsertedRow(j, op);
    case Update(op) => UpdatedRow(j, op);
    case Conflict(pod, record) => ConflictedPod(j, pod, record);
    case Observe(run, pod, operation) => ObservedRow(j, run, pod, operation);
  }

  /** Every persisted change follows the table, apart from a rejection overwriting a
      cancellation, and over a whole run an operation changes state at most four times. */
  lemma LifecycleBounded(worlds: seq<World>, actions: seq<Action>, k: nat, id: nat, n: nat)
    requires IsRun(worlds, actions) && k < |worlds| && n < |History(worlds, actions, k)|
    ensures var h := History(worlds, actions, k);
            var before := ApplyAll(worlds[0].journal, h[..n]);
            h[n].Update? ==>
              h[n].op.id < |before.rows| && PersistedEdge(before.rows[h[n].op.id].state, h[n].op.state)
    ensures StateChanges(worlds[0].journal, History(worlds, actions, k), id) <= 4
  {
    hide Next, Possible, ApplyAll, History, StateChanges;
    var h := History(worlds, actions, k);
    HistoryLawful(worlds, actions, k);
    ChangesBounded(worlds[0].journal, h, id);
    LawfulPrefix(worlds[0].journal, h, n + 1);
    assert h[..n + 1][..n] == h[..n];
  }
}
