/** At most one active operation per pod, never shadowed by a newer landed one: exactly when
    no crash falls between the insertion of a request and its BUSY rejection. */
module OneActive {
  import opened Basics
  import opened Lifecycle
  import opened Journal
  import opened Protocol
  import opened Records
  import opened Runs
  import opened Safety
  import opened Theorems

  /** Whatever was journalled for a pod after an active operation was turned away. */
  ghost predicate NeverShadowed(rows: seq<Operation>) {
    forall i, k :: 0 <= i < k < |rows| && rows[i].Pod() == rows[k].Pod() && rows[i].state in ACTIVE ==>
      rows[k].state == Rejected
  }

  /** A crash that keeps the insertion of a request but not the rejection it owes to the
      operation already active on its pod. */
  predicate SplitsRequest(w: World, a: Action) {
    && a.Crash? && a.step.Request? && a.kept == 1
    && Possible(w, a) && |Commits(w, a.step)| == 2
    && PodActive(w.journal.rows, a.step.a.intent.podId)
  }

  lemma UpdateKeepsOrder(j: Journal, op: Operation)
    requires NeverShadowed(j.rows) && Lawful(j, Update(op))
    ensures NeverShadowed(Apply(j, Update(op)).rows)
  {
    hide EvidenceTable;
    UpdatedRow(j, op);
    KeepsIdentity(j.rows[op.id], op);
  }

  ghost predicate NoInsert(commits: seq<Commit>) {
    forall k :: 0 <= k < |commits| ==> !commits[k].Insert?
  }

  lemma {:induction false} UpdatesKeepOrder(j: Journal, commits: seq<Commit>)
    requires NeverShadowed(j.rows) && LawfulAll(j, commits) && NoInsert(commits)
    ensures NeverShadowed(ApplyAll(j, commits).rows)
  {
    hide NeverShadowed, Lawful, Apply;
    if commits != [] {
      var n := |commits| - 1;
      var before := ApplyAll(j, commits[..n]);
      UpdatesKeepOrder(j, commits[..n]);
      assert ApplyAll(j, commits) == Apply(before, commits[n]);
      assert !commits[n].Insert?;
      match commits[n]
      case Update(op) => UpdateKeepsOrder(before, op);
      case Conflict(pod, record) => ConflictedPod(before, pod, record);
      case Observe(run, pod, operation) => ObservedRow(before, run, pod, operation);
      case Insert(_) => assert false;
    }
  }

  lemma OnlyRequestsInsert(w: World, s: Step)
    requires Inv(w) && CanStep(w, s) && !s.Request?
    ensures NoInsert(Commits(w, s))
  {
    hide Inv, Judge, MarkDeadline, Transition, Matches, Expired, Resolution;
    if s.Restart? {
      RecoverInsertsNothing(w.journal.rows);
    }
  }

  lemma {:induction false} RecoverInsertsNothing(rows: seq<Operation>)
    ensures NoInsert(RecoverCommits(rows))
  {
    if rows != [] {
      RecoverInsertsNothing(rows[..|rows| - 1]);
    }
  }

  /** What a request leaves, complete or cut after its first commit. */
  lemma RequestRows(j: Journal, m: Memory, env: Environment, a: Arguments, kept: nat)
    requires kept <= |RequestSegment(j, m, env, a).commits|
    ensures var commits := RequestSegment(j, m, env, a).commits;
            var rows := ApplyAll(j, commits[..kept]).rows;
            if kept == 0 then rows == j.rows
            else
              && |commits| <= 2 && commits[0].Insert? && |rows| == |j.rows| + 1 && rows[..|j.rows|] == j.rows
              && rows[|j.rows|].Pod() == a.intent.podId
              && rows[|j.rows|].state == (if kept == 2 then Rejected else Requested)
              && (|commits| == 1 ==> !PodActive(j.rows, a.intent.podId))
  {
    hide Admission, Apply, PodActive;
    var commits := RequestSegment(j, m, env, a).commits;
    assert commits[..|commits|] == commits;
    if kept > 0 {
      InsertedRow(j, commits[0].op);
      One(j, commits[0]);
      assert commits[..1] == [commits[0]];
      if kept == 2 {
        Two(j, commits[0], commits[1]);
        assert commits == [commits[0], commits[1]];
        UpdatedRow(Apply(j, commits[0]), commits[1].op);
      }
    }
  }

  /** Every step preserves the order except, precisely, a crash that splits a request. */
  lemma OrderKeptUnlessSplit(w: World, a: Action)
    requires Inv(w) && NeverShadowed(w.journal.rows) && Possible(w, a)
    ensures NeverShadowed(Next(w, a).journal.rows) <==> !SplitsRequest(w, a)
  {
    hide Inv, LawfulAll, ApplyAll, NoInsert, RequestSegment, CanStep;
    var commits := Commits(w, a.step);
    var kept := if a.Do? then |commits| else a.kept;
    assert commits[..|commits|] == commits;
    assert Kept(w, a) == commits[..kept];
    if a.step.Request? {
      RequestRows(w.journal, w.memory, w.env, a.step.a, kept);
      OrderAfterRequest(w.journal.rows, Next(w, a).journal.rows, a.step.a.intent.podId, kept);
    } else {
      CommitsLawful(w, a.step);
      LawfulPrefix(w.journal, commits, kept);
      OnlyRequestsInsert(w, a.step);
      PrefixInsertsNothing(commits, kept);
      UpdatesKeepOrder(w.journal, commits[..kept]);
    }
  }

  lemma PrefixInsertsNothing(commits: seq<Commit>, kept: nat)
    requires NoInsert(commits) && kept <= |commits|
    ensures NoInsert(commits[..kept])
  {
  }

  lemma OrderAfterRequest(rows: seq<Operation>, later: seq<Operation>, pod: string, kept: nat)
    requires NeverShadowed(rows)
    requires kept == 0 ==> later == rows
    requires kept > 0 ==>
               && |later| == |rows| + 1 && later[..|rows|] == rows && later[|rows|].Pod() == pod
               && later[|rows|].state == (if kept == 2 then Rejected else Requested)
    ensures NeverShadowed(later) <==> !(kept > 0 && kept != 2 && PodActive(rows, pod))
  {
    if kept > 0 {
      assert forall i :: 0 <= i < |rows| ==> later[i] == rows[i];
      if kept != 2 && PodActive(rows, pod) {
        var i :| 0 <= i < |rows| && rows[i].Pod() == pod && rows[i].state in ACTIVE;
        assert later[i].Pod() == later[|rows|].Pod();
      }
    }
  }

  /** In every run without such a crash, each pod has at most one active operation, and an
      active operation that reached the device is the one reconciliation looks at. */
  lemma {:induction false} ActiveIsLastLanded(worlds: seq<World>, actions: seq<Action>, k: nat)
    requires IsRun(worlds, actions) && k < |worlds|
    requires forall n :: 0 <= n < k ==> !SplitsRequest(worlds[n], actions[n])
    ensures NeverShadowed(worlds[k].journal.rows)
    ensures var rows := worlds[k].journal.rows;
            forall i, n ::
              0 <= i < |rows| && 0 <= n < |rows| && rows[i].Pod() == rows[n].Pod()
                && rows[i].state in ACTIVE && rows[n].state in ACTIVE
              ==> i == n
    ensures var rows := worlds[k].journal.rows;
            forall i ::
              0 <= i < |rows| && rows[i].state in ACTIVE && rows[i].state in LANDED
              ==> LastLanded(rows, rows[i].Pod()) == i
  {
    hide Inv, Next, Possible, SplitsRequest;
    var rows := worlds[k].journal.rows;
    if k > 0 {
      RunSafe(worlds, actions, k - 1);
      ActiveIsLastLanded(worlds, actions, k - 1);
      OrderKeptUnlessSplit(worlds[k - 1], actions[k - 1]);
    }
    forall i | 0 <= i < |rows| && rows[i].state in ACTIVE && rows[i].state in LANDED
      ensures LastLanded(rows, rows[i].Pod()) == i
    {
      var last := LastLanded(rows, rows[i].Pod());
      assert LandedOn(rows[i], rows[i].Pod());
    }
  }
}
