/** The engine object of reconcile.py: its fields are updated in place and its coroutines are
    cut at their suspension points. Each method does exactly what its protocol segment says. */
module Engines {
  import opened Basics
  import opened Lifecycle
  import opened Journal
  import opened Protocol
  import opened Safety

  ghost predicate Identified(rows: seq<Operation>) {
    forall i :: 0 <= i < |rows| ==> rows[i].id == i
  }

  class Engine {
    const store: Store
    var busy: set<string>
    var deadlines: map<nat, real>
    var observations: map<nat, Signature>
    var quiesced: bool

    ghost function Remembered(): Memory
      reads this
    {
      Memory(busy, deadlines, observations, quiesced)
    }

    ghost predicate Valid()
      reads this, store
    {
      store.Valid() && Identified(store.rows)
    }

    /** The whole effect of a segment: its commits in order, and the memory it leaves. */
    twostate predicate Performed(commits: seq<Commit>, memory: Memory)
      reads this, store
    {
      && store.history == old(store.history) + commits
      && store.View() == ApplyAll(old(store.View()), commits)
      && Remembered() == memory
    }

    constructor (store: Store)
      requires store.Valid() && Identified(store.rows)
      ensures Valid() && this.store == store && Remembered() == FRESH_PROCESS
    {
      this.store := store;
      busy, deadlines, observations, quiesced := {}, map[], map[], false;
    }

    // -- request ------------------------------------------------------------------

    method OtherActive(pod: string, id: nat) returns (found: bool)
      ensures found <==> exists i :: 0 <= i < |store.rows| && OtherActiveOn(store.rows[i], pod, id)
    {
      var all := store.Operations();
      for i := 0 to |all|
        invariant forall k :: 0 <= k < i ==> !OtherActiveOn(all[k], pod, id)
      {
        if OtherActiveOn(all[i], pod, id) {
          return true;
        }
      }
      found := false;
    }

    method Request(env: Environment, a: Arguments) returns (r: Result<Operation>)
      requires Valid()
      modifies this, store
      ensures Valid()
      ensures var segment := old(RequestSegment(store.View(), Remembered(), env, a));
              Performed(segment.commits, segment.memory) && r == segment.outcome
    {
      hide Admission, EnterSegment, FindKey, ApplyAll;
      NoCommits(store.View());
      var target :- Admission(env, a);
      var fingerprint := Fingerprint(a.intent, target);
      var prior := store.Lookup(a.source, a.intent.podId, a.key);
      if prior.Some? {
        return if prior.value.fingerprint == fingerprint then Ok(prior.value) else Err(InvalidInput);
      }
      r := Enter(env, a, fingerprint);
    }

    method Enter(env: Environment, a: Arguments, fingerprint: Fingerprint) returns (r: Result<Operation>)
      requires Valid()
      modifies this, store
      ensures Valid()
      ensures var segment := old(EnterSegment(store.View(), Remembered(), env, a, fingerprint));
              Performed(segment.commits, segment.memory) && r == segment.outcome
    {
      hide Apply, ApplyAll, PodActive, Lawful, LawfulAll, Refused;
      ghost var j := store.View();
      NoCommits(j);
      var pod := a.intent.podId;
      var op := NewOperation(|store.rows|, a.run, a.source, a.intent, fingerprint, a.key, env.now.wall + a.deadline);
      InsertedRow(j, op);
      One(j, Insert(op));
      var _ :- store.Add(op);
      deadlines := deadlines[op.id := env.now.mono + a.deadline];
      var active := OtherActive(pod, op.id);
      OthersActive(j.rows, op, pod);
      var conflict := store.Ownership(pod);
      if quiesced || pod in busy || active || conflict.Some? {
        var code := if quiesced || pod in busy || active then Reason.Busy else OwnershipLost;
        Two(j, Insert(op), Update(Refused(op, code)));
        One(store.View(), Update(Refused(op, code)));
        op := Refuse(op, code);
      }
      r := Ok(op);
    }

    method Refuse(op: Operation, code: Reason) returns (refused: Operation)
      requires Valid() && op.state == Requested && op.id < |store.rows|
      modifies this, store
      ensures Valid() && refused == Refused(op, code)
      ensures Performed([Update(refused)], old(Remembered()))
    {
      hide Apply, ApplyAll, Lawful, LawfulAll;
      refused := Refused(op, code);
      One(store.View(), Update(refused));
      UpdatedRow(store.View(), refused);
      store.Save(refused);
    }

    // -- execute ------------------------------------------------------------------

    /** Up to the suspension in `backend.plan`. */
    method Start(env: Environment, id: nat) returns (r: Progress)
      requires Valid()
      modifies this, store
      ensures Valid()
      ensures var segment := old(StartSegment(store.View(), Remembered(), env, id));
              Performed(segment.commits, segment.memory) && r == segment.outcome
    {
      hide Apply, ApplyAll;
      ghost var j := store.View();
      NoCommits(j);
      var stored := store.Get(id);
      if stored.Err? {
        return Raising(Some(NotFound));
      }
      var op := stored.value;
      if op.state != Requested {
        return Finished(op);
      }
      if op.Pod() in busy {
        return Raising(Some(Reason.Busy));
      }
      ghost var before := busy;
      busy := busy + {op.Pod()};
      if op.Pod() !in env.pods {
        busy := busy - {op.Pod()};
        assert busy == before;
        return Raising(None);
      }
      var conflict := store.Ownership(op.Pod());
      if conflict.Some? {
        op := Refused(op, OwnershipLost);
        One(j, Update(op));
        UpdatedRow(j, op);
        store.Save(op);
        busy := busy - {op.Pod()};
        assert busy == before;
        return Finished(op);
      }
      r := Waiting(Planning(op));
    }

    /** The handler around validation. */
    method Reject(op: Operation, code: Reason) returns (r: Progress)
      requires Valid() && op.id < |store.rows|
      modifies this, store
      ensures Valid()
      ensures var segment := old(RejectSegment(Remembered(), op, code));
              Performed(segment.commits, segment.memory) && r == segment.outcome
    {
      ghost var j := store.View();
      NoCommits(j);
      var rejected := Transition(op, Rejected, NO_EVIDENCE);
      if rejected.Err? {
        r := Guarded(rejected.code);
      } else {
        var final := rejected.value.(reason := Some(code));
        One(j, Update(final));
        UpdatedRow(j, final);
        store.Save(final);
        r := Finished(final);
      }
      busy := busy - {op.Pod()};
    }

    /** After `backend.plan`, up to the suspension in `backend.snapshot`. */
    method Planned(op: Operation, plan: Awaited<bool>) returns (r: Progress)
      requires Valid() && op.id < |store.rows|
      modifies this, store
      ensures Valid()
      ensures var segment := old(PlanSegment(Remembered(), op, plan));
              Performed(segment.commits, segment.memory) && r == segment.outcome
    {
      NoCommits(store.View());
      match plan
      case Raised(code) => r := Reject(op, code);
      case Broken =>
        busy := busy - {op.Pod()};
        r := Raising(None);
      case Returned(_) => r := Waiting(Snapshotting(op));
    }

    /** After `backend.snapshot`, up to the suspension in `backend.submit`. */
    method Snapshotted(env: Environment, op: Operation, answer: Awaited<Snapshot>, attemptId: nat, transactionId: nat)
      returns (r: Progress)
      requires Valid() && op.id < |store.rows|
      modifies this, store
      ensures Valid()
      ensures var segment :=
                old(SnapshotSegment(store.View(), Remembered(), env, op, answer, attemptId, transactionId));
              Performed(segment.commits, segment.memory) && r == segment.outcome
    {
      hide ApplyAll, Apply, MayMove, RejectSegment, Matches;
      ghost var j := store.View();
      NoCommits(j);
      if answer.Broken? {
        busy := busy - {op.Pod()};
        return Raising(None);
      }
      if answer.Raised? {
        r := Reject(op, answer.code);
        return;
      }
      var snap := answer.value;
      if !snap.ready {
        r := Reject(op, NotReady);
        return;
      }
      var stored := store.Get(op.id);
      if stored.value.state != Requested {
        busy := busy - {op.Pod()};
        return Finished(stored.value);
      }
      var validated := Transition(op, Validated, NO_EVIDENCE);
      if validated.Err? {
        r := Reject(op, validated.code);
        return;
      }
      r := Deliver(env, validated.value, snap, attemptId, transactionId);
    }

    method Deliver(env: Environment, op: Operation, snap: Snapshot, attemptId: nat, transactionId: nat)
      returns (r: Progress)
      requires Valid() && op.id < |store.rows|
      modifies this, store
      ensures Valid()
      ensures var segment := old(ValidatedSegment(Remembered(), env, op, snap, attemptId, transactionId));
              Performed(segment.commits, segment.memory) && r == segment.outcome
    {
      hide ApplyAll, Apply, MayMove, Matches, LawfulAll, Lawful;
      ghost var j := store.View();
      One(j, Update(op));
      UpdatedRow(j, op);
      store.Save(op);
      ghost var j1 := store.View();
      var target := op.intent.Target(env.vault);
      if target.Err? {
        busy := busy - {op.Pod()};
        return Raising(Some(target.code));
      }
      var next;
      if snap.observed.Satisfies(target.value) && Matches(snap.config, target.value) {
        var evidence := EvidenceFrom(snap, true);
        next := Transition(op, ObservedApplied, Presented(evidence));
        if next.Ok? {
          var final := next.value.(changed := Some(false), applied := Some(evidence));
          Two(j, Update(op), Update(final));
          UpdatedRow(j1, final);
          store.Save(final);
          busy := busy - {op.Pod()};
          return Finished(final);
        }
      } else {
        var attempt := Attempt(attemptId, transactionId, snap.generation, env.now.wall);
        next := Transition(op.(attempts := op.attempts + [attempt]), Submitted, NO_EVIDENCE);
        if next.Ok? {
          var final := next.value.(commit := UNATTRIBUTED);
          Two(j, Update(op), Update(final));
          UpdatedRow(j1, final);
          store.Save(final);
          return Waiting(Submitting(final, attempt));
        }
      }
      busy := busy - {op.Pod()};
      r := Guarded(next.code);
    }

    /** After `backend.submit`: a conflict is recorded before the operation that met it. */
    method Replied(op: Operation, reply: Awaited<SubmitResult>) returns (r: Progress)
      requires Valid() && op.id < |store.rows|
      modifies this, store
      ensures Valid()
      ensures var segment := old(ReplySegment(Remembered(), op, reply));
              Performed(segment.commits, segment.memory) && r == segment.outcome
    {
      hide Resolution, ApplyAll, Apply, LawfulAll, Lawful;
      ghost var j := store.View();
      NoCommits(j);
      var final := Resolution(op, reply);
      if final.Ok? {
        ResolutionIdentity(op, reply);
        if reply.Returned? && reply.value.status == StatusConflict {
          var record := ConflictRecord(op.id, GuardFailed(reply.value.reason));
          Two(j, Conflict(op.Pod(), record), Update(final.value));
          ConflictedPod(j, op.Pod(), record);
          assert [Conflict(op.Pod(), record)] + [Update(final.value)] == [Conflict(op.Pod(), record), Update(final.value)];
          store.RecordConflict(op.Pod(), record);
        } else {
          One(j, Update(final.value));
          assert [] + [Update(final.value)] == [Update(final.value)];
        }
        UpdatedRow(store.View(), final.value);
        store.Save(final.value);
        r := Finished(final.value);
      } else {
        r := Guarded(final.code);
      }
      busy := busy - {op.Pod()};
    }

    // -- reconcile ----------------------------------------------------------------

    method EstablishDeadline(env: Environment, op: Operation) returns (expired: bool)
      modifies this`deadlines
      ensures expired == old(Expired(Remembered(), op, env.now))
      ensures deadlines == old(deadlines)[op.id := old(DeadlineOf(Remembered(), op, env.now))]
    {
      if op.id !in deadlines {
        deadlines := deadlines[op.id := env.now.mono + RealMax(0.0, op.deadlineAt - env.now.wall)];
      } else {
        assert deadlines[op.id := deadlines[op.id]] == deadlines;
      }
      expired := env.now.mono >= deadlines[op.id];
    }

    /** An observation is journalled once per distinct signature, and only of a record whose target
        is known. */
    method NoteObservation(op: Operation, snap: Snapshot, known: bool)
      requires Valid()
      modifies this`observations, store
      ensures Valid() && store.rows == old(store.rows)
      ensures observations == if known then old(observations)[op.id := SignatureOf(snap)] else old(observations)
      ensures var seen := op.id in old(observations) && old(observations)[op.id] == SignatureOf(snap);
              var commits := if known then Optional(!seen, Observe(op.run, op.Pod(), op.id)) else [];
              store.history == old(store.history) + commits && store.View() == ApplyAll(old(store.View()), commits)
    {
      hide ApplyAll, Apply;
      NoCommits(store.View());
      if !known {
      } else if !(op.id in observations && observations[op.id] == SignatureOf(snap)) {
        observations := observations[op.id := SignatureOf(snap)];
        One(store.View(), Observe(op.run, op.Pod(), op.id));
        ObservedRow(store.View(), op.run, op.Pod(), op.id);
        store.RecordEvent(op.run, op.Pod(), op.id);
      } else {
        assert observations[op.id := SignatureOf(snap)] == observations;
      }
    }

    method SaveVerdict(op: Operation, verdict: Verdict)
      requires Valid() && op.id < |store.rows| && verdict.op.id == op.id
      modifies store
      ensures Valid()
      ensures var commits :=
                Optional(verdict.conflict, Conflict(op.Pod(), ConflictRecord(op.id, ConfigurationChanged)))
                + Optional(verdict.changed && verdict.raised == None, Update(verdict.op));
              store.history == old(store.history) + commits && store.View() == ApplyAll(old(store.View()), commits)
    {
      hide ApplyAll, Apply;
      var record := ConflictRecord(op.id, ConfigurationChanged);
      ghost var j := store.View();
      NoCommits(j);
      if verdict.conflict {
        ConflictedPod(j, op.Pod(), record);
        store.RecordConflict(op.Pod(), record);
      }
      One(j, Conflict(op.Pod(), record));
      ghost var j1 := store.View();
      NoCommits(j1);
      if verdict.changed && verdict.raised == None {
        UpdatedRow(j1, verdict.op);
        store.Save(verdict.op);
      }
      One(j1, Update(verdict.op));
      ApplyAllConcat(
        j, Optional(verdict.conflict, Conflict(op.Pod(), record)),
        Optional(verdict.changed && verdict.raised == None, Update(verdict.op)));
    }

    /** What is seen is noted, what is decided is saved. */
    method Weigh(op: Operation, snap: Snapshot, expired: bool, target: Result<Values>) returns (raised: Option<Reason>)
      requires Valid() && op.id < |store.rows|
      modifies this`observations, store
      ensures Valid()
      ensures var v := Judge(op, snap, expired, target);
              var known := target.Ok? && MarkDeadline(op, expired).raised.None?;
              var seen := op.id in old(observations) && old(observations)[op.id] == SignatureOf(snap);
              var commits :=
                (if known then Optional(!seen, Observe(op.run, op.Pod(), op.id)) else [])
                + (Optional(v.conflict, Conflict(op.Pod(), ConflictRecord(op.id, ConfigurationChanged)))
                   + Optional(v.changed && v.raised == None, Update(v.op)));
              && store.history == old(store.history) + commits
              && store.View() == ApplyAll(old(store.View()), commits)
              && observations == (if known then old(observations)[op.id := SignatureOf(snap)] else old(observations))
              && raised == v.raised
    {
      hide ApplyAll, Apply, LawfulAll, Judge, MarkDeadline, SignatureOf, Optional;
      ghost var j := store.View();
      var verdict := Judge(op, snap, expired, target);
      JudgeIdentity(op, snap, expired, target);
      var known := target.Ok? && MarkDeadline(op, expired).raised.None?;
      ghost var seen := op.id in observations && observations[op.id] == SignatureOf(snap);
      ghost var noted := if known then Optional(!seen, Observe(op.run, op.Pod(), op.id)) else [];
      NoteObservation(op, snap, known);
      ghost var decided :=
        Optional(verdict.conflict, Conflict(op.Pod(), ConflictRecord(op.id, ConfigurationChanged)))
        + Optional(verdict.changed && verdict.raised == None, Update(verdict.op));
      SaveVerdict(op, verdict);
      ApplyAllConcat(j, noted, decided);
      raised := verdict.raised;
    }

    method ReconcileOne(env: Environment, op: Operation, snap: Snapshot) returns (raised: Option<Reason>)
      requires Valid() && op.id < |store.rows|
      modifies this, store
      ensures Valid()
      ensures var segment := old(ReconcileRow(Remembered(), env, op, snap));
              Performed(segment.commits, segment.memory) && raised == segment.outcome
    {
      hide Intent.Target, ApplyAll, Apply, LawfulAll, Judge, MarkDeadline, Matches, Expired, DeadlineOf, SignatureOf,
        ReconcileRow, Optional;
      RowCommitsFold(Remembered(), env, op, snap);
      var expired := EstablishDeadline(env, op);
      raised := Weigh(op, snap, expired, op.intent.Target(env.vault));
    }

    /** The scan over the whole journal acts on one operation at most: the newest landed one. */
    method Reconcile(env: Environment, pod: string, snap: Snapshot) returns (raised: Option<Reason>)
      requires Valid()
      modifies this, store
      ensures Valid()
      ensures var segment := old(ReconcileSegment(store.View(), Remembered(), env, pod, snap));
              Performed(segment.commits, segment.memory) && raised == segment.outcome
    {
      hide ApplyAll, Apply, ReconcileRow;
      var all := store.Operations();
      ghost var j := store.View();
      ghost var m := Remembered();
      ghost var last := LastLanded(all, pod);
      NoCommits(j);
      var index := 0;
      while index < |all|
        invariant 0 <= index <= |all|
        invariant Valid()
        invariant index <= last || last < 0 || all[last].state !in WATCHED ==>
                    store.history == old(store.history) && store.View() == j && Remembered() == m
        invariant last >= 0 && index > last && all[last].state in WATCHED ==>
                    var segment := ReconcileRow(m, env, all[last], snap);
                    && store.history == old(store.history) + segment.commits
                    && store.View() == ApplyAll(j, segment.commits)
                    && Remembered() == segment.memory && segment.outcome == None
      {
        var op := all[index];
        if op.Pod() == pod && op.state in WATCHED {
          var newer := NewerLanded(all[index + 1..], pod);
          assert newer <==> index < last by { NewerMeansBeforeLast(all, all[index + 1..], pod, index); }
          if !newer {
            raised := ReconcileOne(env, op, snap);
            if raised.Some? {
              return;
            }
          }
        }
        index := index + 1;
      }
      raised := None;
    }

    method NewerLanded(rest: seq<Operation>, pod: string) returns (newer: bool)
      ensures newer <==> exists k :: 0 <= k < |rest| && LandedOn(rest[k], pod)
    {
      for k := 0 to |rest|
        invariant forall n :: 0 <= n < k ==> !LandedOn(rest[n], pod)
      {
        if LandedOn(rest[k], pod) {
          return true;
        }
      }
      newer := false;
    }

    // -- recover and cancel ---------------------------------------------------------

    method Recover()
      requires Valid()
      modifies store
      ensures Valid()
      ensures Performed(old(RecoverCommits(store.rows)), old(Remembered()))
    {
      hide ApplyAll, Apply, Recovered;
      var all := store.Operations();
      ghost var j := store.View();
      NoCommits(j);
      for i := 0 to |all|
        invariant Valid() && |store.rows| == |all|
        invariant store.history == old(store.history) + RecoverCommits(all[..i])
        invariant store.View() == ApplyAll(j, RecoverCommits(all[..i]))
      {
        assert all[..i + 1][..i] == all[..i];
        assert RecoverCommits(all[..i]) + [] == RecoverCommits(all[..i]);
        var recovered := Recovered(all[i]);
        if recovered.Some? {
          RecoveredIdentity(all[i]);
          ApplyAllConcat(j, RecoverCommits(all[..i]), [Update(recovered.value)]);
          One(store.View(), Update(recovered.value));
          UpdatedRow(store.View(), recovered.value);
          store.Save(recovered.value);
        }
      }
      assert all[..|all|] == all;
    }

    method Cancel(id: nat) returns (r: Result<Operation>)
      requires Valid()
      modifies store
      ensures Valid()
      ensures var segment := old(CancelSegment(store.View(), Remembered(), id));
              Performed(segment.commits, segment.memory) && r == segment.outcome
    {
      hide Apply, ApplyAll, MayMove;
      ghost var j := store.View();
      NoCommits(j);
      var op :- store.Get(id);
      var cancelled :- Transition(op, Cancelled, NO_EVIDENCE);
      One(j, Update(cancelled));
      UpdatedRow(j, cancelled);
      store.Save(cancelled);
      r := Ok(cancelled);
    }
  }

  lemma ResolutionIdentity(op: Operation, reply: Awaited<SubmitResult>)
    requires Resolution(op, reply).Ok?
    ensures Resolution(op, reply).value.id == op.id
  {
  }

  lemma CompareIdentity(v: Verdict, snap: Snapshot, target: Values)
    ensures Compare(v, snap, target).op.id == v.op.id
  {
    hide Matches, MayMove;
  }

  lemma JudgeIdentity(op: Operation, snap: Snapshot, expired: bool, target: Result<Values>)
    ensures var v := Judge(op, snap, expired, target);
            && v.op.id == op.id
            && (v.conflict ==> target.Ok?)
            && (MarkDeadline(op, expired).raised.Some? ==> v == MarkDeadline(op, expired) && !v.conflict)
  {
    hide Compare, MayMove;
    if target.Ok? {
      CompareIdentity(MarkDeadline(op, expired), snap, target.value);
    }
  }

  /** The commits of looking at one record: what was noted, then what was decided. */
  lemma RowCommitsFold(m: Memory, env: Environment, op: Operation, snap: Snapshot)
    ensures var target := op.intent.Target(env.vault);
            var v := Judge(op, snap, Expired(m, op, env.now), target);
            var looked := target.Ok? && MarkDeadline(op, Expired(m, op, env.now)).raised.None?;
            var seen := op.id in m.observations && m.observations[op.id] == SignatureOf(snap);
            var timed := m.(deadlines := m.deadlines[op.id := DeadlineOf(m, op, env.now)]);
            ReconcileRow(m, env, op, snap) == Segment(
              (if looked then Optional(!seen, Observe(op.run, op.Pod(), op.id)) else [])
              + (Optional(v.conflict, Conflict(op.Pod(), ConflictRecord(op.id, ConfigurationChanged)))
                 + Optional(v.changed && v.raised == None, Update(v.op))),
              if looked then timed.(observations := timed.observations[op.id := SignatureOf(snap)]) else timed,
              v.raised)
  {
    hide Judge, MarkDeadline, Expired, SignatureOf, DeadlineOf;
    JudgeIdentity(op, snap, Expired(m, op, env.now), op.intent.Target(env.vault));
    ghost var v := Judge(op, snap, Expired(m, op, env.now), op.intent.Target(env.vault));
    assert [] + Optional(v.changed && v.raised == None, Update(v.op)) == Optional(v.changed && v.raised == None, Update(v.op));
  }

  predicate OtherActiveOn(op: Operation, pod: string, id: nat) {
    op.Pod() == pod && op.state in ACTIVE && op.id != id
  }

  lemma OthersActive(rows: seq<Operation>, op: Operation, pod: string)
    requires Identified(rows) && op.id == |rows|
    ensures (exists i :: 0 <= i < |rows + [op]| && OtherActiveOn((rows + [op])[i], pod, op.id)) <==> PodActive(rows, pod)
  {
    var longer := rows + [op];
    if PodActive(rows, pod) {
      var i :| 0 <= i < |rows| && rows[i].Pod() == pod && rows[i].state in ACTIVE;
      assert OtherActiveOn(longer[i], pod, op.id);
    }
  }

  lemma RecoveredIdentity(op: Operation)
    ensures Recovered(op).Some? ==> Recovered(op).value.id == op.id
  {
  }

  lemma NewerMeansBeforeLast(all: seq<Operation>, rest: seq<Operation>, pod: string, index: nat)
    requires index < |all| && LandedOn(all[index], pod) && rest == all[index + 1..]
    ensures (exists k :: 0 <= k < |rest| && LandedOn(rest[k], pod)) <==> index < LastLanded(all, pod)
  {
    var last := LastLanded(all, pod);
    if index < last {
      assert rest[last - index - 1] == all[last];
    }
  }
}
