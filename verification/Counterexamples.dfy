/** Where the tempting claims about the engine fail: concrete runs that show it. */
module Counterexamples {
  import opened Basics
  import opened Lifecycle
  import opened Journal
  import opened Protocol
  import opened Runs
  import opened Safety
  import opened ModelBackends
  import opened OneActive
  import opened Undisturbed
  import Reconciling

  // -- Stepping a world -----------------------------------------------------------------

  /** What matters of a world in a short scenario. */
  ghost predicate Shows(w: World, rows: seq<Operation>, frames: map<string, Frame>, conflicts: set<string>) {
    && w.up && w.journal.rows == rows && w.frames == frames && w.journal.conflicts.Keys == conflicts
    && w.memory.busy == frames.Keys && !w.memory.quiesced && w.journal.maxOperations > 2
  }

  lemma RequestEnters(w: World, a: Arguments, op: Operation)
    requires Shows(w, w.journal.rows, w.frames, {}) && w.frames == map[] && |w.journal.rows| <= 1
    requires Admission(w.env, a).Ok? && FindKey(w.journal.rows, a.source, a.intent.podId, a.key).None?
    requires !PodActive(w.journal.rows, a.intent.podId)
    requires op == NewOperation(
               |w.journal.rows|, a.run, a.source, a.intent, Fingerprint(a.intent, Admission(w.env, a).value), a.key,
               w.env.now.wall + a.deadline)
    ensures CanStep(w, Request(a)) && Commits(w, Request(a)) == [Insert(op)]
    ensures Shows(Next(w, Do(Request(a))), w.journal.rows + [op], map[], {})
    ensures Next(w, Do(Request(a))).env == w.env && Next(w, Do(Request(a))).calls == w.calls
  {
    hide Admission, ApplyAll, Apply, PodActive;
    One(w.journal, Insert(op));
    InsertedRow(w.journal, op);
    ConflictsOf(w.journal, Insert(op));
    ConfigurationKept(w.journal, Insert(op));
  }

  lemma ConfigurationKept(j: Journal, c: Commit)
    ensures Apply(j, c).maxOperations == j.maxOperations
  {
  }

  lemma StartOpens(w: World, id: nat)
    requires Shows(w, w.journal.rows, map[], {}) && id < |w.journal.rows|
    requires w.journal.rows[id].state == Requested && w.journal.rows[id].Pod() in w.env.pods
    ensures var op := w.journal.rows[id];
            CanStep(w, ExecStart(id))
            && Shows(Next(w, Do(ExecStart(id))), w.journal.rows, map[op.Pod() := Planning(op)], {})
    ensures Next(w, Do(ExecStart(id))).env == w.env && Next(w, Do(ExecStart(id))).calls == w.calls
    ensures Next(w, Do(ExecStart(id))).memory.deadlines == w.memory.deadlines
  {
    hide ApplyAll;
    Nothing(w.journal);
  }

  lemma PlanPasses(w: World, pod: string, conflicts: set<string>)
    requires pod in w.frames && w.frames[pod].Planning? && Shows(w, w.journal.rows, w.frames, conflicts)
    ensures var s := PlanReturn(pod, Returned(true));
            && CanStep(w, s)
            && Shows(Next(w, Do(s)), w.journal.rows, w.frames[pod := Snapshotting(w.frames[pod].op)], conflicts)
            && Next(w, Do(s)).env == w.env && Next(w, Do(s)).calls == w.calls
            && Next(w, Do(s)).memory.deadlines == w.memory.deadlines
  {
    hide ApplyAll;
    Nothing(w.journal);
  }

  function SubmittedFrom(op: Operation, attempt: Attempt): Operation {
    op.(attempts := [attempt], state := Submitted, commit := UNATTRIBUTED)
  }

  lemma SnapshotSends(w: World, pod: string, snap: Snapshot, attempt: Attempt, target: Values, conflicts: set<string>)
    requires Shows(w, w.journal.rows, w.frames, conflicts) && w.frames.Keys == {pod} && w.frames[pod].Snapshotting?
    requires var op := w.frames[pod].op;
             && op.id < |w.journal.rows| && w.journal.rows[op.id] == op && op.state == Requested && op.attempts == []
             && op.Pod() == pod && op.intent.Target(w.env.vault) == Ok(target)
    requires snap.ready && !Matches(snap.config, target)
    requires attempt.generation == snap.generation && attempt.preparedAt == w.env.now.wall
    ensures var s := SnapshotReturn(pod, Returned(snap), attempt.attemptId, attempt.transactionId);
            var op := SubmittedFrom(w.frames[pod].op, attempt);
            && CanStep(w, s)
            && Shows(Next(w, Do(s)), w.journal.rows[op.id := op], map[pod := Submitting(op, attempt)], conflicts)
            && Next(w, Do(s)).env == w.env && Next(w, Do(s)).calls == w.calls
            && Next(w, Do(s)).memory.deadlines == w.memory.deadlines
  {
    hide ApplyAll, Apply, Matches, SendSegment;
    var op := w.frames[pod].op;
    var validated := op.(state := Validated);
    var final := SubmittedFrom(op, attempt);
    SendOutcome(w.memory, validated, attempt);
    assert [] + [attempt] == [attempt];
    assert validated.(attempts := validated.attempts + [attempt], state := Submitted, commit := UNATTRIBUTED) == final;
    Two(w.journal, Update(validated), Update(final));
    UpdatedRow(w.journal, validated);
    UpdatedRow(Apply(w.journal, Update(validated)), final);
    ConfigurationKept(w.journal, Update(validated));
    ConfigurationKept(Apply(w.journal, Update(validated)), Update(final));
    assert w.frames[pod := Submitting(final, attempt)] == map[pod := Submitting(final, attempt)];
  }

  lemma CallRecords(w: World, pod: string, reply: Awaited<SubmitResult>, conflicts: set<string>)
    requires Shows(w, w.journal.rows, w.frames, conflicts) && w.frames.Keys == {pod} && w.frames[pod].Submitting?
    requires Conforming(reply)
    ensures var f := w.frames[pod];
            var s := SubmitCall(pod, reply);
            && CanStep(w, s)
            && Shows(Next(w, Do(s)), w.journal.rows, map[pod := Replying(f.op, f.attempt, reply)], conflicts)
            && Next(w, Do(s)).env == w.env && Next(w, Do(s)).memory.deadlines == w.memory.deadlines
            && Next(w, Do(s)).calls == w.calls + [Call(f.op.id, f.attempt, pod, pod in conflicts)]
  {
    hide ApplyAll;
    Nothing(w.journal);
    var f := w.frames[pod];
    assert w.frames[pod := Replying(f.op, f.attempt, reply)] == map[pod := Replying(f.op, f.attempt, reply)];
  }

  function CommittedFrom(op: Operation, evidence: CommitEvidence): Operation {
    op.(state := ConfigCommitted, commit := evidence, changed := Some(true))
  }

  lemma ReplyCommits(w: World, pod: string, evidence: CommitEvidence)
    requires Shows(w, w.journal.rows, w.frames, {}) && w.frames.Keys == {pod} && w.frames[pod].Replying?
    requires w.frames[pod].op.state == Submitted && w.frames[pod].op.id < |w.journal.rows| && w.frames[pod].op.Pod() == pod
    requires w.frames[pod].reply == Returned(SubmitResult(StatusCommitted, evidence, None)) && evidence.validated
    ensures var op := CommittedFrom(w.frames[pod].op, evidence);
            && CanStep(w, SubmitReturn(pod))
            && Shows(Next(w, Do(SubmitReturn(pod))), w.journal.rows[op.id := op], map[], {})
            && Next(w, Do(SubmitReturn(pod))).env == w.env && Next(w, Do(SubmitReturn(pod))).calls == w.calls
            && Next(w, Do(SubmitReturn(pod))).memory.deadlines == w.memory.deadlines
  {
    hide ApplyAll, Apply;
    var op := CommittedFrom(w.frames[pod].op, evidence);
    assert [] + [Update(op)] == [Update(op)];
    One(w.journal, Update(op));
    UpdatedRow(w.journal, op);
    ConfigurationKept(w.journal, Update(op));
    assert w.frames - {pod} == map[];
  }

  // -- An execution that commits ----------------------------------------------------------

  ghost predicate Chain(labs: seq<Lab>, moves: seq<Move>) {
    && |labs| == |moves| + 1
    && forall i :: 0 <= i < |moves| ==> Moves(labs[i], moves[i]) && labs[i + 1] == Moved(labs[i], moves[i])
  }

  lemma ChainJoin(labs: seq<Lab>, moves: seq<Move>, labs': seq<Lab>, moves': seq<Move>)
    requires Chain(labs, moves) && Chain(labs', moves') && labs'[0] == labs[|moves|]
    ensures Chain(labs + labs'[1..], moves + moves')
  {
    hide Moves, Moved;
    var all, more := labs + labs'[1..], moves + moves';
    forall i | 0 <= i < |more|
      ensures Moves(all[i], more[i]) && all[i + 1] == Moved(all[i], more[i])
    {
      if i >= |moves| {
        var n := i - |moves|;
        assert more[i] == moves'[n] && all[i + 1] == labs'[n + 1];
        assert all[i] == labs'[n];
      } else {
        assert more[i] == moves[i] && all[i] == labs[i] && all[i + 1] == labs[i + 1];
      }
    }
  }

  /** A pod that will take the next write: connected, healthy and inside the designated scope. */
  predicate Willing(d: Device, intent: Intent) {
    d.ready && d.fault == NoFault && d.podId == intent.podId && intent.radioId == "radio-1" && intent.bssId == "bss-1"
  }

  ghost predicate AllDone(moves: seq<Move>) {
    forall i :: 0 <= i < |moves| ==> moves[i].Engine? && moves[i].action.Do?
  }

  /** The situation of one execution at one of its suspension points. */
  ghost predicate At(
    lab: Lab, rows: seq<Operation>, frames: map<string, Frame>, env: Environment, devices: map<string, Device>)
  {
    && Shows(lab.world, rows, frames, {}) && lab.world.env == env && lab.devices == devices
    && lab.world.memory.deadlines == map[]
  }

  lemma Started(lab: Lab, rows: seq<Operation>, env: Environment, devices: map<string, Device>, id: nat)
    returns (m: Move)
    requires At(lab, rows, map[], env, devices)
    requires id < |rows| && rows[id].state == Requested && rows[id].Pod() in env.pods
    ensures m == Engine(Do(ExecStart(id))) && Moves(lab, m)
    ensures At(Moved(lab, m), rows, map[rows[id].Pod() := Planning(rows[id])], env, devices)
  {
    hide Next, CanStep;
    StartOpens(lab.world, id);
    m := Engine(Do(ExecStart(id)));
  }

  lemma Planned(lab: Lab, rows: seq<Operation>, op: Operation, env: Environment, devices: map<string, Device>)
    returns (m: Move)
    requires At(lab, rows, map[op.Pod() := Planning(op)], env, devices)
    requires op.Pod() in devices && Willing(devices[op.Pod()], op.intent) && op.intent.Target(env.vault).Ok?
    ensures m == Engine(Do(PlanReturn(op.Pod(), Returned(true)))) && Moves(lab, m)
    ensures At(Moved(lab, m), rows, map[op.Pod() := Snapshotting(op)], env, devices)
  {
    hide Next;
    PlanPasses(lab.world, op.Pod(), {});
    m := Engine(Do(PlanReturn(op.Pod(), Returned(true))));
    assert lab.world.frames[op.Pod() := Snapshotting(op)] == map[op.Pod() := Snapshotting(op)];
  }

  lemma Sent(
    lab: Lab, rows: seq<Operation>, op: Operation, env: Environment, devices: map<string, Device>, attempt: Attempt,
    target: Values) returns (m: Move)
    requires At(lab, rows, map[op.Pod() := Snapshotting(op)], env, devices)
    requires op.id < |rows| && rows[op.id] == op && op.state == Requested && op.attempts == []
    requires op.Pod() in devices && Willing(devices[op.Pod()], op.intent) && op.intent.Target(env.vault) == Ok(target)
    requires !Matches(devices[op.Pod()].config, target)
    requires attempt == Attempt(0, 0, devices[op.Pod()].generation, env.now.wall)
    ensures m == Engine(Do(SnapshotReturn(op.Pod(), Returned(SnapshotOf(devices[op.Pod()])), 0, 0))) && Moves(lab, m)
    ensures var sent := SubmittedFrom(op, attempt);
            At(Moved(lab, m), rows[op.id := sent], map[op.Pod() := Submitting(sent, attempt)], env, devices)
  {
    hide Next, Matches;
    var d := devices[op.Pod()];
    SnapshotSends(lab.world, op.Pod(), SnapshotOf(d), attempt, target, {});
    m := Engine(Do(SnapshotReturn(op.Pod(), Returned(SnapshotOf(d)), 0, 0)));
  }

  lemma Called(
    lab: Lab, rows: seq<Operation>, op: Operation, env: Environment, devices: map<string, Device>, attempt: Attempt,
    target: Values) returns (m: Move, evidence: CommitEvidence, d: Device)
    requires At(lab, rows, map[op.Pod() := Submitting(op, attempt)], env, devices)
    requires op.Pod() in devices && Willing(devices[op.Pod()], op.intent) && op.intent.Target(env.vault) == Ok(target)
    ensures m.Engine? && m.action.Do? && Moves(lab, m) && evidence.validated
    ensures Willing(d, op.intent) && d.config == devices[op.Pod()].config + target
    ensures At(
              Moved(lab, m), rows,
              map[op.Pod() := Replying(op, attempt, Returned(SubmitResult(StatusCommitted, evidence, None)))],
              env, devices[op.Pod() := d])
  {
    hide Next, SubmitOn, Willing;
    d := SubmitOn(devices[op.Pod()], op.intent, attempt, env.vault).0;
    var reply := SubmitOn(devices[op.Pod()], op.intent, attempt, env.vault).1;
    SubmitCommits(devices[op.Pod()], op.intent, attempt, env.vault, target);
    evidence := reply.value.evidence;
    CallRecords(lab.world, op.Pod(), reply, {});
    m := Engine(Do(SubmitCall(op.Pod(), reply)));
  }

  lemma Answered(
    lab: Lab, rows: seq<Operation>, op: Operation, env: Environment, devices: map<string, Device>, attempt: Attempt,
    evidence: CommitEvidence) returns (m: Move)
    requires At(
               lab, rows, map[op.Pod() := Replying(op, attempt, Returned(SubmitResult(StatusCommitted, evidence, None)))],
               env, devices)
    requires op.state == Submitted && op.id < |rows| && evidence.validated
    ensures m == Engine(Do(SubmitReturn(op.Pod()))) && Moves(lab, m)
    ensures At(Moved(lab, m), rows[op.id := CommittedFrom(op, evidence)], map[], env, devices)
  {
    hide Next;
    ReplyCommits(lab.world, op.Pod(), evidence);
    m := Engine(Do(SubmitReturn(op.Pod())));
  }

  /** Executing a stored request on an idle, willing pod takes five steps and leaves the
      request CONFIG_COMMITTED and its target configured, whatever else is in the journal. */
  lemma ExecutionCommits(
    lab: Lab, rows: seq<Operation>, env: Environment, devices: map<string, Device>, id: nat, target: Values)
    returns (labs: seq<Lab>, moves: seq<Move>, attempt: Attempt, evidence: CommitEvidence, d: Device)
    requires At(lab, rows, map[], env, devices) && id < |rows|
    requires var op := rows[id];
             && op.id == id && op.state == Requested && op.attempts == [] && op.Pod() in env.pods
             && op.Pod() in devices && Willing(devices[op.Pod()], op.intent)
             && op.intent.Target(env.vault) == Ok(target) && !Matches(devices[op.Pod()].config, target)
    ensures Chain(labs, moves) && labs[0] == lab && |moves| == 5 && AllDone(moves)
    ensures Willing(d, rows[id].intent) && d.config == devices[rows[id].Pod()].config + target
    ensures At(
              labs[5], rows[id := CommittedFrom(SubmittedFrom(rows[id], attempt), evidence)], map[], env,
              devices[rows[id].Pod() := d])
  {
    hide At, Moves, Moved, Matches, Willing;
    var op := rows[id];
    attempt := Attempt(0, 0, devices[op.Pod()].generation, env.now.wall);
    var sent := SubmittedFrom(op, attempt);
    var m0 := Started(lab, rows, env, devices, id);
    var l1 := Moved(lab, m0);
    var m1 := Planned(l1, rows, op, env, devices);
    var l2 := Moved(l1, m1);
    var m2 := Sent(l2, rows, op, env, devices, attempt, target);
    var l3 := Moved(l2, m2);
    var m3;
    m3, evidence, d := Called(l3, rows[id := sent], sent, env, devices, attempt, target);
    var l4 := Moved(l3, m3);
    var m4 := Answered(l4, rows[id := sent], sent, env, devices[op.Pod() := d], attempt, evidence);
    labs, moves := [lab, l1, l2, l3, l4, Moved(l4, m4)], [m0, m1, m2, m3, m4];
    assert rows[id := sent][id := CommittedFrom(sent, evidence)] == rows[id := CommittedFrom(sent, evidence)];
  }

  lemma SubmitCommits(d: Device, intent: Intent, attempt: Attempt, vault: Vault, target: Values)
    requires Willing(d, intent) && intent.Target(vault) == Ok(target)
    ensures var (later, reply) := SubmitOn(d, intent, attempt, vault);
            && reply == Returned(SubmitResult(StatusCommitted, CommitEvidence(Reply, true, Some(attempt.transactionId)), None))
            && Conforming(reply) && Willing(later, intent) && later.config == d.config + target
  {
  }


  // -- A crash inside a request makes the engine blame another writer ------------------------

  lemma RequestSplit(w: World, a: Arguments, op: Operation)
    requires Shows(w, w.journal.rows, map[], {}) && |w.journal.rows| == 1
    requires Admission(w.env, a).Ok? && FindKey(w.journal.rows, a.source, a.intent.podId, a.key).None?
    requires PodActive(w.journal.rows, a.intent.podId)
    requires op == NewOperation(
               |w.journal.rows|, a.run, a.source, a.intent, Fingerprint(a.intent, Admission(w.env, a).value), a.key,
               w.env.now.wall + a.deadline)
    ensures Possible(w, Crash(Request(a), 1)) && SplitsRequest(w, Crash(Request(a), 1))
    ensures var later := Next(w, Crash(Request(a), 1));
            && later.journal.rows == w.journal.rows + [op] && later.journal.conflicts == map[]
            && later.journal.maxOperations == w.journal.maxOperations
            && !later.up && later.frames == map[] && later.memory == FRESH_PROCESS && later.env == w.env
  {
    hide Admission, ApplyAll, Apply, PodActive;
    var commits := Commits(w, Request(a));
    assert commits == [Insert(op), Update(Refused(op, Busy))];
    assert commits[..1] == [Insert(op)];
    One(w.journal, Insert(op));
    InsertedRow(w.journal, op);
    ConflictsOf(w.journal, Insert(op));
    ConfigurationKept(w.journal, Insert(op));
  }

  lemma Restarted(w: World, rows: seq<Operation>)
    requires w.journal.rows == rows && w.journal.conflicts == map[] && w.journal.maxOperations > 2
    requires !w.up && w.frames == map[] && w.memory == FRESH_PROCESS && |rows| == 2
    requires rows[0].state == Requested && rows[1].state == Requested
    ensures CanStep(w, Restart(0.0)) && Shows(Next(w, Do(Restart(0.0))), rows, map[], {})
    ensures Next(w, Do(Restart(0.0))).env == w.env.(now := Instant(0.0, w.env.now.wall))
    ensures Next(w, Do(Restart(0.0))).memory.deadlines == map[]
  {
    hide ApplyAll;
    Nothing(w.journal);
    assert rows[..1][..0] == [] && rows[..1][0] == rows[0];
    assert RecoverCommits(rows[..0]) == [];
    assert RecoverCommits(rows[..1]) == [];
  }

  /** A committed operation whose configuration is gone loses its pod. */
  lemma OwnershipTaken(w: World, pod: string, snap: Snapshot, id: nat, target: Values)
    requires w.up && id < |w.journal.rows| && LastLanded(w.journal.rows, pod) == id
    requires var op := w.journal.rows[id];
             && op.id == id && op.state == ConfigCommitted && op.Pod() == pod && op.intent.Target(w.env.vault) == Ok(target)
             && op.reason == None && !Expired(w.memory, op, w.env.now)
    requires snap.ready && snap.observed.isFresh && !Matches(snap.config, target)
    ensures CanStep(w, Reconcile(pod, snap))
    ensures var later := Next(w, Do(Reconcile(pod, snap))).journal;
            && pod in later.conflicts && |later.rows| == |w.journal.rows|
            && later.rows[id].state == OwnershipConflict
            && forall i :: 0 <= i < |later.rows| && i != id ==> later.rows[i] == w.journal.rows[i]
  {
    hide ApplyAll, Apply, Judge, MarkDeadline, Expired, DeadlineOf, Matches, SignatureOf, LastLanded;
    var j := w.journal;
    var op := j.rows[id];
    var lost := op.(state := OwnershipConflict, reason := Some(OwnershipLost));
    var loss := Conflict(pod, ConflictRecord(id, ConfigurationChanged));
    var note := Observe(op.run, pod, id);
    var seen := id in w.memory.observations && w.memory.observations[id] == SignatureOf(snap);
    var j1 := if seen then j else Apply(j, note);
    JudgeTaken(op, snap, target);
    assert Commits(w, Reconcile(pod, snap)) == Optional(!seen, note) + Optional(true, loss) + Optional(true, Update(lost));
    Reconciling.FoldRow(j, !seen, true, true, note, loss, Update(lost));
    ObservedRow(j, op.run, pod, id);
    ConflictedPod(j1, pod, loss.record);
    UpdatedRow(Apply(j1, loss), lost);
  }

  lemma JudgeTaken(op: Operation, snap: Snapshot, target: Values)
    requires op.state == ConfigCommitted && op.reason == None
    requires snap.ready && snap.observed.isFresh && !Matches(snap.config, target)
    ensures Judge(op, snap, false, Ok(target))
         == Verdict(op.(state := OwnershipConflict, reason := Some(OwnershipLost)), true, true, None)
    ensures MarkDeadline(op, false).raised == None
  {
    hide Matches;
  }

  // The scenario: two requests for one pod, asking for networks "A" and "B".

  const POD := "pod-1"

  function Wanting(ssid: byte): Intent {
    Intent(POD, "radio-1", "bss-1", [ssid], "key", true, "wpa2-psk")
  }

  function Asking(ssid: byte, key: string): Arguments {
    Arguments(Wanting(ssid), "test", key, "run", 30.0, true)
  }

  const SECRETS: Vault := map["key" := Ok(Ascii("a-test-credential"))]
  const START := Environment(SECRETS, Instant(0.0, 0.0), {POD})

  function WantedValues(ssid: byte): Values
    requires ssid != 0
  {
    Wanting(ssid).Target(SECRETS).value
  }

  const NEW_DEVICE := Device(POD, INITIAL_CONFIG, INITIAL_CONFIG, true, 1, 1, 0, None, NoFault)

  function Asked(id: nat, ssid: byte, key: string): Operation
    requires ssid != 0
  {
    NewOperation(id, "run", "test", Wanting(ssid), Fingerprint(Wanting(ssid), WantedValues(ssid)), key, 30.0)
  }

  const EMPTY_LAB := Lab(
    World(Journal([], map[], map[], 10, 10), FRESH_PROCESS, map[], true, START, []), map[POD := NEW_DEVICE])

  lemma WantedTarget(ssid: byte)
    requires ssid != 0
    ensures Wanting(ssid).Target(SECRETS) == Ok(WantedValues(ssid))
    ensures Admission(START, Asking(ssid, "a")) == Ok(WantedValues(ssid))
    ensures Admission(START, Asking(ssid, "b")) == Ok(WantedValues(ssid))
    ensures WantedValues(ssid)[Ssid] == Text([ssid]) && Ssid in WantedValues(ssid)
  {
  }

  /** The state after both requests were journalled and the process restarted: two active
      operations on one pod, and nothing left in flight. */
  lemma TwoRequests() returns (labs: seq<Lab>, moves: seq<Move>)
    ensures Chain(labs, moves) && labs[0] == EMPTY_LAB && |moves| == 3
    ensures forall i :: 0 <= i < 3 ==> moves[i].Engine?
    ensures moves[0].action.Do? && moves[2].action.Do? && SplitsRequest(labs[1].world, moves[1].action)
    ensures At(
              labs[3], [Asked(0, 65, "a"), Asked(1, 66, "b")], map[], START, map[POD := NEW_DEVICE])
  {
    hide Next, Admission, SplitsRequest, CanStep, PodActive, WantedValues, INITIAL_CONFIG, RequestSegment;
    var opA, opB := Asked(0, 65, "a"), Asked(1, 66, "b");
    var a, b := Asking(65, "a"), Asking(66, "b");
    WantedTarget(65);
    WantedTarget(66);
    assert !PodActive([], POD) by { NobodyActive(); }
    RequestEnters(EMPTY_LAB.world, a, opA);
    var m0 := Engine(Do(Request(a)));
    var l1 := Moved(EMPTY_LAB, m0);
    assert [] + [opA] == [opA];
    FirstIsActive(opA);
    RequestSplit(l1.world, b, opB);
    var m1 := Engine(Crash(Request(b), 1));
    var l2 := Moved(l1, m1);
    assert [opA] + [opB] == [opA, opB];
    Restarted(l2.world, [opA, opB]);
    var m2 := Engine(Do(Restart(0.0)));
    labs, moves := [EMPTY_LAB, l1, l2, Moved(l2, m2)], [m0, m1, m2];
  }

  lemma NobodyActive()
    ensures !PodActive([], POD)
  {
  }

  lemma FirstIsActive(op: Operation)
    requires op.Pod() == POD && op.state == Requested
    ensures PodActive([op], POD)
  {
    assert [op][0].state in ACTIVE;
  }

  /** No one but the engine ever writes, every answer is faithful and the secrets never change,
      yet one crash between journalling a request and rejecting it lets the engine record an
      ownership conflict against itself. So the condition of `NoSpuriousConflict` is needed. */
  lemma SplitRequestLosesOwnership() returns (labs: seq<Lab>, moves: seq<Move>)
    ensures IsLabRun(labs, moves)
    ensures forall i :: 0 <= i < |moves| ==> moves[i].Engine? && (i != 1 ==> LeftAlone(labs[i], moves[i]))
    ensures |moves| > 1 && SplitsRequest(labs[1].world, moves[1].action)
    ensures var last := labs[|moves|].world.journal;
            POD in last.conflicts && |last.rows| == 2 && last.rows[1].state == OwnershipConflict
  {
    hide Moved, Moves, At, SplitsRequest, CanStep, Matches;
    var labs0, moves0 := TwoRequests();
    var rows := [Asked(0, 65, "a"), Asked(1, 66, "b")];
    WantedTarget(65);
    WantedTarget(66);
    FreshDeviceDiffers(66);
    var labs1, moves1, attempt1, evidence1, d1 :=
      ExecutionCommits(labs0[3], rows, START, map[POD := NEW_DEVICE], 1, WantedValues(66));
    var rows1 := rows[1 := CommittedFrom(SubmittedFrom(rows[1], attempt1), evidence1)];
    WrittenDiffers(d1, NEW_DEVICE.config, 66, 65);
    var labs2, moves2, attempt2, evidence2, d2 :=
      ExecutionCommits(labs1[5], rows1, START, map[POD := NEW_DEVICE][POD := d1], 0, WantedValues(65));
    var rows2 := rows1[0 := CommittedFrom(SubmittedFrom(rows1[0], attempt2), evidence2)];
    WrittenDiffers(d2, d1.config, 65, 66);
    var final := labs2[5];
    var m := Engine(Do(Reconcile(POD, SnapshotOf(d2))));
    LastOfTwo(final, rows2, map[POD := NEW_DEVICE][POD := d1][POD := d2], d2);
    ChainJoin(labs0, moves0, labs1, moves1);
    ChainJoin(labs0 + labs1[1..], moves0 + moves1, labs2, moves2);
    ChainJoin(labs0 + labs1[1..] + labs2[1..], moves0 + moves1 + moves2, [final, Moved(final, m)], [m]);
    labs := labs0 + labs1[1..] + labs2[1..] + [final, Moved(final, m)][1..];
    moves := moves0 + moves1 + moves2 + [m];
    assert labs[0] == EMPTY_LAB && labs[|moves|] == Moved(final, m);
    assert labs[1] == labs0[1] && moves[1] == moves0[1];
    EmptyLabStarts();
    forall i | 0 <= i < |moves| && i != 1
      ensures moves[i].Engine? && LeftAlone(labs[i], moves[i])
    {
      assert moves[i].Engine? && moves[i].action.Do?;
      DoneIsLeftAlone(labs[i], moves[i]);
    }
  }

  lemma DoneIsLeftAlone(lab: Lab, m: Move)
    requires m.Engine? && m.action.Do?
    ensures LeftAlone(lab, m)
  {
  }

  lemma EmptyLabStarts()
    ensures LabStart(EMPTY_LAB)
  {
  }

  lemma FreshDeviceDiffers(ssid: byte)
    requires ssid != 0
    ensures !Matches(INITIAL_CONFIG, WantedValues(ssid)) && Willing(NEW_DEVICE, Wanting(ssid))
  {
    WantedTarget(ssid);
    assert INITIAL_CONFIG[Ssid] == Text(Ascii("initial-network"));
    assert |Ascii("initial-network")| != |[ssid]|;
  }

  lemma WrittenDiffers(d: Device, before: Values, written: byte, wanted: byte)
    requires written != 0 && wanted != 0 && written != wanted
    requires d.config == before + WantedValues(written)
    ensures !Matches(d.config, WantedValues(wanted))
    ensures Willing(d, Wanting(written)) ==> Willing(d, Wanting(wanted))
  {
    WantedTarget(written);
    WantedTarget(wanted);
    assert d.config[Ssid] == Text([written]);
    assert [written][0] != [wanted][0];
  }

  lemma LastOfTwo(lab: Lab, rows: seq<Operation>, devices: map<string, Device>, d: Device)
    requires At(lab, rows, map[], START, devices) && POD in devices && devices[POD] == d
    requires |rows| == 2 && rows[1].state == ConfigCommitted && rows[1].Pod() == POD && rows[1].id == 1
    requires rows[1].reason == None && rows[1].deadlineAt == 30.0 && rows[1].intent == Wanting(66)
    requires Willing(d, Wanting(66)) && !Matches(d.config, WantedValues(66))
    ensures var m := Engine(Do(Reconcile(POD, SnapshotOf(d))));
            && Moves(lab, m)
            && var last := Moved(lab, m).world.journal;
               POD in last.conflicts && |last.rows| == 2 && last.rows[1].state == OwnershipConflict
  {
    hide Next, Matches;
    WantedTarget(66);
    assert LandedOn(rows[1], POD);
    OwnershipTaken(lab.world, POD, SnapshotOf(d), 1, WantedValues(66));
  }

  // -- A cancellation can be overwritten ----------------------------------------------------------

  /** A request is journalled and its execution opened: the prefix of both scenarios. */
  lemma Opened() returns (w1: World, w2: World)
    ensures var op := Asked(0, 65, "a");
            && Initial(EMPTY_LAB.world) && Path([EMPTY_LAB.world, w1, w2], [Do(Request(Asking(65, "a"))), Do(ExecStart(0))])
            && Shows(w2, [op], map[POD := Planning(op)], {}) && w2.env == START && w2.calls == []
  {
    hide Next, Admission, CanStep, PodActive;
    var op := Asked(0, 65, "a");
    WantedTarget(65);
    NobodyActive();
    RequestEnters(EMPTY_LAB.world, Asking(65, "a"), op);
    w1 := Next(EMPTY_LAB.world, Do(Request(Asking(65, "a"))));
    assert [] + [op] == [op];
    StartOpens(w1, 0);
    w2 := Next(w1, Do(ExecStart(0)));
  }

  lemma CancelStores(w: World, op: Operation, frames: map<string, Frame>)
    requires Shows(w, [op], frames, {}) && op.id == 0 && op.state == Requested
    ensures CanStep(w, Cancel(0)) && Shows(Next(w, Do(Cancel(0))), [op.(state := Cancelled)], frames, {})
  {
    hide ApplyAll, Apply;
    var cancelled := op.(state := Cancelled);
    One(w.journal, Update(cancelled));
    UpdatedRow(w.journal, cancelled);
    ConfigurationKept(w.journal, Update(cancelled));
  }

  lemma RejectStores(w: World, op: Operation, stored: Operation, code: Reason)
    requires Shows(w, [stored], map[op.Pod() := Planning(op)], {}) && op.id == 0 && op.state == Requested
    ensures var s := PlanReturn(op.Pod(), Raised(code));
            CanStep(w, s) && Shows(Next(w, Do(s)), [Refused(op, code)], map[], {})
  {
    hide ApplyAll, Apply;
    One(w.journal, Update(Refused(op, code)));
    UpdatedRow(w.journal, Refused(op, code));
    ConfigurationKept(w.journal, Update(Refused(op, code)));
    assert map[op.Pod() := Planning(op)] - {op.Pod()} == map[];
  }

  /** A cancellation acknowledged and durable is replaced by a rejection when the planning that
      was under way then fails: the one persisted change outside the transition table. */
  lemma CancellationOverwritten() returns (worlds: seq<World>, actions: seq<Action>)
    ensures IsRun(worlds, actions) && |actions| == 4 && forall i :: 0 <= i < 4 ==> actions[i].Do?
    ensures |worlds[3].journal.rows| == 1 && worlds[3].journal.rows[0].state == Cancelled
    ensures |worlds[4].journal.rows| == 1 && worlds[4].journal.rows[0].state == Rejected
    ensures Rejected !in Edges(Cancelled)
  {
    hide Next, CanStep, Commits;
    var op := Asked(0, 65, "a");
    var w1, w2 := Opened();
    CancelStores(w2, op, map[POD := Planning(op)]);
    var w3 := Next(w2, Do(Cancel(0)));
    RejectStores(w3, op, op.(state := Cancelled), NotReady);
    worlds := [EMPTY_LAB.world, w1, w2, w3, Next(w3, Do(PlanReturn(POD, Raised(NotReady))))];
    actions := [Do(Request(Asking(65, "a"))), Do(ExecStart(0)), Do(Cancel(0)), Do(PlanReturn(POD, Raised(NotReady)))];
    PathParts(worlds[..3], actions[..2]);
  }

  lemma PathParts(worlds: seq<World>, actions: seq<Action>)
    requires Path(worlds, actions)
    ensures forall i :: 0 <= i < |actions| ==>
              Possible(worlds[i], actions[i]) && worlds[i + 1] == Next(worlds[i], actions[i])
  {
  }

  // -- One submission can still follow a recorded conflict -------------------------------------------

  function AppliedFrom(op: Operation, snap: Snapshot): Operation {
    op.(state := ObservedApplied, changed := Some(false), applied := Some(EvidenceFrom(snap, true)))
  }

  lemma SnapshotApplies(w: World, op: Operation, snap: Snapshot, target: Values)
    requires Shows(w, [op], map[op.Pod() := Snapshotting(op)], {}) && op.id == 0 && op.state == Requested
    requires op.intent.Target(w.env.vault) == Ok(target)
    requires snap.ready && snap.observed.Satisfies(target) && Matches(snap.config, target)
    ensures var s := SnapshotReturn(op.Pod(), Returned(snap), 0, 0);
            && CanStep(w, s) && Shows(Next(w, Do(s)), [AppliedFrom(op, snap)], map[], {})
            && Next(w, Do(s)).env == w.env && Next(w, Do(s)).calls == w.calls
  {
    hide ApplyAll, Apply, Matches, NoopSegment;
    var validated := op.(state := Validated);
    var final := AppliedFrom(op, snap);
    NoopOutcome(w.memory, validated, EvidenceFrom(snap, true));
    Two(w.journal, Update(validated), Update(final));
    UpdatedRow(w.journal, validated);
    UpdatedRow(Apply(w.journal, Update(validated)), final);
    ConfigurationKept(w.journal, Update(validated));
    ConfigurationKept(Apply(w.journal, Update(validated)), Update(final));
    assert map[op.Pod() := Snapshotting(op)] - {op.Pod()} == map[];
  }

  lemma NoopOutcome(m: Memory, op: Operation, evidence: ApplicationEvidence)
    requires op.state == Validated && evidence.isFresh && evidence.satisfied && evidence.noop
    ensures var final := op.(state := ObservedApplied, changed := Some(false), applied := Some(evidence));
            NoopSegment(m, op, evidence) == Segment([Update(op), Update(final)], Release(m, op.Pod()), Finished(final))
  {
  }

  lemma SecondRequest(w: World, first: Operation) returns (w1: World, w2: World)
    requires Shows(w, [first], map[], {}) && w.env == START && w.calls == []
    requires first.state == ObservedApplied && first.Pod() == POD && first.key == "a"
    ensures var op := Asked(1, 66, "b");
            && Path([w, w1, w2], [Do(Request(Asking(66, "b"))), Do(ExecStart(1))])
            && Shows(w2, [first, op], map[POD := Planning(op)], {}) && w2.env == START && w2.calls == []
  {
    hide Next, Admission, CanStep;
    var op := Asked(1, 66, "b");
    WantedTarget(66);
    RequestEnters(w, Asking(66, "b"), op);
    w1 := Next(w, Do(Request(Asking(66, "b"))));
    assert [first] + [op] == [first, op];
    StartOpens(w1, 1);
    w2 := Next(w1, Do(ExecStart(1)));
  }

  /** An applied operation whose configuration changed puts its pod on record. */
  lemma AppliedJournal(j: Journal, first: Operation, second: Operation, noted: bool, changed: bool)
    requires j.rows == [first, second] && first.id == 0
    ensures var lost := first.(reason := Some(OwnershipLost));
            var later := ApplyAll(
              j, Optional(noted, Observe(first.run, POD, 0))
                 + Optional(true, Conflict(POD, ConflictRecord(0, ConfigurationChanged)))
                 + Optional(changed, Update(lost)));
            && later.rows == [if changed then lost else first, second]
            && later.conflicts.Keys == j.conflicts.Keys + {POD} && later.maxOperations == j.maxOperations
  {
    hide Apply, ApplyAll;
    var lost := first.(reason := Some(OwnershipLost));
    var loss := Conflict(POD, ConflictRecord(0, ConfigurationChanged));
    var note := Observe(first.run, POD, 0);
    var j1 := if noted then Apply(j, note) else j;
    Reconciling.FoldRow(j, noted, true, changed, note, loss, Update(lost));
    ObservedRow(j, first.run, POD, 0);
    ConfigurationKept(j, note);
    ConflictedPod(j1, POD, loss.record);
    ConfigurationKept(j1, loss);
    UpdatedRow(Apply(j1, loss), lost);
    ConfigurationKept(Apply(j1, loss), Update(lost));
    assert [first, second][0 := lost] == [lost, second];
  }

  lemma AppliedTaken(w: World, first: Operation, second: Operation, frames: map<string, Frame>, snap: Snapshot, target: Values)
    requires Shows(w, [first, second], frames, {}) && first.Pod() == POD && second.state == Requested
    requires first.id == 0 && first.state == ObservedApplied && first.intent.Target(w.env.vault) == Ok(target)
    requires snap.ready && snap.observed.isFresh && !Matches(snap.config, target)
    ensures CanStep(w, Reconcile(POD, snap))
    ensures var later := Next(w, Do(Reconcile(POD, snap)));
            && (exists op :: Shows(later, [op, second], frames, {POD}))
            && later.env == w.env && later.calls == w.calls
  {
    hide Apply, ApplyAll, ReconcileRow, SignatureOf, Matches, Optional, Intent.Target;
    var lost := first.(reason := Some(OwnershipLost));
    var seen := 0 in w.memory.observations && w.memory.observations[0] == SignatureOf(snap);
    var changed := first.reason != Some(OwnershipLost);
    assert LastLanded([first, second], POD) == 0 by { assert [first, second][..1] == [first]; }
    AppliedRow(w.memory, w.env, first, snap, target);
    AppliedJournal(w.journal, first, second, !seen, changed);
    assert Shows(Next(w, Do(Reconcile(POD, snap))), [if changed then lost else first, second], frames, {POD});
  }

  lemma AppliedRow(m: Memory, env: Environment, op: Operation, snap: Snapshot, target: Values)
    requires op.state == ObservedApplied && op.intent.Target(env.vault) == Ok(target)
    requires snap.ready && snap.observed.isFresh && !Matches(snap.config, target)
    ensures var segment := ReconcileRow(m, env, op, snap);
            && segment.commits ==
                 Optional(!(op.id in m.observations && m.observations[op.id] == SignatureOf(snap)),
                          Observe(op.run, op.Pod(), op.id))
                 + Optional(true, Conflict(op.Pod(), ConflictRecord(op.id, ConfigurationChanged)))
                 + Optional(op.reason != Some(OwnershipLost), Update(op.(reason := Some(OwnershipLost))))
            && segment.memory.busy == m.busy && segment.memory.quiesced == m.quiesced
  {
    hide Judge, MarkDeadline, Expired, DeadlineOf, Matches, SignatureOf;
    AppliedJudged(op, snap, Expired(m, op, env.now), target);
  }

  lemma AppliedJudged(op: Operation, snap: Snapshot, expired: bool, target: Values)
    requires op.state == ObservedApplied && snap.ready && snap.observed.isFresh && !Matches(snap.config, target)
    ensures Judge(op, snap, expired, Ok(target))
         == Verdict(op.(reason := Some(OwnershipLost)), op.reason != Some(OwnershipLost), true, None)
    ensures MarkDeadline(op, expired).raised == None
  {
    hide Matches;
  }

  const APPLIED_A: Snapshot :=
    Snapshot(WantedValues(65), Observation(WantedValues(65), 1, true, 1), true, 1)
  const CHANGED: Snapshot := Snapshot(map[], Observation(map[], 1, true, 2), true, 1)

  /** The first operation is found already applied; the second is being planned. */
  lemma FirstApplied() returns (worlds: seq<World>, actions: seq<Action>)
    ensures |actions| == 6 && Path(worlds, actions) && worlds[0] == EMPTY_LAB.world
    ensures forall i :: 0 <= i < 6 ==> actions[i].Do?
    ensures var opB := Asked(1, 66, "b");
            && Shows(worlds[6], [AppliedFrom(Asked(0, 65, "a"), APPLIED_A), opB], map[POD := Planning(opB)], {})
            && worlds[6].env == START && worlds[6].calls == []
  {
    hide Next, CanStep, Commits, Matches;
    var opA := Asked(0, 65, "a");
    var w1, w2 := Opened();
    PlanPasses(w2, POD, {});
    var w3 := Next(w2, Do(PlanReturn(POD, Returned(true))));
    assert map[POD := Planning(opA)][POD := Snapshotting(opA)] == map[POD := Snapshotting(opA)];
    WantedTarget(65);
    MatchesItself(WantedValues(65));
    SnapshotApplies(w3, opA, APPLIED_A, WantedValues(65));
    var w4 := Next(w3, Do(SnapshotReturn(POD, Returned(APPLIED_A), 0, 0)));
    var w5, w6 := SecondRequest(w4, AppliedFrom(opA, APPLIED_A));
    var actions0 := [Do(Request(Asking(65, "a"))), Do(ExecStart(0))];
    var actions1 := [Do(PlanReturn(POD, Returned(true))), Do(SnapshotReturn(POD, Returned(APPLIED_A), 0, 0))];
    var actions2 := [Do(Request(Asking(66, "b"))), Do(ExecStart(1))];
    PathJoin([EMPTY_LAB.world, w1, w2], actions0, [w2, w3, w4], actions1);
    PathJoin([EMPTY_LAB.world, w1, w2] + [w2, w3, w4][1..], actions0 + actions1, [w4, w5, w6], actions2);
    worlds := [EMPTY_LAB.world, w1, w2] + [w2, w3, w4][1..] + [w4, w5, w6][1..];
    actions := actions0 + actions1 + actions2;
    assert worlds[6] == w6;
  }

  /** The conflict is recorded while the second operation is being planned; it submits anyway. */
  lemma SubmitsLate(w6: World, first: Operation, opB: Operation) returns (worlds: seq<World>, actions: seq<Action>)
    requires opB == Asked(1, 66, "b") && w6.env == START && w6.calls == []
    requires Shows(w6, [first, opB], map[POD := Planning(opB)], {})
    requires first == AppliedFrom(Asked(0, 65, "a"), APPLIED_A)
    ensures |actions| == 4 && Path(worlds, actions) && worlds[0] == w6
    ensures forall i :: 0 <= i < 4 ==> actions[i].Do?
    ensures POD in worlds[3].journal.conflicts && worlds[3].calls == []
    ensures |worlds[4].calls| == 1 && worlds[4].calls[0].pod == POD && worlds[4].calls[0].conflicted
  {
    hide Next, CanStep, Commits, Matches;
    WantedTarget(65);
    WantedTarget(66);
    EmptyDiffers(65);
    EmptyDiffers(66);
    AppliedTaken(w6, first, opB, map[POD := Planning(opB)], CHANGED, WantedValues(65));
    var w7 := Next(w6, Do(Reconcile(POD, CHANGED)));
    var marked :| Shows(w7, [marked, opB], map[POD := Planning(opB)], {POD});
    PlanPasses(w7, POD, {POD});
    var w8 := Next(w7, Do(PlanReturn(POD, Returned(true))));
    assert map[POD := Planning(opB)][POD := Snapshotting(opB)] == map[POD := Snapshotting(opB)];
    SnapshotSends(w8, POD, CHANGED, Attempt(0, 0, 1, 0.0), WantedValues(66), {POD});
    var w9 := Next(w8, Do(SnapshotReturn(POD, Returned(CHANGED), 0, 0)));
    CallRecords(w9, POD, Broken, {POD});
    worlds := [w6, w7, w8, w9, Next(w9, Do(SubmitCall(POD, Broken)))];
    actions := [
      Do(Reconcile(POD, CHANGED)), Do(PlanReturn(POD, Returned(true))),
      Do(SnapshotReturn(POD, Returned(CHANGED), 0, 0)), Do(SubmitCall(POD, Broken))];
  }

  /** An execution that passed its ownership check before the conflict was recorded still
      submits once: the bound of one late submission is reached. */
  lemma LateSubmission() returns (worlds: seq<World>, actions: seq<Action>)
    ensures IsRun(worlds, actions) && |actions| == 10 && forall i :: 0 <= i < 10 ==> actions[i].Do?
    ensures POD in worlds[9].journal.conflicts && LateCalls(worlds[9].calls, POD) == 0
    ensures LateCalls(worlds[10].calls, POD) == 1
  {
    hide Next, Possible, Shows;
    var worlds0, actions0 := FirstApplied();
    var worlds1, actions1 := SubmitsLate(worlds0[6], AppliedFrom(Asked(0, 65, "a"), APPLIED_A), Asked(1, 66, "b"));
    PathJoin(worlds0, actions0, worlds1, actions1);
    worlds, actions := worlds0 + worlds1[1..], actions0 + actions1;
    assert worlds[9] == worlds1[3] && worlds[10] == worlds1[4];
    OneLateCall(worlds[9].calls, worlds[10].calls);
  }

  lemma OneLateCall(before: seq<Call>, after: seq<Call>)
    requires before == [] && |after| == 1 && after[0].pod == POD && after[0].conflicted
    ensures LateCalls(before, POD) == 0 && LateCalls(after, POD) == 1
  {
    assert after[..0] == [];
  }

  lemma MatchesItself(values: Values)
    ensures Matches(values, values)
  {
  }

  lemma EmptyDiffers(ssid: byte)
    requires ssid != 0
    ensures !Matches(map[], WantedValues(ssid))
  {
    WantedTarget(ssid);
  }
}
