/** The engine driving synthetic pods that nothing else writes to: it never takes its own
    writes for a competing writer's. */
module Undisturbed {
  import opened Basics
  import opened Lifecycle
  import opened Journal
  import opened Protocol
  import opened Records
  import opened Runs
  import opened Safety
  import opened Theorems
  import opened ModelBackends
  import opened OneActive
  import opened Reconciling

  // -- The composed system ------------------------------------------------------------

  datatype DeviceEvent = Advance(partial: bool) | Reconnect | Disconnect | Inject(fault: Fault) | CompetingWrite

  datatype Lab = Lab(world: World, devices: map<string, Device>)

  datatype Move = Engine(action: Action) | Happen(pod: string, event: DeviceEvent)

  function After(d: Device, e: DeviceEvent): Device {
    match e
    case Advance(partial) => Stepped(d, partial)
    case Reconnect => Reconnected(d)
    case Disconnect => d.(ready := false)
    case Inject(fault) => d.(fault := fault)
    case CompetingWrite => d.(config := d.config[Ssid := Text(COMPETING_SSID)])
  }

  /** Every answer the engine gets is the one its pod gives at that moment. */
  predicate Faithful(lab: Lab, s: Step)
    requires CanStep(lab.world, s)
  {
    var w := lab.world;
    match s
    case PlanReturn(pod, plan) =>
      pod in lab.devices && plan == PlanOn(lab.devices[pod], w.frames[pod].op.intent, w.env.vault)
    case SnapshotReturn(pod, answer, _, _) =>
      pod in lab.devices && answer == Returned(SnapshotOf(lab.devices[pod]))
    case SubmitCall(pod, reply) =>
      pod in lab.devices && reply == SubmitOn(lab.devices[pod], w.frames[pod].op.intent, w.frames[pod].attempt, w.env.vault).1
    case Reconcile(pod, snap) => pod in lab.devices && snap == SnapshotOf(lab.devices[pod])
    case ChangeVault(vault) => vault == w.env.vault
    case _ => true
  }

  predicate Moves(lab: Lab, m: Move) {
    match m
    case Engine(action) => Possible(lab.world, action) && Faithful(lab, action.step)
    case Happen(pod, _) => pod in lab.devices
  }

  function Moved(lab: Lab, m: Move): Lab
    requires Moves(lab, m)
  {
    match m
    case Engine(action) => Lab(Next(lab.world, action), DevicesAfter(lab, action))
    case Happen(pod, event) => lab.(devices := lab.devices[pod := After(lab.devices[pod], event)])
  }

  function DevicesAfter(lab: Lab, action: Action): map<string, Device>
    requires Moves(lab, Engine(action))
  {
    if action.Do? && action.step.SubmitCall? then
      var pod := action.step.pod;
      var frame := lab.world.frames[pod];
      lab.devices[pod := SubmitOn(lab.devices[pod], frame.op.intent, frame.attempt, lab.world.env.vault).0]
    else lab.devices
  }

  /** No other writer, no injected guard conflict, and no crash that splits a request. */
  predicate LeftAlone(lab: Lab, m: Move) {
    match m
    case Engine(action) => !SplitsRequest(lab.world, action)
    case Happen(_, event) => event != CompetingWrite && event != Inject(GuardConflict)
  }

  ghost predicate LabStart(lab: Lab) {
    && Initial(lab.world)
    && (forall pod :: pod in lab.world.env.pods ==> pod in lab.devices)
    && (forall pod :: pod in lab.devices ==> lab.devices[pod].podId == pod && lab.devices[pod].fault != GuardConflict)
  }

  ghost predicate IsLabRun(labs: seq<Lab>, moves: seq<Move>) {
    && |labs| == |moves| + 1
    && LabStart(labs[0])
    && forall i :: 0 <= i < |moves| ==> Moves(labs[i], moves[i]) && labs[i + 1] == Moved(labs[i], moves[i])
  }

  // -- The invariant --------------------------------------------------------------------

  const SETTLED := {ConfigCommitted, ObservedApplied, TimedOut}

  /** A submission under way that has not written. */
  predicate Unwritten(frames: map<string, Frame>, op: Operation) {
    && op.Pod() in frames && frames[op.Pod()].op.id == op.id
    && (frames[op.Pod()].Submitting? || (frames[op.Pod()].Replying? && !Wrote(frames[op.Pod()].reply)))
  }

  /** An operation that may have written since, so that older ones are not held to account. */
  predicate Covers(frames: map<string, Frame>, op: Operation) {
    || op.state in {ConfigCommitted, ObservedApplied, Indeterminate, TimedOut, OwnershipConflict}
    || (op.state == Submitted && !Unwritten(frames, op))
  }

  ghost predicate Accountable(rows: seq<Operation>, frames: map<string, Frame>, i: nat)
    requires i < |rows|
  {
    && rows[i].state in SETTLED
    && forall k :: i < k < |rows| && rows[k].Pod() == rows[i].Pod() ==> !Covers(frames, rows[k])
  }

  predicate Holds(devices: map<string, Device>, op: Operation) {
    op.Pod() in devices && Matches(devices[op.Pod()].config, op.fingerprint.target)
  }

  /** The newest write known to have landed is what the pod is configured with. */
  ghost predicate AllHold(rows: seq<Operation>, frames: map<string, Frame>, devices: map<string, Device>) {
    forall i :: 0 <= i < |rows| && Accountable(rows, frames, i) ==> Holds(devices, rows[i])
  }

  ghost predicate TargetsKnown(rows: seq<Operation>, devices: map<string, Device>, vault: Vault) {
    forall i :: 0 <= i < |rows| ==>
      rows[i].Pod() in devices && rows[i].intent.Target(vault) == Ok(rows[i].fingerprint.target)
  }

  ghost predicate RepliesHold(frames: map<string, Frame>, devices: map<string, Device>) {
    forall pod :: pod in frames && frames[pod].Replying? ==>
      && (Wrote(frames[pod].reply) ==> Holds(devices, frames[pod].op))
      && !(frames[pod].reply.Returned? && frames[pod].reply.value.status == StatusConflict)
  }

  ghost predicate Calm(lab: Lab) {
    && Inv(lab.world)
    && NeverShadowed(lab.world.journal.rows)
    && lab.world.journal.conflicts == map[]
    && (forall pod :: pod in lab.world.env.pods ==> pod in lab.devices)
    && (forall pod :: pod in lab.devices ==> lab.devices[pod].podId == pod && lab.devices[pod].fault != GuardConflict)
    && TargetsKnown(lab.world.journal.rows, lab.devices, lab.world.env.vault)
    && RepliesHold(lab.world.frames, lab.devices)
    && AllHold(lab.world.journal.rows, lab.world.frames, lab.devices)
  }

  // -- How obligations move ---------------------------------------------------------------

  /** Replacing one row, or the frames, keeps every obligation that nothing newly covers less. */
  lemma RowMoves(
    rows: seq<Operation>, later: seq<Operation>, id: nat,
    frames: map<string, Frame>, frames': map<string, Frame>, devices: map<string, Device>)
    requires AllHold(rows, frames, devices)
    requires id < |rows| && |later| == |rows| && later[id].Pod() == rows[id].Pod()
    requires forall i :: 0 <= i < |rows| && i != id ==> later[i] == rows[i]
    requires forall i :: 0 <= i < |rows| && Covers(frames, rows[i]) ==> Covers(frames', later[i])
    requires Accountable(later, frames', id) ==> Holds(devices, later[id])
    ensures AllHold(later, frames', devices)
  {
    forall i | 0 <= i < |later| && Accountable(later, frames', i)
      ensures Holds(devices, later[i])
    {
      if i != id {
        forall k | i < k < |rows| && rows[k].Pod() == rows[i].Pod()
          ensures !Covers(frames, rows[k])
        {
          assert later[k].Pod() == later[i].Pod();
        }
        assert Accountable(rows, frames, i);
      }
    }
  }

  lemma FramesMove(
    rows: seq<Operation>, frames: map<string, Frame>, frames': map<string, Frame>, devices: map<string, Device>)
    requires AllHold(rows, frames, devices)
    requires forall i :: 0 <= i < |rows| && Covers(frames, rows[i]) ==> Covers(frames', rows[i])
    ensures AllHold(rows, frames', devices)
  {
    forall i | 0 <= i < |rows| && Accountable(rows, frames', i)
      ensures Holds(devices, rows[i])
    {
      assert Accountable(rows, frames, i);
    }
  }

  lemma RowAppended(rows: seq<Operation>, op: Operation, frames: map<string, Frame>, devices: map<string, Device>)
    requires AllHold(rows, frames, devices)
    requires op.state in {Requested, Rejected}
    ensures AllHold(rows + [op], frames, devices)
  {
    var later := rows + [op];
    forall i | 0 <= i < |later| && Accountable(later, frames, i)
      ensures Holds(devices, later[i])
    {
      if i < |rows| {
        forall k | i < k < |rows| && rows[k].Pod() == rows[i].Pod()
          ensures !Covers(frames, rows[k])
        {
          assert later[k] == rows[k] && later[k].Pod() == later[i].Pod();
        }
        assert Accountable(rows, frames, i);
      }
    }
  }

  /** Losing every frame only adds cover. */
  lemma CrashCovers(rows: seq<Operation>, frames: map<string, Frame>, devices: map<string, Device>)
    requires AllHold(rows, frames, devices)
    ensures AllHold(rows, map[], devices)
  {
    FramesMove(rows, frames, map[], devices);
  }

  lemma TargetsKept(
    rows: seq<Operation>, later: seq<Operation>, devices: map<string, Device>, devices': map<string, Device>, vault: Vault)
    requires TargetsKnown(rows, devices, vault) && |later| == |rows| && devices.Keys <= devices'.Keys
    requires forall i :: 0 <= i < |rows| ==> Accumulates(rows[i], later[i])
    ensures TargetsKnown(later, devices', vault)
  {
    forall i | 0 <= i < |later|
      ensures later[i].Pod() in devices' && later[i].intent.Target(vault) == Ok(later[i].fingerprint.target)
    {
      assert Accumulates(rows[i], later[i]);
    }
  }

  // -- Rows after a prefix of a step's commits ----------------------------------------------

  lemma {:induction false} LocalRows(j: Journal, commits: seq<Commit>, id: nat)
    requires id < |j.rows|
    requires forall k :: 0 <= k < |commits| ==> commits[k].Update? && commits[k].op.id == id
    ensures ApplyAll(j, commits).rows == if commits == [] then j.rows else j.rows[id := commits[|commits| - 1].op]
    ensures ApplyAll(j, commits).conflicts == j.conflicts
  {
    hide Apply;
    Nothing(j);
    if commits != [] {
      var n := |commits| - 1;
      LocalRows(j, commits[..n], id);
      UpdatedRow(ApplyAll(j, commits[..n]), commits[n].op);
    }
  }

  lemma {:induction false} WatchedRows(j: Journal, commits: seq<Commit>, op: Operation)
    requires op.id < |j.rows|
    requires forall k :: 0 <= k < |commits| ==> !commits[k].Insert? && (commits[k].Update? ==> commits[k].op == op)
    ensures ApplyAll(j, commits).rows == j.rows || ApplyAll(j, commits).rows == j.rows[op.id := op]
  {
    hide Apply;
    Nothing(j);
    if commits != [] {
      var n := |commits| - 1;
      WatchedRows(j, commits[..n], op);
      var before := ApplyAll(j, commits[..n]);
      match commits[n]
      case Update(o) => UpdatedRow(before, o);
      case Conflict(pod, record) => ConflictedPod(before, pod, record);
      case Observe(run, pod, operation) => ObservedRow(before, run, pod, operation);
      case Insert(_) => assert false;
    }
  }

  ghost predicate NoConflict(commits: seq<Commit>) {
    forall k :: 0 <= k < |commits| ==> !commits[k].Conflict?
  }

  lemma {:induction false} ConflictsKept(j: Journal, commits: seq<Commit>)
    requires NoConflict(commits)
    ensures ApplyAll(j, commits).conflicts == j.conflicts
  {
    hide Apply;
    Nothing(j);
    if commits != [] {
      var n := |commits| - 1;
      ConflictsKept(j, commits[..n]);
      ConflictsOf(ApplyAll(j, commits[..n]), commits[n]);
    }
  }

  lemma ConflictsOf(j: Journal, c: Commit)
    ensures !c.Conflict? ==> Apply(j, c).conflicts == j.conflicts
  {
  }

  // -- Judging a pod that holds what was written -------------------------------------------------

  /** No conflict is seen, and a settled verdict agrees with the configuration. */
  lemma JudgeCalm(op: Operation, snap: Snapshot, expired: bool, target: Values)
    requires EvidenceTable(op) && op.state in WATCHED
    requires op.state == Indeterminate || Matches(snap.config, target)
    ensures var v := Judge(op, snap, expired, Ok(target));
            && !v.conflict && v.op.state in WATCHED
            && (v.op.state in SETTLED ==> Matches(snap.config, target))
  {
    hide Matches;
  }

  lemma LastIsAccountable(rows: seq<Operation>, frames: map<string, Frame>, pod: string)
    requires LastLanded(rows, pod) >= 0 && rows[LastLanded(rows, pod)].state in SETTLED
    ensures Accountable(rows, frames, LastLanded(rows, pod))
  {
    var last := LastLanded(rows, pod);
    forall k | last < k < |rows| && rows[k].Pod() == rows[last].Pod()
      ensures !Covers(frames, rows[k])
    {
      assert !LandedOn(rows[k], pod);
    }
  }

  lemma ReconcileCalm(lab: Lab, pod: string, snap: Snapshot, kept: nat)
    requires Calm(lab) && CanStep(lab.world, Reconcile(pod, snap)) && Faithful(lab, Reconcile(pod, snap))
    requires kept <= |Commits(lab.world, Reconcile(pod, snap))|
    ensures NoConflict(Commits(lab.world, Reconcile(pod, snap)))
    ensures AllHold(
              ApplyAll(lab.world.journal, Commits(lab.world, Reconcile(pod, snap))[..kept]).rows,
              lab.world.frames, lab.devices)
  {
    hide FramesOk, CallsOk, NotYetCalled, LatchOk, EvidenceTable, Keyed, NeverShadowed, RepliesHold, Judge, MarkDeadline,
      Expired, SignatureOf, ReconcileRow, ApplyAll, Matches, Evolves, DeadlineOf;
    var w := lab.world;
    var j := w.journal;
    var last := LastLanded(j.rows, pod);
    Nothing(j);
    if last >= 0 && j.rows[last].state in WATCHED {
      var op := j.rows[last];
      assert GoodRow(j, last);
      assert op.intent.Target(w.env.vault) == Ok(op.fingerprint.target);
      if op.state in SETTLED {
        LastIsAccountable(j.rows, w.frames, pod);
        assert Holds(lab.devices, op);
      }
      var expired := Expired(w.memory, op, w.env.now);
      JudgeCalm(op, snap, expired, op.fingerprint.target);
      JudgeKeeps(op, snap, expired, Ok(op.fingerprint.target));
      var v := Judge(op, snap, expired, Ok(op.fingerprint.target));
      KeepsIdentity(op, v.op);
      var commits := RowCommits(w.memory, w.env, op, snap);
      RowSpelled(w.memory, w.env, op, snap);
      NoLoss(w.memory, op, snap, v);
      WatchedRows(j, commits[..kept], v.op);
      SettledRow(j.rows, last, v.op, w.frames, lab.devices);
    } else {
      assert Commits(w, Reconcile(pod, snap)) == [];
    }
  }

  lemma NoLoss(m: Memory, op: Operation, snap: Snapshot, v: Verdict)
    requires !v.conflict
    ensures forall seen :: NoConflict(
              Optional(seen, Observe(op.run, op.Pod(), op.id))
              + Optional(v.conflict, Conflict(op.Pod(), ConflictRecord(op.id, ConfigurationChanged)))
              + Optional(v.changed, Update(v.op)))
  {
  }

  lemma SettledRow(
    rows: seq<Operation>, last: nat, op: Operation, frames: map<string, Frame>, devices: map<string, Device>)
    requires AllHold(rows, frames, devices) && last < |rows| && op.Pod() == rows[last].Pod()
    requires rows[last].state in WATCHED && op.state in WATCHED
    requires op.state in SETTLED ==> Holds(devices, op)
    ensures AllHold(rows[last := op], frames, devices)
  {
    RowMoves(rows, rows[last := op], last, frames, frames, devices);
  }

  // -- Execution steps -------------------------------------------------------------------------

  /** Frames that hold no unwritten submission may change freely. */
  predicate Idle(frames: map<string, Frame>, pod: string) {
    pod in frames ==> !frames[pod].Submitting? && !(frames[pod].Replying? && !Wrote(frames[pod].reply))
  }

  /** Changing what a pod executes uncovers nothing if it had nothing unwritten, or has none left. */
  lemma CoverKept(rows: seq<Operation>, frames: map<string, Frame>, frames': map<string, Frame>, pod: string)
    requires frames - {pod} == frames' - {pod}
    requires Idle(frames', pod)
    ensures forall i :: 0 <= i < |rows| && Covers(frames, rows[i]) ==> Covers(frames', rows[i])
  {
    forall i | 0 <= i < |rows| && Covers(frames, rows[i])
      ensures Covers(frames', rows[i])
    {
      var p := rows[i].Pod();
      if p != pod && p in frames' {
        assert p in frames' - {pod} && p in frames - {pod};
        assert frames'[p] == (frames' - {pod})[p] && frames[p] == (frames - {pod})[p];
      }
    }
  }

  /** One pod's row is replaced while its frame moves to an idle one. */
  lemma RowAndFrameMove(
    rows: seq<Operation>, op: Operation, frames: map<string, Frame>, frames': map<string, Frame>,
    devices: map<string, Device>)
    requires AllHold(rows, frames, devices) && op.id < |rows| && op.Pod() == rows[op.id].Pod()
    requires frames - {op.Pod()} == frames' - {op.Pod()} && Idle(frames', op.Pod())
    requires Covers(frames, rows[op.id]) ==> Covers(frames', op)
    requires op.state in SETTLED ==> Holds(devices, op)
    ensures AllHold(rows[op.id := op], frames', devices)
  {
    CoverKept(rows, frames, frames', op.Pod());
    RowMoves(rows, rows[op.id := op], op.id, frames, frames', devices);
  }

  lemma IdleFrameMove(
    rows: seq<Operation>, pod: string, frames: map<string, Frame>, frames': map<string, Frame>, devices: map<string, Device>)
    requires AllHold(rows, frames, devices)
    requires frames - {pod} == frames' - {pod} && Idle(frames', pod)
    ensures AllHold(rows, frames', devices)
  {
    CoverKept(rows, frames, frames', pod);
    FramesMove(rows, frames, frames', devices);
  }

  /** What validation writes to its one row. */
  lemma SnapshotOps(
    j: Journal, m: Memory, env: Environment, op: Operation, answer: Awaited<Snapshot>, attemptId: nat, transactionId: nat)
    requires op.id < |j.rows| && op.state == Requested
    ensures var commits := SnapshotSegment(j, m, env, op, answer, attemptId, transactionId).commits;
            forall k :: 0 <= k < |commits| ==>
              && commits[k].Update? && commits[k].op.id == op.id && commits[k].op.intent == op.intent
              && commits[k].op.fingerprint == op.fingerprint
              && commits[k].op.state in {Rejected, Validated, ObservedApplied, Submitted}
              && (commits[k].op.state == ObservedApplied ==>
                    answer.Returned? && Shows(op.intent, env.vault, answer.value))
  {
    hide Matches, MayMove, ValidatedSegment;
    if answer.Returned? && answer.value.ready {
      ValidatedShows(m, env, op.(state := Validated), answer.value, attemptId, transactionId);
    }
  }

  /** What is known of the operation an execution is validating. */
  lemma ValidatingFacts(lab: Lab, pod: string)
    requires Calm(lab) && pod in lab.world.frames
    requires lab.world.frames[pod].Planning? || lab.world.frames[pod].Snapshotting?
    ensures var op, rows := lab.world.frames[pod].op, lab.world.journal.rows;
            && op.id < |rows| && op.state == Requested && op.Pod() == pod && rows[op.id].Pod() == pod
            && rows[op.id].state in {Requested, Cancelled}
            && pod in lab.devices && op.intent.Target(lab.world.env.vault) == Ok(op.fingerprint.target)
            && Validating(rows, op)
    ensures Idle(lab.world.frames, pod)
  {
    hide CallsOk, NotYetCalled, LatchOk, EvidenceTable, NeverShadowed, RepliesHold, AllHold, GoodJournal;
    assert FrameOk(lab.world.journal.rows, pod, lab.world.frames[pod]);
  }

  /** Commits confined to a row that covered nothing, whose settled versions hold. */
  lemma LocalCalm(
    j: Journal, commits: seq<Commit>, kept: nat, id: nat, pod: string, frames: map<string, Frame>,
    frames': map<string, Frame>, devices: map<string, Device>)
    requires AllHold(j.rows, frames, devices) && id < |j.rows| && kept <= |commits|
    requires j.rows[id].Pod() == pod && j.rows[id].state in {Requested, Cancelled}
    requires forall k :: 0 <= k < |commits| ==>
               && commits[k].Update? && commits[k].op.id == id && commits[k].op.Pod() == pod
               && (commits[k].op.state in SETTLED ==> Holds(devices, commits[k].op))
    requires frames - {pod} == frames' - {pod} && Idle(frames', pod)
    ensures NoConflict(commits)
    ensures AllHold(ApplyAll(j, commits[..kept]).rows, map[], devices)
    ensures AllHold(ApplyAll(j, commits).rows, frames', devices)
  {
    hide ApplyAll, AllHold, Apply;
    LocalRows(j, commits, id);
    LocalRows(j, commits[..kept], id);
    CrashCovers(j.rows, frames, devices);
    if kept > 0 {
      RowAndFrameMove(j.rows, commits[kept - 1].op, map[], map[], devices);
    }
    if commits == [] {
      IdleFrameMove(j.rows, pod, frames, frames', devices);
    } else {
      RowAndFrameMove(j.rows, commits[|commits| - 1].op, frames, frames', devices);
    }
  }

  lemma SnapshotOpsHold(lab: Lab, s: Step)
    requires Calm(lab) && CanStep(lab.world, s) && s.SnapshotReturn? && Faithful(lab, s)
    ensures var commits := Commits(lab.world, s);
            var id := lab.world.frames[s.pod].op.id;
            forall k :: 0 <= k < |commits| ==>
              && commits[k].Update? && commits[k].op.id == id && commits[k].op.Pod() == s.pod
              && (commits[k].op.state in SETTLED ==> Holds(lab.devices, commits[k].op))
  {
    hide Inv, NeverShadowed, RepliesHold, AllHold, ApplyAll, Matches, SnapshotSegment, TargetsKnown;
    var w := lab.world;
    var op := w.frames[s.pod].op;
    ValidatingFacts(lab, s.pod);
    SnapshotOps(w.journal, w.memory, w.env, op, s.answer, s.attemptId, s.transactionId);
  }

  lemma SnapshotCalm(lab: Lab, s: Step, kept: nat)
    requires Calm(lab) && CanStep(lab.world, s) && s.SnapshotReturn? && Faithful(lab, s)
    requires kept <= |Commits(lab.world, s)|
    ensures NoConflict(Commits(lab.world, s))
    ensures AllHold(ApplyAll(lab.world.journal, Commits(lab.world, s)[..kept]).rows, map[], lab.devices)
    ensures AllHold(
              ApplyAll(lab.world.journal, Commits(lab.world, s)).rows, Rest(lab.world, s).frames, lab.devices)
  {
    hide Inv, NeverShadowed, RepliesHold, ApplyAll, Matches, AllHold, TargetsKnown, SnapshotSegment, SendSegment, Holds;
    var w := lab.world;
    var j := w.journal;
    var pod := s.pod;
    var op := w.frames[pod].op;
    var commits := Commits(w, s);
    ValidatingFacts(lab, pod);
    SnapshotOpsHold(lab, s);
    if ProgressOf(w, s).outcome.Waiting? {
      LocalCalm(j, commits, kept, op.id, pod, w.frames, w.frames - {pod}, lab.devices);
      var attempt := SnapshotShape(j, w.memory, w.env, op, s.answer, s.attemptId, s.transactionId);
      SendOutcome(w.memory, op.(state := Validated), attempt);
      LocalRows(j, commits, op.id);
      RowIds(lab);
      OpenedSubmission(
        j.rows, commits[1].op, ProgressOf(w, s).outcome.frame, w.frames, Rest(w, s).frames, lab.devices);
    } else {
      LocalCalm(j, commits, kept, op.id, pod, w.frames, w.frames - {pod}, lab.devices);
    }
  }

  lemma RowIds(lab: Lab)
    requires Calm(lab)
    ensures forall k :: 0 <= k < |lab.world.journal.rows| ==> lab.world.journal.rows[k].id == k
  {
    hide FramesOk, CallsOk, NotYetCalled, LatchOk, EvidenceTable, NeverShadowed, RepliesHold, AllHold, Keyed, TargetsKnown;
    forall k | 0 <= k < |lab.world.journal.rows|
      ensures lab.world.journal.rows[k].id == k
    {
      assert GoodRow(lab.world.journal, k);
    }
  }

  lemma OpenedSubmission(
    rows: seq<Operation>, op: Operation, frame: Frame, frames: map<string, Frame>, frames': map<string, Frame>,
    devices: map<string, Device>)
    requires AllHold(rows, frames, devices) && op.id < |rows| && op.Pod() == rows[op.id].Pod()
    requires op.state == Submitted && frame.Submitting? && frame.op == op && frames' == frames[op.Pod() := frame]
    requires op.Pod() in frames && Idle(frames, op.Pod()) && !Covers(frames, rows[op.id])
    requires forall k :: 0 <= k < |rows| ==> rows[k].id == k
    ensures AllHold(rows[op.id := op], frames', devices)
  {
    RowMoves(rows, rows[op.id := op], op.id, frames, frames', devices);
  }

  lemma PlanCalm(lab: Lab, s: Step, kept: nat)
    requires Calm(lab) && CanStep(lab.world, s) && s.PlanReturn? && kept <= |Commits(lab.world, s)|
    ensures NoConflict(Commits(lab.world, s))
    ensures AllHold(ApplyAll(lab.world.journal, Commits(lab.world, s)[..kept]).rows, map[], lab.devices)
    ensures AllHold(
              ApplyAll(lab.world.journal, Commits(lab.world, s)).rows, Rest(lab.world, s).frames, lab.devices)
  {
    hide Inv, NeverShadowed, RepliesHold, ApplyAll, AllHold, TargetsKnown, Holds;
    var w := lab.world;
    ValidatingFacts(lab, s.pod);
    LocalCalm(
      w.journal, Commits(w, s), kept, w.frames[s.pod].op.id, s.pod, w.frames, Rest(w, s).frames, lab.devices);
  }

  /** What one reply changes: one row, never to a conflict, and the pod's frame. */
  lemma ReplyFacts(lab: Lab, s: Step)
    requires Calm(lab) && CanStep(lab.world, s) && s.SubmitReturn?
    ensures var w := lab.world;
            var op := w.frames[s.pod].op;
            var resolved := Resolution(op, w.frames[s.pod].reply);
            && op.id < |w.journal.rows| && w.journal.rows[op.id] == op && op.Pod() == s.pod
            && resolved.Ok? && resolved.value.id == op.id && resolved.value.Pod() == s.pod
            && resolved.value.state != OwnershipConflict
            && (Covers(w.frames, op) ==> resolved.value.state in {ConfigCommitted, Indeterminate})
            && (resolved.value.state in SETTLED ==> Holds(lab.devices, resolved.value))
            && Commits(w, s) == [Update(resolved.value)]
            && Rest(w, s).frames == w.frames - {s.pod}
  {
    hide CallsOk, NotYetCalled, LatchOk, EvidenceTable, NeverShadowed, AllHold, GoodJournal, Evolves, Resolution, Matches;
    var w := lab.world;
    var f := w.frames[s.pod];
    FramesOfTheirPods(w);
    ResolveKeeps(f.op, f.reply);
    ResolvedState(f.op, f.reply);
    KeepsIdentity(f.op, Resolution(f.op, f.reply).value);
  }

  lemma ReplyCalm(lab: Lab, s: Step, kept: nat)
    requires Calm(lab) && CanStep(lab.world, s) && s.SubmitReturn? && kept <= |Commits(lab.world, s)|
    ensures NoConflict(Commits(lab.world, s))
    ensures AllHold(ApplyAll(lab.world.journal, Commits(lab.world, s)[..kept]).rows, map[], lab.devices)
    ensures AllHold(
              ApplyAll(lab.world.journal, Commits(lab.world, s)).rows, Rest(lab.world, s).frames, lab.devices)
  {
    hide Inv, NeverShadowed, ApplyAll, Apply, AllHold, Resolution, RepliesHold, TargetsKnown, Commits, Rest, Holds;
    var w := lab.world;
    var j := w.journal;
    var f := w.frames[s.pod];
    ReplyFacts(lab, s);
    var final := Resolution(f.op, f.reply).value;
    var frames' := Rest(w, s).frames;
    var commits := Commits(w, s);
    One(j, Update(final));
    UpdatedRow(j, final);
    Nothing(j);
    CrashCovers(j.rows, w.frames, lab.devices);
    RowAndFrameMove(j.rows, final, w.frames, frames', lab.devices);
    CrashCovers(ApplyAll(j, commits).rows, frames', lab.devices);
    assert commits[..kept] == if kept == 0 then [] else commits;
  }

  lemma ResolvedState(op: Operation, reply: Awaited<SubmitResult>)
    requires op.state == Submitted && Resolution(op, reply).Ok?
    ensures var state := Resolution(op, reply).value.state;
            && (Wrote(reply) ==> state in {ConfigCommitted, Indeterminate})
            && (state in SETTLED ==> Wrote(reply))
            && (state == OwnershipConflict <==> reply.Returned? && reply.value.status == StatusConflict)
  {
  }

  // -- The other steps ---------------------------------------------------------------------------

  lemma RequestCalm(lab: Lab, a: Arguments, kept: nat)
    requires Calm(lab) && CanStep(lab.world, Request(a)) && kept <= |Commits(lab.world, Request(a))|
    ensures NoConflict(Commits(lab.world, Request(a)))
    ensures var rows := ApplyAll(lab.world.journal, Commits(lab.world, Request(a))[..kept]).rows;
            && AllHold(rows, lab.world.frames, lab.devices)
            && TargetsKnown(rows, lab.devices, lab.world.env.vault)
  {
    hide Inv, NeverShadowed, RepliesHold, AllHold, ApplyAll, Apply, PodActive, EnterSegment;
    var w := lab.world;
    var j := w.journal;
    var commits := Commits(w, Request(a));
    EnteredOps(j, w.memory, w.env, a);
    RequestRows(j, w.memory, w.env, a, kept);
    EnteredRows(j, w.memory, w.env, a, kept);
    if kept > 0 {
      var op := ApplyAll(j, commits[..kept]).rows[|j.rows|];
      RowAppended(j.rows, op, w.frames, lab.devices);
    }
  }

  /** What a request journals names a known pod and the target its intent resolves to. */
  lemma EnteredOps(j: Journal, m: Memory, env: Environment, a: Arguments)
    ensures var commits := RequestSegment(j, m, env, a).commits;
            forall k :: 0 <= k < |commits| ==>
              && (commits[k].Insert? || commits[k].Update?)
              && commits[k].op.Pod() in env.pods && commits[k].op.id == |j.rows|
              && commits[k].op.intent.Target(env.vault) == Ok(commits[k].op.fingerprint.target)
              && commits[k].op.fingerprint.intent == commits[k].op.intent
  {
    hide PodActive, FindKey;
  }

  lemma EnteredRows(j: Journal, m: Memory, env: Environment, a: Arguments, kept: nat)
    requires kept <= |RequestSegment(j, m, env, a).commits|
    ensures var commits := RequestSegment(j, m, env, a).commits;
            var rows := ApplyAll(j, commits[..kept]).rows;
            rows == j.rows || (kept > 0 && rows == j.rows + [commits[kept - 1].op])
  {
    hide Admission, EnterSegment, Apply;
    RequestRows(j, m, env, a, kept);
    EnteredOps(j, m, env, a);
    var commits := RequestSegment(j, m, env, a).commits;
    if kept > 0 {
      InsertedRow(j, commits[0].op);
      One(j, commits[0]);
      assert commits[..1] == [commits[0]];
      if kept == 2 {
        SecondIsUpdate(j, m, env, a);
        Two(j, commits[0], commits[1]);
        assert commits[..2] == [commits[0], commits[1]];
        UpdatedRow(Apply(j, commits[0]), commits[1].op);
      }
    }
  }

  lemma SecondIsUpdate(j: Journal, m: Memory, env: Environment, a: Arguments)
    ensures var commits := RequestSegment(j, m, env, a).commits;
            |commits| == 2 ==> commits[1].Update?
  {
    hide PodActive, FindKey, Admission;
  }

  lemma StartCalm(lab: Lab, id: nat)
    requires Calm(lab) && CanStep(lab.world, ExecStart(id))
    ensures Commits(lab.world, ExecStart(id)) == []
    ensures AllHold(lab.world.journal.rows, Rest(lab.world, ExecStart(id)).frames, lab.devices)
    ensures RepliesHold(Rest(lab.world, ExecStart(id)).frames, lab.devices)
  {
    hide GoodJournal, FramesOk, CallsOk, NotYetCalled, LatchOk, EvidenceTable, NeverShadowed, AllHold, TargetsKnown, Holds;
    var w := lab.world;
    var frames' := Rest(w, ExecStart(id)).frames;
    if frames' != w.frames {
      IdleFrameMove(w.journal.rows, w.journal.rows[id].Pod(), w.frames, frames', lab.devices);
    }
  }

  /** What is known of an operation about to be submitted, and what its pod answers. */
  lemma FramesOfTheirPods(w: World)
    requires Inv(w)
    ensures forall pod :: pod in w.frames ==>
              FrameOk(w.journal.rows, pod, w.frames[pod]) && w.frames[pod].op.Pod() == pod
  {
    hide CallsOk, NotYetCalled, LatchOk, EvidenceTable, GoodJournal, Validating, Sending;
    forall pod | pod in w.frames
      ensures FrameOk(w.journal.rows, pod, w.frames[pod]) && w.frames[pod].op.Pod() == pod
    {
      assert FrameOk(w.journal.rows, pod, w.frames[pod]);
    }
  }

  /** What the device made of the call. */
  lemma DeviceFacts(lab: Lab, s: Step)
    requires Calm(lab) && CanStep(lab.world, s) && s.SubmitCall? && Faithful(lab, s)
    requires lab.world.frames[s.pod].op.intent.Target(lab.world.env.vault) == Ok(lab.world.frames[s.pod].op.fingerprint.target)
    ensures var op := lab.world.frames[s.pod].op;
            var devices' := DevicesAfter(lab, Do(s));
            && lab.devices.Keys == devices'.Keys && lab.devices - {s.pod} == devices' - {s.pod}
            && (Wrote(s.reply) ==>
                  s.pod in devices' && Matches(devices'[s.pod].config, op.fingerprint.target))
            && (!Wrote(s.reply) ==> devices' == lab.devices)
            && !(s.reply.Returned? && s.reply.value.status == StatusConflict)
            && (forall pod :: pod in devices' ==> devices'[pod].podId == pod && devices'[pod].fault != GuardConflict)
  {
    hide Inv, Matches, AllHold, RepliesHold, NeverShadowed, TargetsKnown, SubmitOn;
    var f := lab.world.frames[s.pod];
    var before := lab.devices[s.pod];
    SubmitMeaning(before, f.op.intent, f.attempt, lab.world.env.vault);
    SubmitIdentity(before, f.op.intent, f.attempt, lab.world.env.vault);
  }

  lemma SubmitIdentity(d: Device, intent: Intent, attempt: Attempt, vault: Vault)
    ensures var later := SubmitOn(d, intent, attempt, vault).0;
            later.podId == d.podId && (later.fault == GuardConflict ==> d.fault == GuardConflict)
  {
    hide Matches;
  }

  lemma CallFacts(lab: Lab, s: Step)
    requires Calm(lab) && CanStep(lab.world, s) && s.SubmitCall? && Faithful(lab, s)
    ensures var op, rows := lab.world.frames[s.pod].op, lab.world.journal.rows;
            var devices' := DevicesAfter(lab, Do(s));
            && op.id < |rows| && rows[op.id] == op && op.state == Submitted && op.Pod() == s.pod
            && lab.devices.Keys == devices'.Keys && lab.devices - {s.pod} == devices' - {s.pod}
            && (Wrote(s.reply) ==> Holds(devices', op))
            && (!Wrote(s.reply) ==> devices' == lab.devices)
            && !(s.reply.Returned? && s.reply.value.status == StatusConflict)
            && (forall pod :: pod in devices' ==> devices'[pod].podId == pod && devices'[pod].fault != GuardConflict)
    ensures forall pod :: pod in lab.world.frames ==> lab.world.frames[pod].op.Pod() == pod
  {
    hide Inv, EvidenceTable, Matches, AllHold, RepliesHold, NeverShadowed, SubmitOn, DevicesAfter;
    var f := lab.world.frames[s.pod];
    FramesOfTheirPods(lab.world);
    assert lab.world.journal.rows[f.op.id].intent.Target(lab.world.env.vault) == Ok(f.op.fingerprint.target);
    DeviceFacts(lab, s);
  }

  lemma CallCalm(lab: Lab, s: Step)
    requires Calm(lab) && CanStep(lab.world, s) && s.SubmitCall? && Faithful(lab, s)
    ensures var frames', devices' := Rest(lab.world, s).frames, DevicesAfter(lab, Do(s));
            && AllHold(lab.world.journal.rows, frames', devices') && RepliesHold(frames', devices')
            && (forall pod :: pod in devices' ==> devices'[pod].podId == pod && devices'[pod].fault != GuardConflict)
            && lab.devices.Keys == devices'.Keys
  {
    hide Inv, NeverShadowed, TargetsKnown, AllHold, Holds, SubmitOn, RepliesHold;
    CallFacts(lab, s);
    var w := lab.world;
    var rows := w.journal.rows;
    var f := w.frames[s.pod];
    var frames', devices' := Rest(w, s).frames, DevicesAfter(lab, Do(s));
    if Wrote(s.reply) {
      WrittenCovers(rows, f.op, w.frames, frames', lab.devices, devices');
    } else {
      assert forall i :: 0 <= i < |rows| && Covers(w.frames, rows[i]) ==> Covers(frames', rows[i]);
      FramesMove(rows, w.frames, frames', lab.devices);
    }
    RepliesAfterCall(w.frames, lab.devices, devices', s.pod, Replying(f.op, f.attempt, s.reply));
  }

  lemma RepliesAfterCall(
    frames: map<string, Frame>, devices: map<string, Device>, devices': map<string, Device>, pod: string, frame: Frame)
    requires RepliesHold(frames, devices) && frame.Replying?
    requires forall p :: p in frames ==> frames[p].op.Pod() == p
    requires devices.Keys == devices'.Keys && devices - {pod} == devices' - {pod}
    requires Wrote(frame.reply) ==> Holds(devices', frame.op)
    requires !(frame.reply.Returned? && frame.reply.value.status == StatusConflict)
    ensures RepliesHold(frames[pod := frame], devices')
  {
    hide Matches;
    forall p | p in frames && p != pod && p in devices
      ensures devices'[p] == devices[p]
    {
      assert (devices - {pod})[p] == (devices' - {pod})[p];
    }
  }

  /** A write covers every older operation of its pod, and newer ones were all turned away. */
  lemma WrittenCovers(
    rows: seq<Operation>, op: Operation, frames: map<string, Frame>, frames': map<string, Frame>,
    devices: map<string, Device>, devices': map<string, Device>)
    requires AllHold(rows, frames, devices) && NeverShadowed(rows)
    requires op.id < |rows| && rows[op.id] == op && op.state == Submitted
    requires frames - {op.Pod()} == frames' - {op.Pod()} && Idle(frames', op.Pod())
    requires devices - {op.Pod()} == devices' - {op.Pod()} && devices.Keys == devices'.Keys
    ensures AllHold(rows, frames', devices')
  {
    CoverKept(rows, frames, frames', op.Pod());
    forall i | 0 <= i < |rows| && Accountable(rows, frames', i)
      ensures Holds(devices', rows[i])
    {
      if rows[i].Pod() == op.Pod() {
        assert Covers(frames', rows[op.id]);
        assert false;
      } else {
        assert Accountable(rows, frames, i);
        var p := rows[i].Pod();
        assert (devices - {op.Pod()})[p] == (devices' - {op.Pod()})[p];
      }
    }
  }

  lemma CancelCalm(lab: Lab, id: nat, kept: nat)
    requires Calm(lab) && CanStep(lab.world, Cancel(id)) && kept <= |Commits(lab.world, Cancel(id))|
    ensures NoConflict(Commits(lab.world, Cancel(id)))
    ensures AllHold(
              ApplyAll(lab.world.journal, Commits(lab.world, Cancel(id))[..kept]).rows, lab.world.frames, lab.devices)
  {
    hide FramesOk, CallsOk, NotYetCalled, LatchOk, EvidenceTable, NeverShadowed, AllHold, TargetsKnown, Holds, Keyed, ApplyAll,
      RepliesHold, Apply;
    var w := lab.world;
    var commits := Commits(w, Cancel(id));
    Nothing(w.journal);
    if commits != [] && kept > 0 {
      assert GoodRow(w.journal, id);
      var op := commits[0].op;
      assert commits[..kept] == [Update(op)];
      One(w.journal, Update(op));
      UpdatedRow(w.journal, op);
      RowMoves(w.journal.rows, w.journal.rows[id := op], id, w.frames, w.frames, lab.devices);
    }
  }

  lemma {:induction false} RecoverPrefix(rows: seq<Operation>, kept: nat) returns (n: nat)
    requires kept <= |RecoverCommits(rows)|
    ensures n <= |rows| && RecoverCommits(rows)[..kept] == RecoverCommits(rows[..n])
    ensures NoConflict(RecoverCommits(rows))
  {
    hide Recovered;
    if rows == [] {
      n := 0;
    } else {
      var first := RecoverCommits(rows[..|rows| - 1]);
      if kept <= |first| {
        n := RecoverPrefix(rows[..|rows| - 1], kept);
        assert rows[..|rows| - 1][..n] == rows[..n];
        assert RecoverCommits(rows)[..kept] == first[..kept];
      } else {
        var m := RecoverPrefix(rows[..|rows| - 1], 0);
        n := |rows|;
        assert rows[..n] == rows && RecoverCommits(rows)[..kept] == RecoverCommits(rows);
      }
    }
  }

  lemma RestartCalm(lab: Lab, mono: real, kept: nat)
    requires Calm(lab) && CanStep(lab.world, Restart(mono)) && kept <= |Commits(lab.world, Restart(mono))|
    ensures NoConflict(Commits(lab.world, Restart(mono)))
    ensures AllHold(
              ApplyAll(lab.world.journal, Commits(lab.world, Restart(mono))[..kept]).rows, map[], lab.devices)
  {
    hide FramesOk, CallsOk, NotYetCalled, LatchOk, EvidenceTable, NeverShadowed, TargetsKnown, Holds, ApplyAll, RepliesHold,
      Apply, AllHold, GoodJournal, LawfulAll;
    var j := lab.world.journal;
    var n := RecoverPrefix(j.rows, kept);
    RecoverLawful(j, n);
    RecoveredRows(j.rows, ApplyAll(j, RecoverCommits(j.rows[..n])).rows, n, lab.devices);
  }

  lemma RecoveredRows(rows: seq<Operation>, later: seq<Operation>, n: nat, devices: map<string, Device>)
    requires AllHold(rows, map[], devices) && n <= |rows| == |later|
    requires forall i :: n <= i < |rows| ==> later[i] == rows[i]
    requires forall i :: 0 <= i < n ==> later[i] == AfterRecovery(rows[i])
    ensures AllHold(later, map[], devices)
  {
    forall i | 0 <= i < |later| && Accountable(later, map[], i)
      ensures Holds(devices, later[i])
    {
      assert later[i] == rows[i];
      forall k | i < k < |rows| && rows[k].Pod() == rows[i].Pod()
        ensures !Covers(map[], rows[k])
      {
        assert later[k].Pod() == later[i].Pod();
        assert !Covers(map[], later[k]);
      }
      assert Accountable(rows, map[], i);
    }
  }

  // -- Every move stays calm -------------------------------------------------------------------

  /** A step that leaves the frames alone leaves the same obligations, crash or not. */
  lemma SameFrames(lab: Lab, commits: seq<Commit>, kept: nat)
    requires kept <= |commits|
    requires forall n :: 0 <= n <= |commits| ==>
               AllHold(ApplyAll(lab.world.journal, commits[..n]).rows, lab.world.frames, lab.devices)
    ensures AllHold(ApplyAll(lab.world.journal, commits[..kept]).rows, map[], lab.devices)
    ensures AllHold(ApplyAll(lab.world.journal, commits).rows, lab.world.frames, lab.devices)
  {
    hide AllHold, ApplyAll;
    CrashCovers(ApplyAll(lab.world.journal, commits[..kept]).rows, lab.world.frames, lab.devices);
    assert commits[..|commits|] == commits;
  }

  lemma StepCalm(lab: Lab, s: Step, kept: nat)
    requires Calm(lab) && CanStep(lab.world, s) && Faithful(lab, s) && kept <= |Commits(lab.world, s)|
    ensures NoConflict(Commits(lab.world, s))
    ensures AllHold(ApplyAll(lab.world.journal, Commits(lab.world, s)[..kept]).rows, map[], lab.devices)
    ensures AllHold(
              ApplyAll(lab.world.journal, Commits(lab.world, s)).rows, Rest(lab.world, s).frames,
              DevicesAfter(lab, Do(s)))
  {
    hide Inv, NeverShadowed, TargetsKnown, AllHold, ApplyAll, RepliesHold, RequestSegment, StartSegment, PlanSegment,
      SnapshotSegment, ReplySegment, ReconcileSegment, CancelSegment, SubmitOn, Faithful;
    var w := lab.world;
    var commits := Commits(w, s);
    match s
    case Request(a) =>
      forall n | 0 <= n <= |commits|
        ensures AllHold(ApplyAll(w.journal, commits[..n]).rows, w.frames, lab.devices)
      {
        RequestCalm(lab, a, n);
      }
      SameFrames(lab, commits, kept);
      RequestCalm(lab, a, 0);
    case ExecStart(id) =>
      StartCalm(lab, id);
      Nothing(w.journal);
      CrashCovers(w.journal.rows, w.frames, lab.devices);
    case PlanReturn(_, _) => PlanCalm(lab, s, kept);
    case SnapshotReturn(_, _, _, _) => SnapshotCalm(lab, s, kept);
    case SubmitCall(_, _) =>
      CallCalm(lab, s);
      Nothing(w.journal);
      CrashCovers(w.journal.rows, w.frames, lab.devices);
    case SubmitReturn(_) => ReplyCalm(lab, s, kept);
    case Reconcile(pod, snap) =>
      forall n | 0 <= n <= |commits|
        ensures AllHold(ApplyAll(w.journal, commits[..n]).rows, w.frames, lab.devices)
      {
        ReconcileCalm(lab, pod, snap, n);
      }
      SameFrames(lab, commits, kept);
      ReconcileCalm(lab, pod, snap, 0);
    case Cancel(id) =>
      forall n | 0 <= n <= |commits|
        ensures AllHold(ApplyAll(w.journal, commits[..n]).rows, w.frames, lab.devices)
      {
        CancelCalm(lab, id, n);
      }
      SameFrames(lab, commits, kept);
      CancelCalm(lab, id, 0);
    case Restart(mono) =>
      RestartCalm(lab, mono, kept);
      RestartCalm(lab, mono, |commits|);
      assert commits[..|commits|] == commits;
      DownHasNoFrames(lab);
    case Abandon(pod) =>
      Nothing(w.journal);
      IdleFrameMove(w.journal.rows, pod, w.frames, w.frames - {pod}, lab.devices);
      CrashCovers(w.journal.rows, w.frames, lab.devices);
    case _ =>
      Nothing(w.journal);
      CrashCovers(w.journal.rows, w.frames, lab.devices);
  }

  lemma DownHasNoFrames(lab: Lab)
    requires Calm(lab) && !lab.world.up
    ensures lab.world.frames == map[]
  {
    hide GoodJournal, FramesOk, CallsOk, NotYetCalled, LatchOk, NeverShadowed, TargetsKnown, AllHold, RepliesHold;
  }

  lemma RepliesCalm(lab: Lab, s: Step)
    requires Calm(lab) && CanStep(lab.world, s) && Faithful(lab, s)
    ensures RepliesHold(Rest(lab.world, s).frames, DevicesAfter(lab, Do(s)))
  {
    hide Inv, NeverShadowed, TargetsKnown, AllHold, SubmitOn, RejectSegment, ValidatedSegment, ReconcileSegment,
      RequestSegment, Resolution, Holds;
    if s.SubmitCall? {
      CallCalm(lab, s);
    } else if s.SnapshotReturn? {
      ValidatedOpensSubmission(lab.world, s);
    } else if s.PlanReturn? {
      RejectOpensNothing(lab.world.memory, lab.world.frames[s.pod].op);
    }
  }

  lemma RejectOpensNothing(m: Memory, op: Operation)
    ensures forall code :: !RejectSegment(m, op, code).outcome.Waiting?
  {
  }

  lemma ValidatedOpensSubmission(w: World, s: Step)
    requires CanStep(w, s) && s.SnapshotReturn?
    ensures ProgressOf(w, s).outcome.Waiting? ==> ProgressOf(w, s).outcome.frame.Submitting?
  {
    hide Matches, MayMove;
  }

  lemma {:induction false} SizeKept(j: Journal, commits: seq<Commit>)
    requires NoInsert(commits)
    ensures |ApplyAll(j, commits).rows| == |j.rows|
  {
    hide Apply;
    Nothing(j);
    if commits != [] {
      var n := |commits| - 1;
      SizeKept(j, commits[..n]);
      SameSize(ApplyAll(j, commits[..n]), commits[n]);
    }
  }

  lemma SameSize(j: Journal, c: Commit)
    ensures !c.Insert? ==> |Apply(j, c).rows| == |j.rows|
  {
  }

  lemma TargetsCalm(lab: Lab, action: Action)
    requires Calm(lab) && Moves(lab, Engine(action))
    ensures TargetsKnown(Next(lab.world, action).journal.rows, DevicesAfter(lab, action), lab.world.env.vault)
  {
    hide Inv, NeverShadowed, TargetsKnown, AllHold, ApplyAll, RepliesHold, SubmitOn, Commits, NoInsert, Rest, Faithful;
    var w := lab.world;
    var s := action.step;
    var kept := if action.Do? then |Commits(w, s)| else action.kept;
    assert Commits(w, s)[..|Commits(w, s)|] == Commits(w, s);
    if s.Request? {
      RequestCalm(lab, s.a, kept);
    } else {
      StepSafe(w, action);
      OnlyRequestsInsert(w, s);
      PrefixInsertsNothing(Commits(w, s), kept);
      SizeKept(w.journal, Kept(w, action));
      TargetsKept(w.journal.rows, Next(w, action).journal.rows, lab.devices, DevicesAfter(lab, action), w.env.vault);
    }
  }

  lemma PrefixNoConflict(commits: seq<Commit>, kept: nat)
    requires NoConflict(commits) && kept <= |commits|
    ensures NoConflict(commits[..kept])
  {
  }

  lemma DevicesCalm(lab: Lab, action: Action)
    requires Calm(lab) && Moves(lab, Engine(action))
    ensures var devices' := DevicesAfter(lab, action);
            && lab.devices.Keys == devices'.Keys
            && (forall pod :: pod in devices' ==> devices'[pod].podId == pod && devices'[pod].fault != GuardConflict)
  {
    hide Inv, NeverShadowed, TargetsKnown, AllHold, RepliesHold, SubmitOn, Faithful;
    if action.Do? && action.step.SubmitCall? {
      CallCalm(lab, action.step);
    }
  }

  lemma EngineCalm(lab: Lab, action: Action)
    requires Calm(lab) && Moves(lab, Engine(action)) && LeftAlone(lab, Engine(action))
    ensures Calm(Moved(lab, Engine(action)))
  {
    hide Inv, NeverShadowed, TargetsKnown, AllHold, ApplyAll, RepliesHold, Commits, SplitsRequest, NoConflict,
      DevicesAfter, CanStep;
    var w := lab.world;
    var s := action.step;
    var kept := if action.Do? then |Commits(w, s)| else action.kept;
    StepSafe(w, action);
    CalmOrder(lab);
    OrderKeptUnlessSplit(w, action);
    StepCalm(lab, s, kept);
    RepliesCalm(lab, s);
    TargetsCalm(lab, action);
    DevicesCalm(lab, action);
    PrefixNoConflict(Commits(w, s), kept);
    assert Commits(w, s)[..|Commits(w, s)|] == Commits(w, s);
    ConflictsKept(w.journal, Commits(w, s)[..kept]);
    EnvironmentCalm(lab, action);
    if action.Crash? {
      NoReplies(DevicesAfter(lab, action));
    }
  }

  lemma CalmOrder(lab: Lab)
    requires Calm(lab)
    ensures NeverShadowed(lab.world.journal.rows) && Inv(lab.world)
  {
    hide Inv, NeverShadowed, TargetsKnown, AllHold, RepliesHold;
  }

  lemma EnvironmentCalm(lab: Lab, action: Action)
    requires Moves(lab, Engine(action))
    ensures var later := Next(lab.world, action);
            later.env.pods == lab.world.env.pods && later.env.vault == lab.world.env.vault
    ensures action.Crash? ==> DevicesAfter(lab, action) == lab.devices && Next(lab.world, action).frames == map[]
  {
    hide ApplyAll, Commits, ProgressOf, RequestSegment, ReconcileSegment, SubmitOn, SnapshotOf;
  }

  lemma NoReplies(devices: map<string, Device>)
    ensures RepliesHold(map[], devices)
  {
  }

  lemma SameConfigs(
    rows: seq<Operation>, frames: map<string, Frame>, devices: map<string, Device>, devices': map<string, Device>,
    vault: Vault)
    requires devices'.Keys == devices.Keys
    requires forall p :: p in devices ==> devices'[p].config == devices[p].config
    requires AllHold(rows, frames, devices) && TargetsKnown(rows, devices, vault) && RepliesHold(frames, devices)
    ensures AllHold(rows, frames, devices') && TargetsKnown(rows, devices', vault) && RepliesHold(frames, devices')
  {
    hide Matches, Wrote;
    forall i | 0 <= i < |rows| && Accountable(rows, frames, i)
      ensures Holds(devices', rows[i])
    {
      assert Holds(devices, rows[i]);
    }
  }

  lemma EventKeepsConfig(d: Device, event: DeviceEvent)
    requires event != CompetingWrite && event != Inject(GuardConflict) && d.fault != GuardConflict
    ensures var later := After(d, event);
            later.config == d.config && later.podId == d.podId && later.fault != GuardConflict
  {
  }

  lemma EventCalm(lab: Lab, pod: string, event: DeviceEvent)
    requires Calm(lab) && Moves(lab, Happen(pod, event)) && LeftAlone(lab, Happen(pod, event))
    ensures Calm(Moved(lab, Happen(pod, event)))
  {
    hide Inv, NeverShadowed, AllHold, TargetsKnown, RepliesHold, After;
    EventKeepsConfig(lab.devices[pod], event);
    var later := Moved(lab, Happen(pod, event));
    SameConfigs(
      lab.world.journal.rows, lab.world.frames, lab.devices, later.devices, lab.world.env.vault);
  }

  /** With an immutable vault, no other writer, no injected guard conflict and no crash inside a
      request, no run of the engine over any number of pods, requests, faults, crashes and
      restarts ever records an ownership conflict or reaches OWNERSHIP_CONFLICT, and the newest
      write known to have landed on a pod is what the pod is configured with. */
  lemma {:induction false} NoSpuriousConflict(labs: seq<Lab>, moves: seq<Move>, k: nat)
    requires IsLabRun(labs, moves) && k < |labs|
    requires forall n :: 0 <= n < k ==> LeftAlone(labs[n], moves[n])
    ensures Calm(labs[k])
    ensures labs[k].world.journal.conflicts == map[]
    ensures forall i :: 0 <= i < |labs[k].world.journal.rows| ==>
              labs[k].world.journal.rows[i].state != OwnershipConflict
    ensures forall pod :: LastLanded(labs[k].world.journal.rows, pod) >= 0 ==>
              var op := labs[k].world.journal.rows[LastLanded(labs[k].world.journal.rows, pod)];
              op.state in SETTLED ==>
                pod in labs[k].devices && Matches(labs[k].devices[pod].config, op.fingerprint.target)
  {
    hide Calm, Moved, Moves, LeftAlone;
    if k == 0 {
      StartIsCalm(labs[0]);
    } else {
      NoSpuriousConflict(labs, moves, k - 1);
      match moves[k - 1]
      case Engine(action) => EngineCalm(labs[k - 1], action);
      case Happen(pod, event) => EventCalm(labs[k - 1], pod, event);
    }
    CalmMeans(labs[k]);
  }

  lemma StartIsCalm(lab: Lab)
    requires LabStart(lab)
    ensures Calm(lab)
  {
    InitialSafe(lab.world);
    hide Inv;
  }

  lemma CalmMeans(lab: Lab)
    requires Calm(lab)
    ensures lab.world.journal.conflicts == map[]
    ensures forall i :: 0 <= i < |lab.world.journal.rows| ==> lab.world.journal.rows[i].state != OwnershipConflict
    ensures forall pod :: LastLanded(lab.world.journal.rows, pod) >= 0 ==>
              var op := lab.world.journal.rows[LastLanded(lab.world.journal.rows, pod)];
              op.state in SETTLED ==>
                pod in lab.devices && Matches(lab.devices[pod].config, op.fingerprint.target)
  {
    hide FramesOk, CallsOk, NotYetCalled, LatchOk, EvidenceTable, NeverShadowed, TargetsKnown, RepliesHold, Keyed, Matches;
    var rows := lab.world.journal.rows;
    forall i | 0 <= i < |rows|
      ensures rows[i].state != OwnershipConflict
    {
      assert GoodRow(lab.world.journal, i);
    }
    forall pod | LastLanded(rows, pod) >= 0 && rows[LastLanded(rows, pod)].state in SETTLED
      ensures Holds(lab.devices, rows[LastLanded(rows, pod)])
    {
      LastIsAccountable(rows, lab.world.frames, pod);
    }
  }
}
