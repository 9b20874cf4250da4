/** Every run of the engine: any interleaving of requests, executions, reconciliations and
    cancellations, any answers from the backends, and any crash between two store commits. */
module Runs {
  import opened Basics
  import opened Lifecycle
  import opened Journal
  import opened Protocol

  /** One call of `backend.submit`: for which operation, with which attempt, and whether the
      pod's ownership conflict was already on record. */
  datatype Call = Call(id: nat, attempt: Attempt, pod: string, conflicted: bool)

  datatype World = World(
    journal: Journal,
    memory: Memory,
    frames: map<string, Frame>,
    up: bool,
    env: Environment,
    calls: seq<Call>)

  datatype Step =
    | Request(a: Arguments)
    | ExecStart(id: nat)
    | PlanReturn(pod: string, plan: Awaited<bool>)
    | SnapshotReturn(pod: string, answer: Awaited<Snapshot>, attemptId: nat, transactionId: nat)
    | SubmitCall(pod: string, reply: Awaited<SubmitResult>)
    | SubmitReturn(pod: string)
    | Abandon(pod: string)
    | Reconcile(pod: string, snap: Snapshot)
    | Cancel(id: nat)
    | Quiesce
    | Tick(mono: real, wall: real)
    | ChangeVault(vault: Vault)
    | Restart(mono: real)

  /** A step done in full, or one cut short after some of its commits. */
  datatype Action = Do(step: Step) | Crash(step: Step, kept: nat)

  predicate CanStep(w: World, s: Step) {
    match s
    case Request(_) => w.up
    case ExecStart(_) => w.up
    case PlanReturn(pod, _) => w.up && pod in w.frames && w.frames[pod].Planning?
    case SnapshotReturn(pod, _, _, _) =>
      w.up && pod in w.frames && w.frames[pod].Snapshotting? && w.frames[pod].op.id < |w.journal.rows|
    case SubmitCall(pod, reply) => w.up && pod in w.frames && w.frames[pod].Submitting? && Conforming(reply)
    case SubmitReturn(pod) => w.up && pod in w.frames && w.frames[pod].Replying?
    case Abandon(pod) => w.up && pod in w.frames
    case Reconcile(_, _) => w.up
    case Cancel(_) => w.up
    case Quiesce => w.up
    case Tick(mono, wall) => 0.0 <= mono && 0.0 <= wall
    case ChangeVault(_) => true
    case Restart(_) => !w.up
  }

  function ProgressOf(w: World, s: Step): Segment<Progress>
    requires CanStep(w, s) && (s.ExecStart? || s.PlanReturn? || s.SnapshotReturn? || s.SubmitReturn?)
  {
    match s
    case ExecStart(id) => StartSegment(w.journal, w.memory, w.env, id)
    case PlanReturn(pod, plan) => PlanSegment(w.memory, w.frames[pod].op, plan)
    case SnapshotReturn(pod, answer, attemptId, transactionId) =>
      SnapshotSegment(w.journal, w.memory, w.env, w.frames[pod].op, answer, attemptId, transactionId)
    case SubmitReturn(pod) => ReplySegment(w.memory, w.frames[pod].op, w.frames[pod].reply)
  }

  /** The store commits a step makes, in order. */
  function Commits(w: World, s: Step): seq<Commit>
    requires CanStep(w, s)
  {
    match s
    case Request(a) => RequestSegment(w.journal, w.memory, w.env, a).commits
    case ExecStart(_) => ProgressOf(w, s).commits
    case PlanReturn(_, _) => ProgressOf(w, s).commits
    case SnapshotReturn(_, _, _, _) => ProgressOf(w, s).commits
    case SubmitReturn(_) => ProgressOf(w, s).commits
    case Reconcile(pod, snap) => ReconcileSegment(w.journal, w.memory, w.env, pod, snap).commits
    case Cancel(id) => CancelSegment(w.journal, w.memory, id).commits
    case Restart(_) => RecoverCommits(w.journal.rows)
    case _ => []
  }

  function Landing(frames: map<string, Frame>, pod: string, progress: Progress): map<string, Frame> {
    match progress
    case Waiting(frame) => frames[pod := frame]
    case _ => frames - {pod}
  }

  function PodOf(w: World, s: Step): string
    requires CanStep(w, s)
  {
    match s
    case ExecStart(id) => if id < |w.journal.rows| then w.journal.rows[id].Pod() else ""
    case PlanReturn(pod, _) => pod
    case SnapshotReturn(pod, _, _, _) => pod
    case SubmitReturn(pod) => pod
    case _ => ""
  }

  /** The world apart from the journal. */
  function Rest(w: World, s: Step): World
    requires CanStep(w, s)
  {
    match s
    case Request(a) => w.(memory := RequestSegment(w.journal, w.memory, w.env, a).memory)
    case ExecStart(_) =>
      var segment := ProgressOf(w, s);
      w.(memory := segment.memory,
         frames := if segment.outcome.Waiting? then w.frames[PodOf(w, s) := segment.outcome.frame] else w.frames)
    case PlanReturn(pod, _) => Advanced(w, pod, ProgressOf(w, s))
    case SnapshotReturn(pod, _, _, _) => Advanced(w, pod, ProgressOf(w, s))
    case SubmitReturn(pod) => Advanced(w, pod, ProgressOf(w, s))
    case SubmitCall(pod, reply) =>
      var frame := w.frames[pod];
      w.(frames := w.frames[pod := Replying(frame.op, frame.attempt, reply)],
         calls := w.calls + [Call(frame.op.id, frame.attempt, pod, pod in w.journal.conflicts)])
    case Abandon(pod) => w.(memory := Release(w.memory, pod), frames := w.frames - {pod})
    case Reconcile(pod, snap) => w.(memory := ReconcileSegment(w.journal, w.memory, w.env, pod, snap).memory)
    case Cancel(_) => w
    case Quiesce => w.(memory := w.memory.(quiesced := true))
    case Tick(mono, wall) =>
      w.(env := w.env.(now := Instant(w.env.now.mono + mono, w.env.now.wall + wall)))
    case ChangeVault(vault) => w.(env := w.env.(vault := vault))
    case Restart(mono) => w.(up := true, env := w.env.(now := Instant(mono, w.env.now.wall)))
  }

  function Advanced(w: World, pod: string, segment: Segment<Progress>): World {
    w.(memory := segment.memory, frames := Landing(w.frames, pod, segment.outcome))
  }

  predicate Possible(w: World, a: Action) {
    CanStep(w, a.step) && (a.Crash? ==> a.kept <= |Commits(w, a.step)|)
  }

  function Kept(w: World, a: Action): seq<Commit>
    requires Possible(w, a)
  {
    if a.Do? then Commits(w, a.step) else Commits(w, a.step)[..a.kept]
  }

  function Next(w: World, a: Action): World
    requires Possible(w, a)
  {
    var rest := if a.Do? then Rest(w, a.step) else w.(up := false, memory := FRESH_PROCESS, frames := map[]);
    rest.(journal := ApplyAll(w.journal, Kept(w, a)))
  }

  predicate Initial(w: World) {
    && w.journal.rows == [] && w.journal.conflicts == map[] && w.journal.events == map[]
    && w.memory == FRESH_PROCESS && w.frames == map[] && w.calls == []
  }

  /** A stretch of behaviour, from any world. */
  ghost predicate Path(worlds: seq<World>, actions: seq<Action>) {
    && |worlds| == |actions| + 1
    && forall i :: 0 <= i < |actions| ==>
         Possible(worlds[i], actions[i]) && worlds[i + 1] == Next(worlds[i], actions[i])
  }

  ghost predicate IsRun(worlds: seq<World>, actions: seq<Action>) {
    Path(worlds, actions) && Initial(worlds[0])
  }

  lemma PathJoin(worlds: seq<World>, actions: seq<Action>, worlds': seq<World>, actions': seq<Action>)
    requires Path(worlds, actions) && Path(worlds', actions') && worlds'[0] == worlds[|actions|]
    ensures Path(worlds + worlds'[1..], actions + actions')
  {
    hide Possible, Next;
    var all, more := worlds + worlds'[1..], actions + actions';
    forall i | 0 <= i < |more|
      ensures Possible(all[i], more[i]) && all[i + 1] == Next(all[i], more[i])
    {
      if i >= |actions| {
        var n := i - |actions|;
        assert more[i] == actions'[n] && all[i + 1] == worlds'[n + 1];
        assert all[i] == worlds'[n];
      } else {
        assert more[i] == actions[i] && all[i] == worlds[i] && all[i + 1] == worlds[i + 1];
      }
    }
  }
}
