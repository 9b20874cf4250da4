# EMOSA: a verified model of its operation engine, OVSDB boundary and WSC codec

EMOSA turns a requested change of one Wi-Fi network ("use this SSID and this key on this BSS") into
one guarded write to a pod's OVSDB, at most once, and then decides from what it later observes
whether the change was applied, came late, got lost or was overwritten by another writer. This
project models the three parts of that program whose correctness is hardest to see, and proves
properties of them for every input, every interleaving and every run.

**The durable operation engine** (`reconcile.py`, `operations.py`, `store.py`, `model.py`,
`backends/mock.py`).

- `Lifecycle` has the records, the transition table with its guards, and the table of what each state
  says about attempts, attribution and evidence. `Journal` is the durable store: every change is one
  commit, and a crash keeps a prefix of the commits of the step it interrupts.
- `Protocol` cuts each coroutine at its suspension points into segments: what a segment commits, what it
  leaves in memory, how it ends. `Engines.Engine`, `Journal.Store` and `ModelBackends.ModelBackend` are the
  objects of the program, updated in place, and each method is proved to do exactly what its segment
  (or the backend's function) says.
- `Runs` is the transition system: requests, the four parts of an execution, reconciliation with an
  arbitrary snapshot, cancellation, clock and vault changes, crashes between any two commits, restarts.
  `Safety` has its invariant, and `Theorems`, `OneActive`, `Deadlines` and `Reconciling` have the results over
  all runs. `Outcomes` says what each step answers and leaves stored, as conditions on what was stored and what
  arrived. `Races` says exactly when an execution in flight still submits to a conflicted pod, and exactly
  when it overwrites a cancellation. `Undisturbed` adds the model backend as the pods' devices and proves that nobody is accused
  of a change nobody made. `Counterexamples` has concrete runs showing that the conditions in those
  theorems are needed.

**The OVSDB boundary** (`opensync/mapping.py`, `opensync/session.py`, `simulation/radio.py`).

- `Ovsdb` is a small server with the transaction semantics of RFC 7047. `Mapping`, `Submission` and
  `Commitment` build the guarded transaction, classify every way it can end, and prove what each
  classification says about the database; `OpenSync.OpenSyncBackend` is the backend object that does it.
- `Wires` is one connection seen from both ends: calls waiting, packets unread, the monitor and the views
  it has had to tell about. `Sessions.OvsSession` is the session object pumping that connection; its invariant
  says which view the cache shows.
- `Radios` and `RadioRuns` are the lab radio manager, which applies configuration to an access point and
  publishes State with optimistic concurrency.

**The WSC codec** (`wsc.py`, `wsc_messages.py`, `wsc_radio.py`). `Wsc` has attributes, authenticated trailers,
padding and encrypted settings; `WscMessages`, `M1Builder`, `M2Sets` and `WscRadio` have the messages made of
them and what a whole set of messages asks of one radio. The keyed hash, the cipher and the key
agreement are parameters: of the hash only the length of a tag is used, of the cipher that decrypting
undoes encrypting (and, for one theorem, that encrypting undoes decrypting).

## Results that are not what one would first expect

Four tempting claims are false of the program; each is answered by what does hold.

- *A pod never has two active operations.* It can, when the process dies between the two commits of a
  request that should have been refused. `OneActive.OrderKeptUnlessSplit` shows that this is the only way,
  and `Counterexamples.SplitRequestLosesOwnership` that it can end in a conflict nobody caused.
- *A cancelled operation stays cancelled.* A stored cancellation is overwritten by REJECTED when the operation's
  own execution was waiting for its plan or its snapshot, and that await raises an error or the pod is not
  ready: the handler writes the copy read at the start. `Races.CancellationOverwrittenExactly` says that these
  steps do it and no others, `Races.CancelLastsExactly` that a cancellation is final in every continuation if
  and only if no execution of the operation is waiting so when it is cancelled, and `Races.OffTableExactly`
  that this is the only commit outside the transition table. `Counterexamples.CancellationOverwritten` is a run.
- *Nothing is submitted to a pod once a conflict is recorded.* An execution already past its ownership check can
  still submit: `Counterexamples.LateSubmission` is a run. `Races.LateSubmissionExactly` gives the exact condition:
  some continuation submits if and only if the pod has an execution about to submit, or waiting for its
  plan or snapshot with its operation still stored as REQUESTED. `Races.AfterConflict` says that everything the rest
  of a run submits is one call of that execution, and `Theorems.OwnershipLatch` that the record stays.
- *"Rejected" and "conflict" mean that nothing changed.* An error raised while the reply is awaited is
  classified as a rejection although the transaction may have been executed; `Sessions.AnswerTooLarge` is such a
  case.
  `Commitment.RefusalsAreTruthfulUnlessPumpFails` gives the exact condition. Likewise a commit establishes the whole
  target exactly when the second snapshot, not the first, was qualified: `Commitment.CommitEstablishesTarget`.

## Model

| member | source | states |
|---|---|---|
| Journal.WindowIsSuffix | src/emosa/store.py:130-154 | For every history of commits, the events kept for a run are exactly the newest `maxEvents` of its complete numbered log. |
| Journal.PagesCoverLog | src/emosa/store.py:160-165 | Asking for the page after the last event of a page neither skips nor repeats an event, and an empty page means nothing is left. |
| Journal.PageIsOldest | src/emosa/store.py:160-165 | A page holds the oldest events after the given number: as many as asked for, held between 1 and 500, and fewer only when there are no more. |
| Journal.NewestDescribes | src/emosa/store.py:93-172 | The newest event of a run says which operation the commit that wrote it stored, in which state and why; other runs get none. |
| Journal.RowIsLastWrite | src/emosa/store.py:71-128 | What is found under an identifier is the record last written under it by an insertion or an update, and nothing is found where nothing was written. |
| Journal.ConflictIsLastRecorded | src/emosa/store.py:167-176 | A pod's ownership record is the one last recorded for it, whatever was committed since, and there is one exactly if one was recorded. |
| Journal.Store.constructor | src/emosa/store.py:15-61 | Opening a store keeps what it holds and starts an empty history. |
| Journal.Store.Lookup | src/emosa/store.py:79-83 | The record of this source, pod and key; none only when no stored record has them. |
| Journal.Store.Add | src/emosa/store.py:93-112 | Refused exactly at the budget, leaving everything as it was; otherwise one commit that inserts the record and its event. |
| Journal.Store.Save | src/emosa/store.py:114-128 | One commit that replaces the record and appends its event. |
| Journal.Store.NumberEvent | src/emosa/store.py:130-154 | The event gets the next number of its run, and what falls out of the window is deleted. |
| Journal.Store.RecordEvent | src/emosa/store.py:156-158 | One commit that appends an observation event. |
| Journal.Store.Events | src/emosa/store.py:160-165 | The page after a sequence number, between 1 and 500 events long. |
| Journal.Store.RecordConflict | src/emosa/store.py:167-172 | One commit that records the pod's conflict and changes nothing else. |
| Records.JudgeKeeps | src/emosa/reconcile.py:221-294 | Judging any watched record against any snapshot, clock and target keeps the evidence table and the lifecycle edges, takes nothing back, raises nothing, and reports a change whenever it made one. |
| Records.ResolveKeeps | src/emosa/reconcile.py:138-159 | Every outcome of a submission resolves a SUBMITTED record to one the evidence table allows, without a guard firing. |
| Records.KeepsThroughTimeout | src/emosa/reconcile.py:223-230 | Passing through TIMED_OUT composes with what comes after it into one lawful change. |
| Safety.CommitsLawful | src/emosa/reconcile.py:32-314 | In every invariant state, every commit of every step obeys the law of commits at the point where it is made, so every prefix a crash keeps does too. |
| Safety.CrashKeepsInv | src/emosa/reconcile.py:95-162 | A crash after any number of a step's commits leaves an invariant state in which nothing stored was taken back. |
| Safety.StepSafe | src/emosa/reconcile.py:32-314 | Every step, complete or cut short by a crash, keeps the invariant and only extends the journal. |
| Safety.RecoverLawful | src/emosa/reconcile.py:299-308 | Recovery turns SUBMITTED into INDETERMINATE and VALIDATED into CANCELLED, each lawfully, and leaves every other record and every conflict alone. |
| Theorems.RunSafe | src/emosa/reconcile.py:32-314 | The invariant holds in every state of every run. |
| Theorems.SubmittedAtMostOnce | src/emosa/reconcile.py:128-139 | In every state of every run, with any crashes and recoveries, submit was called for an operation at most as often as it has durable attempts, and that is at most once. |
| Theorems.SubmissionWasDurable | src/emosa/reconcile.py:134-139 | Only the submission step calls the backend; the record was stored as SUBMITTED with exactly the attempt that is sent, and reconciliation and recovery never submit. |
| Theorems.EvidenceInEveryState | src/emosa/reconcile.py:121-159 | In every reachable journal the state of a record fixes its attempts, attribution, change flag, deadline fields and application evidence. |
| Theorems.OwnershipLatch | src/emosa/reconcile.py:88-159 | A conflict once recorded for a pod, whatever the state of the operation that met it, is on record in every later state, and at most one submission to the pod is ever made with it on record. |
| Theorems.ConflictIsRecorded | src/emosa/reconcile.py:147-159 | An operation stored as OWNERSHIP_CONFLICT has its pod's conflict on record, then and later. |
| Theorems.RecordsAccumulate | src/emosa/reconcile.py:95-314 | Over any stretch of a run, identity, attempts, evidence, outcome, attribution, deadline mark and inactivity of a record are never taken back. |
| Theorems.OneOperationPerKey | src/emosa/reconcile.py:45-51 | No run stores two operations under one idempotency key of one source and pod. |
| Theorems.GuardsNeverFire | src/emosa/operations.py:36-51 | No transition attempted by an execution, a reconciliation or a recovery in any run is refused by an edge or evidence guard. |
| Theorems.LifecycleBounded | src/emosa/operations.py:6-33 | Every persisted change follows an edge of the table, apart from REJECTED overwriting CANCELLED, and an operation changes state at most four times in a run; which steps overwrite is `Races.OffTableExactly`. |
| Theorems.HistoryLawful | src/emosa/reconcile.py:32-314 | The journal of every state of a run is what the commits made so far, including those of steps cut short, produce from the initial one. |
| Theorems.StoredIsLastCommitted | src/emosa/store.py:93-176 | In every state of a run each record, and each pod's ownership record, is the one last committed for it, by a complete or an interrupted step. |
| Races.StepOnlyAhead | src/emosa/reconcile.py:95-162 | One step, complete or interrupted, submits to a conflicted pod only for the execution in flight past its ownership check, and gives no execution that position which did not have it. |
| Races.AfterConflict | src/emosa/reconcile.py:88-139 | After a conflict is recorded, everything the rest of a run submits to the pod is one call, of the execution that was then in flight with its submission still ahead; if none was, nothing. |
| Races.LateSubmissionExactly | src/emosa/reconcile.py:88-139 | In every reachable state with a conflict recorded, some continuation submits to the pod if and only if its execution is about to submit, or waits for its plan or snapshot with its operation still stored as REQUESTED. |
| Races.RunAdmitted | src/emosa/reconcile.py:32-66 | No run stores an operation whose intent fails validation. |
| Races.CancellationOverwrittenExactly | src/emosa/reconcile.py:107-120 | A step overwrites a stored CANCELLED record, with REJECTED, if and only if it ends the plan or snapshot awaited by that operation's own execution with an error or a pod not ready and its commit survives; any other step leaves the record as it is. |
| Races.CancellationFinalExactly | src/emosa/reconcile.py:95-120 | A stored cancellation stands in every continuation of a run if and only if no execution of the operation is waiting for its plan or snapshot. |
| Races.CancelLastsExactly | src/emosa/reconcile.py:310-314 | A cancellation that is accepted is final in every continuation if and only if, when it is made, no execution of the operation is waiting for its plan or snapshot. |
| Races.OffTableExactly | src/emosa/operations.py:6-33 | A commit of a run leaves the transition table if and only if it is that rejection of a copy over a CANCELLED record. |
| Outcomes.EdgesByTarget | src/emosa/operations.py:6-33 | From which states each state is reached; the active states are those that something still leaves. |
| Outcomes.GuardsByTarget | src/emosa/operations.py:36-51 | A transition is made exactly along its edge and with the evidence its target needs, target by target; a refused one leaves only PRECONDITION_FAILED. |
| Outcomes.MatchesExactly | src/emosa/model.py:53-61 | A target is matched exactly by the five values it asks for: this SSID, enabled, access point, WPA2-PSK, this credential. |
| Outcomes.AdmissionExactly | src/emosa/reconcile.py:32-44 | A request is admitted if and only if its intent fits the profile, it is semantic, its source, key and deadline are within bounds, the pod is known and the secret resolves. |
| Outcomes.RefusedAdmission | src/emosa/reconcile.py:32-44 | The first failing check decides the error. |
| Outcomes.RepeatedKeyAnswered | src/emosa/reconcile.py:42-51 | In every state of every run, a request whose source, pod and key are stored changes nothing and is answered with exactly that operation if and only if its intent and its target are those stored; otherwise with INVALID_INPUT. |
| Outcomes.NewRequestAnswered | src/emosa/reconcile.py:52-86 | A request under a new key is refused with BUSY at the budget; otherwise journalled as asked for, and left REQUESTED if and only if the engine is not quiesced and the pod is neither busy nor active nor in conflict; BUSY when held, OWNERSHIP_CONFLICT when only in conflict. |
| Outcomes.StartOutcome | src/emosa/reconcile.py:95-106 | An execution opens exactly for a REQUESTED operation of a known pod neither busy nor in conflict; one in conflict is rejected; otherwise nothing changes. |
| Outcomes.PlanOutcome | src/emosa/reconcile.py:106-120 | Planning that succeeds waits for the snapshot, that fails rejects with its error, and that breaks off leaves the record alone; the pod is freed in the last two. |
| Outcomes.SnapshotOutcome | src/emosa/reconcile.py:107-137 | What is stored after the snapshot: REJECTED when it failed or was not ready, nothing when it broke off or the operation had been cancelled, a no-op with its evidence if and only if the snapshot shows the target, and otherwise SUBMITTED with exactly one attempt. |
| Outcomes.ReplyOutcome | src/emosa/reconcile.py:138-162 | INDETERMINATE with OUTCOME_UNKNOWN if and only if nothing was returned or the reply is unknown; FAILED with the reply's reason if and only if rejected; CONFIG_COMMITTED with the reply's evidence if and only if committed; OWNERSHIP_CONFLICT with the pod's record if and only if conflict. Nothing else changes but the pod being freed. |
| Outcomes.CancelOutcome | src/emosa/reconcile.py:310-314 | CANCELLED is stored if and only if the operation is REQUESTED or VALIDATED; otherwise nothing changes and the answer is the error. |
| Outcomes.RecoverOutcome | src/emosa/reconcile.py:299-308 | After a restart every SUBMITTED record is INDETERMINATE without attribution, every VALIDATED one CANCELLED, and every other record as it was. |
| Outcomes.ReconcileOutcome | src/emosa/reconcile.py:194-297 | The whole outcome of one reconciliation in any good journal, if and only if by if and only if: OBSERVED_APPLIED, TIMED_OUT, conflict recorded, evidence and lateness, deadline marked, blocked, reason, and when an observation is noted; nothing but the last landed record and its pod's conflict changes. |
| Outcomes.ReconcileConfirms | src/emosa/reconcile.py:284-294 | A written or indeterminate operation without evidence gets it if and only if the snapshot shows its target, and with it OBSERVED_APPLIED if and only if its deadline had not passed after it committed. |
| Outcomes.LandedMeans | src/emosa/reconcile.py:207-218 | The states that reconciliation looks past an older operation for are those of an operation sent and not refused, or found already applied. |
| Outcomes.SettledStays | src/emosa/operations.py:6-33 | REJECTED, FAILED and OWNERSHIP_CONFLICT records are never written again by any step, complete or cut short. |
| Outcomes.FailedWasRejected | src/emosa/reconcile.py:138-159 | In every run an operation stored as FAILED had a submission that was answered "rejected", with the stored reason; no broken, raised or unknown submission is taken for one. |
| Outcomes.AttributedHadReply | src/emosa/reconcile.py:143-146 | In every run, commit evidence attributed to a reply is that of a reply to the operation's own submission saying "committed". |
| OneActive.OrderKeptUnlessSplit | src/emosa/reconcile.py:66-86 | A step preserves "what came after an active operation was rejected" if and only if it is not a crash between a request's insertion and its rejection. |
| OneActive.ActiveIsLastLanded | src/emosa/reconcile.py:205-220 | Without such a crash every pod has at most one active operation, and an active one that reached the device is always the one reconciliation looks at. |
| Deadlines.DeadlinesTruthful | src/emosa/reconcile.py:181-192 | When both clocks advance together, the engine finds an operation expired exactly when its persisted deadline has passed, across restarts, and no deadline is marked elapsed early. |
| Deadlines.ExpiredIsDue | src/emosa/reconcile.py:181-192 | The deadline a new process derives from the persisted one is the same instant. |
| Reconciling.ReconcileIsLocal | src/emosa/reconcile.py:194-297 | One reconciliation alters at most the pod's last landed operation, that pod's ownership record and that run's events, and nothing of any other pod. |
| Reconciling.ReconcileIsIdempotent | src/emosa/reconcile.py:194-297 | Repeating it with the same snapshot, vault and clock changes no operation, event, ownership record or memory. |
| Reconciling.AppliedHasWitness | src/emosa/reconcile.py:264-294 | For every record of a run that carries application evidence, OBSERVED_APPLIED or found applied after its deadline, some earlier step saw a ready and fresh snapshot whose configuration and observation both met the target. |
| Engines.Engine.constructor | src/emosa/reconcile.py:14-22 | A new process starts with no busy pod, no deadline and no remembered observation. |
| Engines.Engine.OtherActive | src/emosa/reconcile.py:72-77 | The scan finds an active operation of the pod other than this one exactly when there is one. |
| Engines.Engine.Request | src/emosa/reconcile.py:32-86 | Commits, memory and result are those of the request segment, whose answers `Outcomes.AdmissionExactly`, `Outcomes.RepeatedKeyAnswered` and `Outcomes.NewRequestAnswered` fix case by case. |
| Engines.Engine.Enter | src/emosa/reconcile.py:66-86 | The insertion, and the refusal as a second commit when the pod is busy, has an active operation or lost ownership. |
| Engines.Engine.Start | src/emosa/reconcile.py:95-106 | Up to the suspension in planning: what is busy, refused, finished or left waiting. |
| Engines.Engine.Planned | src/emosa/reconcile.py:106-120 | After planning: on to the snapshot, or the handler that stores REJECTED over whatever is stored now. |
| Engines.Engine.Reject | src/emosa/reconcile.py:116-120 | The handler around validation stores REJECTED and its reason from the copy read at the start. |
| Engines.Engine.Snapshotted | src/emosa/reconcile.py:107-162 | After the snapshot: rejection, a cancellation noticed, or VALIDATED and on. |
| Engines.Engine.Deliver | src/emosa/reconcile.py:115-139 | VALIDATED is stored first; then a no-op with its evidence, or the attempt and SUBMITTED stored before the call. |
| Engines.Engine.Replied | src/emosa/reconcile.py:138-162 | The outcome of the call is stored, as `Outcomes.ReplyOutcome` fixes it; a conflict is recorded before the operation that met it. |
| Engines.Engine.EstablishDeadline | src/emosa/reconcile.py:181-192 | The deadline in memory, established from the persisted one when absent, and whether it has passed. |
| Engines.Engine.NoteObservation | src/emosa/reconcile.py:238-263 | An observation is journalled once per distinct signature. |
| Engines.Engine.ReconcileOne | src/emosa/reconcile.py:221-296 | One watched record: its deadline, the observation noted, the conflict recorded and the judged record saved when it changed. |
| Engines.Engine.NewerLanded | src/emosa/reconcile.py:205-218 | The scan finds a later operation of the pod that may have reached the device exactly when there is one. |
| Engines.Engine.Reconcile | src/emosa/reconcile.py:194-297 | The scan over the whole journal has exactly the effect of judging the pod's last landed operation, which `Outcomes.ReconcileOutcome` fixes. |
| Engines.Engine.Recover | src/emosa/reconcile.py:299-308 | The loop over the journal makes exactly the recovery commits, in order; what they leave stored is `Outcomes.RecoverOutcome`. |
| Engines.Engine.Cancel | src/emosa/reconcile.py:310-314 | CANCELLED where the table allows it, otherwise the guard's error and no change. |
| ModelBackends.SubmitMeaning | src/emosa/backends/mock.py:66-85 | A reply tells whether the configuration was written: if so the whole target holds and the rest is as before, if not nothing changed. |
| ModelBackends.SubmitExactly | src/emosa/backends/mock.py:66-85 | Which requests planning refuses and with what; for the others the fault alone decides the answer, and only a lost reply costs readiness. |
| ModelBackends.StepExactly | src/emosa/backends/mock.py:87-94 | The device moves exactly when something is pending and no fault holds it back: wholly, or in its SSID alone with the rest still pending. |
| ModelBackends.DeviceCatchesUp | src/emosa/backends/mock.py:87-94 | A faultless device left alone until nothing is pending shows what was configured, and the observation satisfies the target. |
| ModelBackends.ModelBackend.constructor | src/emosa/backends/mock.py:13-28 | The initial configuration, observed as such, ready, nothing pending. |
| ModelBackends.ModelBackend.TakeSnapshot | src/emosa/backends/mock.py:30-48 | Configuration and observation side by side, fresh exactly when ready. |
| ModelBackends.ModelBackend.Plan | src/emosa/backends/mock.py:50-64 | Not ready, outside the designated BSS, unresolvable, or planned. |
| ModelBackends.ModelBackend.Submit | src/emosa/backends/mock.py:66-85 | New device state and reply for every fault, as one function of the old state. |
| ModelBackends.ModelBackend.DeviceStep | src/emosa/backends/mock.py:87-94 | The pending configuration becomes observed, wholly or its SSID only, unless withheld. |
| ModelBackends.ModelBackend.Reconnect | src/emosa/backends/mock.py:96-98 | A new generation, ready again. |
| ModelBackends.ModelBackend.CompetingWriter | src/emosa/backends/mock.py:100-101 | Another writer's SSID, and nothing else changed. |
| ModelBackends.ModelBackend.Close | src/emosa/backends/mock.py:103-104 | Not ready any more, and nothing else changed. |
| Undisturbed.NoSpuriousConflict | src/emosa/reconcile.py:206-283 | With an immutable vault, no other writer, no injected guard conflict and no crash inside a request, no run over any number of pods, faults, crashes and restarts records a conflict, and the pod's last landed operation, once known written, has the target the pod is configured with. |
| Undisturbed.EngineCalm | src/emosa/reconcile.py:32-314 | Every engine step and crash other than the excluded one keeps that invariant, looking through a newer SUBMITTED operation that may still fail without having written. |
| Undisturbed.EventCalm | src/emosa/backends/mock.py:87-101 | So does every device event but a competing write and an injected guard conflict. |
| Counterexamples.SplitRequestLosesOwnership | src/emosa/reconcile.py:66-81 | A concrete run with one crash inside a request that ends in OWNERSHIP_CONFLICT although nobody else wrote. |
| Counterexamples.CancellationOverwritten | src/emosa/reconcile.py:116-120 | A concrete run in which stored CANCELLED becomes REJECTED, which is not an edge. |
| Counterexamples.LateSubmission | src/emosa/reconcile.py:88-139 | A concrete run that submits to a pod after its conflict was recorded. |
| Counterexamples.ExecutionCommits | src/emosa/reconcile.py:95-160 | From every quiet state with a willing device, a requested operation can be executed to CONFIG_COMMITTED. |
| Ovsdb.AttemptReplies | src/emosa/opensync/mapping.py:25-39 | A transaction's reply has an element per operation and an error among them exactly when it was aborted (RFC 7047, section 4.1.3). |
| Ovsdb.RepliesTellCommit | src/emosa/opensync/mapping.py:25-39 | It took effect exactly when there are as many elements as operations and none is an error; otherwise the database is unchanged. |
| Ovsdb.WaitMeansAgreement | src/emosa/opensync/mapping.py:13-22 | A guard passes exactly when the row is there and every named column has the quoted value. |
| Mapping.BindIsUnambiguous | src/emosa/opensync/mapping.py:100-144 | A binding is the only VIF and the only radio of their names, connected, on the one expected node, and a state row is used only when it is the one unambiguous mirror. |
| Mapping.BindExactly | src/emosa/opensync/mapping.py:100-127 | Binding succeeds if and only if the expected node is the only one and there is one VIF and one radio of the names, the VIF referenced by the radio; it fails only as NOT_READY. |
| Mapping.StateExactly | src/emosa/opensync/mapping.py:128-144 | The bound state is that of the one mirror row that the one mirror radio refers to, and empty otherwise. |
| Mapping.PlanExactly | src/emosa/opensync/mapping.py:217-251 | Planning succeeds if and only if the target resolves, the request is for the designated BSS, the read is ready and bound with a state, and the VIF is an enabled WPA2-PSK access point with the key. |
| Mapping.CheckInOrder | src/emosa/opensync/mapping.py:25-39 | The loop over results and expected counts, stopping at the first offence, with its four kinds of error. |
| Mapping.CheckMeans | src/emosa/opensync/mapping.py:25-39 | It accepts exactly when every element is acceptable, and otherwise reports the first offence. |
| OpenSync.OpenSyncBackend.constructor | src/emosa/opensync/mapping.py:47-79 | No snapshot yet, no fault armed, nothing written. |
| OpenSync.OpenSyncBackend.TakeSnapshot | src/emosa/opensync/mapping.py:146-173 | The bound rows' values with the generation and revision read; after a failed read the previous snapshot, withdrawn, and the read's own error when there is none; never a ready one. |
| OpenSync.OpenSyncBackend.Submit | src/emosa/opensync/mapping.py:253-348 | Something is sent if and only if planning, the second read, its binding, the generation and the secret allow, otherwise the call fails as the first of them did, or NOT_READY for a stale generation. What is reported of any answer: "committed" only for a delivered reply behind which, whatever the server did, nothing quoted had moved and one row was assigned; "unknown" exactly for a lost answer (or an OUTCOME_UNKNOWN error); "conflict" and "rejected" with their reasons. |
| Submission.TransactionIsGuardedAssignment | src/emosa/opensync/mapping.py:259-316 | On every database the transaction goes through exactly when nothing quoted has moved, and then makes the intended assignment. |
| Submission.KeyReplaced | src/emosa/opensync/mapping.py:283-295 | Deleting and inserting "key" replaces its value and keeps every other pair. |
| Commitment.WaitsCheck | src/emosa/opensync/mapping.py:25-39 | A failing guard anywhere among the guards makes the reply read as a failed precondition; passing guards leave the reading to what follows. |
| Commitment.DeliveredReplyTells | src/emosa/opensync/mapping.py:319-348 | With a delivered reply: committed exactly when every guarded column still had its value and nothing was refused at commit, and then one row changed, only in its SSID and "key"; conflict exactly when something guarded had moved; otherwise nothing changed. |
| Commitment.AnswerTells | src/emosa/opensync/mapping.py:319-348 | The same for every answer, delivered or not: which of the four statuses it is reported as, with which evidence and reason. |
| Commitment.UnmovedExactly | src/emosa/opensync/mapping.py:259-316 | Nothing quoted has moved exactly when the radio still refers to the VIFs it did under its name, no managed column of the VIF differs, and the expected node is still the only one. |
| Commitment.RefusalsAreTruthfulUnlessPumpFails | src/emosa/opensync/mapping.py:331-338 | "Conflict" and "rejected" are truthful for every server history behind an answer if and only if the answer is not an error other than OUTCOME_UNKNOWN raised after sending a submission that would change its row. |
| Commitment.CommitEstablishesTarget | src/emosa/opensync/mapping.py:227-271 | After a commit all five target fields hold if and only if the snapshot it was guarded against was qualified. |
| Commitment.AgreeingSnapshotsEstablishTarget | src/emosa/opensync/mapping.py:253-273 | So they hold whenever planning succeeded on a snapshot that agrees with it on the guarded columns. |
| Wires.MergeOfDiff | src/emosa/opensync/session.py:219-243 | Merging the difference between two monitored views into the first gives the second, row by row (RFC 7047, section 4.1.6). |
| Wires.ActsKeep | src/emosa/opensync/session.py:129-173 | Whatever happens outside between two reads, unread notices still tell in order every step from the position to the newest view, and positions never move back. |
| Wires.ActsTrace | src/emosa/opensync/session.py:192-217 | Answers on the connection stay answers to the questions they were asked for; no call is executed twice or refused after it was executed. |
| Wires.ActsLogged | src/emosa/opensync/session.py:193-198 | Whatever the server does, what waits for it or was executed by it is a transaction the session wrote out, with its operations. |
| Wires.HeadTells | src/emosa/opensync/session.py:157-172 | The next packet, when a notice, is the next step of the monitor; when an initial view, the first one with every later step still unread. |
| Sessions.OvsSession.constructor | src/emosa/opensync/session.py:46-116 | Not ready, no generation, empty cache. |
| Sessions.OvsSession.Enter | src/emosa/opensync/session.py:118-124 | A request is admitted exactly while a slot is free and the session is open; NOT_READY when it is stopping, BUSY when no slot is free. |
| Sessions.OvsSession.Leave | src/emosa/opensync/session.py:125-127 | Its slot is given back once. |
| Sessions.OvsSession.Update | src/emosa/opensync/session.py:219-243 | The cache becomes the merged candidate, or stays untouched and unready when a table is unexpected, a row is invalid or the row budget is exceeded. |
| Sessions.OvsSession.MergeTable | src/emosa/opensync/session.py:225-234 | The loop over one table's rows, in whatever order, merges all of them or reports an invalid one. |
| Sessions.OvsSession.Pump | src/emosa/opensync/session.py:129-173 | Every turn keeps the cache equal to the view at the position of the current connection's monitor while ready; a new connection is a new generation and unready; an unpinned certificate or an over-limit packet is an error, and every error drops the connection and leaves the cache as it was and the session unready; at most one update goes in. |
| Sessions.OvsSession.Read | src/emosa/opensync/session.py:157-173 | A packet over the message budget is an error; after any error the connection is dropped, the cache and its revision are unchanged and the session is unready; otherwise an acceptable notice of the current monitor is merged into the cache, an unacceptable one is an error, and answers alone are handed on. |
| Sessions.OvsSession.Request | src/emosa/opensync/session.py:192-217 | An answer is returned only on the connection its question went out on, and is the answer to that question; it is written out if and only if there is a connection and the send succeeds. A wait of turns that bring nothing ends, at whichever turn it is, as that turn says: with the answer, the refusal, an error, or in silence on a lost connection, on stopping, for a discarded answer and at the end of the budget. Unsent leaves no trace, a refusal was never executed, and under its identifier nothing else is executed. |
| Sessions.OvsSession.Await | src/emosa/opensync/session.py:200-215 | One turn of waiting: on with the same connection, or ended by the answer, a refusal, a lost or changed connection, or a failed read. |
| Sessions.OvsSession.Wait | src/emosa/opensync/session.py:199-217 | The loop of waiting: after turns that bring nothing it ends as the first other turn says, and in silence, the connection given up, at the end of the budget. |
| Sessions.OvsSession.Connected | src/emosa/opensync/session.py:181-190 | Pumping finds a connection at the first turn that shows one with nothing unread; an old one leaves the session as it is, a new one is a new unready generation. |
| Sessions.OvsSession.Establish | src/emosa/opensync/session.py:247-264 | Ready only after schema, monitor and first view of this generation, and surely when the server answers both questions with a schema the session accepts and an acceptable first view; SCHEMA_MISMATCH when the schema is not qualified; nothing is submitted on the way. |
| Sessions.OvsSession.Subscribe | src/emosa/opensync/session.py:252-264 | A monitor on exactly the wanted columns the server's schema has, of exactly the wanted tables it has; its first view is the whole cache, and only then is the session ready; it is ready whenever an acceptable first view is answered. |
| Sessions.OvsSession.Drain | src/emosa/opensync/session.py:265-272 | At most 128 updates are taken in; ready at the end or an error. In a quiet network all acceptable unread updates up to 128 are taken in, and it succeeds. |
| Sessions.OvsSession.Sync | src/emosa/opensync/session.py:245-272 | Success means ready; a ready session in a quiet network stays so, and one that finds a connection and a willing server becomes so. |
| Sessions.OvsSession.TakeSnapshot | src/emosa/opensync/session.py:274-287 | A snapshot shows the view at the position of this generation's monitor, of exactly the wanted tables and columns the server's schema has, never an older generation's cache; it succeeds for a ready session in a quiet network, where with at most 129 updates unread it equals the server's tables, and for one that finds a willing server; failure leaves the session unready. |
| Sessions.OvsSession.TransactOnce | src/emosa/opensync/session.py:292-309 | Written out at most once and only in the wanted generation; however it ends, every execution under its identifier is of exactly these operations and consistent with the answer; a delivered result is the reply of such an execution, and refused or unsent means there is none. From a ready session in a quiet network it is written out exactly once unless the send fails, and ends as its wait does: the reply's elements, ErrorReply for a refusal, Lost in silence, or the error. |
| Sessions.OvsSession.Run | src/emosa/opensync/session.py:289-312 | Over any sequence of snapshots, transactions and reconnections, each snapshot shows a view its monitor went through, generations never decrease, and within one no later snapshot shows an earlier view. |
| Sessions.UpToDateWhenRead | src/emosa/opensync/session.py:265-272 | A ready session with no unread notice shows the server's monitored tables as they are. |
| Sessions.WantedRowsShown | src/emosa/opensync/session.py:251-264 | A ready session with nothing unread holds every row of every wanted table the server has, and no other, with exactly the wanted columns the server has. |
| Sessions.ExecutedAtMostOnce | src/emosa/opensync/session.py:192-217 | In every state of a session the server has executed only transactions the session wrote out, with their operations, and none of them twice. |
| Sessions.AnswerTooLarge | src/emosa/opensync/session.py:164-168 | A transaction is executed and its over-limit answer ends the request with NOT_READY: the error that is classified as a refusal. |
| Sessions.BoundedStream.constructor | src/emosa/opensync/session.py:31-32 | Nothing admitted yet. |
| Sessions.BoundedStream.Recv | src/emosa/opensync/session.py:37-42 | Bytes of an unfinished message let through never exceed the limit; the error comes exactly at the limit. |
| Sessions.BoundedStream.Finished | src/emosa/opensync/session.py:164-165 | After a message only what follows it counts as admitted. |
| Radios.GuardRow | src/emosa/simulation/radio.py:159-168 | A wait on all columns the snapshot holds of the row, in any order. |
| Radios.RadioManager.constructor | src/emosa/simulation/radio.py:172-174 | Nothing applied yet. |
| Radios.RadioManager.Cycle | src/emosa/simulation/radio.py:176-244 | When the driver is told, with what, what stands applied afterwards, and the six operations of the publication, whose contents depend on the read alone. |
| Radios.RadioManager.Drive | src/emosa/simulation/radio.py:204-210 | A completed application stands, a failed one leaves nothing standing, and one that escapes with an unhandled error leaves what stood before. |
| Radios.StandsIsLastCompleted | src/emosa/simulation/radio.py:203-210 | A configuration stands applied if and only if it was the last one completed and none has failed since. |
| Radios.NoNeedlessApplication | src/emosa/simulation/radio.py:202-210 | Between a completed application and the next one of the same configuration in the same generation, an application failed or another configuration was completed. |
| RadioRuns.PublicationTells | src/emosa/simulation/radio.py:225-253 | A publication takes effect exactly when none of the four rows changed in a quoted column and nothing was refused; otherwise the database is unchanged and reported as a conflict; wrong counts never come. |
| RadioRuns.CycleShows | src/emosa/simulation/radio.py:211-253 | An unraced publication shows its own read's network, as the adapter reads it, on channel 6 of a radio that is on, if and only if that read is consistent; otherwise nothing enabled and no key. |
| RadioRuns.ObservedExactly | src/emosa/simulation/radio.py:121-156 | A read justifies State if and only if status, live configuration and interface all show one enabled WPA2-PSK access point with a passphrase. |
| RadioRuns.LocatedExactly | src/emosa/simulation/radio.py:176-194 | A cycle is in scope if and only if each of the four tables has one row and they refer to one another. |
| RadioRuns.StateShowsOnlyReads | src/emosa/simulation/radio.py:121-156 | In every run of cycles on arbitrarily old snapshots, driver faults, restarts and outside Config writes, every enabled State row is what some past driver read justified. |
| RadioRuns.RunNeedsEveryApplication | src/emosa/simulation/radio.py:195-210 | In every such run the manager tells its driver nothing that stands applied, so no process repeats a completed application in one generation without a failure or a different completion in between. |
| RadioRuns.SeedBindsWithoutClaims | src/emosa/simulation/radio.py:18-82 | Seeding succeeds exactly on four empty tables; the binding is complete, its configuration supported, and no State row is enabled. |
| RadioRuns.ManagerAgreesWithAdapter | src/emosa/simulation/radio.py:91-118 | A configuration the manager accepts is exactly what the adapter reads from the same Config row, within the limits of an intent. |
| RadioRuns.AcceptedExactly | src/emosa/simulation/radio.py:91-118 | A configuration is accepted if and only if it has the lab shape, the adapter reads it as an enabled WPA2-PSK access point, and its SSID and passphrase are plain. |
| RadioRuns.AdapterReadsTheRadio | src/emosa/opensync/mapping.py:81-98 | The values the adapter takes from an enabled State row are the SSID and passphrase a running access point itself reported. |
| RadioRuns.SatisfiedMeansRead | src/emosa/model.py:78-82 | When an observed State row satisfies a target, some past driver read showed an access point with that SSID and passphrase. |
| Wsc.DecodeAttributes | src/emosa/wsc.py:69-83 | The loop decodes exactly what the specification says, with both budgets. |
| Wsc.DecodeInvertsEncode | src/emosa/wsc.py:62-83 | Decoding accepts exactly the concatenated encodings within the budgets, each as the list it encodes. |
| Wsc.EncodingSpelled | src/emosa/wsc.py:62-66 | An attribute on the wire: kind and length of two bytes each, most significant first, then the value. |
| Wsc.TrailerIsLastAttribute | src/emosa/wsc.py:156-165 | A trailer is accepted exactly when the data is a body that can carry it followed by it, so dropping twelve bytes is dropping the last attribute. |
| Wsc.VerifyInvertsAuthenticate | src/emosa/wsc.py:168-185 | A message verifies to a body if and only if it is that body authenticated against the same previous message. |
| Wsc.AuthenticatedExactly | src/emosa/wsc.py:168-176 | A message is authenticated if and only if both messages are within the byte budget, it is whole attributes, one below the count, without an authenticator; what is appended is the tag of both messages. |
| Wsc.UnpadInvertsPad | src/emosa/wsc.py:199-215 | Unpadding accepts exactly the padded data (section 6.3 of RFC 5652). |
| Wsc.EncryptAcceptsExactly | src/emosa/wsc.py:188-203 | Accepted are exactly whole attributes with room for the trailer and at most 65491 bytes, and the output length is 16+((n+12)/16+1)*16, which decryption's length test admits. |
| Wsc.SettingsRoundTrip | src/emosa/wsc.py:188-221 | Decrypting what was encrypted gives the plaintext back. |
| Wsc.DecryptAcceptsOnlyEncryptions | src/emosa/wsc.py:206-221 | With a cipher that is a bijection on blocks, decryption accepts exactly the encryptions of what it returns. |
| WscMessages.ReadSingletons | src/emosa/wsc_messages.py:64-82 | The loop accepts exactly the lists in which every required kind occurs, no consumed kind twice, and each length fits. |
| WscMessages.FieldsAre | src/emosa/wsc_messages.py:64-82 | The collected fields are exactly the consumed kinds that occur, each with its value. |
| WscMessages.ReadVendorSubelements | src/emosa/wsc_messages.py:85-108 | The nested loops collect, in order, the sub-elements of every WFA extension, or fail on a malformed one or over budget. |
| WscMessages.SubelementsExactly | src/emosa/wsc_messages.py:95-107 | The data of an extension parse to a list if and only if they are that list's sub-elements written one after another. |
| WscMessages.ContributionExactly | src/emosa/wsc_messages.py:88-95 | Only WFA extensions contribute, all their sub-elements do, and an extension of the wrong length makes the message malformed. |
| WscMessages.MessageExactly | src/emosa/wsc_messages.py:111-135 | A message is accepted if and only if it decodes, has every required field and no consumed field twice, all of allowed length, says its type, has at most one version, and a BSS index only in M2 just before the authenticator. |
| M1Builder.CreateAcceptsExactly | src/emosa/wsc_messages.py:161-278 | M1 is built exactly for the devices whose facts meet the length, range and no-NUL rules, and decodes to the built list. |
| M1Builder.RequiredTable | src/emosa/wsc_messages.py:35-119 | Which kinds M1 and M2 must carry, with their lengths. |
| M1Builder.BuiltReads | src/emosa/wsc_messages.py:111-135 | The validator accepts a built M1 and finds the built attributes in order, its own nonce, key and address, no BSS index, and exactly one version sub-element. |
| M1Builder.NumbersReadBack | src/emosa/wsc_messages.py:161-189 | Read back as big-endian numbers the facts in an M1 are the device's own, and the OS version its own with the most significant bit set. |
| M2Sets.SetAcceptedExactly | src/emosa/wsc_messages.py:313-328 | A set is accepted exactly when it is within the bound, every message authenticates, in order, and no nonce or present BSS index occurs twice. |
| M2Sets.CountingFindsRepeats | src/emosa/wsc_messages.py:324-327 | Counting distinct elements finds repeats. |
| M2Sets.EnvelopeIsAuthentic | src/emosa/wsc_messages.py:280-308 | An accepted M2 answers this M1's nonce and is its own body authenticated against this M1 under the derived keys, and its data is what the decrypted settings decode to. |
| M2Sets.EnvelopeExactly | src/emosa/wsc_messages.py:280-308 | An M2 is accepted if and only if both messages are valid, it answers this M1's nonce, keys can be derived, it is a body authenticated against this M1, and its settings decrypt to whole attributes. |
| WscRadio.SettingsExactly | src/emosa/wsc_messages.py:203-219 | Settings parse exactly when the required fields occur, none twice, all lengths fit and a rekey key has its password identifier; the result states what the attributes state. |
| WscRadio.CollectRoles | src/emosa/wsc_radio.py:107-114 | The loop collects every message's role, or fails on a missing, misplaced or malformed one. |
| WscRadio.RoleExactly | src/emosa/wsc_radio.py:107-114 | A message has a role if and only if it states none in the clear and one, of one octet, in its encrypted part: that octet without its two low bits. |
| WscRadio.CapabilitiesStated | src/emosa/wsc_radio.py:104-106 | The authentication types of a result are those under 0x1004 of the M1, the encryption types those under 0x1010, as big-endian numbers. |
| WscRadio.WholeSetInterpreted | src/emosa/wsc_radio.py:94-124 | A result covers every message: teardown exactly for one message with the teardown bit, otherwise each message's index, role and settings in order, no index twice. |
| WscRadio.RefusedOnlyFor | src/emosa/wsc_radio.py:94-124 | A set is interpreted if and only if it authenticates, every role is well placed, teardown is alone, and otherwise all settings parse. |
| WscRadio.AdvertisedPresent | src/emosa/wsc_radio.py:104-106 | The M1 behind an accepted set always states both capabilities. |
| WscRadio.CandidateExactly | src/emosa/wsc_radio.py:55-91 | A candidate is returned if and only if the set is one fronthaul WPA2-PSK/AES BSS with a valid SSID and passphrase, the key sent being that passphrase with or without one NUL. |
| WscRadio.Utf8Exactly | src/emosa/wsc_radio.py:77-81 | An SSID passes as UTF-8 if and only if some sequence of Unicode scalar values is encoded as it. |
| WscRadio.CandidateMakesAnIntent | src/emosa/model.py:40-51 | A candidate's SSID passes an intent's validation. |

## Left out

- SQLite, the store's file lock, JSON Schema validation, redaction and run records: the journal keeps only ordered commits, each atomic.
- Operation, attempt and transaction identifiers: a position in the journal and arbitrary numbers; that generated identifiers are fresh is part of the model.
- Time as text: wall-clock and monotonic instants are real numbers, and the timing and `updated_at` fields are not part of this model.
- The plan and schema fingerprint stored with an operation, and event payloads beyond phase, pod, operation and reason.
- Fingerprints: keyed and taken to be collision free, so a credential or an intent stands for its own fingerprint.
- Text that is encoded as UTF-8 is represented by its bytes; whitespace stripped from hostapd's values is the ASCII whitespace.
- asyncio, threads, sockets, TLS and the upstream JSON-RPC library: a coroutine is cut at its awaits, a deadline is the end of a list of turns, and a forced reconnection drops the connection at once, which no read can tell from dropping it at the next turn.
- A server that sends notices not describing its own changes: the server in `Wires` is an honest one; only what a session does with unacceptable updates is stated for arbitrary ones.
- A second monitor on one connection: the server refuses it, because the session names monitors after its generation and so could only repeat an identifier.
- Decoding of OVSDB values by the upstream schema classes: rows are taken as decoded, and whether a row passes the schema is a parameter.
- Constraint names and messages of the server: an error is a string of which only "timed out" matters.
- Inventory, status, waiting for an operation, and closing a backend of the OpenSync mapping: one-branch reads.
- HMAC, AES, Diffie-Hellman and the key derivation: parameters, with no claim about strength or forgery.
- Python objects of the wrong type handed to the codec, which it rejects: excluded by types.
- That an INDETERMINATE operation is ever resolved: the program lets it stay active for good.
- The application, command line, local API, evaluation, qualification and deployment code.
- M2Sets.EnvelopeIsAuthentic: says nothing about who holds the keys, because key agreement is a parameter.
- Sessions.OvsSession.Run: says nothing of readiness; what a willing server and a quiet network lead to is stated in Sync, TakeSnapshot and TransactOnce.
- Sessions.OvsSession.TransactOnce: how a synchronisation that fails is told on is stated only where its outcome is fixed by the turns of the connection; a failed one never writes anything out.
- A server that changes its schema while a connection lasts: the schema is fixed with the model's server.
