/** The synthetic pod of backends/mock.py: configuration and device state are separate stores,
    and the device catches up only in explicit steps. */
module ModelBackends {
  import opened Basics
  import opened Lifecycle
  import opened Protocol

  datatype Fault = NoFault | GuardConflict | RejectWrites | LostReply | Withhold

  datatype Device = Device(
    podId: string,
    config: Values,
    observed: Values,
    ready: bool,
    generation: nat,
    revision: nat,
    writes: nat,
    pending: Option<Values>,
    fault: Fault)

  const COMPETING_SSID := Ascii("competing-network")

  const INITIAL_CONFIG: Values := map[
    Ssid := Text(Ascii("initial-network")), Enabled := Flag(true), Mode := Text(AP),
    SecurityMode := Text(WPA2_PSK), Credential := Text(Ascii("unknown"))]

  function SnapshotOf(d: Device): Snapshot {
    Snapshot(d.config, Observation(d.observed, d.generation, d.ready, d.revision), d.ready, d.generation)
  }

  function PlanOn(d: Device, intent: Intent, vault: Vault): Awaited<bool> {
    if !d.ready then Raised(NotReady)
    else if intent.podId != d.podId || intent.radioId != "radio-1" || intent.bssId != "bss-1" then
      Raised(UnsupportedOperation)
    else
      match intent.Target(vault)
      case Err(code) => Raised(code)
      case Ok(_) => Returned(true)
  }

  function SubmitOn(d: Device, intent: Intent, attempt: Attempt, vault: Vault): (Device, Awaited<SubmitResult>) {
    match PlanOn(d, intent, vault)
    case Raised(code) => (d, Raised(code))
    case Broken => (d, Broken)
    case Returned(_) =>
      if d.fault == GuardConflict then
        (d, Returned(SubmitResult(StatusConflict, UNSENT, Some(PreconditionFailed))))
      else if d.fault == RejectWrites then
        (d, Returned(SubmitResult(StatusRejected, UNSENT, Some(PreconditionFailed))))
      else
        var config := d.config + intent.Target(vault).value;
        var written := d.(writes := d.writes + 1, config := config, pending := Some(config));
        if d.fault == LostReply then
          (written.(ready := false), Returned(SubmitResult(StatusUnknown, UNATTRIBUTED, Some(OutcomeUnknown))))
        else
          (written,
           Returned(SubmitResult(StatusCommitted, CommitEvidence(Reply, true, Some(attempt.transactionId)), None)))
  }

  function Stepped(d: Device, partial: bool): Device {
    if d.pending == None || d.fault == Withhold || d.fault == RejectWrites then d
    else if partial then
      d.(observed := if Ssid in d.pending.value then d.observed[Ssid := d.pending.value[Ssid]] else d.observed,
         revision := d.revision + 1)
    else
      d.(observed := d.pending.value, pending := None, revision := d.revision + 1)
  }

  function Reconnected(d: Device): Device {
    d.(generation := d.generation + 1, ready := true)
  }

  // -- What a submission means ------------------------------------------------------

  /** The reply of a submission that changed the configuration. */
  predicate Wrote(reply: Awaited<SubmitResult>) {
    reply.Returned? && reply.value.status in {StatusCommitted, StatusUnknown}
  }

  /** The reply tells whether the configuration was written: if it was, the whole target now
      holds and everything outside the target is as before; if not, nothing changed at all. */
  lemma SubmitMeaning(d: Device, intent: Intent, attempt: Attempt, vault: Vault)
    ensures var (later, reply) := SubmitOn(d, intent, attempt, vault);
            && Conforming(reply)
            && (!Wrote(reply) ==> later == d)
            && (Wrote(reply) ==>
                  && intent.Target(vault).Ok? && Matches(later.config, intent.Target(vault).value)
                  && later.config - intent.Target(vault).value.Keys == d.config - intent.Target(vault).value.Keys
                  && later.writes == d.writes + 1 && later.observed == d.observed)
            && (reply.Returned? && reply.value.status == StatusConflict ==> d.fault == GuardConflict)
  {
  }

  /** Who is answered what: a request that is not ready, outside the one BSS or unresolvable is refused by
      planning; otherwise the fault alone decides, and only a lost reply costs readiness. */
  lemma SubmitExactly(d: Device, intent: Intent, attempt: Attempt, vault: Vault)
    ensures var (later, reply) := SubmitOn(d, intent, attempt, vault);
            var inScope := intent.podId == d.podId && intent.radioId == "radio-1" && intent.bssId == "bss-1";
            && !reply.Broken?
            && (reply.Returned? <==> d.ready && inScope && intent.Target(vault).Ok?)
            && (reply.Raised? ==>
                  reply.code == (if !d.ready then NotReady else if !inScope then UnsupportedOperation
                                 else intent.Target(vault).code))
            && (reply.Returned? ==>
                  var r := reply.value;
                  && (r.status == StatusConflict <==> d.fault == GuardConflict)
                  && (r.status == StatusRejected <==> d.fault == RejectWrites)
                  && (r.status == StatusUnknown <==> d.fault == LostReply)
                  && (r.status == StatusCommitted <==> d.fault == NoFault || d.fault == Withhold)
                  && (r.status == StatusCommitted ==>
                        r.evidence == CommitEvidence(Reply, true, Some(attempt.transactionId)) && r.reason == None)
                  && (r.status == StatusUnknown ==> r.reason == Some(OutcomeUnknown) && r.evidence.attribution == Unknown)
                  && (r.status == StatusConflict || r.status == StatusRejected ==>
                        r.reason == Some(PreconditionFailed) && r.evidence.attribution == NotSubmitted))
            && (later.ready <==> d.ready && !(reply.Returned? && reply.value.status == StatusUnknown))
            && later.pending == (if Wrote(reply) then Some(later.config) else d.pending)
            && later.generation == d.generation && later.revision == d.revision && later.fault == d.fault
  {
  }

  /** The device moves exactly when something is pending and nothing holds it back: wholly, and then nothing
      is pending, or in its SSID only, and then the rest still is. */
  lemma StepExactly(d: Device, partial: bool)
    ensures var later := Stepped(d, partial);
            && later == d.(observed := later.observed, pending := later.pending, revision := later.revision)
            && (later.revision != d.revision <==> d.pending.Some? && d.fault != Withhold && d.fault != RejectWrites)
            && (later.revision == d.revision ==> later == d)
            && (later.revision != d.revision ==>
                  && later.revision == d.revision + 1
                  && (partial ==>
                        && later.pending == d.pending && later.observed - {Ssid} == d.observed - {Ssid}
                        && (Ssid in d.pending.value ==>
                              Ssid in later.observed && later.observed[Ssid] == d.pending.value[Ssid]))
                  && (!partial ==> later.pending == None && later.observed == d.pending.value))
  {
  }

  /** A device that is left alone until nothing is pending shows exactly what was configured. */
  lemma DeviceCatchesUp(d: Device, intent: Intent, attempt: Attempt, vault: Vault)
    requires d.fault == NoFault && SubmitOn(d, intent, attempt, vault).1.Returned?
    ensures var later := Stepped(SubmitOn(d, intent, attempt, vault).0, false);
            later.observed == later.config && later.pending == None
            && SnapshotOf(later).observed.Satisfies(intent.Target(vault).value)
  {
  }

  // -- The backend object ------------------------------------------------------------

  class ModelBackend {
    const podId: string
    var config: Values
    var observed: Values
    var ready: bool
    var generation: nat
    var revision: nat
    var writes: nat
    var pending: Option<Values>
    var fault: Fault

    ghost function View(): Device
      reads this
    {
      Device(podId, config, observed, ready, generation, revision, writes, pending, fault)
    }

    constructor (podId: string, fault: Fault)
      ensures View() == Device(podId, INITIAL_CONFIG, INITIAL_CONFIG, true, 1, 1, 0, None, fault)
    {
      this.podId, this.fault := podId, fault;
      config, observed, ready := INITIAL_CONFIG, INITIAL_CONFIG, true;
      generation, revision, writes, pending := 1, 1, 0, None;
    }

    method TakeSnapshot() returns (snap: Snapshot)
      ensures snap == SnapshotOf(View())
    {
      snap := Snapshot(config, Observation(observed, generation, ready, revision), ready, generation);
    }

    method Plan(intent: Intent, vault: Vault) returns (r: Awaited<bool>)
      ensures r == PlanOn(View(), intent, vault)
    {
      if !ready {
        return Raised(NotReady);
      }
      if (intent.podId, intent.radioId, intent.bssId) != (podId, "radio-1", "bss-1") {
        return Raised(UnsupportedOperation);
      }
      var target := intent.Target(vault);
      r := if target.Err? then Raised(target.code) else Returned(true);
    }

    method Submit(intent: Intent, attempt: Attempt, vault: Vault) returns (r: Awaited<SubmitResult>)
      modifies this
      ensures (View(), r) == old(SubmitOn(View(), intent, attempt, vault))
    {
      var planned := Plan(intent, vault);
      if planned.Raised? {
        return Raised(planned.code);
      }
      if fault == GuardConflict {
        return Returned(SubmitResult(StatusConflict, UNSENT, Some(PreconditionFailed)));
      }
      if fault == RejectWrites {
        return Returned(SubmitResult(StatusRejected, UNSENT, Some(PreconditionFailed)));
      }
      writes := writes + 1;
      config := config + intent.Target(vault).value;
      pending := Some(config);
      if fault == LostReply {
        ready := false;
        return Returned(SubmitResult(StatusUnknown, UNATTRIBUTED, Some(OutcomeUnknown)));
      }
      r := Returned(SubmitResult(StatusCommitted, CommitEvidence(Reply, true, Some(attempt.transactionId)), None));
    }

    method DeviceStep(partial: bool)
      modifies this
      ensures View() == old(Stepped(View(), partial))
    {
      if pending.Some? && fault != Withhold && fault != RejectWrites {
        if partial {
          if Ssid in pending.value {
            observed := observed[Ssid := pending.value[Ssid]];
          }
        } else {
          observed := pending.value;
          pending := None;
        }
        revision := revision + 1;
      }
    }

    method Reconnect()
      modifies this
      ensures View() == old(Reconnected(View()))
    {
      generation := generation + 1;
      ready := true;
    }

    method CompetingWriter()
      modifies this
      ensures View() == old(View()).(config := old(config)[Ssid := Text(COMPETING_SSID)])
    {
      config := config[Ssid := Text(COMPETING_SSID)];
    }

    method Close()
      modifies this
      ensures View() == old(View()).(ready := false)
    {
      ready := false;
    }
  }
}
