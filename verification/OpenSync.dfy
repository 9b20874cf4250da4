/** The backend object of opensync/mapping.py: snapshots of the bound rows, and one guarded
    submission whose outcome says what became of the database. */
module OpenSync {
  import opened Basics
  import opened Lifecycle
  import opened Protocol
  import opened Ovsdb
  import opened Mapping
  import opened Submission
  import opened Commitment

  /** One call fails as another did: with its error, or cut off like it. */
  predicate SameFailure<T, U>(r: Awaited<T>, cause: Awaited<U>) {
    (r.Raised? && cause.Raised? && r.code == cause.code) || (r.Broken? && cause.Broken?)
  }

  class OpenSyncBackend {
    const scope: Scope
    var last: Option<Snapshot>
    var dropNextReply: bool
    var writeCount: nat

    constructor (scope: Scope)
      ensures this.scope == scope && last == None && !dropNextReply && writeCount == 0
    {
      this.scope := scope;
      last, dropNextReply, writeCount := None, false, 0;
    }

    /** A failed read never reports readiness: it hands out the previous snapshot, withdrawn. */
    method TakeSnapshot(answer: Awaited<Raw>) returns (r: Awaited<Snapshot>)
      modifies this`last
      ensures var readable := answer.Returned? && Bind(answer.value, scope).Ok?;
              if readable then
                && r.Returned? && last == Some(r.value)
                && var binding := Bind(answer.value, scope).value;
                   && r.value.ready == r.value.observed.isFresh == (answer.value.ready && binding.state != map[])
                   && r.value.config == ValuesOf(binding.config) && r.value.observed.values == ValuesOf(binding.state)
                   && r.value.generation == r.value.observed.generation == answer.value.generation
                   && r.value.observed.revision == answer.value.revision
              else if old(last).None? then
                && last == None
                && r == (match answer
                         case Returned(raw) => Raised(Bind(raw, scope).code)
                         case Raised(code) => Raised(code)
                         case Broken => Broken)
              else
                && r == Returned(old(last.value).(ready := false, observed := old(last.value.observed).(isFresh := false)))
                && last == Some(r.value)
    {
      var failure: Awaited<Snapshot> := Broken;
      match answer {
        case Returned(raw) =>
          match Bind(raw, scope) {
            case Ok(binding) =>
              var ready := raw.ready && binding.state != map[];
              var snap := Snapshot(
                ValuesOf(binding.config),
                Observation(ValuesOf(binding.state), raw.generation, ready, raw.revision), ready, raw.generation);
              last := Some(snap);
              return Returned(snap);
            case Err(code) => failure := Raised(code);
          }
        case Raised(code) => failure := Raised(code);
        case Broken =>
      }
      if last.None? {
        return failure;
      }
      last := Some(last.value.(ready := false, observed := last.value.observed.(isFresh := false)));
      r := Returned(last.value);
    }

    /** `requests` is what went to the server, if anything did. */
    method Submit(
      intent: Intent, attempt: Attempt, vault: Vault, first: Awaited<Raw>, second: Awaited<Raw>, answer: Answer)
      returns (r: Awaited<SubmitResult>, requests: Option<seq<Request>>)
      requires second.Returned? ==> Quotable(second.value, scope)
      modifies this`dropNextReply, this`writeCount
      ensures Conforming(r)
      ensures match Prepare(scope, vault, intent, attempt, first, second)
              case Ended(outcome) =>
                r == outcome && requests == None && dropNextReply == old(dropNextReply) && writeCount == old(writeCount)
              case Sends(sent) =>
                && requests == Some(sent) && !dropNextReply && writeCount == old(writeCount) + 1
                && r == Returned(Classify(
                          Received(answer, old(dropNextReply)), ExpectedCounts(scope), attempt.transactionId))
      ensures requests.Some? <==>
              && Plan(scope, vault, intent, first).Returned? && second.Returned? && Bind(second.value, scope).Ok?
              && second.value.generation == attempt.generation && Resolve(vault, intent.secretRef).Ok?
      ensures requests.None? && r.Returned? ==>
                && r.value == SubmitResult(StatusRejected, UNSENT, Some(NotReady))
                && second.Returned? && second.value.generation != attempt.generation
      ensures requests.None? && !r.Returned? ==>
                if !Plan(scope, vault, intent, first).Returned? then SameFailure(r, Plan(scope, vault, intent, first))
                else if !second.Returned? then SameFailure(r, second)
                else if Bind(second.value, scope).Err? then r == Raised(Bind(second.value, scope).code)
                else Resolve(vault, intent.secretRef).Err? && r == Raised(Resolve(vault, intent.secretRef).code)
      ensures requests.Some? ==>
                && r.Returned?
                && Reports(
                     r.value, if old(dropNextReply) && (answer.Results? || answer.ErrorReply?) then Lost else answer,
                     second.value, scope, Bind(second.value, scope).value, intent.ssid,
                     Resolve(vault, intent.secretRef).value, attempt.transactionId)
    {
      hide Bind, Plan, Transaction, CheckResults, Resolve, Reports, Complete;
      requests := None;
      var planned := Plan(scope, vault, intent, first);
      if planned.Raised? {
        return Raised(planned.code), None;
      }
      if planned.Broken? {
        return Broken, None;
      }
      if second.Raised? {
        return Raised(second.code), None;
      }
      if second.Broken? {
        return Broken, None;
      }
      var bound := Bind(second.value, scope);
      if bound.Err? {
        return Raised(bound.code), None;
      }
      if second.value.generation != attempt.generation {
        return Returned(SubmitResult(StatusRejected, UNSENT, Some(NotReady))), None;
      }
      var secret := Resolve(vault, intent.secretRef);
      if secret.Err? {
        return Raised(secret.code), None;
      }
      requests := Some(Transaction(second.value, scope, bound.value, intent.ssid, secret.value));
      var discard := dropNextReply;
      dropNextReply := false;
      writeCount := writeCount + 1;
      var received := Received(answer, discard);
      AnswerTells(received, second.value, scope, bound.value, intent.ssid, secret.value, attempt.transactionId);
      match received {
        case Lost => r := Returned(SubmitResult(StatusUnknown, UNATTRIBUTED, Some(OutcomeUnknown)));
        case NotSent(code) => r := Returned(ClassifyError(code));
        case PumpFailed(code) => r := Returned(ClassifyError(code));
        case ErrorReply => r := Returned(ClassifyError(PreconditionFailed));
        case Results(result) =>
          var checked := CheckInOrder(result, ExpectedCounts(scope));
          if checked.Err? {
            r := Returned(ClassifyError(checked.code));
          } else {
            r := Returned(SubmitResult(StatusCommitted, CommitEvidence(Reply, true, Some(attempt.transactionId)), None));
          }
      }
    }
  }
}
