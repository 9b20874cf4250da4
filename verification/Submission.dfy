/** What one guarded submission does to the server, and what its classified outcome tells. */
module Submission {
  import opened Basics
  import opened Lifecycle
  import opened Protocol
  import opened Ovsdb
  import opened Mapping

  // -- submit -------------------------------------------------------------------------

  /** How `session.transact` ends. */
  datatype Answer =
    | Results(result: Option<seq<Element>>)  // a reply was delivered
    | ErrorReply                             // the server refused the request as a whole
    | NotSent(code: Reason)                  // the session failed before sending
    | Lost                                   // ConnectionError or TimeoutError after sending
    | PumpFailed(code: Reason)               // an EmosaError while waiting for the reply

  /** An answer seen by `submit`, after the fault hook that discards a delivered reply. */
  function Received(answer: Answer, discard: bool): Answer {
    if discard && (answer.Results? || answer.ErrorReply?) then Lost else answer
  }

  function Classify(answer: Answer, counts: seq<Option<nat>>, transactionId: nat): SubmitResult {
    match answer
    case Lost => SubmitResult(StatusUnknown, UNATTRIBUTED, Some(OutcomeUnknown))
    case NotSent(code) => ClassifyError(code)
    case PumpFailed(code) => ClassifyError(code)
    case ErrorReply => ClassifyError(PreconditionFailed)
    case Results(result) =>
      match CheckResults(result, counts)
      case Err(code) => ClassifyError(code)
      case Ok(_) => SubmitResult(StatusCommitted, CommitEvidence(Reply, true, Some(transactionId)), None)
  }

  function ClassifyError(code: Reason): SubmitResult {
    if code == PreconditionFailed then SubmitResult(StatusConflict, UNSENT, Some(code))
    else SubmitResult(if code == OutcomeUnknown then StatusUnknown else StatusRejected, UNSENT, Some(code))
  }

  /** The monitored rows that the guards quote are whole, and the key column is a map. */
  predicate Quotable(raw: Raw, scope: Scope) {
    match Bind(raw, scope)
    case Err(_) => true
    case Ok(binding) =>
      && binding.vif in RowsOf(raw.tables, VifConfig) && binding.radio in RowsOf(raw.tables, RadioConfig)
      && Complete(RowsOf(raw.tables, RadioConfig)[binding.radio], RADIO_GUARD)
      && Complete(RowsOf(raw.tables, VifConfig)[binding.vif], VIF_GUARD)
      && RowsOf(raw.tables, VifConfig)[binding.vif]["wpa_psks"].Dict?
  }

  /** Why a submission stops before anything is sent, or the transaction it sends. */
  datatype Prepared = Ended(outcome: Awaited<SubmitResult>) | Sends(requests: seq<Request>)

  function Prepare(
    scope: Scope, vault: Vault, intent: Intent, attempt: Attempt, first: Awaited<Raw>, second: Awaited<Raw>): Prepared
    requires second.Returned? ==> Quotable(second.value, scope)
  {
    match Plan(scope, vault, intent, first)
    case Raised(code) => Ended(Raised(code))
    case Broken => Ended(Broken)
    case Returned(_) =>
      match second
      case Raised(code) => Ended(Raised(code))
      case Broken => Ended(Broken)
      case Returned(raw) =>
        match Bind(raw, scope)
        case Err(code) => Ended(Raised(code))
        case Ok(binding) =>
          if raw.generation != attempt.generation then
            Ended(Returned(SubmitResult(StatusRejected, UNSENT, Some(NotReady))))
          else
            match Resolve(vault, intent.secretRef)
            case Err(code) => Ended(Raised(code))
            case Ok(secret) => Sends(Transaction(raw, scope, binding, intent.ssid, secret))
  }

  // -- The server's side ----------------------------------------------------------------

  /** The server executed the requests; `refusal` is an error found only at commit. */
  ghost predicate Executed(db: Database, requests: seq<Request>, refusal: Option<string>, later: Database) {
    later == Transact(db, requests, refusal).db
  }

  /** How an answer relates to what the server did: a delivered reply reports the execution, a
      refused or unsent request did nothing, and a lost reply leaves both open. */
  ghost predicate Consistent(answer: Answer, db: Database, requests: seq<Request>, refusal: Option<string>, later: Database) {
    match answer
    case Results(result) =>
      Executed(db, requests, refusal, later) && result == Some(OnWireAll(Transact(db, requests, refusal).replies))
    case ErrorReply => later == db
    case NotSent(_) => later == db
    case Lost => later == db || Executed(db, requests, refusal, later)
    case PumpFailed(_) => later == db || Executed(db, requests, refusal, later)
  }

  /** The one intended change: the SSID of one VIF row and, of its keys, only "key". */
  function Assigned(db: Database, vif: Uuid, ssid: Bytes, secret: Bytes): Database
    requires vif in RowsOf(db, VifConfig) && "wpa_psks" in RowsOf(db, VifConfig)[vif]
    requires RowsOf(db, VifConfig)[vif]["wpa_psks"].Dict?
  {
    var rows := RowsOf(db, VifConfig);
    var pairs := rows[vif]["wpa_psks"].pairs;
    db[VifConfig := rows[vif := rows[vif]["ssid" := Atoms({Str(ssid)})]["wpa_psks" := Dict(pairs[KEY := secret])]]]
  }

  ghost predicate Unmoved(db: Database, raw: Raw, scope: Scope, binding: Binding)
    requires binding.vif in RowsOf(raw.tables, VifConfig) && binding.radio in RowsOf(raw.tables, RadioConfig)
  {
    && Agrees(db, RadioConfig, binding.radio, RADIO_GUARD, RowsOf(raw.tables, RadioConfig)[binding.radio])
    && Agrees(db, VifConfig, binding.vif, VIF_GUARD, RowsOf(raw.tables, VifConfig)[binding.vif])
    && (scope.expectedSerial.Some? && |RowsOf(raw.tables, AwlanNode).Keys| == 1 ==>
          Projected(db, AwlanNode, AnyRow, [UUID_COLUMN, "serial_number"])
            == {IdentityRow(Only(RowsOf(raw.tables, AwlanNode).Keys), scope.expectedSerial.value)})
  }

  // -- What executing the transaction does --------------------------------------------------

  lemma {:induction false} AttemptConcat(db: Database, first: seq<Request>, second: seq<Request>)
    ensures Attempted(db, first + second).0 ==
            match Attempted(db, first).0
            case None => None
            case Some(next) => Attempted(next, second).0
    decreases |first|
  {
    if first == [] {
      assert first + second == second;
    } else {
      assert (first + second)[0] == first[0] && (first + second)[1..] == first[1..] + second;
      match Perform(db, first[0])
      case Stopped(_) =>
      case Done(next, _) => AttemptConcat(next, first[1..], second);
    }
  }

  lemma AttemptOne(db: Database, r: Request)
    ensures Attempted(db, [r]).0 == (match Perform(db, r) case Stopped(_) => None case Done(next, _) => Some(next))
  {
    assert [r][1..] == [];
  }

  lemma AttemptTwo(db: Database, r: Request, q: Request)
    ensures Attempted(db, [r, q]).0 ==
            match Perform(db, r)
            case Stopped(_) => None
            case Done(next, _) => (match Perform(next, q) case Stopped(_) => None case Done(last, _) => Some(last))
  {
    AttemptOne(db, r);
    if Perform(db, r).Done? {
      AttemptOne(Perform(db, r).db, q);
    }
    AttemptConcat(db, [r], [q]);
    assert [r] + [q] == [r, q];
  }

  lemma GuardsAttempt(db: Database, raw: Raw, scope: Scope, binding: Binding)
    requires Quotable(raw, scope) && Bind(raw, scope) == Ok(binding)
    ensures Attempted(db, IdentityRequests(raw, scope) + GuardRequests(raw, binding)).0
         == if Unmoved(db, raw, scope, binding) then Some(db) else None
  {
    hide Bind;
    var radio := RowsOf(raw.tables, RadioConfig)[binding.radio];
    var vif := RowsOf(raw.tables, VifConfig)[binding.vif];
    WaitMeansAgreement(db, RadioConfig, binding.radio, RADIO_GUARD, radio);
    WaitMeansAgreement(db, VifConfig, binding.vif, VIF_GUARD, vif);
    AttemptTwo(db, Guard(RadioConfig, binding.radio, radio, RADIO_GUARD), Guard(VifConfig, binding.vif, vif, VIF_GUARD));
    AttemptConcat(db, IdentityRequests(raw, scope), GuardRequests(raw, binding));
    if IdentityRequests(raw, scope) != [] {
      AttemptOne(db, IdentityRequests(raw, scope)[0]);
    }
  }

  /** Delete-then-insert replaces the value of "key" and keeps every other pair. */
  lemma KeyReplaced(row: Row, secret: Bytes)
    requires "wpa_psks" in row && row["wpa_psks"].Dict?
    ensures MutatedAll(row, [DeleteKeys("wpa_psks", {KEY}), InsertPairs("wpa_psks", map[KEY := secret])])
         == Some(row["wpa_psks" := Dict(row["wpa_psks"].pairs[KEY := secret])])
  {
    var deleted := DeleteKeys("wpa_psks", {KEY});
    var inserted := InsertPairs("wpa_psks", map[KEY := secret]);
    var pairs := row["wpa_psks"].pairs;
    var middle := row["wpa_psks" := Dict(pairs - {KEY})];
    assert Mutated(row, deleted) == Some(middle);
    assert map[KEY := secret] + (pairs - {KEY}) == pairs[KEY := secret];
    assert middle["wpa_psks" := Dict(pairs[KEY := secret])] == row["wpa_psks" := Dict(pairs[KEY := secret])];
    assert Mutated(middle, inserted) == Some(row["wpa_psks" := Dict(pairs[KEY := secret])]);
    assert [deleted, inserted][1..] == [inserted] && [inserted][1..] == [];
    assert MutatedAll(row, [deleted, inserted]) == MutatedAll(middle, [inserted]);
  }

  lemma Renamed(db: Database, vif: Uuid, ssid: Bytes)
    requires vif in RowsOf(db, VifConfig)
    ensures var rows := RowsOf(db, VifConfig);
            Perform(db, Update(VifConfig, TheRow(vif), map["ssid" := Atoms({Str(ssid)})]))
              == Done(db[VifConfig := rows[vif := rows[vif]["ssid" := Atoms({Str(ssid)})]]], Count(1))
  {
    var rows := RowsOf(db, VifConfig);
    var change: Row := map["ssid" := Atoms({Str(ssid)})];
    assert rows[vif] + change == rows[vif]["ssid" := Atoms({Str(ssid)})];
    assert Selected(db, VifConfig, TheRow(vif)) == {vif};
    assert UpdatedRows(rows, {vif}, change) == rows[vif := rows[vif] + change];
  }

  lemma Rekeyed(db: Database, vif: Uuid, secret: Bytes)
    requires vif in RowsOf(db, VifConfig) && "wpa_psks" in RowsOf(db, VifConfig)[vif]
    requires RowsOf(db, VifConfig)[vif]["wpa_psks"].Dict?
    ensures var rows := RowsOf(db, VifConfig);
            var pairs := rows[vif]["wpa_psks"].pairs;
            Perform(db, Mutate(VifConfig, TheRow(vif),
                               [DeleteKeys("wpa_psks", {KEY}), InsertPairs("wpa_psks", map[KEY := secret])]))
              == Done(db[VifConfig := rows[vif := rows[vif]["wpa_psks" := Dict(pairs[KEY := secret])]]], Count(1))
  {
    hide MutatedAll;
    var rows := RowsOf(db, VifConfig);
    var mutations := [DeleteKeys("wpa_psks", {KEY}), InsertPairs("wpa_psks", map[KEY := secret])];
    KeyReplaced(rows[vif], secret);
    assert Selected(db, VifConfig, TheRow(vif)) == {vif};
    assert MutatedRows(rows, {vif}, mutations) == rows[vif := MutatedAll(rows[vif], mutations).value];
  }

  lemma ChangesAttempt(db: Database, vif: Uuid, ssid: Bytes, secret: Bytes)
    requires vif in RowsOf(db, VifConfig) && "wpa_psks" in RowsOf(db, VifConfig)[vif]
    requires RowsOf(db, VifConfig)[vif]["wpa_psks"].Dict?
    ensures Attempted(db, ChangeRequests(vif, ssid, secret)).0 == Some(Assigned(db, vif, ssid, secret))
    ensures Attempted(db, ChangeRequests(vif, ssid, secret)).1 == [Count(1), Count(1)]
  {
    hide Perform, Attempted;
    var requests := ChangeRequests(vif, ssid, secret);
    var rows := RowsOf(db, VifConfig);
    var named := rows[vif]["ssid" := Atoms({Str(ssid)})];
    var renamed: Rows := rows[vif := named];
    var middle := db[VifConfig := renamed];
    Renamed(db, vif, ssid);
    Rekeyed(middle, vif, secret);
    var final: Rows := rows[vif := named["wpa_psks" := Dict(named["wpa_psks"].pairs[KEY := secret])]];
    assert RowsOf(middle, VifConfig)[vif] == named && RowsOf(middle, VifConfig)[vif := final[vif]] == final;
    assert middle[VifConfig := final] == db[VifConfig := final] == Assigned(db, vif, ssid, secret);
    TwoSteps(db, requests[0], requests[1], middle, middle[VifConfig := final], Count(1), Count(1));
    assert requests == [requests[0], requests[1]];
  }

  lemma TwoSteps(db: Database, r: Request, q: Request, middle: Database, last: Database, one: Reply, two: Reply)
    requires Perform(db, r) == Done(middle, one) && Perform(middle, q) == Done(last, two)
    ensures Attempted(db, [r, q]) == (Some(last), [one, two])
  {
    hide Perform;
    assert [r, q][1..] == [q] && [q][1..] == [];
    assert Attempted(last, [q][1..]) == (Some(last), []);
    assert Attempted(middle, [q]) == (Some(last), [two] + []);
    assert [one] + ([two] + []) == [one, two];
  }

  /** The whole transaction is one guarded assignment: it goes through exactly when nothing it
      quotes has moved, and then makes the intended change and no other. */
  lemma TransactionIsGuardedAssignment(
    db: Database, raw: Raw, scope: Scope, binding: Binding, ssid: Bytes, secret: Bytes)
    requires Quotable(raw, scope) && Bind(raw, scope) == Ok(binding)
    ensures Unmoved(db, raw, scope, binding) ==>
              binding.vif in RowsOf(db, VifConfig) && "wpa_psks" in RowsOf(db, VifConfig)[binding.vif]
              && RowsOf(db, VifConfig)[binding.vif]["wpa_psks"].Dict?
    ensures Attempted(db, Transaction(raw, scope, binding, ssid, secret)).0
         == if Unmoved(db, raw, scope, binding) then Some(Assigned(db, binding.vif, ssid, secret)) else None
  {
    hide Bind, IdentityRequests, GuardRequests, ChangeRequests;
    GuardsAttempt(db, raw, scope, binding);
    AttemptConcat(
      db, IdentityRequests(raw, scope) + GuardRequests(raw, binding), ChangeRequests(binding.vif, ssid, secret));
    if Unmoved(db, raw, scope, binding) {
      UnmovedKeys(db, raw, scope, binding);
      ChangesAttempt(db, binding.vif, ssid, secret);
    }
  }

  lemma UnmovedKeys(db: Database, raw: Raw, scope: Scope, binding: Binding)
    requires Quotable(raw, scope) && Bind(raw, scope) == Ok(binding) && Unmoved(db, raw, scope, binding)
    ensures binding.vif in RowsOf(db, VifConfig) && "wpa_psks" in RowsOf(db, VifConfig)[binding.vif]
    ensures RowsOf(db, VifConfig)[binding.vif]["wpa_psks"].Dict?
  {
    hide Bind;
    assert VIF_GUARD[6] == "wpa_psks";
    assert "wpa_psks" in VIF_GUARD;
    var row := RowsOf(raw.tables, VifConfig)[binding.vif];
    assert Cell(row, binding.vif, "wpa_psks") == Some(row["wpa_psks"]);
  }
}
