/** What the outcome of a guarded submission says about the database: the classification of every
    answer against what the server did. */
module Commitment {
  import opened Basics
  import opened Lifecycle
  import opened Protocol
  import opened Ovsdb
  import opened Mapping
  import opened Submission

  // -- The reply of a guarded transaction ----------------------------------------------

  function Unchecked(n: nat): seq<Option<nat>> {
    seq(n, i => None)
  }

  lemma WireSplits(reply: Reply, replies: seq<Reply>)
    ensures OnWireAll([reply] + replies) == [OnWire(reply)] + OnWireAll(replies)
    ensures OnWireAll([reply] + replies)[1..] == OnWireAll(replies)
  {
  }

  /** A failing wait makes the whole reply read as a failed precondition, wherever it stands among
      the waits; waits that pass leave the reading to the operations after them. */
  lemma {:induction false} WaitsCheck(db: Database, waits: seq<Request>, tail: seq<Request>, counts: seq<Option<nat>>)
    requires forall w :: w in waits ==> w.Wait?
    requires |counts| == |tail|
    ensures |Attempted(db, waits + tail).1| == |waits| + |tail| && |Attempted(db, tail).1| == |tail|
    ensures CheckFrom(OnWireAll(Attempted(db, waits + tail).1), Unchecked(|waits|) + counts)
         == if Attempted(db, waits).0.None? then Err(PreconditionFailed)
            else CheckFrom(OnWireAll(Attempted(db, tail).1), counts)
    decreases |waits|
  {
    AttemptReplies(db, waits + tail);
    AttemptReplies(db, tail);
    if waits == [] {
      assert waits + tail == tail && Unchecked(0) + counts == counts;
    } else {
      var all := waits + tail;
      assert waits[0] in waits && all[0] == waits[0] && all[1..] == waits[1..] + tail;
      var none := Unchecked(|waits|) + counts;
      assert none[0] == None && none[1..] == Unchecked(|waits| - 1) + counts;
      match Perform(db, waits[0])
      case Stopped(error) =>
        WireSplits(Failure(error), SkippedReplies(|all| - 1));
      case Done(next, reply) =>
        assert next == db && reply == Empty;
        WaitsCheck(db, waits[1..], tail, counts);
        WireSplits(Empty, Attempted(db, all[1..]).1);
    }
  }

  lemma ChangesCheck(db: Database, vif: Uuid, ssid: Bytes, secret: Bytes)
    requires vif in RowsOf(db, VifConfig) && "wpa_psks" in RowsOf(db, VifConfig)[vif]
    requires RowsOf(db, VifConfig)[vif]["wpa_psks"].Dict?
    ensures |Attempted(db, ChangeRequests(vif, ssid, secret)).1| == 2
    ensures CheckFrom(OnWireAll(Attempted(db, ChangeRequests(vif, ssid, secret)).1), [Some(1), Some(1)]) == Ok(true)
  {
    hide Attempted, ChangeRequests, Assigned;
    ChangesAttempt(db, vif, ssid, secret);
    var wire := OnWireAll([Count(1), Count(1)]);
    assert wire == [OnWire(Count(1)), OnWire(Count(1))];
    assert wire[1..] == [OnWire(Count(1))] && [OnWire(Count(1))][1..] == [];
    assert [Some(1), Some(1)][1..] == [Some(1)] && [Some(1)][1..] == [];
    assert CheckFrom([OnWire(Count(1))], [Some(1)]) == Ok(true);
  }

  function Guards(raw: Raw, scope: Scope, binding: Binding): seq<Request>
    requires binding.vif in RowsOf(raw.tables, VifConfig) && binding.radio in RowsOf(raw.tables, RadioConfig)
  {
    IdentityRequests(raw, scope) + GuardRequests(raw, binding)
  }

  lemma GuardsShape(raw: Raw, scope: Scope, binding: Binding)
    requires Quotable(raw, scope) && Bind(raw, scope) == Ok(binding)
    ensures forall w :: w in Guards(raw, scope, binding) ==> w.Wait?
    ensures Unchecked(|Guards(raw, scope, binding)|) + [Some(1), Some(1)] == ExpectedCounts(scope)
    ensures |ExpectedCounts(scope)| == |Guards(raw, scope, binding)| + 2
  {
    hide Bind, IdentityRow, Projection;
    if scope.expectedSerial.Some? {
      OneIdentity(raw, scope, binding);
    }
  }

  lemma OneIdentity(raw: Raw, scope: Scope, binding: Binding)
    requires Bind(raw, scope) == Ok(binding) && scope.expectedSerial.Some?
    ensures |RowsOf(raw.tables, AwlanNode).Keys| == 1
  {
    hide StateOf, Named;
  }

  /** What a delivered reply array reads as, in terms of the database the server had. */
  lemma DeliveredReads(
    db: Database, raw: Raw, scope: Scope, binding: Binding, ssid: Bytes, secret: Bytes, refusal: Option<string>)
    requires Quotable(raw, scope) && Bind(raw, scope) == Ok(binding)
    ensures CheckResults(
              Some(OnWireAll(Transact(db, Transaction(raw, scope, binding, ssid, secret), refusal).replies)),
              ExpectedCounts(scope))
         == if !Unmoved(db, raw, scope, binding) then Err(PreconditionFailed)
            else if refusal.None? then Ok(true)
            else Err(OutcomeUnknown)
  {
    hide Bind, Unmoved, Attempted, GuardRequests, IdentityRequests, OnWire, Unchecked, CheckFrom;
    var guards := Guards(raw, scope, binding);
    var changes := ChangeRequests(binding.vif, ssid, secret);
    var all := Transaction(raw, scope, binding, ssid, secret);
    GuardsShape(raw, scope, binding);
    GuardsAttempt(db, raw, scope, binding);
    WaitsCheck(db, guards, changes, [Some(1), Some(1)]);
    TransactionIsGuardedAssignment(db, raw, scope, binding, ssid, secret);
    if Unmoved(db, raw, scope, binding) {
      ChangesCheck(db, binding.vif, ssid, secret);
    }
  }

  // -- What each outcome means -------------------------------------------------------------

  /** `later` is `db` with the SSID of one VIF row set and, in its key map, only "key" replaced. */
  ghost predicate OneRowAssigned(db: Database, later: Database, vif: Uuid, ssid: Bytes, secret: Bytes) {
    && vif in RowsOf(db, VifConfig) && vif in RowsOf(later, VifConfig)
    && (forall t :: t != VifConfig ==> RowsOf(later, t) == RowsOf(db, t))
    && RowsOf(later, VifConfig).Keys == RowsOf(db, VifConfig).Keys
    && (forall u :: u in RowsOf(db, VifConfig) && u != vif ==> RowsOf(later, VifConfig)[u] == RowsOf(db, VifConfig)[u])
    && var before, after := RowsOf(db, VifConfig)[vif], RowsOf(later, VifConfig)[vif];
       && (forall c :: c !in {"ssid", "wpa_psks"} ==> Cell(after, vif, c) == Cell(before, vif, c))
       && Scalar(after, "ssid") == Some(Str(ssid))
       && KEY in Pairs(after, "wpa_psks") && Pairs(after, "wpa_psks")[KEY] == secret
       && Pairs(after, "wpa_psks") - {KEY} == Pairs(before, "wpa_psks") - {KEY}
  }

  lemma AssignedOneRow(db: Database, vif: Uuid, ssid: Bytes, secret: Bytes)
    requires vif in RowsOf(db, VifConfig) && "wpa_psks" in RowsOf(db, VifConfig)[vif]
    requires RowsOf(db, VifConfig)[vif]["wpa_psks"].Dict?
    ensures OneRowAssigned(db, Assigned(db, vif, ssid, secret), vif, ssid, secret)
  {
    var later := Assigned(db, vif, ssid, secret);
    var after := RowsOf(later, VifConfig)[vif];
    assert after["ssid"] == Atoms({Str(ssid)});
    var atoms := after["ssid"].atoms;
    assert |atoms| == 1 && Only(atoms) in atoms;
    var pairs := Pairs(RowsOf(db, VifConfig)[vif], "wpa_psks");
    assert pairs[KEY := secret] - {KEY} == pairs - {KEY};
  }

  /** With a delivered reply: committed exactly when every quoted column still had the quoted
      value and the server found no constraint violated, and then exactly one row was assigned;
      conflict exactly when something quoted had moved; in every other case nothing changed. */
  lemma DeliveredReplyTells(
    db: Database, raw: Raw, scope: Scope, binding: Binding, ssid: Bytes, secret: Bytes, refusal: Option<string>,
    transactionId: nat)
    requires Quotable(raw, scope) && Bind(raw, scope) == Ok(binding)
    ensures var outcome := Transact(db, Transaction(raw, scope, binding, ssid, secret), refusal);
            var r := Classify(Results(Some(OnWireAll(outcome.replies))), ExpectedCounts(scope), transactionId);
            && (r.status == StatusCommitted <==> Unmoved(db, raw, scope, binding) && refusal.None?)
            && (r.status == StatusConflict <==> !Unmoved(db, raw, scope, binding))
            && (r.status == StatusCommitted ==> OneRowAssigned(db, outcome.db, binding.vif, ssid, secret))
            && (r.status != StatusCommitted ==> outcome.db == db)
  {
    hide Bind, Unmoved, Attempted, Transaction, OnWireAll, ExpectedCounts, CheckResults, OneRowAssigned, Assigned;
    DeliveredReads(db, raw, scope, binding, ssid, secret, refusal);
    TransactionIsGuardedAssignment(db, raw, scope, binding, ssid, secret);
    if Unmoved(db, raw, scope, binding) {
      AssignedOneRow(db, binding.vif, ssid, secret);
    }
  }

  /** Nothing quoted has moved: the radio still refers to the VIFs it did, no managed column of the VIF
      differs, and the expected node is still the only one. */
  lemma UnmovedExactly(db: Database, raw: Raw, scope: Scope, binding: Binding)
    requires Quotable(raw, scope) && Bind(raw, scope) == Ok(binding)
    ensures Unmoved(db, raw, scope, binding) <==>
            && Same(RowsOf(db, RadioConfig), RowsOf(raw.tables, RadioConfig), binding.radio, {"if_name", "vif_configs"})
            && Same(RowsOf(db, VifConfig), RowsOf(raw.tables, VifConfig), binding.vif,
                    {"if_name", "mode", "enabled", "ssid", "wpa", "wpa_key_mgmt", "wpa_psks", "security",
                     "rsn_pairwise_ccmp", "wpa_pairwise_tkip", "wpa_pairwise_ccmp"})
            && (scope.expectedSerial.Some? ==>
                  exists node :: RowsOf(raw.tables, AwlanNode).Keys == {node} && RowsOf(db, AwlanNode).Keys == {node}
                    && "serial_number" in RowsOf(db, AwlanNode)[node]
                    && RowsOf(db, AwlanNode)[node]["serial_number"] == Atoms({Str(scope.expectedSerial.value)}))
  {
    hide Bind, Projected, IdentityRow;
    GuardsSpelled();
    AgreesIsSame(db, raw.tables, RadioConfig, binding.radio, RADIO_GUARD, {"if_name", "vif_configs"});
    AgreesIsSame(db, raw.tables, VifConfig, binding.vif, VIF_GUARD,
                 {"if_name", "mode", "enabled", "ssid", "wpa", "wpa_key_mgmt", "wpa_psks", "security",
                  "rsn_pairwise_ccmp", "wpa_pairwise_tkip", "wpa_pairwise_ccmp"});
    if scope.expectedSerial.Some? {
      OneIdentity(raw, scope, binding);
      var node := Only(RowsOf(raw.tables, AwlanNode).Keys);
      IdentityExactly(db, node, scope.expectedSerial.value);
      assert forall other :: RowsOf(raw.tables, AwlanNode).Keys == {other} ==> other == node;
    }
  }

  lemma GuardsSpelled()
    ensures forall c :: c in RADIO_GUARD <==> c in {"if_name", "vif_configs"}
    ensures forall c :: c in VIF_GUARD <==>
              c in {"if_name", "mode", "enabled", "ssid", "wpa", "wpa_key_mgmt", "wpa_psks", "security",
                    "rsn_pairwise_ccmp", "wpa_pairwise_tkip", "wpa_pairwise_ccmp"}
  {
    assert RADIO_GUARD[0] == "if_name" && RADIO_GUARD[1] == "vif_configs";
    assert VIF_GUARD[0] == "if_name" && VIF_GUARD[1] == "mode" && VIF_GUARD[2] == "enabled" && VIF_GUARD[3] == "ssid";
    assert VIF_GUARD[4] == "wpa" && VIF_GUARD[5] == "wpa_key_mgmt" && VIF_GUARD[6] == "wpa_psks" && VIF_GUARD[7] == "security";
    assert VIF_GUARD[8] == "rsn_pairwise_ccmp" && VIF_GUARD[9] == "wpa_pairwise_tkip" && VIF_GUARD[10] == "wpa_pairwise_ccmp";
  }

  /** The row is there and these columns are as in the other table. */
  predicate Same(rows: Rows, others: Rows, u: Uuid, columns: set<Column>)
    requires u in others
  {
    u in rows && forall c :: c in columns ==> c in rows[u] && c in others[u] && rows[u][c] == others[u][c]
  }

  lemma AgreesIsSame(db: Database, tables: Database, t: Table, u: Uuid, columns: seq<Column>, named: set<Column>)
    requires u in RowsOf(tables, t) && (forall c :: c in columns <==> c in named) && UUID_COLUMN !in columns
    requires forall c :: c in columns ==> c in RowsOf(tables, t)[u]
    ensures Agrees(db, t, u, columns, RowsOf(tables, t)[u]) <==> Same(RowsOf(db, t), RowsOf(tables, t), u, named)
  {
    if Agrees(db, t, u, columns, RowsOf(tables, t)[u]) {
      forall c | c in named
        ensures c in RowsOf(db, t)[u] && RowsOf(db, t)[u][c] == RowsOf(tables, t)[u][c]
      {
        assert c in columns;
      }
    }
  }

  lemma IdentityExactly(db: Database, node: Uuid, serial: Bytes)
    ensures Projected(db, AwlanNode, AnyRow, [UUID_COLUMN, "serial_number"]) == {IdentityRow(node, serial)} <==>
            && RowsOf(db, AwlanNode).Keys == {node} && "serial_number" in RowsOf(db, AwlanNode)[node]
            && RowsOf(db, AwlanNode)[node]["serial_number"] == Atoms({Str(serial)})
  {
    var columns: seq<Column> := [UUID_COLUMN, "serial_number"];
    var rows := RowsOf(db, AwlanNode);
    var projected := Projected(db, AwlanNode, AnyRow, columns);
    if projected == {IdentityRow(node, serial)} {
      forall u | u in rows
        ensures u == node && "serial_number" in rows[u] && rows[u]["serial_number"] == Atoms({Str(serial)})
      {
        assert Projection(rows[u], u, columns) in projected;
        IdentityOf(rows[u], u, node, serial);
      }
      assert rows.Keys == {node} by {
        assert IdentityRow(node, serial) in projected;
        var u :| u in rows && Projection(rows[u], u, columns) == IdentityRow(node, serial);
        assert u == node;
      }
    } else if rows.Keys == {node} && "serial_number" in rows[node] && rows[node]["serial_number"] == Atoms({Str(serial)}) {
      OneNode(db, node, rows[node], serial);
    }
  }

  lemma IdentityOf(row: Row, u: Uuid, node: Uuid, serial: Bytes)
    requires Projection(row, u, [UUID_COLUMN, "serial_number"]) == IdentityRow(node, serial)
    ensures u == node && "serial_number" in row && row["serial_number"] == Atoms({Str(serial)})
  {
    var p := Projection(row, u, [UUID_COLUMN, "serial_number"]);
    assert [UUID_COLUMN, "serial_number"][0] == UUID_COLUMN;
    assert UUID_COLUMN in p && p[UUID_COLUMN] == Atoms({Ref(u)});
    assert IdentityRow(node, serial)[UUID_COLUMN] == Atoms({Ref(node)});
    assert Ref(u) in {Ref(u)};
    assert "serial_number" in p && Cell(row, u, "serial_number") == Some(p["serial_number"]);
  }

  // -- What every answer may be reported as -----------------------------------------------------

  /** The element reports success, with the expected count if there is one. */
  predicate Succeeds(element: Element, count: Option<nat>) {
    element.Object? && element.error == "" && (count.Some? ==> element.count == Some(count.value as int))
  }

  /** Every element reports success. */
  predicate Accepted(result: Option<seq<Element>>, counts: seq<Option<nat>>) {
    && result.Some? && |result.value| == |counts|
    && forall i :: 0 <= i < |counts| ==> Succeeds(result.value[i], counts[i])
  }

  /** Element `i` is the first that does not report success. */
  ghost predicate FirstOffence(result: Option<seq<Element>>, counts: seq<Option<nat>>, i: nat) {
    && result.Some? && |result.value| == |counts| && i < |counts| && !Succeeds(result.value[i], counts[i])
    && forall k :: 0 <= k < i ==> Succeeds(result.value[k], counts[k])
  }

  /** A guard that timed out is a failed precondition and any other error an invalid input; a wrong
      count, a missing element or a wrong number of them leaves the outcome open. */
  ghost predicate Offence(result: Option<seq<Element>>, counts: seq<Option<nat>>, reason: Reason) {
    if result.None? || |result.value| != |counts| then reason == OutcomeUnknown
    else
      forall i :: 0 <= i && FirstOffence(result, counts, i) ==>
        reason == (if result.value[i].NotAnObject? || result.value[i].error == "" then OutcomeUnknown
                   else if result.value[i].error == "timed out" then PreconditionFailed else InvalidInput)
  }

  /** The report is right whatever the server did behind the answer: committed only of a delivered reply, and
      then the guarded columns had not moved and one row was assigned; conflict of a delivered reply
      exactly when something guarded had moved; unknown whenever the reply was lost. */
  ghost predicate Reports(
    r: SubmitResult, answer: Answer, raw: Raw, scope: Scope, binding: Binding, ssid: Bytes, secret: Bytes,
    transactionId: nat)
    requires binding.vif in RowsOf(raw.tables, VifConfig) && binding.radio in RowsOf(raw.tables, RadioConfig)
  {
    && (r.status == StatusCommitted <==> answer.Results? && Accepted(answer.result, ExpectedCounts(scope)))
    && (r.status == StatusCommitted ==> r.evidence == CommitEvidence(Reply, true, Some(transactionId)) && r.reason == None)
    && (r.status != StatusCommitted ==> r.evidence.attribution != Reply && !r.evidence.validated && r.reason.Some?)
    && (r.status == StatusConflict <==> r.reason == Some(PreconditionFailed))
    && (r.status == StatusUnknown <==> r.reason == Some(OutcomeUnknown))
    && (answer.Lost? ==> r == SubmitResult(StatusUnknown, CommitEvidence(Unknown, false, None), Some(OutcomeUnknown)))
    && (answer.NotSent? || answer.PumpFailed? ==> r.reason == Some(answer.code))
    && (answer.ErrorReply? ==> r.reason == Some(PreconditionFailed))
    && (answer.Results? && r.status != StatusCommitted ==>
          Offence(answer.result, ExpectedCounts(scope), r.reason.value))
    && forall db, refusal, later :: Consistent(answer, db, Transaction(raw, scope, binding, ssid, secret), refusal, later) ==>
         Explains(r, answer, db, raw, scope, binding, ssid, secret, refusal, later)
  }

  ghost predicate Explains(
    r: SubmitResult, answer: Answer, db: Database, raw: Raw, scope: Scope, binding: Binding, ssid: Bytes, secret: Bytes,
    refusal: Option<string>, later: Database)
    requires binding.vif in RowsOf(raw.tables, VifConfig) && binding.radio in RowsOf(raw.tables, RadioConfig)
  {
    && (r.status == StatusCommitted ==>
          Unmoved(db, raw, scope, binding) && OneRowAssigned(db, later, binding.vif, ssid, secret))
    && (answer.Results? ==>
          && (r.status == StatusCommitted <==> Unmoved(db, raw, scope, binding) && refusal.None?)
          && (r.status == StatusConflict <==> !Unmoved(db, raw, scope, binding))
          && (r.status == StatusUnknown <==> Unmoved(db, raw, scope, binding) && refusal.Some?)
          && (r.status != StatusCommitted ==> later == db))
  }

  lemma AcceptedIs(result: Option<seq<Element>>, counts: seq<Option<nat>>)
    ensures Accepted(result, counts) <==> CheckResults(result, counts) == Ok(true)
    ensures CheckResults(result, counts).Ok? ==> CheckResults(result, counts) == Ok(true)
    ensures CheckResults(result, counts).Err? ==> Offence(result, counts, CheckResults(result, counts).code)
  {
    hide CheckFrom;
    if result.Some? && |result.value| == |counts| {
      CheckMeans(result.value, counts);
      CheckedTrue(result.value, counts);
      assert forall i :: 0 <= i < |counts| ==>
        (CheckOne(result.value[i], counts[i]).Ok? <==> Succeeds(result.value[i], counts[i]));
    }
  }

  lemma {:induction false} CheckedTrue(elements: seq<Element>, counts: seq<Option<nat>>)
    requires |elements| == |counts|
    ensures CheckFrom(elements, counts).Ok? ==> CheckFrom(elements, counts) == Ok(true)
  {
    if elements != [] && CheckOne(elements[0], counts[0]).Ok? {
      CheckedTrue(elements[1..], counts[1..]);
    }
  }

  /** What is reported of any answer. */
  lemma AnswerTells(
    answer: Answer, raw: Raw, scope: Scope, binding: Binding, ssid: Bytes, secret: Bytes, transactionId: nat)
    requires Quotable(raw, scope) && Bind(raw, scope) == Ok(binding)
    ensures Reports(
              Classify(answer, ExpectedCounts(scope), transactionId), answer, raw, scope, binding, ssid, secret, transactionId)
  {
    hide Bind, Unmoved, Transaction, ExpectedCounts, CheckResults, OneRowAssigned, Accepted, Explains, Complete, Offence;
    var r := Classify(answer, ExpectedCounts(scope), transactionId);
    if answer.Results? {
      AcceptedIs(answer.result, ExpectedCounts(scope));
    }
    forall db, refusal, later | Consistent(answer, db, Transaction(raw, scope, binding, ssid, secret), refusal, later)
      ensures Explains(r, answer, db, raw, scope, binding, ssid, secret, refusal, later)
    {
      AnswerExplained(answer, db, raw, scope, binding, ssid, secret, refusal, later, transactionId);
    }
  }

  lemma AnswerExplained(
    answer: Answer, db: Database, raw: Raw, scope: Scope, binding: Binding, ssid: Bytes, secret: Bytes,
    refusal: Option<string>, later: Database, transactionId: nat)
    requires Quotable(raw, scope) && Bind(raw, scope) == Ok(binding)
    requires Consistent(answer, db, Transaction(raw, scope, binding, ssid, secret), refusal, later)
    ensures Explains(Classify(answer, ExpectedCounts(scope), transactionId), answer, db, raw, scope, binding, ssid, secret,
                     refusal, later)
  {
    hide Bind, Unmoved, Transaction, ExpectedCounts, CheckResults, OneRowAssigned, Quotable, Attempted;
    if answer.Results? {
      DeliveredReplyTells(db, raw, scope, binding, ssid, secret, refusal, transactionId);
      DeliveredReads(db, raw, scope, binding, ssid, secret, refusal);
    }
  }

  // -- Answers without a delivered reply ------------------------------------------------------

  /** The submission would change the row it was built from. */
  predicate WouldChange(binding: Binding, ssid: Bytes, secret: Bytes) {
    !("ssid" in binding.config && binding.config["ssid"] == Atoms({Str(ssid)})
      && KEY in Pairs(binding.config, "wpa_psks") && Pairs(binding.config, "wpa_psks")[KEY] == secret)
  }

  predicate ReportsNoChange(status: Status) {
    status == StatusConflict || status == StatusRejected
  }

  /** "Conflict" and "rejected" are truthful for every server history behind this answer. */
  ghost predicate Truthful(
    raw: Raw, scope: Scope, binding: Binding, ssid: Bytes, secret: Bytes, answer: Answer, transactionId: nat)
    requires binding.vif in RowsOf(raw.tables, VifConfig) && binding.radio in RowsOf(raw.tables, RadioConfig)
  {
    ReportsNoChange(Classify(answer, ExpectedCounts(scope), transactionId).status) ==>
      forall db, refusal, later ::
        Consistent(answer, db, Transaction(raw, scope, binding, ssid, secret), refusal, later) ==> later == db
  }

  lemma IdentityFromOwnSnapshot(raw: Raw, scope: Scope, binding: Binding)
    requires Bind(raw, scope) == Ok(binding) && scope.expectedSerial.Some?
    ensures |RowsOf(raw.tables, AwlanNode).Keys| == 1
    ensures Projected(raw.tables, AwlanNode, AnyRow, [UUID_COLUMN, "serial_number"])
         == {IdentityRow(Only(RowsOf(raw.tables, AwlanNode).Keys), scope.expectedSerial.value)}
  {
    hide StateOf, Named;
    var nodes := RowsOf(raw.tables, AwlanNode);
    var node := Only(nodes.Keys);
    assert nodes[node]["serial_number"] == Atoms({Str(scope.expectedSerial.value)});
    OneNode(raw.tables, node, nodes[node], scope.expectedSerial.value);
  }

  lemma OneNode(db: Database, node: Uuid, row: Row, serial: Bytes)
    requires RowsOf(db, AwlanNode).Keys == {node} && RowsOf(db, AwlanNode)[node] == row
    requires "serial_number" in row && row["serial_number"] == Atoms({Str(serial)})
    ensures Projected(db, AwlanNode, AnyRow, [UUID_COLUMN, "serial_number"]) == {IdentityRow(node, serial)}
  {
    var columns: seq<Column> := [UUID_COLUMN, "serial_number"];
    assert Projection(row, node, columns) == IdentityRow(node, serial);
    assert Selected(db, AwlanNode, AnyRow) == {node};
    var projected := Projected(db, AwlanNode, AnyRow, columns);
    assert forall r :: r in projected <==> r == IdentityRow(node, serial);
  }

  lemma UnmovedFromOwnSnapshot(raw: Raw, scope: Scope, binding: Binding)
    requires Quotable(raw, scope) && Bind(raw, scope) == Ok(binding)
    ensures Unmoved(raw.tables, raw, scope, binding)
    ensures binding.config == RowsOf(raw.tables, VifConfig)[binding.vif]
  {
    if scope.expectedSerial.Some? {
      IdentityFromOwnSnapshot(raw, scope, binding);
    }
    hide Projected, IdentityRow, StateOf, Named, Complete;
  }

  lemma UnmovedColumn(db: Database, raw: Raw, scope: Scope, binding: Binding, column: Column)
    requires Quotable(raw, scope) && Bind(raw, scope) == Ok(binding) && Unmoved(db, raw, scope, binding)
    requires column in VIF_GUARD
    ensures binding.vif in RowsOf(db, VifConfig) && binding.config == RowsOf(raw.tables, VifConfig)[binding.vif]
    ensures column in binding.config && column in RowsOf(db, VifConfig)[binding.vif]
    ensures RowsOf(db, VifConfig)[binding.vif][column] == binding.config[column]
  {
    var row := RowsOf(raw.tables, VifConfig)[binding.vif];
    assert column in row && column != UUID_COLUMN;
    assert Cell(row, binding.vif, column) == Cell(RowsOf(db, VifConfig)[binding.vif], binding.vif, column);
  }

  /** The columns that say how the VIF is secured and whether it is up. */
  const REPRESENTATION: seq<Column> := [
    "enabled", "mode", "wpa", "wpa_key_mgmt", "rsn_pairwise_ccmp", "security", "wpa_pairwise_tkip",
    "wpa_pairwise_ccmp"]

  lemma GuardedColumns()
    ensures "ssid" in VIF_GUARD && "wpa_psks" in VIF_GUARD
    ensures forall c :: c in REPRESENTATION ==> c in VIF_GUARD
  {
    assert VIF_GUARD[1] == "mode" && VIF_GUARD[2] == "enabled" && VIF_GUARD[3] == "ssid" && VIF_GUARD[4] == "wpa";
    assert VIF_GUARD[5] == "wpa_key_mgmt" && VIF_GUARD[6] == "wpa_psks" && VIF_GUARD[7] == "security";
    assert VIF_GUARD[8] == "rsn_pairwise_ccmp" && VIF_GUARD[9] == "wpa_pairwise_tkip" && VIF_GUARD[10] == "wpa_pairwise_ccmp";
  }

  lemma AssigningNothing(db: Database, raw: Raw, scope: Scope, binding: Binding, ssid: Bytes, secret: Bytes)
    requires Quotable(raw, scope) && Bind(raw, scope) == Ok(binding) && Unmoved(db, raw, scope, binding)
    ensures binding.vif in RowsOf(db, VifConfig) && "wpa_psks" in RowsOf(db, VifConfig)[binding.vif]
    ensures RowsOf(db, VifConfig)[binding.vif]["wpa_psks"].Dict?
    ensures Assigned(db, binding.vif, ssid, secret) == db <==> !WouldChange(binding, ssid, secret)
  {
    hide Bind, Unmoved;
    GuardedColumns();
    UnmovedColumn(db, raw, scope, binding, "ssid");
    UnmovedColumn(db, raw, scope, binding, "wpa_psks");
    var rows := RowsOf(db, VifConfig);
    var row := rows[binding.vif];
    var pairs := row["wpa_psks"].pairs;
    var next := row["ssid" := Atoms({Str(ssid)})]["wpa_psks" := Dict(pairs[KEY := secret])];
    assert RowsOf(Assigned(db, binding.vif, ssid, secret), VifConfig)[binding.vif] == next;
    assert next["ssid"] == Atoms({Str(ssid)}) && next["wpa_psks"] == Dict(pairs[KEY := secret]);
    if WouldChange(binding, ssid, secret) {
      assert next != row by {
        assert next["ssid"] == Atoms({Str(ssid)}) && next["wpa_psks"].pairs[KEY] == secret;
      }
    } else {
      assert pairs[KEY := secret] == pairs;
      assert next == row;
      assert rows[binding.vif := next] == rows;
      assert db[VifConfig := rows] == db;
    }
  }

  /** "Conflict" and "rejected" never hide a change, except that an error raised while waiting for
      the reply is read as a refusal although the transaction may have been executed. */
  lemma RefusalsAreTruthfulUnlessPumpFails(
    raw: Raw, scope: Scope, binding: Binding, ssid: Bytes, secret: Bytes, answer: Answer, transactionId: nat)
    requires Quotable(raw, scope) && Bind(raw, scope) == Ok(binding)
    ensures Truthful(raw, scope, binding, ssid, secret, answer, transactionId) <==>
            !(answer.PumpFailed? && answer.code != OutcomeUnknown && WouldChange(binding, ssid, secret))
  {
    hide Bind, Unmoved, Transaction, ExpectedCounts, CheckResults, OneRowAssigned, Assigned, WouldChange, Attempted;
    var requests := Transaction(raw, scope, binding, ssid, secret);
    if answer.PumpFailed? && answer.code != OutcomeUnknown && WouldChange(binding, ssid, secret) {
      UnmovedFromOwnSnapshot(raw, scope, binding);
      TransactionIsGuardedAssignment(raw.tables, raw, scope, binding, ssid, secret);
      AssigningNothing(raw.tables, raw, scope, binding, ssid, secret);
      var later := Assigned(raw.tables, binding.vif, ssid, secret);
      assert Executed(raw.tables, requests, None, later);
      assert Consistent(answer, raw.tables, requests, None, later);
    } else if ReportsNoChange(Classify(answer, ExpectedCounts(scope), transactionId).status) {
      forall db, refusal, later | Consistent(answer, db, requests, refusal, later)
        ensures later == db
      {
        ConsistentRefusal(db, raw, scope, binding, ssid, secret, answer, refusal, later, transactionId);
      }
    }
  }

  lemma ConsistentRefusal(
    db: Database, raw: Raw, scope: Scope, binding: Binding, ssid: Bytes, secret: Bytes, answer: Answer,
    refusal: Option<string>, later: Database, transactionId: nat)
    requires Quotable(raw, scope) && Bind(raw, scope) == Ok(binding)
    requires Consistent(answer, db, Transaction(raw, scope, binding, ssid, secret), refusal, later)
    requires ReportsNoChange(Classify(answer, ExpectedCounts(scope), transactionId).status)
    requires !(answer.PumpFailed? && answer.code != OutcomeUnknown && WouldChange(binding, ssid, secret))
    ensures later == db
  {
    hide Bind, Unmoved, Transaction, ExpectedCounts, CheckResults, OneRowAssigned, Assigned, WouldChange, Attempted;
    match answer
    case Results(_) => DeliveredReplyTells(db, raw, scope, binding, ssid, secret, refusal, transactionId);
    case ErrorReply =>
    case NotSent(_) =>
    case Lost =>
    case PumpFailed(_) =>
      if later != db {
        TransactionIsGuardedAssignment(db, raw, scope, binding, ssid, secret);
        if Unmoved(db, raw, scope, binding) {
          AssigningNothing(db, raw, scope, binding, ssid, secret);
        }
      }
  }

  // -- When a commit establishes the whole target ------------------------------------------------

  lemma SameColumnsSameQualification(row: Row, other: Row)
    requires forall c :: c in REPRESENTATION ==> c in row && c in other && row[c] == other[c]
    ensures Qualified(row) <==> Qualified(other)
  {
    hide Modern, Qualified, ValuesOf, Scalar;
    QualifiedSpelled(row);
    QualifiedSpelled(other);
    assert Scalar(row, "enabled") == Scalar(other, "enabled") by {
      assert REPRESENTATION[0] == "enabled";
      SameScalar(row, other, "enabled");
    }
    assert Scalar(row, "mode") == Scalar(other, "mode") by {
      assert REPRESENTATION[1] == "mode";
      SameScalar(row, other, "mode");
    }
    SameModern(row, other);
  }

  lemma SameScalar(row: Row, other: Row, c: Column)
    requires c in row && c in other && row[c] == other[c]
    ensures Scalar(row, c) == Scalar(other, c)
  {
  }

  lemma QualifiedSpelled(row: Row)
    ensures Qualified(row) <==>
            Scalar(row, "mode") == Some(Str(AP)) && Scalar(row, "enabled") == Some(Bool(true)) && Modern(row)
  {
    hide Modern, Scalar, Pairs;
    var values := ValuesOf(row);
    assert SecurityMode in values <==> Modern(row);
    assert SecurityMode in values ==> values[SecurityMode] == Text(WPA2_PSK);
  }

  lemma SameModern(row: Row, other: Row)
    requires forall c :: c in REPRESENTATION ==> c in row && c in other && row[c] == other[c]
    ensures Modern(row) <==> Modern(other)
  {
    assert REPRESENTATION[2] == "wpa" && REPRESENTATION[3] == "wpa_key_mgmt" && REPRESENTATION[4] == "rsn_pairwise_ccmp";
    assert REPRESENTATION[5] == "security" && REPRESENTATION[6] == "wpa_pairwise_tkip";
    assert REPRESENTATION[7] == "wpa_pairwise_ccmp";
  }

  lemma TargetOfAssignedRow(row: Row, intent: Intent, vault: Vault, secret: Bytes)
    requires intent.Target(vault).Ok? && Resolve(vault, intent.secretRef) == Ok(secret)
    requires Scalar(row, "ssid") == Some(Str(intent.ssid))
    requires KEY in Pairs(row, "wpa_psks") && Pairs(row, "wpa_psks")[KEY] == secret
    ensures Matches(ValuesOf(row), intent.Target(vault).value) <==> Qualified(row)
  {
    var target := intent.Target(vault).value;
    var values := ValuesOf(row);
    assert intent.enabled;
    assert Ssid in values && values[Ssid] == Text(intent.ssid);
    assert Credential in values && values[Credential] == Secret(secret);
    assert target.Keys == {Ssid, Enabled, Mode, SecurityMode, Credential};
    if Matches(values, target) {
      assert Enabled in target && Mode in target && SecurityMode in target;
    }
  }

  /** A commit establishes every field of the target exactly when the snapshot it was guarded
      against, not only the one `plan` examined, was qualified. */
  lemma CommitEstablishesTarget(
    db: Database, raw: Raw, scope: Scope, binding: Binding, intent: Intent, vault: Vault)
    requires Quotable(raw, scope) && Bind(raw, scope) == Ok(binding)
    requires intent.Target(vault).Ok? && Resolve(vault, intent.secretRef).Ok?
    ensures var secret := Resolve(vault, intent.secretRef).value;
            var later := Transact(db, Transaction(raw, scope, binding, intent.ssid, secret), None).db;
            Unmoved(db, raw, scope, binding) ==>
              && binding.vif in RowsOf(later, VifConfig)
              && (Matches(ValuesOf(RowsOf(later, VifConfig)[binding.vif]), intent.Target(vault).value)
                  <==> Qualified(binding.config))
  {
    hide Bind, Unmoved, Transaction, Qualified, ValuesOf, Matches, Attempted;
    if Unmoved(db, raw, scope, binding) {
      var secret := Resolve(vault, intent.secretRef).value;
      var later := Transact(db, Transaction(raw, scope, binding, intent.ssid, secret), None).db;
      TransactionIsGuardedAssignment(db, raw, scope, binding, intent.ssid, secret);
      AssignedOneRow(db, binding.vif, intent.ssid, secret);
      var before := RowsOf(db, VifConfig)[binding.vif];
      var after := RowsOf(later, VifConfig)[binding.vif];
      TargetOfAssignedRow(after, intent, vault, secret);
      GuardedColumns();
      forall c | c in REPRESENTATION
        ensures c in after && c in binding.config && after[c] == binding.config[c]
      {
        UnmovedColumn(db, raw, scope, binding, c);
        assert Cell(after, binding.vif, c) == Cell(before, binding.vif, c);
      }
      SameColumnsSameQualification(after, binding.config);
    }
  }

  /** So a submission whose two snapshots agree on the guarded columns establishes the target. */
  lemma AgreeingSnapshotsEstablishTarget(
    db: Database, first: Raw, second: Raw, scope: Scope, earlier: Binding, binding: Binding, intent: Intent,
    vault: Vault)
    requires Quotable(second, scope) && Bind(second, scope) == Ok(binding) && Bind(first, scope) == Ok(earlier)
    requires forall c :: c in VIF_GUARD ==> c in earlier.config && c in binding.config && earlier.config[c] == binding.config[c]
    ensures Plan(scope, vault, intent, Returned(first)).Returned? && Unmoved(db, second, scope, binding) ==>
              && intent.Target(vault).Ok? && Resolve(vault, intent.secretRef).Ok?
              && var secret := Resolve(vault, intent.secretRef).value;
                 var later := Transact(db, Transaction(second, scope, binding, intent.ssid, secret), None).db;
                 && binding.vif in RowsOf(later, VifConfig)
                 && Matches(ValuesOf(RowsOf(later, VifConfig)[binding.vif]), intent.Target(vault).value)
  {
    hide Bind, Unmoved, Transaction, Qualified, ValuesOf, Matches, Attempted;
    if Plan(scope, vault, intent, Returned(first)).Returned? {
      GuardedColumns();
      SameColumnsSameQualification(earlier.config, binding.config);
      CommitEstablishesTarget(db, second, scope, binding, intent, vault);
    }
  }
}
