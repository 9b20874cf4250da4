/** Whole runs of the radio manager against one database: guarded publication, and State that only
    ever shows what a driver read showed. */
module RadioRuns {
  import opened Basics
  import opened Lifecycle
  import opened Ovsdb
  import opened Mapping
  import opened Radios

  // -- One guarded publication ------------------------------------------------------------

  /** The row is there and every quoted column still has the quoted value. */
  ghost predicate Still(db: Database, table: Table, u: Uuid, row: Row) {
    && u in RowsOf(db, table)
    && forall c :: c in row ==> Cell(RowsOf(db, table)[u], u, c) == Some(row[c])
  }

  /** None of the four rows changed since the snapshot. */
  ghost predicate Quiet(db: Database, tables: Database, ids: Ids)
    requires Located(tables) == Some(ids)
  {
    && Still(db, RadioConfig, ids.rc, RowsOf(tables, RadioConfig)[ids.rc])
    && Still(db, VifConfig, ids.vc, RowsOf(tables, VifConfig)[ids.vc])
    && Still(db, RadioState, ids.rs, RowsOf(tables, RadioState)[ids.rs])
    && Still(db, VifState, ids.vs, RowsOf(tables, VifState)[ids.vs])
  }

  /** A monitor never shows the identity column. */
  predicate Monitored(tables: Database) {
    forall t, u :: t in tables && u in tables[t] ==> UUID_COLUMN !in tables[t][u]
  }

  /** The two State rows with the columns of a publication replaced. */
  function Published(db: Database, ids: Ids, state: Option<Row>): Database
    requires ids.vs in RowsOf(db, VifState) && ids.rs in RowsOf(db, RadioState)
  {
    var shown := if state.Some? then state.value else WITHDRAWN;
    var middle := db[VifState := RowsOf(db, VifState)[ids.vs := RowsOf(db, VifState)[ids.vs] + shown]];
    middle[RadioState := RowsOf(db, RadioState)[ids.rs := RowsOf(db, RadioState)[ids.rs] + RadioStateRow(state.Some?)]]
  }

  lemma GuardPasses(db: Database, q: Request, table: Table, u: Uuid, row: Row)
    requires IsGuard(q, table, u, row) && UUID_COLUMN !in row
    ensures Perform(db, q) == if Still(db, table, u, row) then Done(db, Empty) else Stopped("timed out")
  {
    assert Projection(row, u, q.columns) == row;
    WaitMeansAgreement(db, table, u, q.columns, row);
    assert forall c :: c in q.columns ==> Cell(row, u, c) == Some(row[c]);
  }

  lemma GuardFirst(db: Database, requests: seq<Request>, table: Table, u: Uuid, row: Row)
    requires requests != [] && IsGuard(requests[0], table, u, row) && UUID_COLUMN !in row
    ensures Still(db, table, u, row) ==>
              Attempted(db, requests) == (Attempted(db, requests[1..]).0, [Empty] + Attempted(db, requests[1..]).1)
    ensures !Still(db, table, u, row) ==> Attempted(db, requests).0.None?
  {
    hide IsGuard, Still, Perform;
    GuardPasses(db, requests[0], table, u, row);
  }

  lemma UpdateOne(db: Database, table: Table, u: Uuid, row: Row)
    requires u in RowsOf(db, table)
    ensures Perform(db, Update(table, TheRow(u), row))
         == Done(db[table := RowsOf(db, table)[u := RowsOf(db, table)[u] + row]], Count(1))
  {
    var rows := RowsOf(db, table);
    assert Selected(db, table, TheRow(u)) == {u};
    assert UpdatedRows(rows, {u}, row) == rows[u := rows[u] + row];
  }

  lemma UpdatesAttempt(db: Database, ids: Ids, state: Option<Row>)
    requires ids.vs in RowsOf(db, VifState) && ids.rs in RowsOf(db, RadioState)
    ensures Attempted(db, [Update(VifState, TheRow(ids.vs), if state.Some? then state.value else WITHDRAWN),
                           Update(RadioState, TheRow(ids.rs), RadioStateRow(state.Some?))])
         == (Some(Published(db, ids, state)), [Count(1), Count(1)])
  {
    hide Perform, RadioStateRow;
    var shown := if state.Some? then state.value else WITHDRAWN;
    var r, q := Update(VifState, TheRow(ids.vs), shown), Update(RadioState, TheRow(ids.rs), RadioStateRow(state.Some?));
    UpdateOne(db, VifState, ids.vs, shown);
    var middle := db[VifState := RowsOf(db, VifState)[ids.vs := RowsOf(db, VifState)[ids.vs] + shown]];
    assert RowsOf(middle, RadioState) == RowsOf(db, RadioState);
    UpdateOne(middle, RadioState, ids.rs, RadioStateRow(state.Some?));
    assert [r, q][1..] == [q] && [q][1..] == [];
    var last := Published(db, ids, state);
    assert Attempted(last, [q][1..]) == (Some(last), []);
    assert Attempted(middle, [q]) == (Some(last), [Count(1)] + []);
    assert [Count(1)] + ([Count(1)] + []) == [Count(1), Count(1)];
  }

  lemma PublicationAttempt(db: Database, tables: Database, ids: Ids, state: Option<Row>, requests: seq<Request>)
    requires Located(tables) == Some(ids) && Monitored(tables) && IsPublication(requests, tables, ids, state)
    ensures Quiet(db, tables, ids) ==>
              && ids.vs in RowsOf(db, VifState) && ids.rs in RowsOf(db, RadioState)
              && Attempted(db, requests)
                 == (Some(Published(db, ids, state)), [Empty, Empty, Empty, Empty, Count(1), Count(1)])
    ensures !Quiet(db, tables, ids) ==> Attempted(db, requests).0.None?
  {
    hide Located, IsGuard, RadioStateRow, Published, Attempted;
    var q1, q2, q3, q4 := requests[1..], requests[2..], requests[3..], requests[4..];
    assert requests[1..] == q1 && q1[1..] == q2 && q2[1..] == q3 && q3[1..] == q4;
    GuardFirst(db, requests, RadioConfig, ids.rc, RowsOf(tables, RadioConfig)[ids.rc]);
    GuardFirst(db, q1, VifConfig, ids.vc, RowsOf(tables, VifConfig)[ids.vc]);
    GuardFirst(db, q2, RadioState, ids.rs, RowsOf(tables, RadioState)[ids.rs]);
    GuardFirst(db, q3, VifState, ids.vs, RowsOf(tables, VifState)[ids.vs]);
    if Quiet(db, tables, ids) {
      assert q4 == [requests[4], requests[5]];
      UpdatesAttempt(db, ids, state);
      var e := [Empty];
      assert e + (e + (e + (e + [Count(1), Count(1)]))) == [Empty, Empty, Empty, Empty, Count(1), Count(1)];
    }
  }

  /** Only an unraced publication takes effect, it is the only one reported as such, and a reply
      with the wrong counts never comes. */
  lemma PublicationTells(
    db: Database, tables: Database, ids: Ids, state: Option<Row>, requests: seq<Request>, refusal: Option<string>)
    requires Located(tables) == Some(ids) && Monitored(tables) && IsPublication(requests, tables, ids, state)
    ensures var outcome := Transact(db, requests, refusal);
            && (Judge(outcome.replies) == Observed <==> Quiet(db, tables, ids) && refusal.None?)
            && (Judge(outcome.replies) == Conflict <==> !(Quiet(db, tables, ids) && refusal.None?))
            && (Judge(outcome.replies) == Observed ==>
                  && ids.vs in RowsOf(db, VifState) && ids.rs in RowsOf(db, RadioState)
                  && outcome.db == Published(db, ids, state))
            && (Judge(outcome.replies) != Observed ==> outcome.db == db)
  {
    hide Located, IsGuard, RadioStateRow, Published, Quiet, Attempted;
    PublicationAttempt(db, tables, ids, state, requests);
    RepliesTellCommit(db, requests, refusal);
    var replies := Transact(db, requests, refusal).replies;
    if !Quiet(db, tables, ids) || refusal.Some? {
      assert |replies| != 6 || exists i :: 0 <= i < |replies| && replies[i].Failure?;
    } else {
      assert replies == [Empty, Empty, Empty, Empty, Count(1), Count(1)];
    }
  }

  // -- State shows only what was read ---------------------------------------------------------

  predicate On(row: Row) {
    Scalar(row, "enabled") == Some(Bool(true))
  }

  predicate Shows(row: Row, state: Row) {
    forall c :: c in state ==> c in row && row[c] == state[c]
  }

  predicate Backed(row: Row, seen: seq<Reading>) {
    exists k :: 0 <= k < |seen| && ObservedState(seen[k]).Some? && Shows(row, ObservedState(seen[k]).value)
  }

  /** Every enabled State row is what some past read justified. */
  predicate Truthful(db: Database, seen: seq<Reading>) {
    && (forall u :: u in RowsOf(db, VifState) && On(RowsOf(db, VifState)[u]) ==> Backed(RowsOf(db, VifState)[u], seen))
    && (forall u :: u in RowsOf(db, RadioState) && On(RowsOf(db, RadioState)[u]) ==>
          Shows(RowsOf(db, RadioState)[u], RadioStateRow(true))
          && exists k :: 0 <= k < |seen| && ObservedState(seen[k]).Some?)
  }

  /** The database, the reads so far, and what the manager remembers and has applied since it started. */
  datatype Lab = Lab(db: Database, seen: seq<Reading>, applied: Option<Identity>, applications: seq<Application>)

  /** An outside writer changes anything but State; the manager starts anew; or it runs a cycle, whose
      snapshot may be arbitrarily old, whose driver may fail, and whose publication may be executed,
      refused or lost. */
  datatype Step =
    | Outside(db: Database)
    | Restart
    | Cycle(tables: Database, generation: nat, withhold: bool, applying: Applying, seeing: Seeing,
            requests: seq<Request>, executed: bool, refusal: Option<string>)

  /** The cycle ends before it publishes: out of scope, or by an error nobody handles. */
  predicate Ends(lab: Lab, step: Step)
    requires step.Cycle?
  {
    || Located(step.tables).None? || step.seeing.Crashed?
    || (Due(lab.applied, step.tables, step.generation, step.withhold).Some? && step.applying.Escaped?)
  }

  /** The part of a cycle that concerns the driver. */
  function Driven(lab: Lab, step: Step): Lab
    requires step.Cycle?
  {
    if Located(step.tables).None? then lab
    else
      match Due(lab.applied, step.tables, step.generation, step.withhold)
      case None => lab
      case Some(identity) =>
        var application := Application(identity, step.applying);
        lab.(applied := After(lab.applied, application), applications := lab.applications + [application])
  }

  ghost predicate Next(lab: Lab, step: Step, next: Lab) {
    match step
    case Outside(db) =>
      && RowsOf(db, VifState) == RowsOf(lab.db, VifState) && RowsOf(db, RadioState) == RowsOf(lab.db, RadioState)
      && next == lab.(db := db)
    case Restart => next == lab.(applied := None, applications := [])
    case Cycle(tables, generation, withhold, applying, seeing, requests, executed, refusal) =>
      var driven := Driven(lab, step);
      if Ends(lab, step) then next == driven
      else
        && Monitored(tables)
        && IsPublication(
             requests, tables, Located(tables).value, if seeing.Read? then ObservedState(seeing.reading) else None)
        && next == driven.(
             seen := lab.seen + (if seeing.Read? then [seeing.reading] else []),
             db := if executed then Transact(lab.db, requests, refusal).db else lab.db)
  }

  ghost predicate IsRun(labs: seq<Lab>, steps: seq<Step>) {
    && |labs| == |steps| + 1
    && forall i :: 0 <= i < |steps| ==> Next(labs[i], steps[i], labs[i + 1])
  }

  lemma MoreReads(row: Row, seen: seq<Reading>, more: seq<Reading>)
    requires Backed(row, seen)
    ensures Backed(row, seen + more)
  {
    var k :| 0 <= k < |seen| && ObservedState(seen[k]).Some? && Shows(row, ObservedState(seen[k]).value);
    assert (seen + more)[k] == seen[k];
  }

  lemma WrittenState(row: Row, seeing: Seeing, seen: seq<Reading>)
    requires !seeing.Crashed?
    ensures var state := if seeing.Read? then ObservedState(seeing.reading) else None;
            var written := row + (if state.Some? then state.value else WITHDRAWN);
            On(written) ==> Backed(written, seen + (if seeing.Read? then [seeing.reading] else []))
  {
    hide Running;
    var state := if seeing.Read? then ObservedState(seeing.reading) else None;
    var all := seen + (if seeing.Read? then [seeing.reading] else []);
    if state.Some? {
      assert all[|seen|] == seeing.reading;
      assert Shows(row + state.value, state.value);
    } else {
      var off := row + WITHDRAWN;
      assert off["enabled"] == Atoms({Bool(false)});
      assert Only({Bool(false)}) in {Bool(false)};
    }
  }

  lemma WrittenRadioState(row: Row, observed: bool)
    ensures var written := row + RadioStateRow(observed);
            if observed then Shows(written, RadioStateRow(true)) else !On(written)
  {
    if !observed {
      var off := row + RadioStateRow(false);
      assert off["enabled"] == Atoms({Bool(false)});
      assert Only({Bool(false)}) in {Bool(false)};
    }
  }

  lemma PublishedTruthful(db: Database, seen: seq<Reading>, ids: Ids, seeing: Seeing)
    requires Truthful(db, seen) && !seeing.Crashed? && ids.vs in RowsOf(db, VifState) && ids.rs in RowsOf(db, RadioState)
    ensures Truthful(
              Published(db, ids, if seeing.Read? then ObservedState(seeing.reading) else None),
              seen + (if seeing.Read? then [seeing.reading] else []))
  {
    hide Backed, On, Shows, RadioStateRow, ObservedState;
    var state := if seeing.Read? then ObservedState(seeing.reading) else None;
    var more := if seeing.Read? then [seeing.reading] else [];
    var next := Published(db, ids, state);
    forall u | u in RowsOf(next, VifState) && On(RowsOf(next, VifState)[u])
      ensures Backed(RowsOf(next, VifState)[u], seen + more)
    {
      if u == ids.vs {
        WrittenState(RowsOf(db, VifState)[u], seeing, seen);
      } else {
        MoreReads(RowsOf(db, VifState)[u], seen, more);
      }
    }
    forall u | u in RowsOf(next, RadioState) && On(RowsOf(next, RadioState)[u])
      ensures Shows(RowsOf(next, RadioState)[u], RadioStateRow(true))
      ensures exists k :: 0 <= k < |seen + more| && ObservedState((seen + more)[k]).Some?
    {
      if u == ids.rs {
        WrittenRadioState(RowsOf(db, RadioState)[u], state.Some?);
        assert (seen + more)[|seen|] == seeing.reading;
      } else {
        var k :| 0 <= k < |seen| && ObservedState(seen[k]).Some?;
        assert (seen + more)[k] == seen[k];
      }
    }
  }

  lemma MoreReadsTruthful(db: Database, seen: seq<Reading>, more: seq<Reading>)
    requires Truthful(db, seen)
    ensures Truthful(db, seen + more)
  {
    hide Backed, On, Shows, RadioStateRow, ObservedState;
    forall u | u in RowsOf(db, VifState) && On(RowsOf(db, VifState)[u])
      ensures Backed(RowsOf(db, VifState)[u], seen + more)
    {
      MoreReads(RowsOf(db, VifState)[u], seen, more);
    }
    forall u | u in RowsOf(db, RadioState) && On(RowsOf(db, RadioState)[u])
      ensures exists k :: 0 <= k < |seen + more| && ObservedState((seen + more)[k]).Some?
    {
      var k :| 0 <= k < |seen| && ObservedState(seen[k]).Some?;
      assert (seen + more)[k] == seen[k];
    }
  }

  lemma StepTruthful(lab: Lab, step: Step, next: Lab)
    requires Truthful(lab.db, lab.seen) && Next(lab, step, next)
    ensures Truthful(next.db, next.seen)
  {
    hide Backed, On, Shows, RadioStateRow, ObservedState, Located, IsGuard, Published, Quiet, Truthful, Transact, Due;
    match step
    case Outside(db) => SameState(lab.db, db, lab.seen);
    case Restart =>
    case Cycle(tables, _, _, _, seeing, requests, executed, refusal) =>
      if Ends(lab, step) {
        return;
      }
      var ids := Located(tables).value;
      var state := if seeing.Read? then ObservedState(seeing.reading) else None;
      PublicationTells(lab.db, tables, ids, state, requests, refusal);
      if next.db == lab.db {
        MoreReadsTruthful(lab.db, lab.seen, if seeing.Read? then [seeing.reading] else []);
      } else {
        PublishedTruthful(lab.db, lab.seen, ids, seeing);
      }
  }

  lemma SameState(db: Database, other: Database, seen: seq<Reading>)
    requires Truthful(db, seen)
    requires RowsOf(other, VifState) == RowsOf(db, VifState) && RowsOf(other, RadioState) == RowsOf(db, RadioState)
    ensures Truthful(other, seen)
  {
  }

  /** Observed-only publication: whatever is configured, applied, raced or lost, in every state of
      every run each enabled State row is what some past driver read justified. */
  lemma {:induction false} StateShowsOnlyReads(labs: seq<Lab>, steps: seq<Step>, i: nat)
    requires IsRun(labs, steps) && i < |labs|
    requires Truthful(labs[0].db, labs[0].seen)
    ensures Truthful(labs[i].db, labs[i].seen)
  {
    hide Truthful, Next;
    if i > 0 {
      StateShowsOnlyReads(labs, steps, i - 1);
      StepTruthful(labs[i - 1], steps[i - 1], labs[i]);
    }
  }

  ghost predicate Careful(lab: Lab) {
    Disciplined(lab.applications) && lab.applied == Remembered(lab.applications)
  }

  lemma StepCareful(lab: Lab, step: Step, next: Lab)
    requires Careful(lab) && Next(lab, step, next)
    ensures Careful(next)
  {
    hide Located, DesiredConfig, IsPublication, Transact, Disciplined, Remembered, ObservedState, Ends, Monitored;
    NothingApplied();
    if step.Cycle? && Located(step.tables).Some? {
      var due := Due(lab.applied, step.tables, step.generation, step.withhold);
      if due.Some? {
        RememberOneMore(lab.applications, Application(due.value, step.applying));
      }
    }
  }

  lemma NothingApplied()
    ensures Disciplined([]) && Remembered([]) == None
  {
  }

  /** In every run a manager tells its driver nothing that stands applied: a configuration completely
      applied is applied again, in one generation and one process, only after another application
      failed or a different one was completed. */
  lemma {:induction false} RunNeedsEveryApplication(labs: seq<Lab>, steps: seq<Step>, i: nat, k: nat, l: nat)
    requires IsRun(labs, steps) && i < |labs| && Careful(labs[0])
    ensures Careful(labs[i])
    ensures var all := labs[i].applications;
            k < l < |all| && all[k] == Application(all[l].identity, Completed) ==>
              exists m :: k < m < l
                          && (all[m].ending.Failed?
                              || (all[m].ending.Completed? && all[m].identity != all[l].identity))
  {
    hide Next, Disciplined, Remembered;
    if i > 0 {
      RunNeedsEveryApplication(labs, steps, i - 1, k, l);
      StepCareful(labs[i - 1], steps[i - 1], labs[i]);
    }
    var all := labs[i].applications;
    if k < l < |all| && all[k] == Application(all[l].identity, Completed) {
      NoNeedlessApplication(all, k, l);
    }
  }

  // -- What is accepted and what is shown ---------------------------------------------------------

  /** The single supported lab shape, in the columns of the two Config rows. */
  predicate LabShape(vif: Row, radio: Row) {
    && Scalar(vif, "if_name") == Some(Str(Ascii("wlan0"))) && Scalar(vif, "bridge") == Some(Str(Ascii("br-lan")))
    && (Scalar(vif, "multi_ap").None? || Scalar(vif, "multi_ap") == Some(Num(0)))
    && Scalar(radio, "if_name") == Some(Str(Ascii("phy1"))) && Scalar(radio, "freq_band") == Some(Str(Ascii("2.4G")))
    && Scalar(radio, "channel") == Some(Num(6)) && Scalar(radio, "enabled") == Some(Bool(true))
    && |Members(radio, "vif_configs")| == 1 && Pairs(vif, "wpa_psks").Keys == {KEY}
  }

  /** A configuration is accepted exactly for the lab shape whose five managed values the adapter would
      read as an enabled WPA2-PSK access point with a plain SSID and passphrase: those two. */
  lemma AcceptedExactly(vif: Row, radio: Row, c: ApConfig)
    ensures DesiredConfig(vif, radio) == Some(c) <==>
            && LabShape(vif, radio) && PlainSsid(c.ssid) && PlainPassphrase(c.passphrase)
            && ValuesOf(vif) == map[
                 Ssid := Text(c.ssid), Enabled := Flag(true), Mode := Text(AP), SecurityMode := Text(WPA2_PSK),
                 Credential := Secret(c.passphrase)]
  {
    hide ValuesOf, Modern, Scalar, Pairs, Members, PlainSsid, PlainPassphrase;
    ManagerAgreesWithAdapter(vif, radio);
    var five: Values := map[
      Ssid := Text(c.ssid), Enabled := Flag(true), Mode := Text(AP), SecurityMode := Text(WPA2_PSK),
      Credential := Secret(c.passphrase)];
    if ValuesOf(vif) == five {
      ValuesBack(vif, c.ssid, c.passphrase);
    }
    if DesiredConfig(vif, radio) == Some(c) {
      DesiredMeans(vif, radio);
    }
  }

  lemma ValuesBack(row: Row, ssid: Bytes, passphrase: Bytes)
    requires ValuesOf(row) == map[
               Ssid := Text(ssid), Enabled := Flag(true), Mode := Text(AP), SecurityMode := Text(WPA2_PSK),
               Credential := Secret(passphrase)]
    ensures Scalar(row, "ssid") == Some(Str(ssid)) && Scalar(row, "enabled") == Some(Bool(true))
    ensures Scalar(row, "mode") == Some(Str(AP)) && Modern(row)
    ensures KEY in Pairs(row, "wpa_psks") && Pairs(row, "wpa_psks")[KEY] == passphrase
  {
    hide Modern, Scalar, Pairs;
    var values := ValuesOf(row);
    assert values[Ssid] == Text(ssid) && values[Enabled] == Flag(true) && values[Mode] == Text(AP);
    assert SecurityMode in values && values[Credential] == Secret(passphrase);
  }

  predicate Says(m: map<string, Bytes>, name: string, text: Bytes) {
    name in m && m[name] == text
  }

  /** hostapd's status, its live configuration and the interface all show one and the same enabled
      WPA2-PSK access point on channel 6. */
  predicate Consistent(r: Reading) {
    && Says(r.status, "state", Ascii("ENABLED")) && Says(r.status, "freq", Ascii("2437"))
    && r.interface.kind == Some(Ascii("AP")) && r.interface.channel == Some(6)
    && "ssid" in r.live && Says(r.status, "ssid[0]", r.live["ssid"]) && r.interface.ssid == Some(r.live["ssid"])
    && Says(r.live, "bssid", Ascii("02:00:00:ec:02:00")) && r.interface.addr == Some(Ascii("02:00:00:ec:02:00"))
    && Says(r.live, "wpa", Ascii("2")) && Says(r.live, "group_cipher", Ascii("CCMP"))
    && "key_mgmt" in r.live && Stripped(r.live["key_mgmt"]) == Ascii("WPA-PSK")
    && "rsn_pairwise_cipher" in r.live && Stripped(r.live["rsn_pairwise_cipher"]) == Ascii("CCMP")
    && "passphrase" in r.live && r.live["passphrase"] != []
  }

  const WHITE: set<int> := {9, 10, 11, 12, 13, 28, 29, 30, 31, 32}

  /** Stripping takes off white space at both ends and nothing else. */
  lemma {:induction false} StrippedExactly(s: Bytes) returns (a: nat, b: nat)
    ensures a <= b <= |s| && Stripped(s) == s[a..b]
    ensures forall i :: (0 <= i < a || b <= i < |s|) ==> s[i] as int in WHITE
    ensures a < b ==> s[a] as int !in WHITE && s[b - 1] as int !in WHITE
    decreases |s|
  {
    if s != [] && Blank(s[0]) {
      var rest := s[1..];
      a, b := StrippedExactly(rest);
      assert rest[a..b] == s[a + 1..b + 1];
      assert forall i :: 0 <= i < |rest| ==> rest[i] == s[i + 1];
      a, b := a + 1, b + 1;
      forall i | 0 <= i < a || b <= i < |s|
        ensures s[i] as int in WHITE
      {
        if i > 0 {
          assert s[i] == rest[i - 1];
        }
      }
    } else if s != [] && Blank(s[|s| - 1]) {
      var front := s[..|s| - 1];
      a, b := StrippedExactly(front);
      assert front[a..b] == s[a..b];
      assert forall i :: 0 <= i < |front| ==> front[i] == s[i];
    } else {
      a, b := 0, |s|;
    }
  }

  /** Plain text: one to 32 letters, digits, spaces, dots, underscores and hyphens, starting with a letter
      or digit; and 8 to 63 printable ASCII characters. */
  lemma PlainExactly(s: Bytes)
    ensures PlainSsid(s) <==>
            && 1 <= |s| <= 32 && s[0] !in {32, 45, 46, 95}
            && forall i :: 0 <= i < |s| ==>
                 || s[i] in {32, 45, 46, 95} || (48 <= s[i] && s[i] <= 57)
                 || (65 <= s[i] && s[i] <= 90) || (97 <= s[i] && s[i] <= 122)
    ensures PlainPassphrase(s) <==> 8 <= |s| && |s| < 64 && forall i :: 0 <= i < |s| ==> 32 <= s[i] && s[i] < 127
  {
  }

  /** A read justifies State exactly when everything it shows is consistent. */
  lemma ObservedExactly(r: Reading)
    ensures ObservedState(r).Some? <==> Consistent(r)
    ensures Consistent(r) ==> ObservedState(r).value == StateRow(r.live["ssid"], r.live["passphrase"])
  {
    hide Ascii, Stripped;
  }

  /** The interface's State row shows this network, enabled, with its passphrase. */
  predicate NetworkShown(row: Row, ssid: Bytes, passphrase: Bytes) {
    && ValuesOf(row) == map[
         Ssid := Text(ssid), Enabled := Flag(true), Mode := Text(AP), SecurityMode := Text(WPA2_PSK),
         Credential := Secret(passphrase)]
    && Scalar(row, "mac") == Some(Str(Ascii("02:00:00:ec:02:00")))
  }

  /** The radio's State row shows it on, at channel 6 of the 2.4 GHz band. */
  predicate ChannelShown(row: Row) {
    && On(row) && Scalar(row, "channel") == Some(Num(6))
    && Scalar(row, "freq_band") == Some(Str(Ascii("2.4G")))
    && Scalar(row, "mac") == Some(Str(Ascii("02:00:00:ec:02:00")))
  }

  /** An unraced publication of a cycle shows the network of its own read exactly when that read was
      consistent, as the adapter reads it, and otherwise shows nothing enabled and no credential. */
  lemma CycleShows(lab: Lab, step: Step, next: Lab)
    requires Next(lab, step, next) && step.Cycle? && !Ends(lab, step)
    requires step.executed && step.refusal.None? && Quiet(lab.db, step.tables, Located(step.tables).value)
    ensures var ids := Located(step.tables).value;
            && ids.vs in RowsOf(next.db, VifState) && ids.rs in RowsOf(next.db, RadioState)
            && var row, radio := RowsOf(next.db, VifState)[ids.vs], RowsOf(next.db, RadioState)[ids.rs];
               if step.seeing.Read? && Consistent(step.seeing.reading) then
                 && NetworkShown(row, step.seeing.reading.live["ssid"], step.seeing.reading.live["passphrase"])
                 && ChannelShown(radio)
               else !On(row) && Pairs(row, "wpa_psks") == map[] && !On(radio)
  {
    hide Located, IsGuard, RadioStateRow, Quiet, Attempted, Transact, Due, Consistent, ObservedState, StateRow, ValuesOf, On,
      WITHDRAWN, IsPublication, Scalar, Pairs, Ascii, NetworkShown, ChannelShown;
    var ids := Located(step.tables).value;
    var state := if step.seeing.Read? then ObservedState(step.seeing.reading) else None;
    PublicationTells(lab.db, step.tables, ids, state, step.requests, step.refusal);
    var vif, radio := RowsOf(lab.db, VifState)[ids.vs], RowsOf(lab.db, RadioState)[ids.rs];
    RadioShown(radio, state.Some?);
    if step.seeing.Read? {
      ObservedExactly(step.seeing.reading);
    }
    if state.Some? {
      var live := step.seeing.reading.live;
      ConsistentHas(step.seeing.reading);
      ShownAfter(vif, live["ssid"], live["passphrase"]);
    } else {
      WithdrawnAfter(vif);
    }
  }

  lemma ConsistentHas(r: Reading)
    requires Consistent(r)
    ensures "ssid" in r.live && "passphrase" in r.live
  {
  }

  lemma RadioShown(row: Row, observed: bool)
    ensures if observed then On(row + RadioStateRow(observed)) && ChannelShown(row + RadioStateRow(observed))
            else !On(row + RadioStateRow(observed))
  {
    hide Scalar, Ascii;
    var written := row + RadioStateRow(observed);
    ScalarIs(written, "enabled", Bool(observed));
    if observed {
      ScalarIs(written, "channel", Num(6));
      ScalarIs(written, "freq_band", Str(Ascii("2.4G")));
      ScalarIs(written, "mac", Str(Ascii("02:00:00:ec:02:00")));
    }
  }

  lemma ShownAfter(row: Row, ssid: Bytes, passphrase: Bytes)
    ensures NetworkShown(row + StateRow(ssid, passphrase), ssid, passphrase)
  {
    hide ValuesOf, StateRow, Scalar, Ascii, Shows;
    MacShown(row, ssid, passphrase);
    AddedShows(row, StateRow(ssid, passphrase));
    ShownValues(row + StateRow(ssid, passphrase), ssid, passphrase);
  }

  lemma AddedShows(row: Row, state: Row)
    ensures Shows(row + state, state)
  {
  }

  lemma MacShown(row: Row, ssid: Bytes, passphrase: Bytes)
    ensures Scalar(row + StateRow(ssid, passphrase), "mac") == Some(Str(Ascii("02:00:00:ec:02:00")))
  {
    hide Scalar, Ascii;
    ScalarIs(row + StateRow(ssid, passphrase), "mac", Str(Ascii("02:00:00:ec:02:00")));
  }

  lemma WithdrawnAfter(row: Row)
    ensures !On(row + WITHDRAWN) && Pairs(row + WITHDRAWN, "wpa_psks") == map[]
  {
    var off := row + WITHDRAWN;
    assert off["wpa_psks"] == Dict(map[]);
    ScalarIs(off, "enabled", Bool(false));
  }

  /** The four rows that refer to one another are located exactly when each is the only one of its table. */
  lemma LocatedExactly(tables: Database, ids: Ids)
    ensures Located(tables) == Some(ids) <==>
            && RowsOf(tables, RadioConfig).Keys == {ids.rc} && RowsOf(tables, VifConfig).Keys == {ids.vc}
            && RowsOf(tables, RadioState).Keys == {ids.rs} && RowsOf(tables, VifState).Keys == {ids.vs}
            && Members(RowsOf(tables, RadioConfig)[ids.rc], "vif_configs") == {Ref(ids.vc)}
            && Scalar(RowsOf(tables, RadioState)[ids.rs], "radio_config") == Some(Ref(ids.rc))
            && Members(RowsOf(tables, RadioState)[ids.rs], "vif_states") == {Ref(ids.vs)}
            && Scalar(RowsOf(tables, VifState)[ids.vs], "vif_config") == Some(Ref(ids.vc))
            && Scalar(RowsOf(tables, VifState)[ids.vs], "if_name") == Some(Str(Ascii("wlan0")))
  {
    hide Scalar, Members, Ascii, RowsOf;
    OneId(ids.rc);
    OneId(ids.vc);
    OneId(ids.rs);
    OneId(ids.vs);
  }

  // -- The seed ----------------------------------------------------------------------------------

  const SEED_CONFIG := ApConfig(Ascii("emosa-radio-initial"), Ascii("RadioInitial2026!"))

  const VIF_SEED: Row := map[
    "if_name" := Scalar_(Text_("wlan0")), "bridge" := Scalar_(Text_("br-lan")), "mode" := Scalar_(Str(AP)),
    "enabled" := Scalar_(Bool(true)), "ssid" := Scalar_(Str(SEED_CONFIG.ssid)),
    "wpa" := Scalar_(Bool(true)), "wpa_key_mgmt" := Scalar_(Str(WPA2_PSK)),
    "wpa_psks" := Dict(map[KEY := SEED_CONFIG.passphrase]),
    "rsn_pairwise_ccmp" := Scalar_(Bool(true)), "wpa_pairwise_tkip" := Scalar_(Bool(false)),
    "wpa_pairwise_ccmp" := Scalar_(Bool(false)), "security" := Dict(map[])]

  function VifStateSeed(ids: Ids): Row {
    map["if_name" := Scalar_(Text_("wlan0")), "enabled" := Scalar_(Bool(false)), "vif_config" := Scalar_(Ref(ids.vc))]
  }

  function RadioSeed(ids: Ids): Row {
    map["if_name" := Scalar_(Text_("phy1")), "freq_band" := Scalar_(Text_("2.4G")), "enabled" := Scalar_(Bool(true)),
        "channel" := Scalar_(Num(6)), "vif_configs" := Scalar_(Ref(ids.vc))]
  }

  function RadioStateSeed(ids: Ids): Row {
    map["if_name" := Scalar_(Text_("phy1")), "radio_config" := Scalar_(Ref(ids.rc)),
        "freq_band" := Scalar_(Text_("2.4G")), "enabled" := Scalar_(Bool(false)),
        "vif_states" := Scalar_(Ref(ids.vs))]
  }

  /** The seed waits for four empty tables and fills each with one row. */
  function SeedRequests(ids: Ids): seq<Request> {
    [Wait(VifConfig, AnyRow, ["if_name"], {}), Wait(VifState, AnyRow, ["if_name"], {}),
     Wait(RadioConfig, AnyRow, ["if_name"], {}), Wait(RadioState, AnyRow, ["if_name"], {}),
     Insert(VifConfig, ids.vc, VIF_SEED), Insert(VifState, ids.vs, VifStateSeed(ids)),
     Insert(RadioConfig, ids.rc, RadioSeed(ids)), Insert(RadioState, ids.rs, RadioStateSeed(ids))]
  }

  predicate Unseeded(db: Database) {
    RowsOf(db, VifConfig) == map[] && RowsOf(db, VifState) == map[]
    && RowsOf(db, RadioConfig) == map[] && RowsOf(db, RadioState) == map[]
  }

  function Seeded(db: Database, ids: Ids): Database {
    db[VifConfig := map[ids.vc := VIF_SEED]][VifState := map[ids.vs := VifStateSeed(ids)]]
      [RadioConfig := map[ids.rc := RadioSeed(ids)]][RadioState := map[ids.rs := RadioStateSeed(ids)]]
  }

  lemma EmptyWait(db: Database, t: Table)
    ensures Perform(db, Wait(t, AnyRow, ["if_name"], {}))
         == if RowsOf(db, t) == map[] then Done(db, Empty) else Stopped("timed out")
  {
    if RowsOf(db, t) != map[] {
      var u :| u in RowsOf(db, t);
      assert Projection(RowsOf(db, t)[u], u, ["if_name"]) in Projected(db, t, AnyRow, ["if_name"]);
    }
  }

  lemma First(db: Database, requests: seq<Request>)
    requires requests != []
    ensures Attempted(db, requests).0 ==
            match Perform(db, requests[0])
            case Stopped(_) => None
            case Done(next, _) => Attempted(next, requests[1..]).0
  {
    hide Perform;
  }

  lemma SeedWaits(db: Database, ids: Ids)
    ensures Attempted(db, SeedRequests(ids)).0
         == if Unseeded(db) then Attempted(db, SeedRequests(ids)[4..]).0 else None
  {
    hide Perform, Attempted;
    var q := SeedRequests(ids);
    EmptyWait(db, VifConfig);
    EmptyWait(db, VifState);
    EmptyWait(db, RadioConfig);
    EmptyWait(db, RadioState);
    assert q[1..][1..] == q[2..] && q[2..][1..] == q[3..] && q[3..][1..] == q[4..];
    First(db, q);
    First(db, q[1..]);
    First(db, q[2..]);
    First(db, q[3..]);
  }

  lemma InsertOne(db: Database, t: Table, u: Uuid, row: Row)
    requires RowsOf(db, t) == map[]
    ensures Perform(db, Insert(t, u, row)) == Done(db[t := map[u := row]], Inserted(u))
  {
  }

  lemma SeedInserts(db: Database, ids: Ids)
    requires Unseeded(db)
    ensures Attempted(db, SeedRequests(ids)[4..]).0 == Some(Seeded(db, ids))
  {
    hide Attempted, Perform, VIF_SEED, VifStateSeed, RadioSeed, RadioStateSeed;
    var q := SeedRequests(ids)[4..];
    assert q == [Insert(VifConfig, ids.vc, VIF_SEED), Insert(VifState, ids.vs, VifStateSeed(ids)),
                 Insert(RadioConfig, ids.rc, RadioSeed(ids)), Insert(RadioState, ids.rs, RadioStateSeed(ids))];
    assert q[1..][1..] == q[2..] && q[2..][1..] == q[3..] && q[3..][1..] == [];
    var a := db[VifConfig := map[ids.vc := VIF_SEED]];
    var b := a[VifState := map[ids.vs := VifStateSeed(ids)]];
    var c := b[RadioConfig := map[ids.rc := RadioSeed(ids)]];
    InsertOne(db, VifConfig, ids.vc, VIF_SEED);
    InsertOne(a, VifState, ids.vs, VifStateSeed(ids));
    InsertOne(b, RadioConfig, ids.rc, RadioSeed(ids));
    InsertOne(c, RadioState, ids.rs, RadioStateSeed(ids));
    First(db, q);
    First(a, q[1..]);
    First(b, q[2..]);
    First(c, q[3..]);
    NothingAttempted(Seeded(db, ids));
  }

  lemma NothingAttempted(db: Database)
    ensures Attempted(db, []) == (Some(db), [])
  {
  }

  /** Seeding succeeds exactly on four empty tables; the seeded binding is complete, its
      configuration supported, and nothing in State claims a working radio. */
  lemma SeedBindsWithoutClaims(db: Database, ids: Ids)
    ensures Attempted(db, SeedRequests(ids)).0 == if Unseeded(db) then Some(Seeded(db, ids)) else None
    ensures Located(Seeded(db, ids)) == Some(ids)
    ensures DesiredConfig(VIF_SEED, RadioSeed(ids)) == Some(SEED_CONFIG)
    ensures Truthful(Seeded(db, ids), [])
  {
    hide Attempted, Located, DesiredConfig, Truthful, Seeded, SeedRequests, Unseeded, RadioSeed, Ascii;
    SeedWaits(db, ids);
    if Unseeded(db) {
      SeedInserts(db, ids);
    }
    SeedLocated(db, ids);
    SeedSupported(ids);
    SeedTruthful(db, ids);
  }

  lemma OneAtom(a: Atom)
    ensures |{a}| == 1 && Only({a}) == a
  {
    assert Only({a}) in {a};
  }

  lemma OneId(u: Uuid)
    ensures |{u}| == 1 && Only({u}) == u
  {
    assert Only({u}) in {u};
  }

  lemma ScalarIs(row: Row, c: Column, a: Atom)
    requires c in row && row[c] == Scalar_(a)
    ensures Scalar(row, c) == Some(a) && Members(row, c) == {a}
  {
    OneAtom(a);
  }

  lemma OneRow(db: Database, t: Table, u: Uuid, row: Row)
    requires RowsOf(db, t) == map[u := row]
    ensures |RowsOf(db, t).Keys| == 1 && Only(RowsOf(db, t).Keys) == u
  {
    OneId(u);
    assert RowsOf(db, t).Keys == {u};
  }

  lemma SeedLocated(db: Database, ids: Ids)
    ensures Located(Seeded(db, ids)) == Some(ids)
  {
    hide Scalar, Members, Only, VIF_SEED;
    var seeded := Seeded(db, ids);
    OneRow(seeded, RadioConfig, ids.rc, RadioSeed(ids));
    OneRow(seeded, VifConfig, ids.vc, VIF_SEED);
    OneRow(seeded, RadioState, ids.rs, RadioStateSeed(ids));
    OneRow(seeded, VifState, ids.vs, VifStateSeed(ids));
    ScalarIs(RadioSeed(ids), "vif_configs", Ref(ids.vc));
    ScalarIs(RadioStateSeed(ids), "radio_config", Ref(ids.rc));
    ScalarIs(RadioStateSeed(ids), "vif_states", Ref(ids.vs));
    ScalarIs(VifStateSeed(ids), "vif_config", Ref(ids.vc));
    ScalarIs(VifStateSeed(ids), "if_name", Text_("wlan0"));
  }

  lemma SeedModern()
    ensures Modern(VIF_SEED)
  {
    hide Scalar, Members;
    ScalarIs(VIF_SEED, "wpa", Bool(true));
    ScalarIs(VIF_SEED, "wpa_key_mgmt", Str(WPA2_PSK));
    ScalarIs(VIF_SEED, "rsn_pairwise_ccmp", Bool(true));
    ScalarIs(VIF_SEED, "wpa_pairwise_tkip", Bool(false));
    ScalarIs(VIF_SEED, "wpa_pairwise_ccmp", Bool(false));
  }

  lemma SeedSupported(ids: Ids)
    ensures DesiredConfig(VIF_SEED, RadioSeed(ids)) == Some(SEED_CONFIG)
  {
    hide Scalar, Members, Modern, PlainSsid, PlainPassphrase, Ascii;
    SeedModern();
    ScalarIs(VIF_SEED, "if_name", Text_("wlan0"));
    ScalarIs(VIF_SEED, "bridge", Text_("br-lan"));
    ScalarIs(VIF_SEED, "mode", Str(AP));
    ScalarIs(VIF_SEED, "enabled", Bool(true));
    ScalarIs(VIF_SEED, "ssid", Str(SEED_CONFIG.ssid));
    AbsentScalar(VIF_SEED, "multi_ap");
    assert Pairs(VIF_SEED, "wpa_psks") == map[KEY := SEED_CONFIG.passphrase];
    ScalarIs(RadioSeed(ids), "if_name", Text_("phy1"));
    ScalarIs(RadioSeed(ids), "freq_band", Text_("2.4G"));
    ScalarIs(RadioSeed(ids), "channel", Num(6));
    ScalarIs(RadioSeed(ids), "enabled", Bool(true));
    ScalarIs(RadioSeed(ids), "vif_configs", Ref(ids.vc));
    OneAtom(Ref(ids.vc));
    SeedTexts();
  }

  lemma AbsentScalar(row: Row, c: Column)
    requires c !in row
    ensures Scalar(row, c) == None
  {
  }

  lemma SeedTexts()
    ensures PlainSsid(SEED_CONFIG.ssid) && PlainPassphrase(SEED_CONFIG.passphrase)
  {
  }

  lemma SeedTruthful(db: Database, ids: Ids)
    ensures Truthful(Seeded(db, ids), [])
  {
    OneAtom(Bool(false));
  }

  // -- What the adapter reads back -------------------------------------------------------------------

  /** The values an adapter takes from an enabled State row are those of the backing read: the SSID
      and passphrase the running access point itself reported, and the fixed WPA2-PSK profile. */
  lemma AdapterReadsTheRadio(row: Row, seen: seq<Reading>)
    requires On(row) ==> Backed(row, seen)
    ensures Enabled in ValuesOf(row) && ValuesOf(row)[Enabled] == Flag(true) ==>
              exists k :: 0 <= k < |seen| && ObservedState(seen[k]).Some? && "ssid" in seen[k].live
                          && "passphrase" in seen[k].live
                          && ValuesOf(row) == map[
                               Ssid := Text(seen[k].live["ssid"]), Enabled := Flag(true), Mode := Text(AP),
                               SecurityMode := Text(WPA2_PSK), Credential := Secret(seen[k].live["passphrase"])]
  {
    hide Running, ValuesOf, Modern;
    if Enabled in ValuesOf(row) && ValuesOf(row)[Enabled] == Flag(true) {
      OnFromValues(row);
      var k :| 0 <= k < |seen| && ObservedState(seen[k]).Some? && Shows(row, ObservedState(seen[k]).value);
      assert "passphrase" in seen[k].live by { RunningHasPassphrase(seen[k]); }
      ShownValues(row, seen[k].live["ssid"], seen[k].live["passphrase"]);
    }
  }

  lemma RunningHasPassphrase(r: Reading)
    requires Running(r)
    ensures "passphrase" in r.live
  {
  }

  lemma OnFromValues(row: Row)
    requires Enabled in ValuesOf(row) && ValuesOf(row)[Enabled] == Flag(true)
    ensures On(row)
  {
    hide Modern, Scalar, Pairs;
  }

  lemma ShownValues(row: Row, ssid: Bytes, passphrase: Bytes)
    requires Shows(row, StateRow(ssid, passphrase))
    ensures ValuesOf(row) == map[
              Ssid := Text(ssid), Enabled := Flag(true), Mode := Text(AP), SecurityMode := Text(WPA2_PSK),
              Credential := Secret(passphrase)]
  {
    hide ValuesOf, Modern, Scalar, Shows, StateRow;
    ShownColumns(row, ssid, passphrase);
    ShownModern(row, ssid, passphrase);
    ValuesFrom(row, ssid, passphrase);
  }

  lemma ShownColumns(row: Row, ssid: Bytes, passphrase: Bytes)
    requires Shows(row, StateRow(ssid, passphrase))
    ensures Scalar(row, "ssid") == Some(Str(ssid)) && Scalar(row, "enabled") == Some(Bool(true))
    ensures Scalar(row, "mode") == Some(Str(AP)) && Pairs(row, "wpa_psks") == map[KEY := passphrase]
  {
    hide Scalar;
    var state := StateRow(ssid, passphrase);
    assert row["ssid"] == state["ssid"] && row["enabled"] == state["enabled"] && row["mode"] == state["mode"];
    assert row["wpa_psks"] == state["wpa_psks"];
    ScalarIs(row, "ssid", Str(ssid));
    ScalarIs(row, "enabled", Bool(true));
    ScalarIs(row, "mode", Str(AP));
  }

  lemma ShownModern(row: Row, ssid: Bytes, passphrase: Bytes)
    requires Shows(row, StateRow(ssid, passphrase))
    ensures Modern(row)
  {
    hide Scalar, Members;
    var state := StateRow(ssid, passphrase);
    assert row["wpa"] == state["wpa"] && row["wpa_key_mgmt"] == state["wpa_key_mgmt"];
    assert row["rsn_pairwise_ccmp"] == state["rsn_pairwise_ccmp"] && row["security"] == state["security"];
    assert row["wpa_pairwise_tkip"] == state["wpa_pairwise_tkip"];
    assert row["wpa_pairwise_ccmp"] == state["wpa_pairwise_ccmp"];
    ScalarIs(row, "wpa", Bool(true));
    ScalarIs(row, "wpa_key_mgmt", Str(WPA2_PSK));
    ScalarIs(row, "rsn_pairwise_ccmp", Bool(true));
    ScalarIs(row, "wpa_pairwise_tkip", Bool(false));
    ScalarIs(row, "wpa_pairwise_ccmp", Bool(false));
  }

  /** The manager and the adapter read the same Config row alike: what the driver is told to apply
      is what the adapter reports as configured, and it is within an intent's limits. */
  lemma ManagerAgreesWithAdapter(vif: Row, radio: Row)
    ensures DesiredConfig(vif, radio).Some? ==>
              var c := DesiredConfig(vif, radio).value;
              && ValuesOf(vif) == map[
                   Ssid := Text(c.ssid), Enabled := Flag(true), Mode := Text(AP), SecurityMode := Text(WPA2_PSK),
                   Credential := Secret(c.passphrase)]
              && 1 <= |c.ssid| <= 32 && 0 !in c.ssid && 8 <= |c.passphrase| <= 63
  {
    hide ValuesOf, DesiredConfig, Modern, Scalar, Pairs;
    if DesiredConfig(vif, radio).Some? {
      var c := DesiredConfig(vif, radio).value;
      DesiredMeans(vif, radio);
      ValuesFrom(vif, c.ssid, c.passphrase);
    }
  }

  lemma DesiredMeans(vif: Row, radio: Row)
    requires DesiredConfig(vif, radio).Some?
    ensures var c := DesiredConfig(vif, radio).value;
            && Scalar(vif, "ssid") == Some(Str(c.ssid)) && Scalar(vif, "enabled") == Some(Bool(true))
            && Scalar(vif, "mode") == Some(Str(AP)) && Modern(vif)
            && KEY in Pairs(vif, "wpa_psks") && Pairs(vif, "wpa_psks")[KEY] == c.passphrase
            && 1 <= |c.ssid| <= 32 && 0 !in c.ssid && 8 <= |c.passphrase| <= 63
  {
    hide Modern, Scalar, Pairs;
    var c := DesiredConfig(vif, radio).value;
    assert KEY in Pairs(vif, "wpa_psks").Keys;
    assert forall i :: 0 <= i < |c.ssid| ==> c.ssid[i] != 0;
  }

  lemma ValuesFrom(row: Row, ssid: Bytes, passphrase: Bytes)
    requires Scalar(row, "ssid") == Some(Str(ssid)) && Scalar(row, "enabled") == Some(Bool(true))
    requires Scalar(row, "mode") == Some(Str(AP)) && Modern(row)
    requires KEY in Pairs(row, "wpa_psks") && Pairs(row, "wpa_psks")[KEY] == passphrase
    ensures ValuesOf(row) == map[
              Ssid := Text(ssid), Enabled := Flag(true), Mode := Text(AP), SecurityMode := Text(WPA2_PSK),
              Credential := Secret(passphrase)]
  {
    hide Modern, Scalar, Pairs;
  }

  /** From a satisfied target back to the air: when an adapter finds a target satisfied by a State
      row, some past driver read showed an access point with that SSID and that passphrase. */
  lemma SatisfiedMeansRead(db: Database, seen: seq<Reading>, u: Uuid, intent: Intent, vault: Vault)
    requires Truthful(db, seen) && u in RowsOf(db, VifState)
    requires intent.Target(vault).Ok? && Resolve(vault, intent.secretRef).Ok?
    requires Matches(ValuesOf(RowsOf(db, VifState)[u]), intent.Target(vault).value)
    ensures exists k :: 0 <= k < |seen| && Running(seen[k])
                        && "ssid" in seen[k].live && seen[k].live["ssid"] == intent.ssid
                        && "passphrase" in seen[k].live
                        && seen[k].live["passphrase"] == Resolve(vault, intent.secretRef).value
  {
    hide ValuesOf, Running, On, Backed;
    var row := RowsOf(db, VifState)[u];
    var target := intent.Target(vault).value;
    assert intent.enabled && Enabled in target && Ssid in target && Credential in target;
    AdapterReadsTheRadio(row, seen);
    var k :| 0 <= k < |seen| && ObservedState(seen[k]).Some? && "ssid" in seen[k].live && "passphrase" in seen[k].live
             && ValuesOf(row) == map[
                  Ssid := Text(seen[k].live["ssid"]), Enabled := Flag(true), Mode := Text(AP),
                  SecurityMode := Text(WPA2_PSK), Credential := Secret(seen[k].live["passphrase"])];
    assert Running(seen[k]);
  }
}
