/** The lab radio manager: it drives one access point from Config rows and publishes State rows from
    driver reads only (simulation/radio.py). */
module Radios {
  import opened Basics
  import opened Lifecycle
  import opened Ovsdb
  import opened Mapping

  // -- Configuration ------------------------------------------------------------------

  datatype ApConfig = ApConfig(ssid: Bytes, passphrase: Bytes)

  function Text_(s: string): Atom
    requires forall i :: 0 <= i < |s| ==> s[i] as int < 128
  {
    Str(Ascii(s))
  }

  predicate Alphanumeric(b: byte) {
    0x30 <= b <= 0x39 || 0x41 <= b <= 0x5A || 0x61 <= b <= 0x7A
  }

  /** Letters and digits, then also space, dot, underscore and hyphen, at most 32 in all. */
  predicate PlainSsid(s: Bytes) {
    && 1 <= |s| <= 32 && Alphanumeric(s[0])
    && forall i :: 0 <= i < |s| ==> Alphanumeric(s[i]) || s[i] in [0x20, 0x2E, 0x5F, 0x2D]
  }

  predicate PlainPassphrase(s: Bytes) {
    8 <= |s| <= 63 && forall i :: 0 <= i < |s| ==> 32 <= s[i] <= 126
  }

  predicate Supported(vif: Row, radio: Row) {
    && Scalar(vif, "if_name") == Some(Text_("wlan0"))
    && Scalar(vif, "bridge") == Some(Text_("br-lan"))
    && Scalar(vif, "mode") == Some(Text_("ap"))
    && Scalar(vif, "enabled") == Some(Bool(true))
    && Modern(vif)
    && (Scalar(vif, "multi_ap").None? || Scalar(vif, "multi_ap") == Some(Num(0)))
    && Pairs(vif, "wpa_psks").Keys == {KEY}
    && Scalar(radio, "if_name") == Some(Text_("phy1"))
    && Scalar(radio, "freq_band") == Some(Text_("2.4G"))
    && Scalar(radio, "channel") == Some(Num(6))
    && Scalar(radio, "enabled") == Some(Bool(true))
    && |Members(radio, "vif_configs")| == 1
  }

  function DesiredConfig(vif: Row, radio: Row): Option<ApConfig> {
    if !Supported(vif, radio) then None
    else
      var ssid := match Scalar(vif, "ssid") case Some(Str(text)) => text case _ => [];
      var key := Pairs(vif, "wpa_psks")[KEY];
      if PlainSsid(ssid) && PlainPassphrase(key) then Some(ApConfig(ssid, key)) else None
  }

  // -- Observation ----------------------------------------------------------------------

  datatype Interface = Interface(ssid: Option<Bytes>, kind: Option<Bytes>, addr: Option<Bytes>, channel: Option<int>)

  /** hostapd's status and live configuration, and the interface as nl80211 shows it. */
  datatype Reading = Reading(status: map<string, Bytes>, live: map<string, Bytes>, interface: Interface)

  function Got(m: map<string, Bytes>, name: string): Option<Bytes> {
    if name in m then Some(m[name]) else None
  }

  predicate Blank(b: byte) {
    9 <= b <= 13 || 28 <= b <= 32
  }

  function Stripped(s: Bytes): Bytes
    decreases |s|
  {
    if s != [] && Blank(s[0]) then Stripped(s[1..])
    else if s != [] && Blank(s[|s| - 1]) then Stripped(s[..|s| - 1])
    else s
  }

  const BSSID := Ascii("02:00:00:ec:02:00")

  predicate Running(r: Reading) {
    && Got(r.status, "state") == Some(Ascii("ENABLED"))
    && Got(r.status, "ssid[0]") == Got(r.live, "ssid") == r.interface.ssid
    && r.interface.kind == Some(Ascii("AP"))
    && r.interface.channel == Some(6)
    && Got(r.status, "freq") == Some(Ascii("2437"))
    && Got(r.live, "bssid") == Some(BSSID)
    && r.interface.addr == Got(r.live, "bssid")
    && Got(r.live, "wpa") == Some(Ascii("2"))
    && Got(r.live, "key_mgmt").Some? && Stripped(r.live["key_mgmt"]) == Ascii("WPA-PSK")
    && Got(r.live, "rsn_pairwise_cipher").Some? && Stripped(r.live["rsn_pairwise_cipher"]) == Ascii("CCMP")
    && Got(r.live, "group_cipher") == Some(Ascii("CCMP"))
    && Got(r.live, "passphrase").Some? && r.live["passphrase"] != []
  }

  function Scalar_(a: Atom): Datum {
    Atoms({a})
  }

  function StateRow(ssid: Bytes, passphrase: Bytes): Row {
    map[
      "ssid" := Scalar_(Str(ssid)),
      "mode" := Scalar_(Str(AP)),
      "enabled" := Scalar_(Bool(true)),
      "wpa" := Scalar_(Bool(true)),
      "wpa_key_mgmt" := Scalar_(Str(WPA2_PSK)),
      "wpa_psks" := Dict(map[KEY := passphrase]),
      "rsn_pairwise_ccmp" := Scalar_(Bool(true)),
      "wpa_pairwise_tkip" := Scalar_(Bool(false)),
      "wpa_pairwise_ccmp" := Scalar_(Bool(false)),
      "security" := Dict(map[]),
      "mac" := Scalar_(Str(BSSID))]
  }

  /** The State a read justifies; none when the read is incomplete or contradicts itself. */
  function ObservedState(r: Reading): Option<Row> {
    if Running(r) && "ssid" in r.live then Some(StateRow(r.live["ssid"], r.live["passphrase"])) else None
  }

  const WITHDRAWN: Row := map["enabled" := Scalar_(Bool(false)), "wpa_psks" := Dict(map[])]

  function RadioStateRow(observed: bool): Row {
    if observed then
      map["channel" := Scalar_(Num(6)), "freq_band" := Scalar_(Text_("2.4G")), "mac" := Scalar_(Str(BSSID)),
          "enabled" := Scalar_(Bool(true))]
    else map["enabled" := Scalar_(Bool(false))]
  }

  // -- One publication ----------------------------------------------------------------------

  datatype Ids = Ids(rc: Uuid, vc: Uuid, rs: Uuid, vs: Uuid)

  /** Exactly one row in each table, referring to each other. */
  function Located(tables: Database): (r: Option<Ids>)
    ensures r.Some? ==>
              && r.value.rc in RowsOf(tables, RadioConfig) && r.value.vc in RowsOf(tables, VifConfig)
              && r.value.rs in RowsOf(tables, RadioState) && r.value.vs in RowsOf(tables, VifState)
  {
    if |RowsOf(tables, RadioConfig).Keys| != 1 || |RowsOf(tables, VifConfig).Keys| != 1
       || |RowsOf(tables, RadioState).Keys| != 1 || |RowsOf(tables, VifState).Keys| != 1 then None
    else
      var ids := Ids(Only(RowsOf(tables, RadioConfig).Keys), Only(RowsOf(tables, VifConfig).Keys),
                     Only(RowsOf(tables, RadioState).Keys), Only(RowsOf(tables, VifState).Keys));
      var radioState, vifState := RowsOf(tables, RadioState)[ids.rs], RowsOf(tables, VifState)[ids.vs];
      if Members(RowsOf(tables, RadioConfig)[ids.rc], "vif_configs") == {Ref(ids.vc)}
         && Scalar(radioState, "radio_config") == Some(Ref(ids.rc))
         && Members(radioState, "vif_states") == {Ref(ids.vs)}
         && Scalar(vifState, "vif_config") == Some(Ref(ids.vc))
         && Scalar(vifState, "if_name") == Some(Text_("wlan0"))
      then Some(ids)
      else None
  }

  /** A wait on all the columns the snapshot holds of one row, listed in any order. */
  predicate IsGuard(q: Request, table: Table, u: Uuid, row: Row) {
    q.Wait? && q.table == table && q.where_ == TheRow(u) && q.rows == {row}
    && (forall c :: c in q.columns ==> c in row) && (forall c :: c in row ==> c in q.columns)
  }

  predicate IsPublication(requests: seq<Request>, tables: Database, ids: Ids, state: Option<Row>)
    requires Located(tables) == Some(ids)
  {
    && |requests| == 6
    && IsGuard(requests[0], RadioConfig, ids.rc, RowsOf(tables, RadioConfig)[ids.rc])
    && IsGuard(requests[1], VifConfig, ids.vc, RowsOf(tables, VifConfig)[ids.vc])
    && IsGuard(requests[2], RadioState, ids.rs, RowsOf(tables, RadioState)[ids.rs])
    && IsGuard(requests[3], VifState, ids.vs, RowsOf(tables, VifState)[ids.vs])
    && requests[4] == Update(VifState, TheRow(ids.vs), if state.Some? then state.value else WITHDRAWN)
    && requests[5] == Update(RadioState, TheRow(ids.rs), RadioStateRow(state.Some?))
  }

  method GuardRow(table: Table, u: Uuid, row: Row) returns (q: Request)
    ensures IsGuard(q, table, u, row)
  {
    var columns: seq<Column> := [];
    var todo := row.Keys;
    while todo != {}
      invariant todo <= row.Keys
      invariant forall c :: c in columns <==> c in row && c !in todo
    {
      var c :| c in todo;
      columns, todo := columns + [c], todo - {c};
    }
    q := Wait(table, TheRow(u), columns, {row});
  }

  method PublicationFor(tables: Database, ids: Ids, state: Option<Row>) returns (requests: seq<Request>)
    requires Located(tables) == Some(ids)
    ensures IsPublication(requests, tables, ids, state)
  {
    hide Located, IsGuard, RadioStateRow;
    var g0 := GuardRow(RadioConfig, ids.rc, RowsOf(tables, RadioConfig)[ids.rc]);
    var g1 := GuardRow(VifConfig, ids.vc, RowsOf(tables, VifConfig)[ids.vc]);
    var g2 := GuardRow(RadioState, ids.rs, RowsOf(tables, RadioState)[ids.rs]);
    var g3 := GuardRow(VifState, ids.vs, RowsOf(tables, VifState)[ids.vs]);
    requests := [
      g0, g1, g2, g3,
      Update(VifState, TheRow(ids.vs), if state.Some? then state.value else WITHDRAWN),
      Update(RadioState, TheRow(ids.rs), RadioStateRow(state.Some?))];
  }

  // -- The manager ---------------------------------------------------------------------------

  datatype Identity = Identity(generation: nat, config: ApConfig)

  /** How `driver.apply` ends: normally, with an error the manager handles, or with another. */
  datatype Applying = Completed | Failed | Escaped

  datatype Application = Application(identity: Identity, ending: Applying)

  /** How `driver.observe` ends. */
  datatype Seeing = Read(reading: Reading) | Unreadable | Crashed

  datatype Configuration = Unsupported | Withheld | Accepted

  datatype Publication = Observed | Conflict | Miscounted

  datatype Cycled = OutOfScope | Interrupted | Ready(configuration: Configuration, driven: Option<bool>, state: Option<Row>)

  function Judge(replies: seq<Reply>): Publication {
    if |replies| != 6 || exists i :: 0 <= i < |replies| && (replies[i].Failure? || replies[i].Skipped?) then Conflict
    else if replies[4] != Count(1) || replies[5] != Count(1) then Miscounted
    else Observed
  }

  /** What stands applied after one more application. */
  function After(applied: Option<Identity>, a: Application): Option<Identity> {
    match a.ending
    case Completed => Some(a.identity)
    case Failed => None
    case Escaped => applied
  }

  function Remembered(applications: seq<Application>): Option<Identity> {
    if applications == [] then None
    else After(Remembered(applications[..|applications| - 1]), applications[|applications| - 1])
  }

  /** What a cycle tells the driver, if anything: a supported configuration that is not withheld
      and does not stand applied in this generation. */
  function Due(applied: Option<Identity>, tables: Database, generation: nat, withhold: bool): Option<Identity>
    requires Located(tables).Some?
  {
    var ids := Located(tables).value;
    var config := DesiredConfig(RowsOf(tables, VifConfig)[ids.vc], RowsOf(tables, RadioConfig)[ids.rc]);
    if config.Some? && !withhold && applied != Some(Identity(generation, config.value))
    then Some(Identity(generation, config.value))
    else None
  }

  function Told(due: Option<Identity>, applying: Applying): seq<Application> {
    if due.Some? then [Application(due.value, applying)] else []
  }

  class RadioManager {
    var applied: Option<Identity>
    ghost var applications: seq<Application>

    /** `applied` is what the applications so far leave standing, and what stands is not repeated. */
    ghost predicate Valid()
      reads this
    {
      Disciplined(applications) && applied == Remembered(applications)
    }

    constructor ()
      ensures Valid() && applied == None && applications == []
    {
      applied, applications := None, [];
    }

    /** Everything up to the publication: which configuration is wanted, whether the driver is
        told, and what the driver then shows. */
    method Cycle(tables: Database, generation: nat, withhold: bool, applying: Applying, seeing: Seeing)
      returns (r: Cycled, requests: seq<Request>)
      requires Valid()
      modifies this
      ensures Valid()
      ensures r.OutOfScope? <==> Located(tables).None?
      ensures r.OutOfScope? ==> applied == old(applied) && applications == old(applications) && requests == []
      ensures Located(tables).Some? ==>
                var ids := Located(tables).value;
                var config := DesiredConfig(RowsOf(tables, VifConfig)[ids.vc], RowsOf(tables, RadioConfig)[ids.rc]);
                var due := Due(old(applied), tables, generation, withhold);
                && applications == old(applications) + Told(due, applying)
                && applied == (if due.Some? then After(old(applied), Application(due.value, applying)) else old(applied))
                && (r.Interrupted? <==> (due.Some? && applying.Escaped?) || seeing.Crashed?)
                && (r.Ready? ==>
                      && r.state == (if seeing.Read? then ObservedState(seeing.reading) else None)
                      && r.driven == (if due.Some? then Some(applying.Completed?) else None)
                      && r.configuration == (if config.None? then Unsupported else if withhold then Withheld else Accepted)
                      && IsPublication(requests, tables, ids, r.state))
    {
      hide Located, DesiredConfig, ObservedState, IsPublication, RowsOf, Disciplined, Remembered;
      requests := [];
      var located := Located(tables);
      if located.None? {
        return OutOfScope, requests;
      }
      var ids := located.value;
      var config := DesiredConfig(RowsOf(tables, VifConfig)[ids.vc], RowsOf(tables, RadioConfig)[ids.rc]);
      var driven: Option<bool> := None;
      if config.Some? && !withhold && applied != Some(Identity(generation, config.value)) {
        Drive(Identity(generation, config.value), applying);
        if applying.Escaped? {
          return Interrupted, requests;
        }
        driven := Some(applying.Completed?);
      }
      if seeing.Crashed? {
        return Interrupted, requests;
      }
      var state := if seeing.Read? then ObservedState(seeing.reading) else None;
      requests := PublicationFor(tables, ids, state);
      r := Ready(if config.None? then Unsupported else if withhold then Withheld else Accepted, driven, state);
    }

    /** A completed application stands, a failed one leaves nothing standing, and one that ends in an
        error nobody handles leaves what stood before. */
    method Drive(identity: Identity, applying: Applying)
      requires Valid() && applied != Some(identity)
      modifies this
      ensures Valid() && applications == old(applications) + [Application(identity, applying)]
      ensures applied == After(old(applied), Application(identity, applying))
      ensures applied == Some(identity) <==> applying.Completed?
    {
      RememberOneMore(applications, Application(identity, applying));
      applications := applications + [Application(identity, applying)];
      match applying {
        case Completed => applied := Some(identity);
        case Failed => applied := None;
        case Escaped =>
      }
    }
  }

  // -- Applications ---------------------------------------------------------------------------

  /** Nothing is applied that stands applied already. */
  ghost predicate Disciplined(applications: seq<Application>) {
    forall i :: 0 <= i < |applications| ==> Remembered(applications[..i]) != Some(applications[i].identity)
  }

  lemma RememberOneMore(applications: seq<Application>, a: Application)
    ensures Remembered(applications + [a]) == After(Remembered(applications), a)
    ensures Disciplined(applications) && Remembered(applications) != Some(a.identity) ==> Disciplined(applications + [a])
  {
    var more := applications + [a];
    assert more[..|applications|] == applications;
    assert forall i :: 0 <= i < |applications| ==> more[..i] == applications[..i];
  }

  /** The last completed application is of `identity`, and none failed since. */
  ghost predicate LastCompleted(applications: seq<Application>, identity: Identity) {
    exists k :: 0 <= k < |applications| && CompletedAt(applications, identity, k)
  }

  predicate CompletedAt(applications: seq<Application>, identity: Identity, k: nat)
    requires k < |applications|
  {
    applications[k] == Application(identity, Completed) && forall l :: k < l < |applications| ==> applications[l].ending.Escaped?
  }

  lemma {:induction false} StandsIsLastCompleted(applications: seq<Application>, identity: Identity)
    ensures Remembered(applications) == Some(identity) <==> LastCompleted(applications, identity)
  {
    if applications != [] {
      var n := |applications| - 1;
      StandsIsLastCompleted(applications[..n], identity);
      if LastCompleted(applications[..n], identity) && applications[n].ending.Escaped? {
        var k :| 0 <= k < n && CompletedAt(applications[..n], identity, k);
        assert CompletedAt(applications, identity, k);
      }
      if applications[n] == Application(identity, Completed) {
        assert CompletedAt(applications, identity, n);
      }
      if LastCompleted(applications, identity) && applications[n] != Application(identity, Completed) {
        var k :| 0 <= k < |applications| && CompletedAt(applications, identity, k);
        assert CompletedAt(applications[..n], identity, k);
      }
    }
  }

  /** A configuration applied again in the generation in which it was applied completely: in
      between an application failed, or another one was completed. */
  lemma NoNeedlessApplication(applications: seq<Application>, i: nat, j: nat)
    requires Disciplined(applications) && i < j < |applications|
    requires applications[i] == Application(applications[j].identity, Completed)
    ensures exists k :: i < k < j
                        && (applications[k].ending.Failed?
                            || (applications[k].ending.Completed? && applications[k].identity != applications[j].identity))
  {
    if forall k :: i < k < j ==>
         applications[k].ending.Escaped? || applications[k] == Application(applications[j].identity, Completed) {
      StandsOn(applications, i, j, applications[j].identity);
    }
  }

  lemma {:induction false} StandsOn(applications: seq<Application>, i: nat, n: nat, identity: Identity)
    requires i < n <= |applications| && applications[i] == Application(identity, Completed)
    requires forall k :: i < k < n ==> applications[k].ending.Escaped? || applications[k] == Application(identity, Completed)
    ensures Remembered(applications[..n]) == Some(identity)
  {
    assert applications[..n][..n - 1] == applications[..n - 1] && applications[..n][n - 1] == applications[n - 1];
    if n > i + 1 {
      StandsOn(applications, i, n - 1, identity);
    }
  }
}
