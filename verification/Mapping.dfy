/** Mapping an intent to one guarded OVSDB transaction and classifying what comes back
    (opensync/mapping.py). */
module Mapping {
  import opened Basics
  import opened Lifecycle
  import opened Ovsdb

  // -- Reading rows -----------------------------------------------------------------

  function Scalar(row: Row, column: Column): Option<Atom> {
    if column in row && row[column].Atoms? && |row[column].atoms| == 1 then Some(Only(row[column].atoms)) else None
  }

  lemma OnlyOne<T>(s: set<T>, a: T, b: T)
    requires |s| == 1 && a in s && b in s
    ensures a == b
  {
    assert |s - {a}| == 0;
    assert a == b || b in s - {a};
  }

  function Only<T(==)>(s: set<T>): (x: T)
    requires |s| == 1
    ensures x in s && s == {x}
  {
    assert s != {};
    assert forall a, b :: a in s && b in s ==> a == b by {
      forall a, b | a in s && b in s
        ensures a == b
      {
        OnlyOne(s, a, b);
      }
    }
    var x :| x in s;
    x
  }

  function Pairs(row: Row, column: Column): map<Bytes, Bytes> {
    if column in row && row[column].Dict? then row[column].pairs else map[]
  }

  function Members(row: Row, column: Column): set<Atom> {
    if column in row && row[column].Atoms? then row[column].atoms else {}
  }

  const KEY := Ascii("key")

  predicate Modern(row: Row) {
    && Scalar(row, "wpa") == Some(Bool(true))
    && Members(row, "wpa_key_mgmt") == {Str(WPA2_PSK)}
    && Scalar(row, "rsn_pairwise_ccmp") == Some(Bool(true))
    && Pairs(row, "security") == map[]
    && Scalar(row, "wpa_pairwise_tkip") == Some(Bool(false))
    && Scalar(row, "wpa_pairwise_ccmp") == Some(Bool(false))
  }

  function TextField(field: Field, atom: Option<Atom>): Values {
    match atom
    case Some(Str(text)) => map[field := Text(text)]
    case _ => map[]
  }

  /** The five managed values of a row; a value that is absent in the row is absent here. */
  function ValuesOf(row: Row): Values {
    TextField(Ssid, Scalar(row, "ssid"))
    + (match Scalar(row, "enabled")
       case Some(Bool(b)) => map[Enabled := Flag(b)]
       case _ => map[])
    + TextField(Mode, Scalar(row, "mode"))
    + (if Modern(row) then map[SecurityMode := Text(WPA2_PSK)] else map[])
    + (if KEY in Pairs(row, "wpa_psks") then map[Credential := Secret(Pairs(row, "wpa_psks")[KEY])] else map[])
  }

  // -- The designated binding ---------------------------------------------------------

  datatype Scope = Scope(
    podId: string, bssId: string, radioId: string, ifName: Bytes, radioName: Bytes, expectedSerial: Option<Bytes>)

  datatype Raw = Raw(tables: Database, generation: nat, revision: nat, ready: bool)

  datatype Binding = Binding(vif: Uuid, radio: Uuid, config: Row, state: Row)

  function Named(rows: Rows, column: Column, value: Atom): set<Uuid> {
    set u | u in rows && Scalar(rows[u], column) == Some(value)
  }

  function MirrorsOf(rows: Rows, vif: Uuid, name: Bytes): set<Uuid> {
    set u | u in rows && Scalar(rows[u], "vif_config") == Some(Ref(vif)) && Scalar(rows[u], "if_name") == Some(Str(name))
  }

  /** The state row that mirrors the VIF, or an empty row when the mirror is not unambiguous. */
  function StateOf(tables: Database, scope: Scope, vif: Uuid, radio: Uuid): Row {
    var states := MirrorsOf(RowsOf(tables, VifState), vif, scope.ifName);
    var mirrors := Named(RowsOf(tables, RadioState), "radio_config", Ref(radio));
    if |states| == 1 && |mirrors| == 1
       && Ref(Only(states)) in Members(RowsOf(tables, RadioState)[Only(mirrors)], "vif_states")
    then RowsOf(tables, VifState)[Only(states)]
    else map[]
  }

  function Bind(raw: Raw, scope: Scope): Result<Binding> {
    var nodes := RowsOf(raw.tables, AwlanNode);
    var vifs := Named(RowsOf(raw.tables, VifConfig), "if_name", Str(scope.ifName));
    var radios := Named(RowsOf(raw.tables, RadioConfig), "if_name", Str(scope.radioName));
    if scope.expectedSerial.Some? &&
       (|nodes.Keys| != 1
        || Scalar(nodes[Only(nodes.Keys)], "serial_number") != Some(Str(scope.expectedSerial.value)))
    then Err(NotReady)
    else if |vifs| != 1 || |radios| != 1 then Err(NotReady)
    else
      var vif, radio := Only(vifs), Only(radios);
      if Ref(vif) !in Members(RowsOf(raw.tables, RadioConfig)[radio], "vif_configs") then Err(NotReady)
      else
        Ok(Binding(vif, radio, RowsOf(raw.tables, VifConfig)[vif], StateOf(raw.tables, scope, vif, radio)))
  }

  // -- plan ---------------------------------------------------------------------------

  /** The one row with this value in this column. */
  ghost predicate OnlyNamed(rows: Rows, column: Column, value: Atom, u: Uuid) {
    && u in rows && Scalar(rows[u], column) == Some(value)
    && forall v :: v in rows && Scalar(rows[v], column) == Some(value) ==> v == u
  }

  /** The one State row that refers to the VIF under its name. */
  ghost predicate OnlyMirror(rows: Rows, vif: Uuid, name: Bytes, u: Uuid) {
    && u in rows && Scalar(rows[u], "vif_config") == Some(Ref(vif)) && Scalar(rows[u], "if_name") == Some(Str(name))
    && forall v :: v in MirrorsOf(rows, vif, name) ==> v == u
  }

  lemma NamedOnly(rows: Rows, column: Column, value: Atom)
    requires |Named(rows, column, value)| == 1
    ensures OnlyNamed(rows, column, value, Only(Named(rows, column, value)))
  {
    hide Scalar;
    var named := Named(rows, column, value);
    var u := Only(named);
    forall v | v in rows && Scalar(rows[v], column) == Some(value)
      ensures v == u
    {
      assert v in named;
    }
    assert u in named;
  }

  /** A binding is unambiguous: no other VIF or radio has the designated name, the radio refers to
      the VIF, an expected identity is that of the only node, and a non-empty state row is the only
      one that mirrors the VIF and is listed by the only mirror of the radio. */
  lemma BindIsUnambiguous(raw: Raw, scope: Scope, binding: Binding)
    requires Bind(raw, scope) == Ok(binding)
    ensures var vifs, radios := RowsOf(raw.tables, VifConfig), RowsOf(raw.tables, RadioConfig);
            && OnlyNamed(vifs, "if_name", Str(scope.ifName), binding.vif)
            && OnlyNamed(radios, "if_name", Str(scope.radioName), binding.radio)
            && binding.config == vifs[binding.vif]
            && Ref(binding.vif) in Members(radios[binding.radio], "vif_configs")
    ensures scope.expectedSerial.Some? ==>
              exists node :: RowsOf(raw.tables, AwlanNode).Keys == {node}
                && Scalar(RowsOf(raw.tables, AwlanNode)[node], "serial_number") == Some(Str(scope.expectedSerial.value))
    ensures binding.state != map[] ==> Mirrored(raw.tables, scope, binding)
  {
    hide Scalar, Members, OnlyNamed, Named, StateOf, Mirrored;
    NamedOnly(RowsOf(raw.tables, VifConfig), "if_name", Str(scope.ifName));
    NamedOnly(RowsOf(raw.tables, RadioConfig), "if_name", Str(scope.radioName));
    if scope.expectedSerial.Some? {
      assert RowsOf(raw.tables, AwlanNode).Keys == {Only(RowsOf(raw.tables, AwlanNode).Keys)};
    }
    if binding.state != map[] {
      StateIsMirror(raw.tables, scope, binding);
    }
  }

  ghost predicate Mirrored(tables: Database, scope: Scope, binding: Binding) {
    exists s, m ::
      && OnlyMirror(RowsOf(tables, VifState), binding.vif, scope.ifName, s)
      && RowsOf(tables, VifState)[s] == binding.state
      && OnlyNamed(RowsOf(tables, RadioState), "radio_config", Ref(binding.radio), m)
      && Ref(s) in Members(RowsOf(tables, RadioState)[m], "vif_states")
  }

  lemma StateIsMirror(tables: Database, scope: Scope, binding: Binding)
    requires binding.state == StateOf(tables, scope, binding.vif, binding.radio) != map[]
    ensures Mirrored(tables, scope, binding)
  {
    hide Scalar, Members;
    var rows := RowsOf(tables, VifState);
    var states := MirrorsOf(rows, binding.vif, scope.ifName);
    NamedOnly(RowsOf(tables, RadioState), "radio_config", Ref(binding.radio));
    var s, m := Only(states), Only(Named(RowsOf(tables, RadioState), "radio_config", Ref(binding.radio)));
    assert s in states && OnlyMirror(rows, binding.vif, scope.ifName, s);
    assert Ref(s) in Members(RowsOf(tables, RadioState)[m], "vif_states");
  }

  /** These two rows are the designated ones. */
  ghost predicate Designated(raw: Raw, scope: Scope, vif: Uuid, radio: Uuid) {
    && OnlyNamed(RowsOf(raw.tables, VifConfig), "if_name", Str(scope.ifName), vif)
    && OnlyNamed(RowsOf(raw.tables, RadioConfig), "if_name", Str(scope.radioName), radio)
    && Ref(vif) in Members(RowsOf(raw.tables, RadioConfig)[radio], "vif_configs")
  }

  /** The only node is the expected one, if one is expected. */
  ghost predicate Expected(raw: Raw, scope: Scope) {
    scope.expectedSerial.Some? ==>
      exists node :: RowsOf(raw.tables, AwlanNode).Keys == {node}
        && Scalar(RowsOf(raw.tables, AwlanNode)[node], "serial_number") == Some(Str(scope.expectedSerial.value))
  }

  lemma OnlyIsNamed(rows: Rows, column: Column, value: Atom, u: Uuid)
    requires OnlyNamed(rows, column, value, u)
    ensures |Named(rows, column, value)| == 1 && Only(Named(rows, column, value)) == u
  {
    hide Scalar;
    assert Named(rows, column, value) == {u};
  }

  lemma OnlyKey(rows: Rows, node: Uuid)
    requires rows.Keys == {node}
    ensures |rows.Keys| == 1 && Only(rows.Keys) == node
  {
  }

  /** Binding succeeds exactly when there are designated rows and the identity is the expected one, and
      fails only as not ready. */
  lemma BindExactly(raw: Raw, scope: Scope)
    ensures Bind(raw, scope).Ok? <==> Expected(raw, scope) && exists vif, radio :: Designated(raw, scope, vif, radio)
    ensures Bind(raw, scope).Err? ==> Bind(raw, scope).code == NotReady
    ensures Bind(raw, scope).Ok? ==>
              Designated(raw, scope, Bind(raw, scope).value.vif, Bind(raw, scope).value.radio)
  {
    hide Scalar, Members, OnlyNamed, Named, StateOf, Mirrored;
    if Bind(raw, scope).Ok? {
      var b := Bind(raw, scope).value;
      BindIsUnambiguous(raw, scope, b);
      assert Designated(raw, scope, b.vif, b.radio);
      assert Expected(raw, scope);
    }
    if Expected(raw, scope) && exists vif, radio :: Designated(raw, scope, vif, radio) {
      var vif, radio :| Designated(raw, scope, vif, radio);
      OnlyIsNamed(RowsOf(raw.tables, VifConfig), "if_name", Str(scope.ifName), vif);
      OnlyIsNamed(RowsOf(raw.tables, RadioConfig), "if_name", Str(scope.radioName), radio);
      if scope.expectedSerial.Some? {
        var node :| RowsOf(raw.tables, AwlanNode).Keys == {node}
          && Scalar(RowsOf(raw.tables, AwlanNode)[node], "serial_number") == Some(Str(scope.expectedSerial.value));
        OnlyKey(RowsOf(raw.tables, AwlanNode), node);
      }
    }
  }

  ghost predicate MirrorOf(tables: Database, scope: Scope, vif: Uuid, radio: Uuid, s: Uuid) {
    && OnlyMirror(RowsOf(tables, VifState), vif, scope.ifName, s)
    && exists m :: OnlyNamed(RowsOf(tables, RadioState), "radio_config", Ref(radio), m)
                   && Ref(s) in Members(RowsOf(tables, RadioState)[m], "vif_states")
  }

  /** The state of a binding is that of its mirror, and empty exactly when there is none or it is empty. */
  lemma StateExactly(tables: Database, scope: Scope, vif: Uuid, radio: Uuid)
    ensures forall s :: MirrorOf(tables, scope, vif, radio, s) ==>
              StateOf(tables, scope, vif, radio) == RowsOf(tables, VifState)[s]
    ensures (forall s :: !MirrorOf(tables, scope, vif, radio, s)) ==> StateOf(tables, scope, vif, radio) == map[]
  {
    hide Scalar, Members, Named, MirrorsOf;
    forall s | MirrorOf(tables, scope, vif, radio, s)
      ensures StateOf(tables, scope, vif, radio) == RowsOf(tables, VifState)[s]
    {
      var m :| OnlyNamed(RowsOf(tables, RadioState), "radio_config", Ref(radio), m)
               && Ref(s) in Members(RowsOf(tables, RadioState)[m], "vif_states");
      OnlyIsNamed(RowsOf(tables, RadioState), "radio_config", Ref(radio), m);
      OnlyIsMirror(RowsOf(tables, VifState), vif, scope.ifName, s);
    }
    var state := StateOf(tables, scope, vif, radio);
    if state != map[] {
      var states := MirrorsOf(RowsOf(tables, VifState), vif, scope.ifName);
      var mirrors := Named(RowsOf(tables, RadioState), "radio_config", Ref(radio));
      NamedOnly(RowsOf(tables, RadioState), "radio_config", Ref(radio));
      MirrorOnly(RowsOf(tables, VifState), vif, scope.ifName);
      assert MirrorOf(tables, scope, vif, radio, Only(states));
    }
  }

  lemma OnlyIsMirror(rows: Rows, vif: Uuid, name: Bytes, s: Uuid)
    requires OnlyMirror(rows, vif, name, s)
    ensures |MirrorsOf(rows, vif, name)| == 1 && Only(MirrorsOf(rows, vif, name)) == s
  {
    hide Scalar;
    assert MirrorsOf(rows, vif, name) == {s};
  }

  lemma MirrorOnly(rows: Rows, vif: Uuid, name: Bytes)
    requires |MirrorsOf(rows, vif, name)| == 1
    ensures OnlyMirror(rows, vif, name, Only(MirrorsOf(rows, vif, name)))
  {
    hide Scalar;
    assert Only(MirrorsOf(rows, vif, name)) in MirrorsOf(rows, vif, name);
  }

  /** The representation `plan` demands of the configured row. */
  predicate Qualified(config: Row) {
    var values := ValuesOf(config);
    && Mode in values && values[Mode] == Text(AP)
    && Enabled in values && values[Enabled] == Flag(true)
    && SecurityMode in values && values[SecurityMode] == Text(WPA2_PSK)
  }

  /** What `plan` answers for one snapshot of the session. */
  function Plan(scope: Scope, vault: Vault, intent: Intent, answer: Awaited<Raw>): Awaited<bool> {
    match intent.Target(vault)
    case Err(code) => Raised(code)
    case Ok(_) =>
      if (intent.podId, intent.radioId, intent.bssId) != (scope.podId, scope.radioId, scope.bssId) then
        Raised(UnsupportedOperation)
      else
        match answer
        case Raised(code) => Raised(code)
        case Broken => Broken
        case Returned(raw) =>
          match Bind(raw, scope)
          case Err(code) => Raised(code)
          case Ok(binding) =>
            if !raw.ready || binding.state == map[] then Raised(NotReady)
            else if !Qualified(binding.config) then Raised(UnsupportedOperation)
            else if KEY !in Pairs(binding.config, "wpa_psks") then Raised(UnsupportedOperation)
            else Returned(true)
  }

  /** An enabled access point secured by WPA2-PSK with AES only, and a key to replace. */
  predicate Manageable(config: Row) {
    && Scalar(config, "mode") == Some(Str(Ascii("ap"))) && Scalar(config, "enabled") == Some(Bool(true))
    && Scalar(config, "wpa") == Some(Bool(true)) && Members(config, "wpa_key_mgmt") == {Str(Ascii("wpa2-psk"))}
    && Scalar(config, "rsn_pairwise_ccmp") == Some(Bool(true)) && Pairs(config, "security") == map[]
    && Scalar(config, "wpa_pairwise_tkip") == Some(Bool(false)) && Scalar(config, "wpa_pairwise_ccmp") == Some(Bool(false))
    && Ascii("key") in Pairs(config, "wpa_psks")
  }

  /** Planning succeeds exactly for a resolvable request for the designated BSS, on a ready snapshot with
      a bound, mirrored and manageable VIF. */
  lemma PlanExactly(scope: Scope, vault: Vault, intent: Intent, answer: Awaited<Raw>)
    ensures Plan(scope, vault, intent, answer).Returned? <==>
            && intent.Target(vault).Ok?
            && intent.podId == scope.podId && intent.radioId == scope.radioId && intent.bssId == scope.bssId
            && answer.Returned? && answer.value.ready && Bind(answer.value, scope).Ok?
            && Bind(answer.value, scope).value.state != map[] && Manageable(Bind(answer.value, scope).value.config)
    ensures intent.Target(vault).Err? ==> Plan(scope, vault, intent, answer) == Raised(intent.Target(vault).code)
    ensures intent.Target(vault).Ok? && Plan(scope, vault, intent, answer).Raised? ==>
              var code := Plan(scope, vault, intent, answer).code;
              if intent.podId != scope.podId || intent.radioId != scope.radioId || intent.bssId != scope.bssId then
                code == UnsupportedOperation
              else if answer.Raised? then code == answer.code
              else
                code == (if answer.value.ready && Bind(answer.value, scope).Ok? && Bind(answer.value, scope).value.state != map[]
                         then UnsupportedOperation else NotReady)
  {
    hide Bind, Intent.Target, Scalar, Members, Pairs;
    if answer.Returned? {
      OnlyNotReady(answer.value, scope);
    }
  }

  lemma OnlyNotReady(raw: Raw, scope: Scope)
    ensures Bind(raw, scope).Err? ==> Bind(raw, scope).code == NotReady
  {
    hide Scalar, Members, StateOf, Named;
  }

  // -- The guarded transaction ----------------------------------------------------------

  const RADIO_GUARD: seq<Column> := ["if_name", "vif_configs"]

  const VIF_GUARD: seq<Column> := [
    "if_name", "mode", "enabled", "ssid", "wpa", "wpa_key_mgmt", "wpa_psks", "security",
    "rsn_pairwise_ccmp", "wpa_pairwise_tkip", "wpa_pairwise_ccmp"]

  /** The row holds every column its guard reads. */
  predicate Complete(row: Row, columns: seq<Column>) {
    forall c :: c in columns ==> c in row
  }

  function Guard(table: Table, u: Uuid, row: Row, columns: seq<Column>): Request {
    Wait(table, TheRow(u), columns, {Projection(row, u, columns)})
  }

  function IdentityRow(node: Uuid, serial: Bytes): Row {
    map[UUID_COLUMN := Atoms({Ref(node)}), "serial_number" := Atoms({Str(serial)})]
  }

  function ChangeRequests(vif: Uuid, ssid: Bytes, secret: Bytes): seq<Request> {
    [Update(VifConfig, TheRow(vif), map["ssid" := Atoms({Str(ssid)})]),
     Mutate(VifConfig, TheRow(vif), [DeleteKeys("wpa_psks", {KEY}), InsertPairs("wpa_psks", map[KEY := secret])])]
  }

  function GuardRequests(raw: Raw, binding: Binding): seq<Request>
    requires binding.vif in RowsOf(raw.tables, VifConfig) && binding.radio in RowsOf(raw.tables, RadioConfig)
  {
    [Guard(RadioConfig, binding.radio, RowsOf(raw.tables, RadioConfig)[binding.radio], RADIO_GUARD),
     Guard(VifConfig, binding.vif, RowsOf(raw.tables, VifConfig)[binding.vif], VIF_GUARD)]
  }

  function IdentityRequests(raw: Raw, scope: Scope): seq<Request> {
    if scope.expectedSerial.None? || |RowsOf(raw.tables, AwlanNode).Keys| != 1 then []
    else
      [Wait(AwlanNode, AnyRow, [UUID_COLUMN, "serial_number"],
            {IdentityRow(Only(RowsOf(raw.tables, AwlanNode).Keys), scope.expectedSerial.value)})]
  }

  function Transaction(raw: Raw, scope: Scope, binding: Binding, ssid: Bytes, secret: Bytes): seq<Request>
    requires binding.vif in RowsOf(raw.tables, VifConfig) && binding.radio in RowsOf(raw.tables, RadioConfig)
  {
    IdentityRequests(raw, scope) + GuardRequests(raw, binding) + ChangeRequests(binding.vif, ssid, secret)
  }

  function ExpectedCounts(scope: Scope): seq<Option<nat>> {
    (if scope.expectedSerial.Some? then [None] else []) + [None, None, Some(1), Some(1)]
  }

  // -- Reading the reply ----------------------------------------------------------------

  /** One element of a transaction result: not an object (null), or an object whose error member,
      if any, and count member are as given. */
  datatype Element = NotAnObject | Object(error: string, count: Option<int>)

  function OnWire(reply: Reply): Element {
    match reply
    case Empty => Object("", None)
    case Count(n) => Object("", Some(n))
    case Inserted(_) => Object("", None)
    case Failure(error) => Object(error, None)
    case Skipped => NotAnObject
  }

  function OnWireAll(replies: seq<Reply>): seq<Element> {
    seq(|replies|, i requires 0 <= i < |replies| => OnWire(replies[i]))
  }

  function CheckOne(element: Element, count: Option<nat>): Result<bool> {
    match element
    case NotAnObject => Err(OutcomeUnknown)
    case Object(error, found) =>
      if error != "" then Err(if error == "timed out" then PreconditionFailed else InvalidInput)
      else if count.Some? && found != Some(count.value) then Err(OutcomeUnknown)
      else Ok(true)
  }

  function CheckFrom(elements: seq<Element>, counts: seq<Option<nat>>): Result<bool>
    requires |elements| == |counts|
  {
    if elements == [] then Ok(true)
    else
      var _ :- CheckOne(elements[0], counts[0]);
      CheckFrom(elements[1..], counts[1..])
  }

  /** `result` is None when what came back is not a list. */
  function CheckResults(result: Option<seq<Element>>, counts: seq<Option<nat>>): Result<bool> {
    if result.None? || |result.value| != |counts| then Err(OutcomeUnknown) else CheckFrom(result.value, counts)
  }

  /** The check as the program performs it: element by element, stopping at the first offence. */
  method CheckInOrder(result: Option<seq<Element>>, counts: seq<Option<nat>>) returns (r: Result<bool>)
    ensures r == CheckResults(result, counts)
  {
    if result.None? || |result.value| != |counts| {
      return Err(OutcomeUnknown);
    }
    var elements := result.value;
    for i := 0 to |elements|
      invariant CheckFrom(elements, counts) == CheckFrom(elements[i..], counts[i..])
    {
      assert elements[i..][1..] == elements[i + 1..] && counts[i..][1..] == counts[i + 1..];
      var _ :- CheckOne(elements[i], counts[i]);
    }
    r := Ok(true);
  }

  lemma {:induction false} CheckMeans(elements: seq<Element>, counts: seq<Option<nat>>)
    requires |elements| == |counts|
    ensures CheckFrom(elements, counts).Ok? <==>
            forall i :: 0 <= i < |elements| ==> CheckOne(elements[i], counts[i]).Ok?
    ensures CheckFrom(elements, counts).Err? ==>
              exists i :: 0 <= i < |elements| && CheckOne(elements[i], counts[i]) == CheckFrom(elements, counts)
                          && forall k :: 0 <= k < i ==> CheckOne(elements[k], counts[k]).Ok?
  {
    if elements != [] && CheckOne(elements[0], counts[0]).Ok? {
      CheckMeans(elements[1..], counts[1..]);
      forall i | 0 <= i < |elements|
        ensures i > 0 ==> elements[1..][i - 1] == elements[i] && counts[1..][i - 1] == counts[i]
      {
      }
      if CheckFrom(elements, counts).Err? {
        var i :| 0 <= i < |elements[1..]| && CheckOne(elements[1..][i], counts[1..][i]) == CheckFrom(elements[1..], counts[1..])
                 && forall k :: 0 <= k < i ==> CheckOne(elements[1..][k], counts[1..][k]).Ok?;
        forall k | 0 <= k < i + 1
          ensures CheckOne(elements[k], counts[k]).Ok?
        {
          if k > 0 {
            assert CheckOne(elements[1..][k - 1], counts[1..][k - 1]).Ok?;
          }
        }
        assert CheckOne(elements[i + 1], counts[i + 1]) == CheckFrom(elements, counts);
      } else {
        forall i | 0 <= i < |elements|
          ensures CheckOne(elements[i], counts[i]).Ok?
        {
          if i > 0 {
            assert CheckOne(elements[1..][i - 1], counts[1..][i - 1]).Ok?;
          }
        }
      }
    }
  }
}
