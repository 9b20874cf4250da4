/** What a whole set of M2 messages asks of one radio (wsc_radio.py; EasyMesh 6.1, section 7.1). */
module WscRadio {
  import opened Basics
  import opened Lifecycle
  import opened Wsc
  import opened WscMessages
  import opened M2Sets

  const MULTI_AP: int := 0x06
  const FRONTHAUL_BSS: int := 0x20
  const TEARDOWN: int := 0x10

  /** One bit of a byte. */
  predicate Bit(flags: int, bit: int)
    requires bit > 0
  {
    flags / bit % 2 == 1
  }

  lemma Halved(n: int, bit: int)
    requires bit in {1, 2, 4, 8, 16, 32, 64}
    ensures n / bit == 2 * (n / (2 * bit)) + (if Bit(n, bit) then 1 else 0)
  {
  }

  /** The bits of a byte add up to it. */
  lemma BitsAddUp(b: byte)
    ensures b as int == (if Bit(b, 0x80) then 0x80 else 0) + (if Bit(b, 0x40) then 0x40 else 0)
                 + (if Bit(b, 0x20) then 0x20 else 0) + (if Bit(b, 0x10) then 0x10 else 0)
                 + (if Bit(b, 0x08) then 0x08 else 0) + (if Bit(b, 0x04) then 0x04 else 0)
                 + (if Bit(b, 0x02) then 0x02 else 0) + (if Bit(b, 0x01) then 0x01 else 0)
  {
    hide Bit;
    Unit(b);
    Top(b);
    Halved(b, 1);
    Halved(b, 2);
    Halved(b, 4);
    Halved(b, 8);
    Halved(b, 16);
    Halved(b, 32);
    Halved(b, 64);
  }

  lemma Unit(n: int)
    ensures n / 1 == n
  {
  }

  lemma Top(b: byte)
    ensures b as int / 128 == if Bit(b, 0x80) then 1 else 0
  {
  }

  // -- Access point settings --------------------------------------------------------------

  datatype ApSettings = ApSettings(
    ssid: Bytes, authenticationType: int, encryptionType: int, networkKey: Bytes, macAddress: Bytes,
    attributes: seq<Attribute>)

  const SETTINGS_REQUIRED: Lengths := map[
    0x1045 := (0, 32), 0x1003 := (2, 2), 0x100F := (2, 2), 0x1027 := (0, 64), 0x1020 := (6, 6)]

  const SETTINGS_OPTIONAL: Lengths := map[0x1028 := (1, 1), 0x102A := (0, 64), 0x1012 := (2, 2)]

  lemma SettingsKinds()
    ensures SETTINGS_REQUIRED.Keys == {0x1045, 0x1003, 0x100F, 0x1027, 0x1020}
    ensures (SETTINGS_REQUIRED + SETTINGS_OPTIONAL)[0x1003] == (2, 2)
    ensures (SETTINGS_REQUIRED + SETTINGS_OPTIONAL)[0x100F] == (2, 2)
    ensures (SETTINGS_REQUIRED + SETTINGS_OPTIONAL)[0x1045] == (0, 32)
    ensures (SETTINGS_REQUIRED + SETTINGS_OPTIONAL)[0x1027] == (0, 64)
  {
  }

  function ParseSettings(attributes: seq<Attribute>): Result<ApSettings> {
    var settings :- Singletons(attributes, SETTINGS_REQUIRED, SETTINGS_OPTIONAL);
    SingletonsHold(attributes, SETTINGS_REQUIRED, SETTINGS_OPTIONAL);
    SettingsKinds();
    if 0x102A in settings && 0x1012 !in settings then Err(InvalidInput)
    else
      Ok(ApSettings(
           settings[0x1045], Number(settings[0x1003][0], settings[0x1003][1]),
           Number(settings[0x100F][0], settings[0x100F][1]), settings[0x1027], settings[0x1020], attributes))
  }

  predicate Stated(attributes: seq<Attribute>, kind: int, value: Bytes) {
    exists i :: 0 <= i < |attributes| && attributes[i] == Attribute(kind, value)
  }

  /** Settings are accepted exactly when the five required fields occur, no consumed field occurs
      twice or has a wrong length, and a rekey key comes with its password identifier; what is
      returned is what the attributes state. */
  lemma SettingsExactly(attributes: seq<Attribute>)
    ensures ParseSettings(attributes).Ok? <==>
            && Tidy(attributes, SETTINGS_REQUIRED + SETTINGS_OPTIONAL)
            && (forall k :: k in {0x1045, 0x1003, 0x100F, 0x1027, 0x1020} ==> Has(attributes, k))
            && (Has(attributes, 0x102A) ==> Has(attributes, 0x1012))
    ensures ParseSettings(attributes).Ok? ==>
              var s := ParseSettings(attributes).value;
              && s.attributes == attributes
              && Stated(attributes, 0x1045, s.ssid) && |s.ssid| <= 32
              && Stated(attributes, 0x1027, s.networkKey) && |s.networkKey| <= 64
              && Stated(attributes, 0x1020, s.macAddress)
              && 0 <= s.authenticationType <= 0xFFFF && Stated(attributes, 0x1003, Word(s.authenticationType))
              && 0 <= s.encryptionType <= 0xFFFF && Stated(attributes, 0x100F, Word(s.encryptionType))
  {
    hide Tidy, FieldsOf, SETTINGS_REQUIRED, SETTINGS_OPTIONAL, Number, Word, Has, Stated;
    var lengths := SETTINGS_REQUIRED + SETTINGS_OPTIONAL;
    var fields := FieldsOf(attributes, lengths);
    FieldsAre(attributes, lengths);
    SettingsKinds();
    OptionalKinds();
    if ParseSettings(attributes).Ok? {
      SingletonsHold(attributes, SETTINGS_REQUIRED, SETTINGS_OPTIONAL);
      FieldStated(attributes, lengths, 0x1045);
      FieldStated(attributes, lengths, 0x1027);
      FieldStated(attributes, lengths, 0x1020);
      FieldStated(attributes, lengths, 0x1003);
      FieldStated(attributes, lengths, 0x100F);
      WordNumber(0, fields[0x1003][0], fields[0x1003][1]);
      WordNumber(0, fields[0x100F][0], fields[0x100F][1]);
      assert fields[0x1003] == [fields[0x1003][0], fields[0x1003][1]];
      assert fields[0x100F] == [fields[0x100F][0], fields[0x100F][1]];
    }
  }

  /** The consumed fields of settings and their lengths. */
  lemma SettingsTable(k: int)
    ensures var lengths := SETTINGS_REQUIRED + SETTINGS_OPTIONAL;
            && (k in lengths <==> k in {0x1045, 0x1003, 0x100F, 0x1027, 0x1020, 0x1028, 0x102A, 0x1012})
            && (k in lengths ==>
                  lengths[k] == if k == 0x1045 then (0, 32) else if k == 0x1027 || k == 0x102A then (0, 64)
                                else if k == 0x1020 then (6, 6) else if k == 0x1028 then (1, 1) else (2, 2))
  {
  }

  lemma OptionalKinds()
    ensures 0x102A in SETTINGS_OPTIONAL && 0x1012 in SETTINGS_OPTIONAL
  {
  }

  lemma FieldStated(attributes: seq<Attribute>, lengths: Lengths, kind: int)
    requires Tidy(attributes, lengths) && kind in FieldsOf(attributes, lengths)
    ensures Stated(attributes, kind, FieldsOf(attributes, lengths)[kind])
  {
    FieldsAre(attributes, lengths);
    var i :| 0 <= i < |attributes| && attributes[i].kind == kind;
    assert attributes[i] == Attribute(kind, FieldsOf(attributes, lengths)[kind]);
  }

  // -- Roles ----------------------------------------------------------------------------------

  /** The Multi-AP role of one message: a single octet inside the encrypted part, its reserved low
      bits cleared. */
  function Role(envelope: Envelope): Result<byte> {
    var outer :- VendorSubelements(envelope.attributes);
    if Has(outer, MULTI_AP) then Err(InvalidInput)
    else
      var inner :- VendorSubelements(envelope.configData);
      var values := OfKind(inner, MULTI_AP);
      if |values| != 1 || |values[0]| != 1 then Err(InvalidInput) else Ok(values[0][0] - values[0][0] % 4)
  }

  function Roles(envelopes: seq<Envelope>): Result<seq<byte>> {
    if envelopes == [] then Ok([])
    else
      var first :- Role(envelopes[0]);
      var rest :- Roles(envelopes[1..]);
      Ok([first] + rest)
  }

  lemma {:induction false} RolesInOrder(envelopes: seq<Envelope>, roles: seq<byte>)
    ensures Roles(envelopes) == Ok(roles) <==>
            |roles| == |envelopes| && forall i :: 0 <= i < |envelopes| ==> Role(envelopes[i]) == Ok(roles[i])
  {
    hide Role;
    if envelopes != [] && roles != [] {
      RolesInOrder(envelopes[1..], roles[1..]);
      assert roles == [roles[0]] + roles[1..];
      if Roles(envelopes) == Ok(roles) {
        forall i | 0 <= i < |envelopes|
          ensures Role(envelopes[i]) == Ok(roles[i])
        {
          if i > 0 {
            assert envelopes[1..][i - 1] == envelopes[i] && roles[1..][i - 1] == roles[i];
          }
        }
      }
      if |roles| == |envelopes| && forall i :: 0 <= i < |envelopes| ==> Role(envelopes[i]) == Ok(roles[i]) {
        forall i | 0 <= i < |envelopes| - 1
          ensures Role(envelopes[1..][i]) == Ok(roles[1..][i])
        {
          assert envelopes[1..][i] == envelopes[i + 1] && roles[1..][i] == roles[i + 1];
        }
      }
    }
  }

  /** The roles as the program collects them. */
  method CollectRoles(envelopes: seq<Envelope>) returns (r: Result<seq<byte>>)
    ensures r == Roles(envelopes)
  {
    hide VendorSubelements;
    var roles: seq<byte> := [];
    for n := 0 to |envelopes|
      invariant |roles| == n
      invariant forall i :: 0 <= i < n ==> Role(envelopes[i]) == Ok(roles[i])
    {
      var envelope := envelopes[n];
      if Role(envelope).Err? {
        RolesFail(envelopes, n);
        RoleFails(envelope);
      }
      var outer :- VendorSubelements(envelope.attributes);
      if Has(outer, MULTI_AP) {
        return Err(InvalidInput);
      }
      var inner :- VendorSubelements(envelope.configData);
      var values := OfKind(inner, MULTI_AP);
      if |values| != 1 || |values[0]| != 1 {
        return Err(InvalidInput);
      }
      roles := roles + [values[0][0] - values[0][0] % 4];
    }
    RolesInOrder(envelopes, roles);
    r := Ok(roles);
  }

  lemma RoleFails(envelope: Envelope)
    ensures Role(envelope).Err? ==> Role(envelope) == Err(InvalidInput)
    ensures VendorSubelements(envelope.attributes).Err? ==> VendorSubelements(envelope.attributes) == Err(InvalidInput)
    ensures VendorSubelements(envelope.configData).Err? ==> VendorSubelements(envelope.configData) == Err(InvalidInput)
  {
  }

  lemma {:induction false} RolesFail(envelopes: seq<Envelope>, n: nat)
    requires n < |envelopes| && Role(envelopes[n]).Err?
    requires forall i :: 0 <= i < n ==> Role(envelopes[i]).Ok?
    ensures Roles(envelopes) == Err(InvalidInput)
  {
    hide Role;
    RoleFails(envelopes[n]);
    if n > 0 {
      forall i | 0 <= i < n - 1
        ensures Role(envelopes[1..][i]).Ok?
      {
        assert envelopes[1..][i] == envelopes[i + 1];
      }
      RolesFail(envelopes[1..], n - 1);
    }
  }

  // -- The set --------------------------------------------------------------------------------------

  datatype BssPayload = BssPayload(bssIndex: Option<byte>, multiApFlags: byte, settings: ApSettings)

  datatype Act = Teardown | Configure

  datatype RadioPayloadSet = RadioPayloadSet(
    action: Act, bsses: seq<BssPayload>, authenticationTypes: int, encryptionTypes: int)

  function Payloads(envelopes: seq<Envelope>, roles: seq<byte>): Result<seq<BssPayload>>
    requires |roles| == |envelopes|
  {
    if envelopes == [] then Ok([])
    else
      var settings :- ParseSettings(envelopes[0].configData);
      var rest :- Payloads(envelopes[1..], roles[1..]);
      Ok([BssPayload(envelopes[0].bssIndex, roles[0], settings)] + rest)
  }

  const ADVERTISED: Lengths := map[0x1004 := (2, 2), 0x1010 := (2, 2)]

  function DecodeRadioPayloads(t: Transcript, messages: seq<Bytes>, maxBss: int): Result<RadioPayloadSet> {
    var envelopes :- AuthenticateEnvelopes(t, messages, maxBss);
    var attributes :- Decoded(t.message);
    var m1 := FieldsOf(attributes, ADVERTISED);
    if !(0x1004 in m1 && 0x1010 in m1 && |m1[0x1004]| == 2 && |m1[0x1010]| == 2) then Err(InvalidInput)
    else
      var authentication := Number(m1[0x1004][0], m1[0x1004][1]);
      var encryption := Number(m1[0x1010][0], m1[0x1010][1]);
      var roles :- Roles(envelopes);
      RolesInOrder(envelopes, roles);
      if exists i :: 0 <= i < |roles| && Bit(roles[i], TEARDOWN) then
        if |envelopes| != 1 then Err(InvalidInput)
        else Ok(RadioPayloadSet(Teardown, [], authentication, encryption))
      else
        var bsses :- Payloads(envelopes, roles);
        Ok(RadioPayloadSet(Configure, bsses, authentication, encryption))
  }

  lemma {:induction false} PayloadsInOrder(envelopes: seq<Envelope>, roles: seq<byte>)
    requires |roles| == |envelopes| && Payloads(envelopes, roles).Ok?
    ensures var bsses := Payloads(envelopes, roles).value;
            && |bsses| == |envelopes|
            && forall i :: 0 <= i < |envelopes| ==>
                 && ParseSettings(envelopes[i].configData).Ok?
                 && bsses[i] == BssPayload(envelopes[i].bssIndex, roles[i], ParseSettings(envelopes[i].configData).value)
  {
    hide ParseSettings;
    if envelopes != [] {
      PayloadsInOrder(envelopes[1..], roles[1..]);
      var bsses := Payloads(envelopes, roles).value;
      forall i | 0 <= i < |envelopes|
        ensures ParseSettings(envelopes[i].configData).Ok?
        ensures bsses[i] == BssPayload(envelopes[i].bssIndex, roles[i], ParseSettings(envelopes[i].configData).value)
      {
        if i > 0 {
          assert envelopes[1..][i - 1] == envelopes[i] && roles[1..][i - 1] == roles[i];
          assert bsses[i] == Payloads(envelopes[1..], roles[1..]).value[i - 1];
        }
      }
    }
  }

  lemma RoleIsMasked(envelope: Envelope)
    requires Role(envelope).Ok?
    ensures Role(envelope).value % 4 == 0
  {
  }

  /** What a result says of the messages it was read from. */
  ghost predicate Interprets(t: Transcript, messages: seq<Bytes>, envelopes: seq<Envelope>, r: RadioPayloadSet) {
    && 1 <= |envelopes| == |messages|
    && (forall i :: 0 <= i < |messages| ==>
          AuthenticateEnvelope(t, messages[i]) == Ok(envelopes[i]) && Role(envelopes[i]).Ok?)
    && (r.action.Teardown? <==> |messages| == 1 && Bit(Role(envelopes[0]).value, 0x10))
    && (r.action.Teardown? ==> r.bsses == [])
    && (r.action.Configure? ==>
          && |r.bsses| == |messages|
          && (forall i :: 0 <= i < |messages| ==>
                && ParseSettings(envelopes[i].configData).Ok?
                && r.bsses[i] == BssPayload(
                     envelopes[i].bssIndex, Role(envelopes[i]).value, ParseSettings(envelopes[i].configData).value)
                && !Bit(r.bsses[i].multiApFlags, 0x10) && r.bsses[i].multiApFlags % 4 == 0)
          && (forall i, j :: 0 <= i < j < |r.bsses| && r.bsses[i].bssIndex.Some? ==>
                r.bsses[i].bssIndex != r.bsses[j].bssIndex))
  }

  /** A result covers every message: it is a teardown exactly when there is one message and its role
      has the teardown bit; otherwise it lists, in order, each message's index, role and settings,
      none with the teardown bit, and no index twice. */
  lemma WholeSetInterpreted(t: Transcript, messages: seq<Bytes>, maxBss: int)
    ensures DecodeRadioPayloads(t, messages, maxBss).Ok? ==>
              && AuthenticateEnvelopes(t, messages, maxBss).Ok?
              && Interprets(
                   t, messages, AuthenticateEnvelopes(t, messages, maxBss).value,
                   DecodeRadioPayloads(t, messages, maxBss).value)
  {
    hide AuthenticateEnvelopes, AuthenticateEnvelope, Role, ParseSettings, Decoded, FieldsOf, Bit, Roles, Payloads;
    if DecodeRadioPayloads(t, messages, maxBss).Ok? {
      var envelopes := AuthenticateEnvelopes(t, messages, maxBss).value;
      SetAcceptedExactly(t, messages, maxBss, envelopes);
      var roles := Roles(envelopes).value;
      RolesInOrder(envelopes, roles);
      forall i | 0 <= i < |envelopes|
        ensures Role(envelopes[i]).value % 4 == 0
      {
        RoleIsMasked(envelopes[i]);
      }
      if !exists i :: 0 <= i < |roles| && Bit(roles[i], TEARDOWN) {
        PayloadsInOrder(envelopes, roles);
      }
    }
  }

  // -- The advertised capabilities -----------------------------------------------------------

  lemma AdvertisedKinds()
    ensures ADVERTISED.Keys == {0x1004, 0x1010}
    ensures ADVERTISED[0x1004] == (2, 2) && ADVERTISED[0x1010] == (2, 2)
    ensures 0x1010 in Required(4)
    ensures (Required(4) + OPTIONAL)[0x1004] == (2, 2) && (Required(4) + OPTIONAL)[0x1010] == (2, 2)
  {
    RequiredByBoth(4);
  }

  lemma FieldsAgree(attributes: seq<Attribute>, lengths: Lengths, fewer: Lengths, k: int)
    requires Tidy(attributes, lengths) && fewer.Keys <= lengths.Keys && k in fewer && k in FieldsOf(attributes, lengths)
    requires forall f :: f in fewer ==> fewer[f] == lengths[f]
    ensures k in FieldsOf(attributes, fewer) && FieldsOf(attributes, fewer)[k] == FieldsOf(attributes, lengths)[k]
  {
    FieldsAre(attributes, lengths);
    TidyFewer(attributes, lengths, fewer);
    FieldsAre(attributes, fewer);
    var i :| 0 <= i < |attributes| && attributes[i].kind == k;
  }

  /** The M1 behind an accepted set always states both capabilities. */
  lemma AdvertisedPresent(t: Transcript, messages: seq<Bytes>, maxBss: int)
    ensures AuthenticateEnvelopes(t, messages, maxBss).Ok? ==>
              && Decoded(t.message).Ok?
              && var m1 := FieldsOf(Decoded(t.message).value, ADVERTISED);
                 0x1004 in m1 && 0x1010 in m1 && |m1[0x1004]| == 2 && |m1[0x1010]| == 2
  {
    hide Required, OPTIONAL, ADVERTISED, FieldsOf, Tidy, AuthenticateEnvelope, AuthenticateEnvelopes, Decoded;
    if AuthenticateEnvelopes(t, messages, maxBss).Ok? {
      SetAcceptedExactly(t, messages, maxBss, AuthenticateEnvelopes(t, messages, maxBss).value);
      OwnMessageAccepted(t, messages[0]);
      var attributes := Decoded(t.message).value;
      var lengths := Required(4) + OPTIONAL;
      RequiredByBoth(4);
      AdvertisedKinds();
      SingletonsHold(attributes, Required(4), OPTIONAL);
      FieldsAgree(attributes, lengths, ADVERTISED, 0x1004);
      FieldsAgree(attributes, lengths, ADVERTISED, 0x1010);
    }
  }

  lemma OwnMessageAccepted(t: Transcript, message: Bytes)
    ensures AuthenticateEnvelope(t, message).Ok? ==>
              Decoded(t.message).Ok? && Singletons(Decoded(t.message).value, Required(4), OPTIONAL).Ok?
  {
    hide Required, OPTIONAL, Singletons, Decoded, VendorSubelements, VerifyMessage, DecryptSettings;
    if AuthenticateEnvelope(t, message).Ok? {
      assert Message(t.message, 4).Ok?;
    }
  }

  /** The capabilities in a result are those the M1 behind the set states. */
  lemma CapabilitiesStated(t: Transcript, messages: seq<Bytes>, maxBss: int)
    requires DecodeRadioPayloads(t, messages, maxBss).Ok?
    ensures Decoded(t.message).Ok?
    ensures var r, m1 := DecodeRadioPayloads(t, messages, maxBss).value, Decoded(t.message).value;
            && 0 <= r.authenticationTypes <= 0xFFFF && Stated(m1, 0x1004, Word(r.authenticationTypes))
            && 0 <= r.encryptionTypes <= 0xFFFF && Stated(m1, 0x1010, Word(r.encryptionTypes))
            && (forall v :: Stated(m1, 0x1004, v) ==> v == Word(r.authenticationTypes))
            && (forall v :: Stated(m1, 0x1010, v) ==> v == Word(r.encryptionTypes))
  {
    hide AuthenticateEnvelopes, AuthenticateEnvelope, Role, ParseSettings, Decoded, FieldsOf, Bit, Roles, Payloads, Required,
      OPTIONAL, ADVERTISED, Tidy, Number, Word, Stated;
    SetAcceptedExactly(t, messages, maxBss, AuthenticateEnvelopes(t, messages, maxBss).value);
    OwnMessageAccepted(t, messages[0]);
    var attributes := Decoded(t.message).value;
    RequiredByBoth(4);
    AdvertisedKinds();
    SingletonsHold(attributes, Required(4), OPTIONAL);
    AdvertisedPresent(t, messages, maxBss);
    var m1 := FieldsOf(attributes, ADVERTISED);
    TidyFewer(attributes, Required(4) + OPTIONAL, ADVERTISED);
    CapabilityStated(attributes, 0x1004);
    CapabilityStated(attributes, 0x1010);
  }

  lemma TidyFewer(attributes: seq<Attribute>, lengths: Lengths, fewer: Lengths)
    requires Tidy(attributes, lengths) && fewer.Keys <= lengths.Keys && forall f :: f in fewer ==> fewer[f] == lengths[f]
    ensures Tidy(attributes, fewer)
  {
    forall i | 0 <= i < |attributes|
      ensures Fits(attributes[i], fewer)
    {
      assert Fits(attributes[i], lengths);
    }
  }

  lemma CapabilityStated(attributes: seq<Attribute>, kind: int)
    requires Tidy(attributes, ADVERTISED) && kind in FieldsOf(attributes, ADVERTISED) && |FieldsOf(attributes, ADVERTISED)[kind]| == 2
    ensures var v := FieldsOf(attributes, ADVERTISED)[kind];
            && 0 <= Number(v[0], v[1]) <= 0xFFFF && Stated(attributes, kind, Word(Number(v[0], v[1])))
            && forall other :: Stated(attributes, kind, other) ==> other == Word(Number(v[0], v[1]))
  {
    hide FieldsOf, ADVERTISED, Number, Word;
    var v := FieldsOf(attributes, ADVERTISED)[kind];
    FieldStated(attributes, ADVERTISED, kind);
    FieldsAre(attributes, ADVERTISED);
    WordNumber(0, v[0], v[1]);
    assert v == [v[0], v[1]];
  }

  /** A role is the one octet of the one Multi-AP sub-element of the encrypted part, apart from its two
      reserved low bits; there is none in the clear. */
  lemma RoleExactly(envelope: Envelope)
    ensures Role(envelope).Ok? <==>
            && VendorSubelements(envelope.attributes).Ok? && VendorSubelements(envelope.configData).Ok?
            && !Has(VendorSubelements(envelope.attributes).value, 0x06)
            && |OfKind(VendorSubelements(envelope.configData).value, 0x06)| == 1
            && |OfKind(VendorSubelements(envelope.configData).value, 0x06)[0]| == 1
    ensures Role(envelope).Ok? ==>
              var octet := OfKind(VendorSubelements(envelope.configData).value, 0x06)[0][0];
              Role(envelope).value / 4 == octet / 4 && Role(envelope).value % 4 == 0
  {
    hide VendorSubelements;
  }

  /** A set is refused only for what the messages are: it does not authenticate, a role is missing,
      misplaced or malformed, teardown is not alone, or some settings do not parse. */
  lemma RefusedOnlyFor(t: Transcript, messages: seq<Bytes>, maxBss: int)
    ensures DecodeRadioPayloads(t, messages, maxBss).Ok? <==>
            && AuthenticateEnvelopes(t, messages, maxBss).Ok?
            && var envelopes := AuthenticateEnvelopes(t, messages, maxBss).value;
               && (forall i :: 0 <= i < |envelopes| ==> Role(envelopes[i]).Ok?)
               && if exists i :: 0 <= i < |envelopes| && Bit(Role(envelopes[i]).value, TEARDOWN) then |envelopes| == 1
                  else forall i :: 0 <= i < |envelopes| ==> ParseSettings(envelopes[i].configData).Ok?
  {
    hide AuthenticateEnvelopes, Role, ParseSettings, Decoded, FieldsOf, Bit, Roles, Payloads, ADVERTISED;
    if AuthenticateEnvelopes(t, messages, maxBss).Ok? {
      var envelopes := AuthenticateEnvelopes(t, messages, maxBss).value;
      AdvertisedPresent(t, messages, maxBss);
      if forall i :: 0 <= i < |envelopes| ==> Role(envelopes[i]).Ok? {
        var roles := seq(|envelopes|, i requires 0 <= i < |envelopes| => Role(envelopes[i]).value);
        RolesInOrder(envelopes, roles);
        PayloadsExactly(envelopes, roles);
        assert (exists i :: 0 <= i < |envelopes| && Bit(Role(envelopes[i]).value, TEARDOWN))
          <==> exists i :: 0 <= i < |roles| && Bit(roles[i], TEARDOWN) by {
          assert forall i :: 0 <= i < |roles| ==> roles[i] == Role(envelopes[i]).value;
        }
      } else if Roles(envelopes).Ok? {
        RolesInOrder(envelopes, Roles(envelopes).value);
      }
    }
  }

  lemma {:induction false} PayloadsExactly(envelopes: seq<Envelope>, roles: seq<byte>)
    requires |roles| == |envelopes|
    ensures Payloads(envelopes, roles).Ok? <==>
            forall i :: 0 <= i < |envelopes| ==> ParseSettings(envelopes[i].configData).Ok?
  {
    hide ParseSettings;
    if envelopes != [] {
      PayloadsExactly(envelopes[1..], roles[1..]);
      if forall i :: 0 <= i < |envelopes| ==> ParseSettings(envelopes[i].configData).Ok? {
        forall i | 0 <= i < |envelopes| - 1
          ensures ParseSettings(envelopes[1..][i].configData).Ok?
        {
          assert envelopes[1..][i] == envelopes[i + 1];
        }
      }
      if Payloads(envelopes, roles).Ok? {
        forall i | 0 <= i < |envelopes|
          ensures ParseSettings(envelopes[i].configData).Ok?
        {
          assert i > 0 ==> envelopes[1..][i - 1] == envelopes[i];
        }
      }
    }
  }

  // -- A candidate for the existing fronthaul BSS ------------------------------------------------

  predicate Continuation(b: byte) {
    0x80 <= b <= 0xBF
  }

  /** Well-formed UTF-8 (section 4 of RFC 3629). */
  predicate Utf8(s: Bytes)
    decreases |s|
  {
    if s == [] then true
    else if s[0] <= 0x7F then Utf8(s[1..])
    else if 0xC2 <= s[0] <= 0xDF then |s| >= 2 && Continuation(s[1]) && Utf8(s[2..])
    else if 0xE0 <= s[0] <= 0xEF then
      && |s| >= 3 && Continuation(s[1]) && Continuation(s[2])
      && (s[0] == 0xE0 ==> s[1] >= 0xA0) && (s[0] == 0xED ==> s[1] <= 0x9F)
      && Utf8(s[3..])
    else if 0xF0 <= s[0] <= 0xF4 then
      && |s| >= 4 && Continuation(s[1]) && Continuation(s[2]) && Continuation(s[3])
      && (s[0] == 0xF0 ==> s[1] >= 0x90) && (s[0] == 0xF4 ==> s[1] <= 0x8F)
      && Utf8(s[4..])
    else false
  }

  /** The Unicode scalar values, and the bytes that section 3 of RFC 3629 gives each. */
  predicate ScalarValue(c: int) {
    0 <= c <= 0x10FFFF && !(0xD800 <= c <= 0xDFFF)
  }

  function Octets(c: int): Bytes
    requires ScalarValue(c)
  {
    if c < 0x80 then [c]
    else if c < 0x800 then [0xC0 + c / 0x40, 0x80 + c % 0x40]
    else if c < 0x1_0000 then [0xE0 + c / 0x1000, 0x80 + c / 0x40 % 0x40, 0x80 + c % 0x40]
    else [0xF0 + c / 0x4_0000, 0x80 + c / 0x1000 % 0x40, 0x80 + c / 0x40 % 0x40, 0x80 + c % 0x40]
  }

  predicate ScalarValues(text: seq<int>) {
    forall i :: 0 <= i < |text| ==> ScalarValue(text[i])
  }

  function TextOctets(text: seq<int>): Bytes
    requires ScalarValues(text)
  {
    if text == [] then [] else Octets(text[0]) + TextOctets(text[1..])
  }

  /** What a leading byte and its continuation bytes stand for. */
  function Combined(lead: int, y: int, z: int): int {
    lead * 0x1000 + y * 0x40 + z
  }

  lemma Digits64(lead: int, y: int, z: int)
    requires 0 <= lead && 0 <= y < 0x40 && 0 <= z < 0x40
    ensures var c := Combined(lead, y, z);
            && c / 0x1000 == lead && c / 0x40 % 0x40 == y && c % 0x40 == z && c / 0x40 == lead * 0x40 + y
            && c / 0x4_0000 == lead / 0x40 && c / 0x1000 % 0x40 == lead % 0x40
  {
    var c := Combined(lead, y, z);
    assert c == (lead * 0x40 + y) * 0x40 + z;
    assert c / 0x40 == lead * 0x40 + y;
    assert c / 0x1000 == lead;
  }

  lemma TwoOctets(s: Bytes) returns (c: int)
    requires |s| >= 2 && 0xC2 <= s[0] <= 0xDF && Continuation(s[1])
    ensures ScalarValue(c) && Octets(c) == s[..2]
  {
    c := Combined(0, s[0] as int - 0xC0, s[1] as int - 0x80);
    Digits64(0, s[0] as int - 0xC0, s[1] as int - 0x80);
  }

  lemma ThreeOctets(s: Bytes) returns (c: int)
    requires |s| >= 3 && 0xE0 <= s[0] <= 0xEF && Continuation(s[1]) && Continuation(s[2])
    requires (s[0] == 0xE0 ==> s[1] >= 0xA0) && (s[0] == 0xED ==> s[1] <= 0x9F)
    ensures ScalarValue(c) && Octets(c) == s[..3]
  {
    c := Combined(s[0] as int - 0xE0, s[1] as int - 0x80, s[2] as int - 0x80);
    Digits64(s[0] as int - 0xE0, s[1] as int - 0x80, s[2] as int - 0x80);
  }

  lemma FourOctets(s: Bytes) returns (c: int)
    requires |s| >= 4 && 0xF0 <= s[0] <= 0xF4 && Continuation(s[1]) && Continuation(s[2]) && Continuation(s[3])
    requires (s[0] == 0xF0 ==> s[1] >= 0x90) && (s[0] == 0xF4 ==> s[1] <= 0x8F)
    ensures ScalarValue(c) && Octets(c) == s[..4]
  {
    var lead := (s[0] as int - 0xF0) * 0x40 + (s[1] as int - 0x80);
    c := Combined(lead, s[2] as int - 0x80, s[3] as int - 0x80);
    Digits64(lead, s[2] as int - 0x80, s[3] as int - 0x80);
    assert lead / 0x40 == s[0] as int - 0xF0 && lead % 0x40 == s[1] as int - 0x80;
  }

  /** The character that well-formed text starts with. */
  lemma FirstIsEncoded(s: Bytes) returns (c: int, n: nat)
    requires Utf8(s) && s != []
    ensures ScalarValue(c) && 1 <= n <= |s| && Octets(c) == s[..n] && Utf8(s[n..])
  {
    hide Octets, Continuation;
    if s[0] <= 0x7F {
      c, n := s[0], 1;
      OneOctet(c);
      assert s[..1] == [s[0]];
    } else if s[0] <= 0xDF {
      n := 2;
      c := TwoOctets(s);
    } else if s[0] <= 0xEF {
      n := 3;
      c := ThreeOctets(s);
    } else {
      n := 4;
      c := FourOctets(s);
    }
  }

  lemma OneOctet(c: int)
    requires 0 <= c < 0x80
    ensures ScalarValue(c) && Octets(c) == [c]
  {
  }

  /** The bytes of one scalar value, as ranges. */
  lemma OctetsRange(c: int)
    requires ScalarValue(c)
    ensures var o := Octets(c);
            || (|o| == 1 && o[0] <= 0x7F)
            || (|o| == 2 && 0xC2 <= o[0] <= 0xDF && Continuation(o[1]))
            || (|o| == 3 && 0xE0 <= o[0] <= 0xEF && Continuation(o[1]) && Continuation(o[2])
                && (o[0] == 0xE0 ==> o[1] >= 0xA0) && (o[0] == 0xED ==> o[1] <= 0x9F))
            || (|o| == 4 && 0xF0 <= o[0] <= 0xF4 && Continuation(o[1]) && Continuation(o[2]) && Continuation(o[3])
                && (o[0] == 0xF0 ==> o[1] >= 0x90) && (o[0] == 0xF4 ==> o[1] <= 0x8F))
  {
    Base64Digits(c);
  }

  lemma Base64Digits(c: int)
    requires 0 <= c
    ensures c == c / 0x4_0000 * 0x4_0000 + c / 0x1000 % 0x40 * 0x1000 + c / 0x40 % 0x40 * 0x40 + c % 0x40
    ensures c / 0x1000 == c / 0x4_0000 * 0x40 + c / 0x1000 % 0x40
    ensures c / 0x40 == c / 0x1000 * 0x40 + c / 0x40 % 0x40
  {
    assert c / 0x40 / 0x40 == c / 0x1000;
    assert c / 0x1000 / 0x40 == c / 0x4_0000;
  }

  lemma EncodedIsUtf8(c: int, rest: Bytes)
    requires ScalarValue(c) && Utf8(rest)
    ensures Utf8(Octets(c) + rest)
  {
    hide Octets, ScalarValue;
    OctetsRange(c);
    var o := Octets(c);
    var s := o + rest;
    assert s[|o|..] == rest;
    assert forall i :: 0 <= i < |o| ==> s[i] == o[i];
  }

  /** Well-formed text is exactly what some sequence of scalar values is encoded as. */
  lemma {:induction false} Utf8Exactly(s: Bytes)
    ensures Utf8(s) <==> exists text: seq<int> :: ScalarValues(text) && TextOctets(text) == s
    decreases |s|
  {
    hide Octets;
    if Utf8(s) {
      if s == [] {
        assert TextOctets([]) == s;
      } else {
        hide Utf8;
        var c, n := FirstIsEncoded(s);
        Utf8Exactly(s[n..]);
        var rest: seq<int> :| ScalarValues(rest) && TextOctets(rest) == s[n..];
        var text := [c] + rest;
        assert text[1..] == rest && s == s[..n] + s[n..];
        assert ScalarValues(text) && TextOctets(text) == s;
      }
    }
    forall text: seq<int> | ScalarValues(text) && TextOctets(text) == s
      ensures Utf8(s)
    {
      TextIsUtf8(text);
    }
  }

  lemma {:induction false} TextIsUtf8(text: seq<int>)
    requires ScalarValues(text)
    ensures Utf8(TextOctets(text))
  {
    hide Octets;
    if text != [] {
      TextIsUtf8(text[1..]);
      EncodedIsUtf8(text[0], TextOctets(text[1..]));
    }
  }

  datatype Candidate = Candidate(ssid: Bytes, passphrase: Bytes, bssIndex: Option<byte>)

  function WithoutNul(key: Bytes): Bytes {
    if key != [] && key[|key| - 1] == 0 then key[..|key| - 1] else key
  }

  function ExistingFronthaul(r: RadioPayloadSet): Result<Candidate> {
    if !r.action.Configure? || |r.bsses| != 1 then Err(UnsupportedOperation)
    else
      var bss, settings := r.bsses[0], r.bsses[0].settings;
      if bss.multiApFlags != FRONTHAUL_BSS || settings.authenticationType != 0x20 || settings.encryptionType != 0x08
         || !Bit(r.authenticationTypes, 0x20) || !Bit(r.encryptionTypes, 0x08)
         || Has(settings.attributes, 0x102A) || Has(settings.attributes, 0x1012)
      then Err(UnsupportedOperation)
      else
        var key := WithoutNul(settings.networkKey);
        if !Utf8(settings.ssid) || (exists i :: 0 <= i < |key| && key[i] > 0x7F) then Err(UnsupportedOperation)
        else if !(1 <= |settings.ssid| <= 32) || 0 in settings.ssid || !(8 <= |key| <= 63)
                || exists i :: 0 <= i < |key| && !(0x20 <= key[i] <= 0x7E)
        then Err(UnsupportedOperation)
        else Ok(Candidate(settings.ssid, key, bss.bssIndex))
  }

  /** The passphrases a secret store hands out: 8 to 63 printable ASCII characters. */
  predicate Passphrase(s: Bytes) {
    8 <= |s| <= 63 && forall i :: 0 <= i < |s| ==> 0x20 <= s[i] <= 0x7E
  }

  /** A candidate comes from exactly one fronthaul WPA2-PSK/AES BSS; its SSID would pass as an
      intent's and its passphrase as a secret, and the key sent is that passphrase, with or without
      one NUL after it. */
  lemma CandidateExactly(r: RadioPayloadSet, c: Candidate)
    ensures ExistingFronthaul(r) == Ok(c) <==>
            && r.action.Configure? && |r.bsses| == 1
            && var bss, settings := r.bsses[0], r.bsses[0].settings;
               && bss.multiApFlags == 0x20
               && settings.authenticationType == 0x20 && settings.encryptionType == 0x08
               && Bit(r.authenticationTypes, 0x20) && Bit(r.encryptionTypes, 0x08)
               && !Has(settings.attributes, 0x102A) && !Has(settings.attributes, 0x1012)
               && c.ssid == settings.ssid && Utf8(c.ssid) && 1 <= |c.ssid| <= 32 && 0 !in c.ssid
               && Passphrase(c.passphrase)
               && (settings.networkKey == c.passphrase || settings.networkKey == c.passphrase + [0])
               && c.bssIndex == bss.bssIndex
  {
    hide Utf8, Bit, Has;
    if r.action.Configure? && |r.bsses| == 1 {
      var key := r.bsses[0].settings.networkKey;
      if key != [] && key[|key| - 1] == 0 {
        assert key == key[..|key| - 1] + [0];
      }
      if key == c.passphrase + [0] {
        assert key[|key| - 1] == 0 && key[..|key| - 1] == c.passphrase;
      }
    }
  }

  lemma CandidateMakesAnIntent(r: RadioPayloadSet, pod: string, radio: string, bss: string, secret: string)
    requires ExistingFronthaul(r).Ok? && pod != "" && radio != "" && bss != "" && secret != ""
    ensures Intent(pod, radio, bss, ExistingFronthaul(r).value.ssid, secret, true, "wpa2-psk").Validate() == Ok(true)
  {
    CandidateExactly(r, ExistingFronthaul(r).value);
  }
}
