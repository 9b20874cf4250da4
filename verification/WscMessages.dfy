/** M1 and M2 payloads: consumed fields, vendor sub-elements, building M1 and authenticating a set of
    M2 messages (wsc_messages.py). */
module WscMessages {
  import opened Basics
  import opened Wsc

  const VERSION: int := 0x104A
  const MESSAGE_TYPE: int := 0x1022
  const ENROLLEE_NONCE: int := 0x101A
  const REGISTRAR_NONCE: int := 0x1039
  const PUBLIC_KEY: int := 0x1032
  const VENDOR_EXTENSION: int := 0x1049
  const ENCRYPTED_SETTINGS: int := 0x1018
  const BSS_INDEX: int := 0x1BBC
  const WFA_ID: Bytes := [0x00, 0x37, 0x2A]
  const MAX_M2_PAYLOADS: nat := 16
  const MAX_VENDOR_SUBELEMENTS: nat := 4096

  // -- Consumed fields ------------------------------------------------------------------

  /** Least and greatest length of a consumed field. */
  type Lengths = map<int, (nat, nat)>

  type Fields = map<int, Bytes>

  const COMMON_LENGTHS: Lengths := map[
    VERSION := (1, 1), MESSAGE_TYPE := (1, 1), ENROLLEE_NONCE := (16, 16), PUBLIC_KEY := (192, 192),
    0x1004 := (2, 2), 0x1010 := (2, 2), 0x100D := (1, 1), 0x1008 := (2, 2), 0x1054 := (8, 8), 0x103C := (1, 1),
    0x1002 := (2, 2), 0x1012 := (2, 2), 0x1009 := (2, 2), 0x102D := (4, 4)]

  const DEVICE_STRINGS: map<int, nat> := map[0x1021 := 64, 0x1023 := 32, 0x1024 := 32, 0x1042 := 32, 0x1011 := 32]

  function Required(messageType: byte): Lengths {
    COMMON_LENGTHS + (map k | k in DEVICE_STRINGS :: (0, DEVICE_STRINGS[k]))
    + if messageType == 4 then map[0x1047 := (16, 16), 0x1020 := (6, 6), 0x1044 := (1, 1)]
      else map[REGISTRAR_NONCE := (16, 16), 0x1048 := (16, 16), AUTHENTICATOR := (8, 8)]
  }

  const OPTIONAL: Lengths := map[BSS_INDEX := (1, 1), ENCRYPTED_SETTINGS := (32, 65535)]

  predicate Fits(a: Attribute, lengths: Lengths) {
    a.kind in lengths ==> lengths[a.kind].0 <= |a.value| <= lengths[a.kind].1
  }

  /** No consumed kind occurs twice, and each has an allowed length. */
  predicate Tidy(attributes: seq<Attribute>, lengths: Lengths) {
    && (forall i :: 0 <= i < |attributes| ==> Fits(attributes[i], lengths))
    && (forall i, j :: 0 <= i < j < |attributes| && attributes[i].kind in lengths ==>
          attributes[i].kind != attributes[j].kind)
  }

  /** The consumed fields; of a kind that occurs twice, the later one. */
  function FieldsOf(attributes: seq<Attribute>, lengths: Lengths): Fields {
    if attributes == [] then map[]
    else
      var last := attributes[|attributes| - 1];
      var fields := FieldsOf(attributes[..|attributes| - 1], lengths);
      if last.kind in lengths then fields[last.kind := last.value] else fields
  }

  lemma {:induction false} FieldsAre(attributes: seq<Attribute>, lengths: Lengths)
    ensures forall k :: k in FieldsOf(attributes, lengths) <==> k in lengths && Has(attributes, k)
    ensures Tidy(attributes, lengths) ==>
              forall i :: 0 <= i < |attributes| && attributes[i].kind in lengths ==>
                attributes[i].kind in FieldsOf(attributes, lengths)
                && FieldsOf(attributes, lengths)[attributes[i].kind] == attributes[i].value
  {
    if attributes != [] {
      var n := |attributes| - 1;
      var front := attributes[..n];
      FieldsAre(front, lengths);
      forall k
        ensures Has(attributes, k) <==> Has(front, k) || k == attributes[n].kind
      {
        if Has(front, k) {
          var i :| 0 <= i < |front| && front[i].kind == k;
          assert attributes[i].kind == k;
        }
        if Has(attributes, k) && k != attributes[n].kind {
          var i :| 0 <= i < |attributes| && attributes[i].kind == k;
          assert front[i].kind == k;
        }
      }
      if Tidy(attributes, lengths) {
        assert Tidy(front, lengths);
        forall i | 0 <= i < |attributes| && attributes[i].kind in lengths
          ensures attributes[i].kind in FieldsOf(attributes, lengths)
          ensures FieldsOf(attributes, lengths)[attributes[i].kind] == attributes[i].value
        {
          if i < n {
            assert front[i] == attributes[i] && attributes[i].kind != attributes[n].kind;
          }
        }
      }
    }
  }

  function Singletons(attributes: seq<Attribute>, required: Lengths, optional: Lengths): Result<Fields> {
    var lengths := required + optional;
    var fields := FieldsOf(attributes, lengths);
    if Tidy(attributes, lengths) && required.Keys <= fields.Keys then Ok(fields) else Err(InvalidInput)
  }

  /** One attribute more: what it adds, and when the list stays tidy. */
  lemma TidyStep(attributes: seq<Attribute>, n: nat, lengths: Lengths)
    requires n < |attributes| && Tidy(attributes[..n], lengths)
    ensures var a, fields := attributes[n], FieldsOf(attributes[..n], lengths);
            && FieldsOf(attributes[..n + 1], lengths) == (if a.kind in lengths then fields[a.kind := a.value] else fields)
            && (Tidy(attributes[..n + 1], lengths) <==> a.kind in lengths ==> a.kind !in fields && Fits(a, lengths))
  {
    var front, more, a := attributes[..n], attributes[..n + 1], attributes[n];
    assert more[..n] == front && more[n] == a;
    FieldsAre(front, lengths);
    if a.kind in lengths && a.kind in FieldsOf(front, lengths) {
      var i :| 0 <= i < n && front[i].kind == a.kind;
      assert more[i].kind == more[n].kind;
    }
    assert forall i :: 0 <= i < n ==> more[i] == front[i];
    if a.kind in lengths ==> a.kind !in FieldsOf(front, lengths) && Fits(a, lengths) {
      assert forall i :: 0 <= i < n && front[i].kind in lengths ==> Has(front, front[i].kind);
    } else if a.kind in lengths && !Fits(a, lengths) {
      assert !Fits(more[n], lengths);
    }
  }

  lemma UntidyPrefix(attributes: seq<Attribute>, n: nat, lengths: Lengths)
    requires n <= |attributes| && !Tidy(attributes[..n], lengths)
    ensures !Tidy(attributes, lengths)
  {
    var front := attributes[..n];
    if forall i :: 0 <= i < n ==> Fits(front[i], lengths) {
      var i, j :| 0 <= i < j < n && front[i].kind in lengths && front[i].kind == front[j].kind;
      assert attributes[i].kind == attributes[j].kind;
    } else {
      var i :| 0 <= i < n && !Fits(front[i], lengths);
      assert !Fits(attributes[i], lengths);
    }
  }

  /** The check as the program makes it, attribute by attribute. */
  method ReadSingletons(attributes: seq<Attribute>, required: Lengths, optional: Lengths) returns (r: Result<Fields>)
    ensures r == Singletons(attributes, required, optional)
  {
    hide Tidy, FieldsOf;
    var lengths := required + optional;
    var fields: Fields := map[];
    NothingRead(attributes, lengths);
    for n := 0 to |attributes|
      invariant fields == FieldsOf(attributes[..n], lengths)
      invariant Tidy(attributes[..n], lengths)
    {
      var a := attributes[n];
      TidyStep(attributes, n, lengths);
      if a.kind !in lengths {
        continue;
      }
      if a.kind in fields {
        UntidyPrefix(attributes, n + 1, lengths);
        return Err(InvalidInput);
      }
      if !(lengths[a.kind].0 <= |a.value| <= lengths[a.kind].1) {
        UntidyPrefix(attributes, n + 1, lengths);
        return Err(InvalidInput);
      }
      fields := fields[a.kind := a.value];
    }
    assert attributes[..|attributes|] == attributes;
    if !(required.Keys <= fields.Keys) {
      return Err(InvalidInput);
    }
    r := Ok(fields);
  }

  lemma NothingRead(attributes: seq<Attribute>, lengths: Lengths)
    ensures FieldsOf(attributes[..0], lengths) == map[] && Tidy(attributes[..0], lengths)
  {
  }

  // -- Vendor sub-elements ----------------------------------------------------------------

  /** The sub-elements that make up the data: a kind byte, a length byte and the value. */
  function Subelements(data: Bytes): Option<seq<Attribute>>
    decreases |data|
  {
    if data == [] then Some([])
    else if |data| < 2 || data[1] > |data| - 2 then None
    else
      match Subelements(data[2 + data[1]..])
      case None => None
      case Some(rest) => Some([Attribute(data[0], data[2..2 + data[1]])] + rest)
  }

  /** What one attribute contributes: nothing unless it is a WFA vendor extension. */
  function Contribution(a: Attribute): Option<seq<Attribute>> {
    if a.kind != VENDOR_EXTENSION then Some([])
    else if !(4 <= |a.value| <= 1024) then None
    else if a.value[..3] != WFA_ID then Some([])
    else Subelements(a.value[3..])
  }

  function Contributions(attributes: seq<Attribute>): Option<seq<Attribute>> {
    if attributes == [] then Some([])
    else
      match Contribution(attributes[0])
      case None => None
      case Some(first) => Prefixed(first, Contributions(attributes[1..]))
  }

  function VendorSubelements(attributes: seq<Attribute>): Result<seq<Attribute>> {
    match Contributions(attributes)
    case None => Err(InvalidInput)
    case Some(found) => if |found| > MAX_VENDOR_SUBELEMENTS then Err(InvalidInput) else Ok(found)
  }

  lemma SubelementsAt(data: Bytes, offset: nat)
    requires offset < |data|
    ensures |data| - offset < 2 ==> Subelements(data[offset..]) == None
    ensures |data| - offset >= 2 ==>
              var length, start := data[offset + 1], offset + 2;
              if length > |data| - start then Subelements(data[offset..]) == None
              else Subelements(data[offset..])
                   == Prefixed([Attribute(data[offset], data[start..start + length])], Subelements(data[start + length..]))
    ensures Subelements(data[offset..]).Some? ==> |Subelements(data[offset..]).value| > 0
  {
    var rest := data[offset..];
    if |rest| >= 2 && rest[1] <= |rest| - 2 {
      var end: nat := 2 + (rest[1] as int);
      assert rest[2..end] == data[offset + 2..offset + end] && rest[end..] == data[offset + end..];
    }
  }

  /** One extension's sub-elements appended to those found so far, within the budget. */
  method ReadExtension(data: Bytes, found: seq<Attribute>) returns (r: Option<seq<Attribute>>)
    requires |found| <= MAX_VENDOR_SUBELEMENTS
    ensures var all := Prefixed(found, Subelements(data));
            r == if all.Some? && |all.value| <= MAX_VENDOR_SUBELEMENTS then all else None
  {
    hide Subelements, Prefixed;
    var result, offset := found, 0;
    assert data[0..] == data;
    PrefixedSize(found, Subelements(data));
    while offset < |data|
      invariant 0 <= offset <= |data| && |result| <= MAX_VENDOR_SUBELEMENTS
      invariant Prefixed(found, Subelements(data)) == Prefixed(result, Subelements(data[offset..]))
    {
      SubelementsAt(data, offset);
      PrefixedSize(result, Subelements(data[offset..]));
      if |data| - offset < 2 {
        return None;
      }
      var kind, length := data[offset], data[offset + 1];
      offset := offset + 2;
      if length > |data| - offset {
        return None;
      }
      var a := Attribute(kind, data[offset..offset + length]);
      PrefixedTwice(result, [a], Subelements(data[offset + length..]));
      if |result| == MAX_VENDOR_SUBELEMENTS {
        return None;
      }
      result := result + [a];
      offset := offset + length;
    }
    assert data[offset..] == [];
    NoSubelements();
    PrefixedSize(result, Some([]));
    r := Some(result);
  }

  lemma NoSubelements()
    ensures Subelements([]) == Some([])
  {
  }

  /** The parser as the program runs it, over all attributes. */
  method ReadVendorSubelements(attributes: seq<Attribute>) returns (r: Result<seq<Attribute>>)
    ensures r == VendorSubelements(attributes)
  {
    var result: seq<Attribute> := [];
    assert attributes[0..] == attributes && Prefixed([], Contributions(attributes)) == Contributions(attributes) by {
      if Contributions(attributes).Some? {
        assert [] + Contributions(attributes).value == Contributions(attributes).value;
      }
    }
    for n := 0 to |attributes|
      invariant |result| <= MAX_VENDOR_SUBELEMENTS
      invariant Contributions(attributes) == Prefixed(result, Contributions(attributes[n..]))
    {
      var a := attributes[n];
      assert attributes[n..][0] == a && attributes[n..][1..] == attributes[n + 1..];
      ghost var rest := Contributions(attributes[n + 1..]);
      if a.kind != VENDOR_EXTENSION {
        PrefixedTwice(result, [], rest);
        assert result + [] == result;
        continue;
      }
      var value := a.value;
      if !(4 <= |value| <= 1024) {
        return Err(InvalidInput);
      }
      if value[..3] != WFA_ID {
        PrefixedTwice(result, [], rest);
        assert result + [] == result;
        continue;
      }
      if Contribution(a).Some? {
        PrefixedTwice(result, Contribution(a).value, rest);
      }
      var more := ReadExtension(value[3..], result);
      if more.None? {
        return Err(InvalidInput);
      }
      result := more.value;
    }
    assert result + [] == result;
    r := Ok(result);
  }

  // -- Messages ------------------------------------------------------------------------------

  function OfKind(attributes: seq<Attribute>, kind: int): seq<Bytes> {
    if attributes == [] then []
    else (if attributes[0].kind == kind then [attributes[0].value] else []) + OfKind(attributes[1..], kind)
  }

  datatype Parsed = Parsed(attributes: seq<Attribute>, fields: Fields)

  function Message(data: Bytes, messageType: byte): Result<Parsed> {
    var attributes :- Decoded(data);
    var fields :- Singletons(attributes, Required(messageType), OPTIONAL);
    if !(MESSAGE_TYPE in fields && fields[MESSAGE_TYPE] == [messageType]) then Err(InvalidInput)
    else
      var found :- VendorSubelements(attributes);
      var versions := OfKind(found, 0);
      if |versions| > 1 || (versions != [] && |versions[0]| != 1) then Err(InvalidInput)
      else if BSS_INDEX in fields
              && (messageType != 5 || |attributes| < 2 || attributes[|attributes| - 2].kind != BSS_INDEX)
      then Err(InvalidInput)
      else Ok(Parsed(attributes, fields))
  }

  // -- What an accepted message is ---------------------------------------------------------------

  lemma TypeAndIndex(messageType: byte)
    ensures 0x1022 in Required(messageType) && 0x1BBC !in Required(messageType) && 0x1BBC in OPTIONAL
  {
    hide COMMON_LENGTHS, DEVICE_STRINGS;
    TypeIsCommon();
  }

  lemma TypeIsCommon()
    ensures 0x1022 in COMMON_LENGTHS && 0x1BBC !in COMMON_LENGTHS && 0x1BBC !in DEVICE_STRINGS
  {
  }

  predicate Subelement(a: Attribute) {
    0 <= a.kind <= 0xFF && |a.value| <= 0xFF
  }

  predicate AllSubelements(list: seq<Attribute>) {
    forall i :: 0 <= i < |list| ==> Subelement(list[i])
  }

  /** Sub-elements on the wire: a kind byte, a length byte and the value, one after the other. */
  function SubelementBytes(list: seq<Attribute>): Bytes
    requires AllSubelements(list)
  {
    if list == [] then []
    else
      assert Subelement(list[0]);
      var head: Bytes := [list[0].kind, |list[0].value|];
      head + list[0].value + SubelementBytes(list[1..])
  }

  /** Parsing accepts exactly what is nothing but whole sub-elements, as the list it is made of. */
  lemma {:induction false} SubelementsExactly(data: Bytes, list: seq<Attribute>)
    ensures Subelements(data) == Some(list) <==> AllSubelements(list) && SubelementBytes(list) == data
    decreases |data|
  {
    if list == [] {
    } else if |data| >= 2 && data[1] <= |data| - 2 {
      hide Subelements, SubelementBytes, AllSubelements, Prefixed;
      var end: nat := 2 + (data[1] as int);
      SubelementsExactly(data[end..], list[1..]);
      OneParsed(data, end, list);
      if AllSubelements(list) {
        OneWritten(list);
        SubelementBytesStep(data, list[0], SubelementBytes(list[1..]), end);
      } else {
        NotAll(list, data[0], data[2..end]);
      }
    } else {
      TooShort(data, list);
    }
  }

  /** A first sub-element that fits is the head of what is parsed. */
  lemma OneParsed(data: Bytes, end: nat, list: seq<Attribute>)
    requires |data| >= 2 && end == 2 + (data[1] as int) && end <= |data| && list != []
    ensures Subelements(data) == Some(list) <==>
            list[0] == Attribute(data[0], data[2..end]) && Subelements(data[end..]) == Some(list[1..])
  {
    assert list == [list[0]] + list[1..];
  }

  lemma OneWritten(list: seq<Attribute>)
    requires list != [] && AllSubelements(list)
    ensures Subelement(list[0]) && AllSubelements(list[1..])
    ensures SubelementBytes(list) == [list[0].kind, |list[0].value|] + list[0].value + SubelementBytes(list[1..])
  {
  }

  lemma NotAll(list: seq<Attribute>, kind: byte, value: Bytes)
    requires list != [] && !AllSubelements(list) && |value| <= 0xFF
    ensures list[0] != Attribute(kind, value) || !AllSubelements(list[1..])
  {
    if AllSubelements(list[1..]) {
      assert forall i :: 0 < i < |list| ==> list[i] == list[1..][i - 1];
    }
  }

  lemma TooShort(data: Bytes, list: seq<Attribute>)
    requires list != [] && (|data| < 2 || data[1] > |data| - 2)
    ensures Subelements(data) != Some(list)
    ensures AllSubelements(list) ==> SubelementBytes(list) != data
  {
    if AllSubelements(list) {
      OneWritten(list);
      hide SubelementBytes;
      var head := [list[0].kind, |list[0].value|] + list[0].value;
      assert (head + SubelementBytes(list[1..]))[1] == |list[0].value|;
    }
  }

  lemma SubelementBytesStep(data: Bytes, a: Attribute, rest: Bytes, end: nat)
    requires Subelement(a) && 2 <= |data| && end == 2 + (data[1] as int) && end <= |data|
    ensures data == [a.kind, |a.value|] + a.value + rest <==>
            a == Attribute(data[0], data[2..end]) && rest == data[end..]
  {
    var all := [a.kind, |a.value|] + a.value + rest;
    assert all[0] == a.kind && all[1] == |a.value|;
    assert all[2..2 + |a.value|] == a.value && all[2 + |a.value|..] == rest;
    if a == Attribute(data[0], data[2..end]) && rest == data[end..] {
      assert |a.value| == data[1] as int;
      assert data == all;
    }
  }

  /** Only WFA vendor extensions contribute, and all their sub-elements do; an extension of another vendor
      contributes nothing, and one that is too short or too long makes the message malformed. */
  lemma ContributionExactly(a: Attribute)
    ensures a.kind != 0x1049 ==> Contribution(a) == Some([])
    ensures a.kind == 0x1049 && !(4 <= |a.value| <= 1024) ==> Contribution(a) == None
    ensures (a.kind == 0x1049 && 4 <= |a.value| <= 1024) ==>
              Contribution(a) == (if a.value[..3] == [0x00, 0x37, 0x2A] then Subelements(a.value[3..]) else Some([]))
  {
  }

  /** At most one version sub-element, of one byte. */
  predicate OneVersionAtMost(found: seq<Attribute>) {
    OfKind(found, 0) == [] || (|OfKind(found, 0)| == 1 && |OfKind(found, 0)[0]| == 1)
  }

  /** A message is accepted exactly when it decodes, carries every required field once and no consumed field
      twice, all with allowed lengths, says its own type, has well-formed extensions with at most one
      version, and a BSS index only in M2 and only before the authenticator. */
  lemma MessageExactly(data: Bytes, messageType: byte)
    requires messageType == 4 || messageType == 5
    ensures Message(data, messageType).Ok? <==>
            && Decoded(data).Ok?
            && var attributes := Decoded(data).value;
               && Tidy(attributes, Required(messageType) + OPTIONAL)
               && (forall k :: k in Required(messageType) ==> Has(attributes, k))
               && (forall i :: 0 <= i < |attributes| && attributes[i].kind == 0x1022 ==> attributes[i].value == [messageType])
               && VendorSubelements(attributes).Ok? && OneVersionAtMost(VendorSubelements(attributes).value)
               && (Has(attributes, 0x1BBC) ==>
                     messageType == 5 && |attributes| >= 2 && attributes[|attributes| - 2].kind == 0x1BBC)
    ensures Message(data, messageType).Ok? ==>
              Message(data, messageType).value.attributes == Decoded(data).value
              && Message(data, messageType).value.fields == FieldsOf(Decoded(data).value, Required(messageType) + OPTIONAL)
  {
    hide Decoded, VendorSubelements, Tidy, FieldsOf, Required, OPTIONAL, OneVersionAtMost;
    TypeAndIndex(messageType);
    if Decoded(data).Ok? {
      var attributes := Decoded(data).value;
      var lengths := Required(messageType) + OPTIONAL;
      FieldsAre(attributes, lengths);
      RequiredAreThere(attributes, Required(messageType), OPTIONAL);
      if Tidy(attributes, lengths) && Has(attributes, 0x1022) {
        OneOf(attributes, lengths, 0x1022, [messageType]);
      }
      if VendorSubelements(attributes).Ok? {
        OneVersionIs(VendorSubelements(attributes).value);
      }
    }
  }

  lemma RequiredAreThere(attributes: seq<Attribute>, required: Lengths, optional: Lengths)
    ensures required.Keys <= FieldsOf(attributes, required + optional).Keys
        <==> forall k :: k in required ==> Has(attributes, k)
  {
    hide Has, FieldsOf;
    var fields := FieldsOf(attributes, required + optional);
    FieldsAre(attributes, required + optional);
    assert forall k :: k in required ==> (k in fields <==> Has(attributes, k));
    if required.Keys <= fields.Keys {
      assert forall k :: k in required ==> k in fields.Keys;
    }
    if forall k :: k in required ==> Has(attributes, k) {
      assert forall k :: k in required.Keys ==> k in fields.Keys;
    }
  }

  lemma OneVersionIs(found: seq<Attribute>)
    ensures var versions := OfKind(found, 0);
            OneVersionAtMost(found) <==> !(|versions| > 1 || (versions != [] && |versions[0]| != 1))
  {
  }

  lemma OneOf(attributes: seq<Attribute>, lengths: Lengths, kind: int, value: Bytes)
    requires Tidy(attributes, lengths) && Has(attributes, kind) && kind in lengths
    ensures kind in FieldsOf(attributes, lengths)
    ensures FieldsOf(attributes, lengths)[kind] == value
        <==> forall i :: 0 <= i < |attributes| && attributes[i].kind == kind ==> attributes[i].value == value
  {
    FieldsAre(attributes, lengths);
    var i :| 0 <= i < |attributes| && attributes[i].kind == kind;
    OnlyOneOf(attributes, lengths, i);
  }

  lemma OnlyOneOf(attributes: seq<Attribute>, lengths: Lengths, i: nat)
    requires Tidy(attributes, lengths) && i < |attributes| && attributes[i].kind in lengths
    ensures forall j :: 0 <= j < |attributes| && attributes[j].kind == attributes[i].kind ==> j == i
  {
  }
}
