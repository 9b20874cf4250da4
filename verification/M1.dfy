/** Building M1: the builder accepts exactly the devices the validator admits (wsc_messages.py). */
module M1Builder {
  import opened Basics
  import opened Wsc
  import opened WscMessages

  datatype M1Device = M1Device(
    uuid: Bytes, alMac: Bytes, authenticationTypes: int, encryptionTypes: int, connectionTypes: int,
    configurationMethods: int, wpsState: int, manufacturer: Bytes, modelName: Bytes, modelNumber: Bytes,
    serialNumber: Bytes, primaryDeviceType: Bytes, deviceName: Bytes, rfBand: int, associationState: int,
    devicePasswordId: int, configurationError: int, osVersion: int)

  /** Big-endian unsigned integers of one, two and four bytes. */
  function Uint1(n: int): Result<Bytes> {
    if 0 <= n < 0x100 then Ok([n]) else Err(InvalidInput)
  }

  function Uint2(n: int): Result<Bytes> {
    if 0 <= n < 0x1_0000 then Ok([n / 0x100, n % 0x100]) else Err(InvalidInput)
  }

  function Uint4(n: int): Result<Bytes> {
    if 0 <= n < 0x1_0000_0000 then
      Ok([n / 0x100_0000, n / 0x1_0000 % 0x100, n / 0x100 % 0x100, n % 0x100])
    else Err(InvalidInput)
  }

  /** The most significant bit of the OS version is always set. */
  function Flagged(version: Bytes): (r: Bytes)
    requires |version| == 4
    ensures |r| == 4 && r[0] >= 0x80 && r[1..] == version[1..]
  {
    [version[0] % 0x80 + 0x80] + version[1..]
  }

  function Facts(d: M1Device): Result<seq<Attribute>> {
    var version :- Uint4(d.osVersion);
    var authentication :- Uint2(d.authenticationTypes);
    var encryption :- Uint2(d.encryptionTypes);
    var connection :- Uint1(d.connectionTypes);
    var methods :- Uint2(d.configurationMethods);
    var state :- Uint1(d.wpsState);
    var band :- Uint1(d.rfBand);
    var association :- Uint2(d.associationState);
    var password :- Uint2(d.devicePasswordId);
    var error :- Uint2(d.configurationError);
    if d.rfBand !in {1, 2, 4, 8} || d.wpsState !in {1, 2} then Err(InvalidInput)
    else if 0 in d.manufacturer || 0 in d.modelName || 0 in d.modelNumber || 0 in d.serialNumber || 0 in d.deviceName
    then Err(InvalidInput)
    else Ok([
      Attribute(0x1047, d.uuid), Attribute(0x1020, d.alMac), Attribute(0x1004, authentication),
      Attribute(0x1010, encryption), Attribute(0x100D, connection), Attribute(0x1008, methods),
      Attribute(0x1044, state), Attribute(0x1021, d.manufacturer), Attribute(0x1023, d.modelName),
      Attribute(0x1024, d.modelNumber), Attribute(0x1042, d.serialNumber), Attribute(0x1054, d.primaryDeviceType),
      Attribute(0x1011, d.deviceName), Attribute(0x103C, band), Attribute(0x1002, association),
      Attribute(0x1012, password), Attribute(0x1009, error), Attribute(0x102D, Flagged(version))])
  }

  const VERSION2: Bytes := WFA_ID + [0x00, 0x01, 0x20]

  function Built(facts: seq<Attribute>, nonce: Bytes, publicKey: Bytes): seq<Attribute>
    requires |facts| == 18
  {
    [Attribute(VERSION, [0x10]), Attribute(MESSAGE_TYPE, [0x04])] + facts[..2]
    + [Attribute(ENROLLEE_NONCE, nonce), Attribute(PUBLIC_KEY, publicKey)] + facts[2..]
    + [Attribute(VENDOR_EXTENSION, VERSION2)]
  }

  /** `nonce` is fresh and `publicKey` the public half of a fresh key pair. */
  function Create(d: M1Device, nonce: Bytes, publicKey: Bytes): Result<Bytes> {
    var facts :- Facts(d);
    var attributes := Built(facts, nonce, publicKey);
    if !AllEncodable(attributes) then Err(InvalidInput)
    else
      var _ :- Message(Join(attributes), 4);
      Ok(Join(attributes))
  }

  // -- Which devices are acceptable --------------------------------------------------------

  predicate Word16(n: int) {
    0 <= n < 0x1_0000
  }

  predicate Name(s: Bytes, limit: nat) {
    |s| <= limit && 0 !in s
  }

  predicate Acceptable(d: M1Device) {
    && |d.uuid| == 16 && |d.alMac| == 6 && |d.primaryDeviceType| == 8
    && Word16(d.authenticationTypes) && Word16(d.encryptionTypes) && Word16(d.configurationMethods)
    && Word16(d.associationState) && Word16(d.devicePasswordId) && Word16(d.configurationError)
    && 0 <= d.connectionTypes < 0x100 && 0 <= d.osVersion < 0x1_0000_0000
    && d.rfBand in {1, 2, 4, 8} && d.wpsState in {1, 2}
    && Name(d.manufacturer, 64) && Name(d.modelName, 32) && Name(d.modelNumber, 32) && Name(d.serialNumber, 32)
    && Name(d.deviceName, 32)
  }

  // -- The shape of an M1 ----------------------------------------------------------------------

  datatype Shape = Shape(kind: int, low: nat, high: nat)

  /** The built attributes in order, with the lengths the validator admits. */
  function M1Shape(i: nat): Shape
    requires i < 22
  {
    match i
    case 0 => Shape(VERSION, 1, 1)
    case 1 => Shape(MESSAGE_TYPE, 1, 1)
    case 2 => Shape(0x1047, 16, 16)
    case 3 => Shape(0x1020, 6, 6)
    case 4 => Shape(ENROLLEE_NONCE, 16, 16)
    case 5 => Shape(PUBLIC_KEY, 192, 192)
    case 6 => Shape(0x1004, 2, 2)
    case 7 => Shape(0x1010, 2, 2)
    case 8 => Shape(0x100D, 1, 1)
    case 9 => Shape(0x1008, 2, 2)
    case 10 => Shape(0x1044, 1, 1)
    case 11 => Shape(0x1021, 0, 64)
    case 12 => Shape(0x1023, 0, 32)
    case 13 => Shape(0x1024, 0, 32)
    case 14 => Shape(0x1042, 0, 32)
    case 15 => Shape(0x1054, 8, 8)
    case 16 => Shape(0x1011, 0, 32)
    case 17 => Shape(0x103C, 1, 1)
    case 18 => Shape(0x1002, 2, 2)
    case 19 => Shape(0x1012, 2, 2)
    case 20 => Shape(0x1009, 2, 2)
    case _ => Shape(0x102D, 4, 4)
  }

  lemma RequiredAt(k: int)
    ensures k in [0x1047, 0x1020, 0x1044] ==>
              k in Required(4) && Required(4)[k] == (if k == 0x1047 then (16, 16) else if k == 0x1020 then (6, 6) else (1, 1))
    ensures k in DEVICE_STRINGS && k !in [0x1047, 0x1020, 0x1044] ==>
              k in Required(4) && Required(4)[k] == (0, DEVICE_STRINGS[k])
    ensures k in COMMON_LENGTHS && k !in DEVICE_STRINGS && k !in [0x1047, 0x1020, 0x1044] ==>
              k in Required(4) && Required(4)[k] == COMMON_LENGTHS[k]
  {
    hide COMMON_LENGTHS, DEVICE_STRINGS;
  }

  lemma CommonTable()
    ensures COMMON_LENGTHS.Keys == {
              VERSION, MESSAGE_TYPE, ENROLLEE_NONCE, PUBLIC_KEY, 0x1004, 0x1010, 0x100D, 0x1008, 0x1054, 0x103C,
              0x1002, 0x1012, 0x1009, 0x102D}
  {
  }

  lemma CommonEntries(k: int)
    requires k in COMMON_LENGTHS
    ensures COMMON_LENGTHS[k] == (CommonLength(k), CommonLength(k))
  {
  }

  lemma StringTable()
    ensures DEVICE_STRINGS.Keys == {0x1021, 0x1023, 0x1024, 0x1042, 0x1011}
    ensures forall k :: k in DEVICE_STRINGS ==> DEVICE_STRINGS[k] == if k == 0x1021 then 64 else 32
  {
  }

  lemma Tables()
    ensures COMMON_LENGTHS.Keys == {
              VERSION, MESSAGE_TYPE, ENROLLEE_NONCE, PUBLIC_KEY, 0x1004, 0x1010, 0x100D, 0x1008, 0x1054, 0x103C,
              0x1002, 0x1012, 0x1009, 0x102D}
    ensures DEVICE_STRINGS.Keys == {0x1021, 0x1023, 0x1024, 0x1042, 0x1011}
    ensures forall k :: k in DEVICE_STRINGS ==> DEVICE_STRINGS[k] == if k == 0x1021 then 64 else 32
    ensures forall k :: k in COMMON_LENGTHS ==> COMMON_LENGTHS[k] == (CommonLength(k), CommonLength(k))
  {
    hide COMMON_LENGTHS, DEVICE_STRINGS, CommonLength;
    CommonTable();
    StringTable();
    forall k | k in COMMON_LENGTHS
      ensures COMMON_LENGTHS[k] == (CommonLength(k), CommonLength(k))
    {
      CommonEntries(k);
    }
  }

  function CommonLength(k: int): nat {
    if k == ENROLLEE_NONCE then 16 else if k == PUBLIC_KEY then 192 else if k == 0x1054 then 8
    else if k == 0x102D then 4 else if k in [VERSION, MESSAGE_TYPE, 0x100D, 0x103C] then 1 else 2
  }

  /** Which kinds each message must carry, and their lengths. */
  lemma RequiredTable(messageType: byte, k: int)
    requires messageType == 4 || messageType == 5
    ensures k in Required(messageType) <==>
            || k in {0x104A, 0x1022, 0x101A, 0x1032, 0x1004, 0x1010, 0x100D, 0x1008, 0x1054, 0x103C, 0x1002, 0x1012, 0x1009,
                     0x102D, 0x1021, 0x1023, 0x1024, 0x1042, 0x1011}
            || (messageType == 4 && k in {0x1047, 0x1020, 0x1044})
            || (messageType == 5 && k in {0x1039, 0x1048, 0x1005})
    ensures k in Required(messageType) ==>
              Required(messageType)[k] ==
                if k == 0x1021 then (0, 64)
                else if k == 0x1023 || k == 0x1024 || k == 0x1042 || k == 0x1011 then (0, 32)
                else if k == 0x101A || k == 0x1047 || k == 0x1039 || k == 0x1048 then (16, 16)
                else if k == 0x1032 then (192, 192)
                else if k == 0x1054 || k == 0x1005 then (8, 8)
                else if k == 0x1020 then (6, 6)
                else if k == 0x102D then (4, 4)
                else if k == 0x104A || k == 0x1022 || k == 0x100D || k == 0x103C || k == 0x1044 then (1, 1)
                else (2, 2)
    ensures OPTIONAL.Keys == {0x1BBC, 0x1018} && OPTIONAL[0x1BBC] == (1, 1) && OPTIONAL[0x1018] == (32, 65535)
  {
    hide COMMON_LENGTHS, DEVICE_STRINGS, CommonLength, Required;
    Tables();
    RequiredUnion(messageType, k);
    if k in COMMON_LENGTHS {
      CommonSpelled(k);
    }
  }

  lemma CommonSpelled(k: int)
    requires k in COMMON_LENGTHS
    ensures CommonLength(k) == if k == 0x101A then 16 else if k == 0x1032 then 192 else if k == 0x1054 then 8
                               else if k == 0x102D then 4
                               else if k == 0x104A || k == 0x1022 || k == 0x100D || k == 0x103C then 1 else 2
  {
  }

  lemma RequiredUnion(messageType: byte, k: int)
    ensures var extra := if messageType == 4 then {0x1047, 0x1020, 0x1044} else {0x1039, 0x1048, 0x1005};
            k in Required(messageType) <==> k in COMMON_LENGTHS || k in DEVICE_STRINGS || k in extra
    ensures k in Required(messageType) ==>
              Required(messageType)[k] ==
                if messageType == 4 && k == 0x1047 then (16, 16)
                else if messageType == 4 && k == 0x1020 then (6, 6)
                else if messageType == 4 && k == 0x1044 then (1, 1)
                else if messageType != 4 && (k == 0x1039 || k == 0x1048) then (16, 16)
                else if messageType != 4 && k == 0x1005 then (8, 8)
                else if k in DEVICE_STRINGS then (0, DEVICE_STRINGS[k])
                else COMMON_LENGTHS[k]
  {
    hide COMMON_LENGTHS, DEVICE_STRINGS;
  }

  /** The required lengths of an M1 are those of its shape, kind by kind. */
  lemma ShapeIsRequired(i: nat)
    requires i < 22
    ensures M1Shape(i).kind in Required(4) && Required(4)[M1Shape(i).kind] == (M1Shape(i).low, M1Shape(i).high)
  {
    hide Required, COMMON_LENGTHS, DEVICE_STRINGS;
    Tables();
    RequiredAt(M1Shape(i).kind);
  }

  function Rank(kind: int): nat {
    if kind == VERSION then 0 else if kind == MESSAGE_TYPE then 1 else if kind == 0x1047 then 2
    else if kind == 0x1020 then 3 else if kind == ENROLLEE_NONCE then 4 else if kind == PUBLIC_KEY then 5
    else if kind == 0x1004 then 6 else if kind == 0x1010 then 7 else if kind == 0x100D then 8
    else if kind == 0x1008 then 9 else if kind == 0x1044 then 10 else if kind == 0x1021 then 11
    else if kind == 0x1023 then 12 else if kind == 0x1024 then 13 else if kind == 0x1042 then 14
    else if kind == 0x1054 then 15 else if kind == 0x1011 then 16 else if kind == 0x103C then 17
    else if kind == 0x1002 then 18 else if kind == 0x1012 then 19 else if kind == 0x1009 then 20
    else if kind == 0x102D then 21 else 22
  }

  lemma RankOfShape(i: nat)
    requires i < 22
    ensures Rank(M1Shape(i).kind) == i
  {
  }

  lemma ShapeAtRank(k: int)
    ensures Rank(k) < 22 ==> M1Shape(Rank(k)).kind == k
  {
  }

  lemma RequiredKinds(k: int)
    requires k in Required(4)
    ensures k in COMMON_LENGTHS || k in DEVICE_STRINGS || k == 0x1047 || k == 0x1020 || k == 0x1044
  {
    hide COMMON_LENGTHS, DEVICE_STRINGS;
  }

  lemma ShapeOfRequired(k: int)
    requires k in Required(4)
    ensures Rank(k) < 22 && M1Shape(Rank(k)).kind == k
  {
    hide COMMON_LENGTHS, DEVICE_STRINGS, M1Shape, Required;
    RequiredKinds(k);
    Tables();
    ShapeAtRank(k);
  }

  // -- The built list fits its shape --------------------------------------------------------------

  /** Where the j-th fact stands in the message. */
  function Place(j: nat): nat {
    if j < 2 then j + 2 else j + 4
  }

  lemma EighteenCases(j: nat)
    requires j < 18
    ensures j == 0 || j == 1 || j == 2 || j == 3 || j == 4 || j == 5 || j == 6 || j == 7 || j == 8 || j == 9 || j == 10
         || j == 11 || j == 12 || j == 13 || j == 14 || j == 15 || j == 16 || j == 17
  {
  }

  lemma FactsKinds(d: M1Device, j: nat)
    requires Facts(d).Ok? && j < 18
    ensures |Facts(d).value| == 18 && Facts(d).value[j].kind == M1Shape(Place(j)).kind
  {
    EighteenCases(j);
  }

  lemma FactsLengths(d: M1Device, j: nat)
    requires Facts(d).Ok? && j < 18
    ensures |Facts(d).value| == 18
    ensures Acceptable(d) ==>
              M1Shape(Place(j)).low <= |Facts(d).value[j].value| <= M1Shape(Place(j)).high
  {
    hide Acceptable;
    FactsValues(d);
    if Acceptable(d) {
      FreeLengths(d);
    }
    EighteenCases(j);
  }

  /** The facts that are bytes as given, and those that are numbers of a fixed width. */
  lemma FactsValues(d: M1Device)
    requires Facts(d).Ok?
    ensures var f := Facts(d).value;
            && |f| == 18
            && f[0].value == d.uuid && f[1].value == d.alMac && f[7].value == d.manufacturer
            && f[8].value == d.modelName && f[9].value == d.modelNumber && f[10].value == d.serialNumber
            && f[11].value == d.primaryDeviceType && f[12].value == d.deviceName
            && |f[2].value| == 2 && |f[3].value| == 2 && |f[4].value| == 1 && |f[5].value| == 2 && |f[6].value| == 1
            && |f[13].value| == 1 && |f[14].value| == 2 && |f[15].value| == 2 && |f[16].value| == 2 && |f[17].value| == 4
  {
  }

  lemma FreeLengths(d: M1Device)
    requires Acceptable(d)
    ensures |d.uuid| == 16 && |d.alMac| == 6 && |d.primaryDeviceType| == 8
    ensures |d.manufacturer| <= 64 && |d.modelName| <= 32 && |d.modelNumber| <= 32 && |d.serialNumber| <= 32
    ensures |d.deviceName| <= 32
  {
  }

  /** A device with valid facts is acceptable when the facts of free length fit. */
  lemma FactsForce(d: M1Device)
    requires Facts(d).Ok?
    ensures |Facts(d).value| == 18
    ensures Acceptable(d) <==>
              forall j :: j in {0, 1, 7, 8, 9, 10, 11, 12} ==>
                M1Shape(Place(j)).low <= |Facts(d).value[j].value| <= M1Shape(Place(j)).high
  {
    var facts := Facts(d).value;
    assert facts[0].value == d.uuid && facts[1].value == d.alMac && facts[11].value == d.primaryDeviceType;
    assert facts[7].value == d.manufacturer && facts[8].value == d.modelName && facts[9].value == d.modelNumber;
    assert facts[10].value == d.serialNumber && facts[12].value == d.deviceName;
    assert {0, 1, 7, 8, 9, 10, 11, 12} == {0, 1, 7} + {8, 9, 10} + {11, 12};
  }

  lemma BuiltAt(facts: seq<Attribute>, nonce: Bytes, publicKey: Bytes)
    requires |facts| == 18
    ensures var a := Built(facts, nonce, publicKey);
            && |a| == 23
            && a[0] == Attribute(VERSION, [0x10]) && a[1] == Attribute(MESSAGE_TYPE, [0x04])
            && a[4] == Attribute(ENROLLEE_NONCE, nonce) && a[5] == Attribute(PUBLIC_KEY, publicKey)
            && a[22] == Attribute(VENDOR_EXTENSION, VERSION2)
            && forall j :: 0 <= j < 18 ==> a[Place(j)] == facts[j]
  {
  }

  /** Where no fact stands. */
  lemma Placed(i: nat)
    requires i < 22
    ensures i in {0, 1, 4, 5} || exists j :: 0 <= j < 18 && Place(j) == i
  {
    if i == 2 || i == 3 {
      assert Place(i - 2) == i;
    } else if i > 5 {
      assert Place(i - 4) == i;
    }
  }

  lemma BuiltKinds(d: M1Device, nonce: Bytes, publicKey: Bytes, i: nat)
    requires Facts(d).Ok? && i < 22
    ensures |Facts(d).value| == 18 && |Built(Facts(d).value, nonce, publicKey)| == 23
    ensures Built(Facts(d).value, nonce, publicKey)[i].kind == M1Shape(i).kind
  {
    hide Facts, Built, Place, M1Shape;
    FactsKinds(d, 0);
    BuiltAt(Facts(d).value, nonce, publicKey);
    Placed(i);
    if i !in {0, 1, 4, 5} {
      var j :| 0 <= j < 18 && Place(j) == i;
      FactsKinds(d, j);
    } else {
      OwnShapes();
    }
  }

  lemma OwnShapes()
    ensures M1Shape(0) == Shape(VERSION, 1, 1) && M1Shape(1) == Shape(MESSAGE_TYPE, 1, 1)
    ensures M1Shape(4) == Shape(ENROLLEE_NONCE, 16, 16) && M1Shape(5) == Shape(PUBLIC_KEY, 192, 192)
  {
  }

  lemma BuiltFits(d: M1Device, nonce: Bytes, publicKey: Bytes, i: nat)
    requires Facts(d).Ok? && i < 22 && Acceptable(d) && |nonce| == 16 && |publicKey| == 192
    ensures |Facts(d).value| == 18 && |Built(Facts(d).value, nonce, publicKey)| == 23
    ensures M1Shape(i).low <= |Built(Facts(d).value, nonce, publicKey)[i].value| <= M1Shape(i).high
  {
    hide Facts, Built, Place, M1Shape, Acceptable;
    FactsKinds(d, 0);
    BuiltAt(Facts(d).value, nonce, publicKey);
    Placed(i);
    if i !in {0, 1, 4, 5} {
      var j :| 0 <= j < 18 && Place(j) == i;
      FactsLengths(d, j);
    } else {
      OwnShapes();
    }
  }

  lemma VendorKind(i: nat)
    requires i < 22
    ensures M1Shape(i).kind != VENDOR_EXTENSION && M1Shape(i).kind !in OPTIONAL
    ensures VENDOR_EXTENSION !in Required(4) && VENDOR_EXTENSION !in OPTIONAL
  {
    hide Required;
    if VENDOR_EXTENSION in Required(4) {
      ShapeOfRequired(VENDOR_EXTENSION);
    }
  }

  /** The built list has every required field once, with an admitted length, exactly when the
      device is acceptable. */
  lemma BuiltTidy(d: M1Device, nonce: Bytes, publicKey: Bytes)
    requires Facts(d).Ok? && |nonce| == 16 && |publicKey| == 192
    ensures |Facts(d).value| == 18
    ensures Singletons(Built(Facts(d).value, nonce, publicKey), Required(4), OPTIONAL).Ok? <==> Acceptable(d)
  {
    hide Facts, Built, Place, M1Shape, Acceptable, Required, OPTIONAL, FieldsOf, Rank;
    FactsKinds(d, 0);
    var facts := Facts(d).value;
    var a := Built(facts, nonce, publicKey);
    var lengths := Required(4) + OPTIONAL;
    BuiltAt(facts, nonce, publicKey);
    FieldsAre(a, lengths);
    forall i | 0 <= i < 22
      ensures a[i].kind == M1Shape(i).kind && Rank(a[i].kind) == i
      ensures Fits(a[i], lengths) <==> M1Shape(i).low <= |a[i].value| <= M1Shape(i).high
    {
      BuiltKinds(d, nonce, publicKey, i);
      RankOfShape(i);
      ShapeIsRequired(i);
      VendorKind(i);
    }
    forall k | k in Required(4)
      ensures k in FieldsOf(a, lengths)
    {
      ShapeOfRequired(k);
      assert a[Rank(k)].kind == k && Has(a, k) && k in lengths;
    }
    VendorKind(0);
    assert Fits(a[22], lengths);
    BuiltTidyWhen(d, nonce, publicKey);
    forall i, j | 0 <= i < j < 23
      ensures a[i].kind != a[j].kind
    {
      if j == 22 {
        VendorKind(i);
      }
    }
    assert Required(4).Keys <= FieldsOf(a, lengths).Keys;
    if Acceptable(d) {
      assert Tidy(a, lengths);
    } else {
      var i :| 0 <= i < 22 && !(M1Shape(i).low <= |a[i].value| <= M1Shape(i).high);
      assert !Fits(a[i], lengths);
    }
  }

  lemma BuiltTidyWhen(d: M1Device, nonce: Bytes, publicKey: Bytes)
    requires Facts(d).Ok? && |nonce| == 16 && |publicKey| == 192
    ensures |Facts(d).value| == 18 && |Built(Facts(d).value, nonce, publicKey)| == 23
    ensures Acceptable(d) <==>
            forall i :: 0 <= i < 22 ==>
              M1Shape(i).low <= |Built(Facts(d).value, nonce, publicKey)[i].value| <= M1Shape(i).high
  {
    hide Facts, Built, M1Shape, Acceptable;
    FactsForce(d);
    var a := Built(Facts(d).value, nonce, publicKey);
    BuiltAt(Facts(d).value, nonce, publicKey);
    if Acceptable(d) {
      forall i | 0 <= i < 22
        ensures M1Shape(i).low <= |a[i].value| <= M1Shape(i).high
      {
        BuiltFits(d, nonce, publicKey, i);
      }
    } else {
      var j :| j in {0, 1, 7, 8, 9, 10, 11, 12}
               && !(M1Shape(Place(j)).low <= |Facts(d).value[j].value| <= M1Shape(Place(j)).high);
      assert a[Place(j)] == Facts(d).value[j] && 0 <= Place(j) < 22;
    }
  }

  // -- The builder agrees with the validator -----------------------------------------------------

  lemma AcceptableHasFacts(d: M1Device)
    requires Acceptable(d)
    ensures Facts(d).Ok?
  {
  }

  lemma OneMore(n: nat, step: nat)
    ensures (n + 1) * step == n * step + step
  {
  }

  lemma {:induction false} JoinLength(attributes: seq<Attribute>, step: nat)
    requires AllEncodable(attributes) && forall i :: 0 <= i < |attributes| ==> |attributes[i].value| + 4 <= step
    ensures |Join(attributes)| <= |attributes| * step
  {
    if attributes != [] {
      var rest := attributes[1..];
      JoinLength(rest, step);
      OneMore(|rest|, step);
      assert |Join(attributes)| == |Encoding(attributes[0])| + |Join(rest)|;
      assert |attributes| == |rest| + 1;
    }
  }

  lemma {:induction false} OthersContributeNothing(front: seq<Attribute>, rest: seq<Attribute>)
    requires forall i :: 0 <= i < |front| ==> front[i].kind != VENDOR_EXTENSION
    ensures Contributions(front + rest) == Contributions(rest)
  {
    if front == [] {
      assert front + rest == rest;
    } else {
      assert (front + rest)[0] == front[0] && (front + rest)[1..] == front[1..] + rest;
      OthersContributeNothing(front[1..], rest);
      PrefixedNothing(Contributions(rest));
    }
  }

  lemma Version2Contribution()
    ensures Contributions([Attribute(VENDOR_EXTENSION, VERSION2)]) == Some([Attribute(0, [0x20])])
  {
    var a := Attribute(VENDOR_EXTENSION, VERSION2);
    var data := VERSION2[3..];
    assert VERSION2 == [0x00, 0x37, 0x2A, 0x00, 0x01, 0x20] && VERSION2[..3] == WFA_ID;
    assert |data| == 3 && data[0] == 0 && data[1] == 1 && data[2] == 0x20;
    assert data[3..] == [] && data[2..3] == [0x20];
    assert Subelements(data[2 + data[1]..]) == Some([]);
    var one: seq<Attribute> := [Attribute(0, [0x20])];
    assert one + [] == one;
    assert Subelements(data) == Some([Attribute(data[0], data[2..2 + data[1]])] + []);
    assert Contribution(a) == Subelements(data) == Some([Attribute(0, [0x20])]);
    assert [a][1..] == [] && Contributions([]) == Some([]);
    PrefixedSize([Attribute(0, [0x20])], Some([]));
  }

  lemma ShapeBounds(i: nat)
    requires i < 22
    ensures 0 <= M1Shape(i).kind <= 0xFFFF && M1Shape(i).high <= 192
  {
  }

  lemma BuiltEncodes(d: M1Device, nonce: Bytes, publicKey: Bytes)
    requires Acceptable(d) && |nonce| == 16 && |publicKey| == 192
    ensures Facts(d).Ok? && |Facts(d).value| == 18
    ensures var a := Built(Facts(d).value, nonce, publicKey);
            AllEncodable(a) && Decoded(Join(a)) == Ok(a)
  {
    hide Facts, Built, M1Shape, Acceptable, Join, Decoded;
    AcceptableHasFacts(d);
    FactsKinds(d, 0);
    var a := Built(Facts(d).value, nonce, publicKey);
    BuiltAt(Facts(d).value, nonce, publicKey);
    forall i | 0 <= i < |a|
      ensures Encodable(a[i]) && |a[i].value| <= 192
    {
      if i < 22 {
        BuiltFits(d, nonce, publicKey, i);
        BuiltKinds(d, nonce, publicKey, i);
        ShapeBounds(i);
      }
    }
    JoinLength(a, 196);
    DecodeInvertsEncode(Join(a), a);
  }

  lemma BuiltVersion(d: M1Device, nonce: Bytes, publicKey: Bytes)
    requires Facts(d).Ok?
    ensures |Facts(d).value| == 18
    ensures VendorSubelements(Built(Facts(d).value, nonce, publicKey)) == Ok([Attribute(0, [0x20])])
  {
    hide Facts, Built, M1Shape, Contributions, VERSION2;
    FactsKinds(d, 0);
    var a := Built(Facts(d).value, nonce, publicKey);
    BuiltAt(Facts(d).value, nonce, publicKey);
    forall i | 0 <= i < 22
      ensures a[i].kind != VENDOR_EXTENSION
    {
      BuiltKinds(d, nonce, publicKey, i);
      VendorKind(i);
    }
    assert a == a[..22] + [a[22]];
    OthersContributeNothing(a[..22], [a[22]]);
    Version2Contribution();
  }

  /** What the validator reads in a built message: the built list in order, its own nonce and key,
      exactly one version sub-element, and no BSS index. */
  lemma BuiltReads(d: M1Device, nonce: Bytes, publicKey: Bytes)
    requires Acceptable(d) && |nonce| == 16 && |publicKey| == 192
    ensures Facts(d).Ok? && |Facts(d).value| == 18
    ensures var a := Built(Facts(d).value, nonce, publicKey);
            && AllEncodable(a)
            && Message(Join(a), 4).Ok?
            && Message(Join(a), 4).value.attributes == a
            && VendorSubelements(a) == Ok([Attribute(0, [0x20])])
            && var fields := Message(Join(a), 4).value.fields;
               && fields.Keys == Required(4).Keys
               && fields[ENROLLEE_NONCE] == nonce && fields[PUBLIC_KEY] == publicKey
               && fields[0x1020] == d.alMac
  {
    hide Facts, Built, M1Shape, Acceptable, Join, Decoded, Required, OPTIONAL, FieldsOf, VendorSubelements, Tidy, Place;
    AcceptableHasFacts(d);
    FactsKinds(d, 0);
    var a := Built(Facts(d).value, nonce, publicKey);
    BuiltAt(Facts(d).value, nonce, publicKey);
    BuiltEncodes(d, nonce, publicKey);
    BuiltTidy(d, nonce, publicKey);
    BuiltVersion(d, nonce, publicKey);
    BuiltFields(d, nonce, publicKey);
    OneVersion();
  }

  lemma OneVersion()
    ensures OfKind([Attribute(0, [0x20])], 0) == [[0x20]]
  {
    assert [Attribute(0, [0x20])][1..] == [];
    assert OfKind([], 0) == [];
    assert [[0x20]] + [] == [[0x20]];
  }

  lemma BuiltFields(d: M1Device, nonce: Bytes, publicKey: Bytes)
    requires Acceptable(d) && |nonce| == 16 && |publicKey| == 192
    ensures Facts(d).Ok? && |Facts(d).value| == 18
    ensures var fields := FieldsOf(Built(Facts(d).value, nonce, publicKey), Required(4) + OPTIONAL);
            && fields.Keys == Required(4).Keys && BSS_INDEX !in fields
            && MESSAGE_TYPE in fields && fields[MESSAGE_TYPE] == [0x04]
            && ENROLLEE_NONCE in fields && fields[ENROLLEE_NONCE] == nonce
            && PUBLIC_KEY in fields && fields[PUBLIC_KEY] == publicKey
            && 0x1020 in fields && fields[0x1020] == d.alMac
  {
    hide Facts, Built, M1Shape, Acceptable, Required, OPTIONAL, FieldsOf, Tidy, Rank;
    AcceptableHasFacts(d);
    FactsKinds(d, 0);
    var facts := Facts(d).value;
    var a := Built(facts, nonce, publicKey);
    var lengths := Required(4) + OPTIONAL;
    BuiltAt(facts, nonce, publicKey);
    BuiltTidy(d, nonce, publicKey);
    FieldsAre(a, lengths);
    MacFact(d);
    ShapeIsRequired(0);
    ShapeIsRequired(1);
    ShapeIsRequired(3);
    ShapeIsRequired(4);
    ShapeIsRequired(5);
    OwnShapes();
    BuiltKinds(d, nonce, publicKey, 3);
    assert a[3] == a[Place(1)] == facts[1];
    forall k
      ensures k in FieldsOf(a, lengths) <==> k in Required(4)
    {
      if k in Required(4) {
        ShapeOfRequired(k);
        BuiltKinds(d, nonce, publicKey, Rank(k));
        assert Has(a, k);
      } else if Has(a, k) && k in lengths {
        var i :| 0 <= i < |a| && a[i].kind == k;
        if i < 22 {
          BuiltKinds(d, nonce, publicKey, i);
          ShapeIsRequired(i);
        } else {
          VendorKind(0);
        }
      }
    }
    BssIndexNotRequired();
  }

  lemma MacFact(d: M1Device)
    requires Facts(d).Ok?
    ensures |Facts(d).value| == 18 && Facts(d).value[1] == Attribute(0x1020, d.alMac)
  {
  }

  lemma BssIndexNotRequired()
    ensures BSS_INDEX !in Required(4)
  {
    hide Required;
    if BSS_INDEX in Required(4) {
      ShapeOfRequired(BSS_INDEX);
    }
  }

  lemma Uint2Reads(n: int)
    requires 0 <= n < 0x1_0000
    ensures Uint2(n).Ok? && |Uint2(n).value| == 2 && Number(Uint2(n).value[0], Uint2(n).value[1]) == n
  {
  }

  /** Four bytes read as a number, leaving out the most significant bit. */
  function WithoutTopBit(v: Bytes): int
    requires |v| == 4
  {
    (v[0] as int) % 0x80 * 0x100_0000 + (v[1] as int) * 0x1_0000 + (v[2] as int) * 0x100 + (v[3] as int)
  }

  lemma Digits(n: nat)
    ensures n == n / 0x100_0000 * 0x100_0000 + n / 0x1_0000 % 0x100 * 0x1_0000 + n / 0x100 % 0x100 * 0x100 + n % 0x100
  {
    assert n == n / 0x100 * 0x100 + n % 0x100;
    assert n / 0x100 == n / 0x1_0000 * 0x100 + n / 0x100 % 0x100;
    assert n / 0x1_0000 == n / 0x100_0000 * 0x100 + n / 0x1_0000 % 0x100;
  }

  lemma TopBitDropped(top: nat, rest: nat)
    requires rest < 0x100_0000
    ensures top % 0x80 * 0x100_0000 + rest == (top * 0x100_0000 + rest) % 0x8000_0000
  {
    var low := top % 0x80 * 0x100_0000 + rest;
    assert top == top / 0x80 * 0x80 + top % 0x80;
    assert top * 0x100_0000 + rest == top / 0x80 * 0x8000_0000 + low;
    assert 0 <= low < 0x8000_0000;
  }

  lemma OsVersionReads(n: int)
    requires 0 <= n < 0x1_0000_0000
    ensures Uint4(n).Ok? && |Uint4(n).value| == 4
    ensures var v := Flagged(Uint4(n).value);
            v[0] >= 0x80 && WithoutTopBit(v) == n % 0x8000_0000
  {
    var rest := n / 0x1_0000 % 0x100 * 0x1_0000 + n / 0x100 % 0x100 * 0x100 + n % 0x100;
    Digits(n);
    TopBitDropped(n / 0x100_0000, rest);
    var v := Flagged(Uint4(n).value);
    assert v[0] as int % 0x80 == n / 0x100_0000 % 0x80;
    assert v[1] == Uint4(n).value[1] && v[2] == Uint4(n).value[2] && v[3] == Uint4(n).value[3];
  }

  /** Read back as big-endian numbers the facts are the device's own, and the OS version its own
      with the most significant bit set. */
  lemma NumbersReadBack(d: M1Device)
    requires Facts(d).Ok?
    ensures var f := Facts(d).value;
            && |f| == 18 && |f[2].value| == |f[3].value| == |f[5].value| == 2
            && |f[14].value| == |f[15].value| == |f[16].value| == 2 && |f[17].value| == 4
            && Number(f[2].value[0], f[2].value[1]) == d.authenticationTypes
            && Number(f[3].value[0], f[3].value[1]) == d.encryptionTypes
            && f[4].value == [d.connectionTypes] && f[6].value == [d.wpsState] && f[13].value == [d.rfBand]
            && Number(f[5].value[0], f[5].value[1]) == d.configurationMethods
            && Number(f[14].value[0], f[14].value[1]) == d.associationState
            && Number(f[15].value[0], f[15].value[1]) == d.devicePasswordId
            && Number(f[16].value[0], f[16].value[1]) == d.configurationError
            && f[17].value[0] >= 0x80 && WithoutTopBit(f[17].value) == d.osVersion % 0x8000_0000
  {
    hide Number, Flagged, Uint2, Uint4, WithoutTopBit;
    NumbersInRange(d);
    OsVersionReads(d.osVersion);
    Uint2Reads(d.authenticationTypes);
    Uint2Reads(d.encryptionTypes);
    Uint2Reads(d.configurationMethods);
    Uint2Reads(d.associationState);
    Uint2Reads(d.devicePasswordId);
    Uint2Reads(d.configurationError);
  }

  lemma NumbersInRange(d: M1Device)
    requires Facts(d).Ok?
    ensures 0 <= d.osVersion < 0x1_0000_0000
    ensures Word16(d.authenticationTypes) && Word16(d.encryptionTypes) && Word16(d.configurationMethods)
    ensures Word16(d.associationState) && Word16(d.devicePasswordId) && Word16(d.configurationError)
  {
    hide Flagged;
  }

  /** M1 is built for exactly the acceptable devices. */
  lemma CreateAcceptsExactly(d: M1Device, nonce: Bytes, publicKey: Bytes)
    requires |nonce| == 16 && |publicKey| == 192
    ensures Create(d, nonce, publicKey).Ok? <==> Acceptable(d)
    ensures Create(d, nonce, publicKey).Ok? ==>
              && |Facts(d).value| == 18
              && Decoded(Create(d, nonce, publicKey).value) == Ok(Built(Facts(d).value, nonce, publicKey))
  {
    hide Facts, Built, M1Shape, Acceptable, Join, Decoded, Required, OPTIONAL, FieldsOf, VendorSubelements, Singletons;
    if Acceptable(d) {
      BuiltReads(d, nonce, publicKey);
      BuiltEncodes(d, nonce, publicKey);
    }
    if Create(d, nonce, publicKey).Ok? {
      FactsKinds(d, 0);
      var a := Built(Facts(d).value, nonce, publicKey);
      BuiltDecodes(a);
      BuiltTidy(d, nonce, publicKey);
    }
  }

  lemma BuiltDecodes(a: seq<Attribute>)
    requires AllEncodable(a) && Decoded(Join(a)).Ok?
    ensures Decoded(Join(a)) == Ok(a)
  {
    ParseJoin(a);
  }
}
