/** Authenticating the M2 messages of one exchange (wsc_messages.py). Key agreement is a parameter. */
module M2Sets {
  import opened Basics
  import opened Wsc
  import opened WscMessages

  // -- Fields of an accepted message ------------------------------------------------------

  lemma SingletonsHold(attributes: seq<Attribute>, required: Lengths, optional: Lengths)
    requires Singletons(attributes, required, optional).Ok?
    ensures var fields := Singletons(attributes, required, optional).value;
            && required.Keys <= fields.Keys
            && forall k :: k in fields ==>
                 && k in required + optional
                 && (required + optional)[k].0 <= |fields[k]| <= (required + optional)[k].1
  {
    var lengths := required + optional;
    var fields := FieldsOf(attributes, lengths);
    FieldsAre(attributes, lengths);
    forall k | k in fields
      ensures k in lengths && lengths[k].0 <= |fields[k]| <= lengths[k].1
    {
      var i :| 0 <= i < |attributes| && attributes[i].kind == k;
      assert Fits(attributes[i], lengths);
    }
  }

  lemma RequiredByBoth(messageType: byte)
    ensures ENROLLEE_NONCE in Required(messageType) && PUBLIC_KEY in Required(messageType)
    ensures messageType == 4 ==> 0x1020 in Required(messageType) && 0x1004 in Required(messageType)
    ensures messageType == 4 ==> Required(messageType)[0x1004] == (2, 2) && Required(messageType)[0x1010] == (2, 2)
    ensures messageType != 4 ==> REGISTRAR_NONCE in Required(messageType) && 0x1048 in Required(messageType)
    ensures BSS_INDEX !in Required(messageType)
  {
    hide COMMON_LENGTHS, DEVICE_STRINGS;
    CommonKinds();
  }

  lemma CommonKinds()
    ensures ENROLLEE_NONCE in COMMON_LENGTHS && PUBLIC_KEY in COMMON_LENGTHS
    ensures 0x1004 in COMMON_LENGTHS && COMMON_LENGTHS[0x1004] == (2, 2)
    ensures 0x1010 in COMMON_LENGTHS && COMMON_LENGTHS[0x1010] == (2, 2)
    ensures BSS_INDEX !in COMMON_LENGTHS && BSS_INDEX !in DEVICE_STRINGS
    ensures 0x1004 !in DEVICE_STRINGS && 0x1010 !in DEVICE_STRINGS
  {
  }

  lemma MessageHolds(data: Bytes, messageType: byte)
    requires Message(data, messageType).Ok?
    ensures var fields := Message(data, messageType).value.fields;
            && Required(messageType).Keys <= fields.Keys
            && (BSS_INDEX in fields ==> |fields[BSS_INDEX]| == 1)
  {
    hide Required, OPTIONAL, Singletons, Decoded, VendorSubelements;
    var attributes := Decoded(data).value;
    SingletonsHold(attributes, Required(messageType), OPTIONAL);
    RequiredByBoth(messageType);
    BssIndexLength();
  }

  lemma BssIndexLength()
    ensures BSS_INDEX in OPTIONAL && OPTIONAL[BSS_INDEX] == (1, 1)
  {
  }

  // -- One message ---------------------------------------------------------------------------

  /** One M1 with its key pair: the public half, and what it derives from a peer's public value, the
      enrollee's nonce and address, and the registrar's nonce. */
  datatype Transcript = Transcript(
    message: Bytes, publicKey: Bytes, derive: (Bytes, Bytes, Bytes, Bytes) -> Result<Keys>)

  datatype Envelope = Envelope(
    registrarNonce: Bytes, registrarUuid: Bytes, bssIndex: Option<byte>, configData: seq<Attribute>,
    attributes: seq<Attribute>)

  function AuthenticateEnvelope(t: Transcript, message: Bytes): Result<Envelope> {
    var own :- Message(t.message, 4);
    var other :- Message(message, 5);
    MessageHolds(t.message, 4);
    MessageHolds(message, 5);
    RequiredByBoth(4);
    RequiredByBoth(5);
    var enrollee, registrar := own.fields, other.fields;
    if t.publicKey != enrollee[PUBLIC_KEY] || enrollee[ENROLLEE_NONCE] != registrar[ENROLLEE_NONCE] then
      Err(InvalidInput)
    else
      var keys :- t.derive(
        registrar[PUBLIC_KEY], enrollee[ENROLLEE_NONCE], enrollee[0x1020], registrar[REGISTRAR_NONCE]);
      var _ :- VerifyMessage(keys, t.message, message);
      if ENCRYPTED_SETTINGS !in registrar then Err(UnsupportedOperation)
      else
        var plain :- DecryptSettings(keys, registrar[ENCRYPTED_SETTINGS]);
        var settings :- Decoded(plain);
        var _ :- VendorSubelements(settings);
        Ok(Envelope(
             registrar[REGISTRAR_NONCE], registrar[0x1048],
             if BSS_INDEX in registrar then Some(registrar[BSS_INDEX][0]) else None, settings, other.attributes))
  }

  // -- The whole set ---------------------------------------------------------------------------

  function AuthenticateEach(t: Transcript, messages: seq<Bytes>): Result<seq<Envelope>> {
    if messages == [] then Ok([])
    else
      var first :- AuthenticateEnvelope(t, messages[0]);
      var rest :- AuthenticateEach(t, messages[1..]);
      Ok([first] + rest)
  }

  function Nonces(envelopes: seq<Envelope>): seq<Bytes> {
    if envelopes == [] then [] else [envelopes[0].registrarNonce] + Nonces(envelopes[1..])
  }

  function Indexes(envelopes: seq<Envelope>): seq<byte> {
    if envelopes == [] then []
    else (if envelopes[0].bssIndex.Some? then [envelopes[0].bssIndex.value] else []) + Indexes(envelopes[1..])
  }

  function Elements<T(==)>(s: seq<T>): set<T> {
    set x | x in s
  }

  function AuthenticateEnvelopes(t: Transcript, messages: seq<Bytes>, maxBss: int): Result<seq<Envelope>> {
    if !(1 <= maxBss <= MAX_M2_PAYLOADS) || !(1 <= |messages| <= maxBss) then Err(InvalidInput)
    else
      var results :- AuthenticateEach(t, messages);
      if |Elements(Nonces(results))| != |Nonces(results)| || |Elements(Indexes(results))| != |Indexes(results)| then
        Err(InvalidInput)
      else Ok(results)
  }

  lemma {:induction false} EachInOrder(t: Transcript, messages: seq<Bytes>, results: seq<Envelope>)
    ensures AuthenticateEach(t, messages) == Ok(results) <==>
            && |results| == |messages|
            && forall i :: 0 <= i < |messages| ==> AuthenticateEnvelope(t, messages[i]) == Ok(results[i])
  {
    hide AuthenticateEnvelope;
    if messages == [] {
    } else if results == [] {
    } else {
      EachInOrder(t, messages[1..], results[1..]);
      assert results == [results[0]] + results[1..];
      if AuthenticateEach(t, messages) == Ok(results) {
        forall i | 0 <= i < |messages|
          ensures AuthenticateEnvelope(t, messages[i]) == Ok(results[i])
        {
          if i > 0 {
            assert messages[1..][i - 1] == messages[i] && results[1..][i - 1] == results[i];
          }
        }
      }
      if |results| == |messages|
         && forall i :: 0 <= i < |messages| ==> AuthenticateEnvelope(t, messages[i]) == Ok(results[i]) {
        forall i | 0 <= i < |messages| - 1
          ensures AuthenticateEnvelope(t, messages[1..][i]) == Ok(results[1..][i])
        {
          assert messages[1..][i] == messages[i + 1] && results[1..][i] == results[i + 1];
        }
      }
    }
  }

  predicate Distinct<T(==)>(s: seq<T>) {
    forall i, j :: 0 <= i < j < |s| ==> s[i] != s[j]
  }

  /** As many different elements as elements: no two are the same. */
  lemma {:induction false} CountingFindsRepeats<T>(s: seq<T>)
    ensures |Elements(s)| <= |s|
    ensures |Elements(s)| == |s| <==> Distinct(s)
  {
    if s != [] {
      CountingFindsRepeats(s[1..]);
      assert Elements(s) == {s[0]} + Elements(s[1..]);
      if s[0] in s[1..] {
        var j :| 0 <= j < |s[1..]| && s[1..][j] == s[0];
        assert s[j + 1] == s[0];
        assert Elements(s) == Elements(s[1..]);
      } else {
        assert |Elements(s)| == 1 + |Elements(s[1..])|;
        if Distinct(s[1..]) {
          forall i, j | 0 <= i < j < |s|
            ensures s[i] != s[j]
          {
            assert s[j] == s[1..][j - 1] && (i > 0 ==> s[i] == s[1..][i - 1]);
          }
        }
        if Distinct(s) {
          forall i, j | 0 <= i < j < |s[1..]|
            ensures s[1..][i] != s[1..][j]
          {
            assert s[1..][i] == s[i + 1] && s[1..][j] == s[j + 1];
          }
        }
      }
    }
  }

  lemma {:induction false} NoncesInOrder(envelopes: seq<Envelope>)
    ensures |Nonces(envelopes)| == |envelopes|
    ensures forall i :: 0 <= i < |envelopes| ==> Nonces(envelopes)[i] == envelopes[i].registrarNonce
  {
    if envelopes != [] {
      NoncesInOrder(envelopes[1..]);
    }
  }

  predicate IndexesDiffer(envelopes: seq<Envelope>) {
    forall i, j :: 0 <= i < j < |envelopes| && envelopes[i].bssIndex.Some? ==>
      envelopes[i].bssIndex != envelopes[j].bssIndex
  }

  lemma {:induction false} IndexesIn(envelopes: seq<Envelope>, b: byte)
    ensures b in Indexes(envelopes) <==> exists i :: 0 <= i < |envelopes| && envelopes[i].bssIndex == Some(b)
  {
    if envelopes != [] {
      IndexesIn(envelopes[1..], b);
      if b in Indexes(envelopes[1..]) {
        var i :| 0 <= i < |envelopes[1..]| && envelopes[1..][i].bssIndex == Some(b);
        assert envelopes[i + 1].bssIndex == Some(b);
      }
      if exists i :: 0 <= i < |envelopes| && envelopes[i].bssIndex == Some(b) {
        var i :| 0 <= i < |envelopes| && envelopes[i].bssIndex == Some(b);
        assert i > 0 ==> envelopes[1..][i - 1].bssIndex == Some(b);
      }
    }
  }

  lemma {:induction false} IndexesDistinct(envelopes: seq<Envelope>)
    ensures Distinct(Indexes(envelopes)) <==> IndexesDiffer(envelopes)
  {
    if envelopes != [] {
      var rest := envelopes[1..];
      IndexesDistinct(rest);
      RestDiffers(envelopes);
      var first := envelopes[0].bssIndex;
      if first.Some? {
        IndexesIn(rest, first.value);
        DistinctCons(first.value, Indexes(rest));
        assert (exists i :: 0 <= i < |rest| && rest[i].bssIndex == first)
          <==> exists j :: 1 <= j < |envelopes| && envelopes[j].bssIndex == first by {
          if exists i :: 0 <= i < |rest| && rest[i].bssIndex == first {
            var i :| 0 <= i < |rest| && rest[i].bssIndex == first;
            assert envelopes[i + 1].bssIndex == first;
          }
          if exists j :: 1 <= j < |envelopes| && envelopes[j].bssIndex == first {
            var j :| 1 <= j < |envelopes| && envelopes[j].bssIndex == first;
            assert rest[j - 1].bssIndex == first;
          }
        }
      } else {
        assert [] + Indexes(rest) == Indexes(rest);
      }
    }
  }

  lemma RestDiffers(envelopes: seq<Envelope>)
    requires envelopes != []
    ensures IndexesDiffer(envelopes) <==>
            && IndexesDiffer(envelopes[1..])
            && (envelopes[0].bssIndex.Some? ==>
                  forall j :: 1 <= j < |envelopes| ==> envelopes[j].bssIndex != envelopes[0].bssIndex)
  {
    var rest := envelopes[1..];
    if IndexesDiffer(envelopes) {
      forall i, j | 0 <= i < j < |rest| && rest[i].bssIndex.Some?
        ensures rest[i].bssIndex != rest[j].bssIndex
      {
        assert rest[i] == envelopes[i + 1] && rest[j] == envelopes[j + 1];
      }
    }
    if IndexesDiffer(rest)
       && (envelopes[0].bssIndex.Some? ==>
             forall j :: 1 <= j < |envelopes| ==> envelopes[j].bssIndex != envelopes[0].bssIndex) {
      forall i, j | 0 <= i < j < |envelopes| && envelopes[i].bssIndex.Some?
        ensures envelopes[i].bssIndex != envelopes[j].bssIndex
      {
        if i > 0 {
          assert rest[i - 1] == envelopes[i] && rest[j - 1] == envelopes[j];
        }
      }
    }
  }

  lemma DistinctCons<T>(x: T, s: seq<T>)
    ensures Distinct([x] + s) <==> x !in s && Distinct(s)
  {
    var all := [x] + s;
    if Distinct(all) {
      forall i, j | 0 <= i < j < |s|
        ensures s[i] != s[j]
      {
        assert all[i + 1] == s[i] && all[j + 1] == s[j];
      }
      forall j | 0 <= j < |s|
        ensures s[j] != x
      {
        assert all[j + 1] == s[j] && all[0] == x;
      }
    }
  }

  /** A set is accepted exactly when it is within the bound, every message authenticates, in order,
      and no registrar nonce or present BSS index occurs twice. */
  lemma SetAcceptedExactly(t: Transcript, messages: seq<Bytes>, maxBss: int, results: seq<Envelope>)
    ensures AuthenticateEnvelopes(t, messages, maxBss) == Ok(results) <==>
            && 1 <= |messages| <= maxBss <= 16
            && |results| == |messages|
            && (forall i :: 0 <= i < |messages| ==> AuthenticateEnvelope(t, messages[i]) == Ok(results[i]))
            && (forall i, j :: 0 <= i < j < |results| ==> results[i].registrarNonce != results[j].registrarNonce)
            && IndexesDiffer(results)
  {
    hide AuthenticateEnvelope, AuthenticateEach, Elements, Nonces, Indexes;
    EachInOrder(t, messages, results);
    CountingFindsRepeats(Nonces(results));
    CountingFindsRepeats(Indexes(results));
    NoncesInOrder(results);
    IndexesDistinct(results);
  }

  // -- What an accepted message is -----------------------------------------------------------------

  /** An accepted M2 answers this M1's nonce and is its own body authenticated against this M1 under
      the derived keys; its configuration data is what the decrypted settings decode to. */
  lemma EnvelopeIsAuthentic(t: Transcript, message: Bytes)
    ensures AuthenticateEnvelope(t, message).Ok? ==>
              Message(t.message, 4).Ok? && Message(message, 5).Ok?
    ensures AuthenticateEnvelope(t, message).Ok? ==>
              var enrollee, registrar := Message(t.message, 4).value.fields, Message(message, 5).value.fields;
              && PUBLIC_KEY in enrollee && PUBLIC_KEY in registrar && ENROLLEE_NONCE in enrollee && 0x1020 in enrollee
              && REGISTRAR_NONCE in registrar && ENCRYPTED_SETTINGS in registrar && ENROLLEE_NONCE in registrar
              && enrollee[PUBLIC_KEY] == t.publicKey && registrar[ENROLLEE_NONCE] == enrollee[ENROLLEE_NONCE]
              && var derived := t.derive(
                   registrar[PUBLIC_KEY], enrollee[ENROLLEE_NONCE], enrollee[0x1020], registrar[REGISTRAR_NONCE]);
                 && derived.Ok?
                 && (Tagging(derived.value) ==>
                       exists body :: AuthenticateMessage(derived.value, t.message, body) == Ok(message))
                 && DecryptSettings(derived.value, registrar[ENCRYPTED_SETTINGS]).Ok?
                 && Decoded(DecryptSettings(derived.value, registrar[ENCRYPTED_SETTINGS]).value)
                    == Ok(AuthenticateEnvelope(t, message).value.configData)
  {
    hide Message, VerifyMessage, AuthenticateMessage, DecryptSettings, Decoded, VendorSubelements, Required;
    if AuthenticateEnvelope(t, message).Ok? {
      MessageHolds(t.message, 4);
      MessageHolds(message, 5);
      RequiredByBoth(4);
      RequiredByBoth(5);
      var enrollee, registrar := Message(t.message, 4).value.fields, Message(message, 5).value.fields;
      var keys := t.derive(
        registrar[PUBLIC_KEY], enrollee[ENROLLEE_NONCE], enrollee[0x1020], registrar[REGISTRAR_NONCE]).value;
      if Tagging(keys) {
        var body := VerifyMessage(keys, t.message, message).value;
        VerifyInvertsAuthenticate(keys, t.message, body, message);
      }
    }
  }

  /** An M2 is accepted exactly when both messages are valid, it answers this M1, keys can be derived, it is a
      body authenticated against this M1, and its encrypted settings decrypt to well-formed
      attributes; what is returned is what it states. */
  lemma EnvelopeExactly(t: Transcript, message: Bytes)
    requires forall a, b, c, d :: t.derive(a, b, c, d).Ok? ==> Tagging(t.derive(a, b, c, d).value)
    ensures AuthenticateEnvelope(t, message).Ok? <==>
            && Message(t.message, 4).Ok? && Message(message, 5).Ok?
            && var enrollee, registrar := Message(t.message, 4).value.fields, Message(message, 5).value.fields;
               && 0x1032 in enrollee && 0x1032 in registrar && 0x101A in enrollee && 0x101A in registrar
               && 0x1020 in enrollee && 0x1039 in registrar && 0x1018 in registrar
               && t.publicKey == enrollee[0x1032] && registrar[0x101A] == enrollee[0x101A]
               && var derived := t.derive(registrar[0x1032], enrollee[0x101A], enrollee[0x1020], registrar[0x1039]);
                  && derived.Ok?
                  && (exists body :: AuthenticateMessage(derived.value, t.message, body) == Ok(message))
                  && DecryptSettings(derived.value, registrar[0x1018]).Ok?
                  && Decoded(DecryptSettings(derived.value, registrar[0x1018]).value).Ok?
                  && VendorSubelements(Decoded(DecryptSettings(derived.value, registrar[0x1018]).value).value).Ok?
    ensures AuthenticateEnvelope(t, message).Ok? ==>
              var e, m2 := AuthenticateEnvelope(t, message).value, Message(message, 5).value;
              && 0x1039 in m2.fields && e.registrarNonce == m2.fields[0x1039]
              && 0x1048 in m2.fields && e.registrarUuid == m2.fields[0x1048]
              && (e.bssIndex.Some? <==> 0x1BBC in m2.fields)
              && (e.bssIndex.Some? ==> m2.fields[0x1BBC] == [e.bssIndex.value])
              && e.attributes == m2.attributes
  {
    hide Message, VerifyMessage, AuthenticateMessage, DecryptSettings, Decoded, VendorSubelements, Required;
    if Message(t.message, 4).Ok? && Message(message, 5).Ok? {
      MessageHolds(t.message, 4);
      MessageHolds(message, 5);
      RequiredByBoth(4);
      RequiredByBoth(5);
      var enrollee, registrar := Message(t.message, 4).value.fields, Message(message, 5).value.fields;
      var derived := t.derive(registrar[PUBLIC_KEY], enrollee[ENROLLEE_NONCE], enrollee[0x1020], registrar[REGISTRAR_NONCE]);
      if derived.Ok? {
        assert Tagging(derived.value);
        VerifiedIsSome(derived.value, t.message, message);
      }
    }
  }

  lemma VerifiedIsSome(keys: Keys, previous: Bytes, message: Bytes)
    requires Tagging(keys)
    ensures VerifyMessage(keys, previous, message).Ok? <==> exists body :: AuthenticateMessage(keys, previous, body) == Ok(message)
  {
    hide VerifyMessage, AuthenticateMessage, Tagging;
    if VerifyMessage(keys, previous, message).Ok? {
      VerifyInvertsAuthenticate(keys, previous, VerifyMessage(keys, previous, message).value, message);
    }
    forall body | AuthenticateMessage(keys, previous, body) == Ok(message)
      ensures VerifyMessage(keys, previous, message).Ok?
    {
      VerifyInvertsAuthenticate(keys, previous, body, message);
    }
  }
}
