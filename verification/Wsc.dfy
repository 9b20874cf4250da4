/** The Wi-Fi Simple Configuration codec: attributes, authenticated trailers and encrypted settings
    (wsc.py). The keyed hash and the block cipher are parameters. */
module Wsc {
  import opened Basics

  const AUTHENTICATOR: nat := 0x1005
  const KEY_WRAP_AUTHENTICATOR: nat := 0x101E
  const MAX_BYTES: nat := 1024 * 1024
  const MAX_ATTRIBUTES: nat := 4096

  // -- Attributes ---------------------------------------------------------------------

  datatype Attribute = Attribute(kind: int, value: Bytes)

  predicate Encodable(a: Attribute) {
    0 <= a.kind <= 0xFFFF && |a.value| <= 0xFFFF
  }

  /** Two bytes, most significant first. */
  function Word(n: nat): Bytes
    requires n <= 0xFFFF
  {
    [n / 256, n % 256]
  }

  function Number(high: byte, low: byte): nat {
    high * 256 + low
  }

  function Encoding(a: Attribute): Bytes
    requires Encodable(a)
  {
    Word(a.kind) + Word(|a.value|) + a.value
  }

  function EncodeAttribute(kind: int, value: Bytes): Result<Bytes> {
    if Encodable(Attribute(kind, value)) then Ok(Encoding(Attribute(kind, value))) else Err(InvalidInput)
  }

  predicate AllEncodable(attributes: seq<Attribute>) {
    forall i :: 0 <= i < |attributes| ==> Encodable(attributes[i])
  }

  function Join(attributes: seq<Attribute>): Bytes
    requires AllEncodable(attributes)
  {
    if attributes == [] then [] else Encoding(attributes[0]) + Join(attributes[1..])
  }

  /** The attributes that make up the data, when it is nothing but whole attributes. */
  function Parse(data: Bytes): Option<seq<Attribute>>
    decreases |data|
  {
    if data == [] then Some([])
    else if |data| < 4 || Number(data[2], data[3]) > |data| - 4 then None
    else
      var end := 4 + Number(data[2], data[3]);
      match Parse(data[end..])
      case None => None
      case Some(rest) => Some([Attribute(Number(data[0], data[1]), data[4..end])] + rest)
  }

  function Decoded(data: Bytes): Result<seq<Attribute>> {
    if |data| > MAX_BYTES then Err(InvalidInput)
    else
      match Parse(data)
      case None => Err(InvalidInput)
      case Some(attributes) => if |attributes| > MAX_ATTRIBUTES then Err(InvalidInput) else Ok(attributes)
  }

  /** The decoder as the program runs it, one attribute at a time. */
  method DecodeAttributes(data: Bytes) returns (r: Result<seq<Attribute>>)
    ensures r == Decoded(data)
  {
    hide Parse, Number, Prefixed, Decoded;
    DecodedByParse(data);
    if |data| > MAX_BYTES {
      return Err(InvalidInput);
    }
    var result: seq<Attribute> := [];
    var offset := 0;
    PrefixedNothing(Parse(data));
    assert data[0..] == data;
    while offset < |data|
      invariant 0 <= offset <= |data| && |result| <= MAX_ATTRIBUTES
      invariant Parse(data) == Prefixed(result, Parse(data[offset..]))
    {
      ParseAt(data, offset);
      PrefixedSize(result, Parse(data[offset..]));
      if |data| - offset < 4 || |result| == MAX_ATTRIBUTES {
        return Err(InvalidInput);
      }
      var kind, size := Number(data[offset], data[offset + 1]), Number(data[offset + 2], data[offset + 3]);
      offset := offset + 4;
      if size > |data| - offset {
        return Err(InvalidInput);
      }
      var a := Attribute(kind, data[offset..offset + size]);
      PrefixedTwice(result, [a], Parse(data[offset + size..]));
      result := result + [a];
      offset := offset + size;
    }
    ParseStep([]);
    assert data[offset..] == [];
    PrefixedSize(result, Parse([]));
    r := Ok(result);
  }

  function Prefixed(first: seq<Attribute>, rest: Option<seq<Attribute>>): Option<seq<Attribute>> {
    if rest.None? then None else Some(first + rest.value)
  }

  lemma PrefixedTwice(first: seq<Attribute>, second: seq<Attribute>, rest: Option<seq<Attribute>>)
    ensures Prefixed(first, Prefixed(second, rest)) == Prefixed(first + second, rest)
  {
    if rest.Some? {
      assert first + (second + rest.value) == first + second + rest.value;
    }
  }

  lemma DecodedByParse(data: Bytes)
    ensures |data| > MAX_BYTES || Parse(data).None? || |Parse(data).value| > MAX_ATTRIBUTES ==>
              Decoded(data) == Err(InvalidInput)
    ensures |data| <= MAX_BYTES && Parse(data).Some? && |Parse(data).value| <= MAX_ATTRIBUTES ==>
              Decoded(data) == Ok(Parse(data).value)
  {
  }

  lemma PrefixedNothing(rest: Option<seq<Attribute>>)
    ensures Prefixed([], rest) == rest
  {
    if rest.Some? {
      assert [] + rest.value == rest.value;
    }
  }

  lemma PrefixedSize(first: seq<Attribute>, rest: Option<seq<Attribute>>)
    ensures rest.None? ==> Prefixed(first, rest).None?
    ensures rest.Some? ==> Prefixed(first, rest) == Some(first + rest.value)
    ensures rest == Some([]) ==> Prefixed(first, rest) == Some(first)
  {
    assert first + [] == first;
  }

  lemma ParseStep(data: Bytes)
    ensures data == [] ==> Parse(data) == Some([])
    ensures data != [] ==>
              if |data| < 4 || Number(data[2], data[3]) > |data| - 4 then Parse(data) == None
              else
                var end := 4 + Number(data[2], data[3]);
                Parse(data) == Prefixed([Attribute(Number(data[0], data[1]), data[4..end])], Parse(data[end..]))
    ensures data != [] && Parse(data).Some? ==> |Parse(data).value| > 0
  {
  }

  lemma ParseAt(data: Bytes, offset: nat)
    requires offset < |data|
    ensures |data| - offset < 4 ==> Parse(data[offset..]) == None
    ensures |data| - offset >= 4 ==>
              var size, start := Number(data[offset + 2], data[offset + 3]), offset + 4;
              if size > |data| - start then Parse(data[offset..]) == None
              else Parse(data[offset..])
                   == Prefixed([Attribute(Number(data[offset], data[offset + 1]), data[start..start + size])],
                               Parse(data[start + size..]))
    ensures Parse(data[offset..]).Some? ==> |Parse(data[offset..]).value| > 0
  {
    hide Parse, Prefixed, Number;
    var rest := data[offset..];
    ParseStep(rest);
    if |rest| >= 4 && Number(rest[2], rest[3]) <= |rest| - 4 {
      var end := 4 + Number(rest[2], rest[3]);
      assert rest[4..end] == data[offset + 4..offset + end] && rest[end..] == data[offset + end..];
    }
  }

  // -- The codec is a bijection ----------------------------------------------------------

  lemma WordNumber(n: nat, high: byte, low: byte)
    requires n <= 0xFFFF
    ensures Number(Word(n)[0], Word(n)[1]) == n
    ensures Number(high, low) <= 0xFFFF && Word(Number(high, low)) == [high, low]
  {
  }

  lemma {:induction false} ParseJoin(attributes: seq<Attribute>)
    requires AllEncodable(attributes)
    ensures Parse(Join(attributes)) == Some(attributes)
  {
    if attributes != [] {
      var a, rest := attributes[0], Join(attributes[1..]);
      var data := Join(attributes);
      WordNumber(a.kind, 0, 0);
      WordNumber(|a.value|, 0, 0);
      assert data == Word(a.kind) + Word(|a.value|) + a.value + rest;
      assert data[0] == Word(a.kind)[0] && data[1] == Word(a.kind)[1];
      assert data[2] == Word(|a.value|)[0] && data[3] == Word(|a.value|)[1];
      var end := 4 + |a.value|;
      assert data[4..end] == a.value && data[end..] == rest;
      ParseJoin(attributes[1..]);
      assert [a] + attributes[1..] == attributes;
    }
  }

  lemma {:induction false} JoinParse(data: Bytes)
    requires Parse(data).Some?
    ensures AllEncodable(Parse(data).value) && Join(Parse(data).value) == data
    decreases |data|
  {
    hide Parse, Number, Word;
    ParseStep(data);
    if data != [] {
      var attributes := Parse(data).value;
      var end := 4 + Number(data[2], data[3]);
      JoinParse(data[end..]);
      PrefixedSize([Attribute(Number(data[0], data[1]), data[4..end])], Parse(data[end..]));
      assert attributes[1..] == Parse(data[end..]).value;
      WordNumber(0, data[0], data[1]);
      WordNumber(0, data[2], data[3]);
      assert data == [data[0], data[1]] + [data[2], data[3]] + data[4..end] + data[end..];
    }
  }

  /** Decoding accepts exactly the encodings within the budgets, each as the list it encodes. */
  lemma DecodeInvertsEncode(data: Bytes, attributes: seq<Attribute>)
    ensures Decoded(data) == Ok(attributes) <==>
            && AllEncodable(attributes) && Join(attributes) == data
            && |data| <= 1024 * 1024 && |attributes| <= 4096
  {
    if Decoded(data) == Ok(attributes) {
      JoinParse(data);
    }
    if AllEncodable(attributes) && Join(attributes) == data {
      ParseJoin(attributes);
    }
  }

  lemma {:induction false} JoinAppend(attributes: seq<Attribute>, more: seq<Attribute>)
    requires AllEncodable(attributes) && AllEncodable(more)
    ensures AllEncodable(attributes + more) && Join(attributes + more) == Join(attributes) + Join(more)
  {
    hide Encoding;
    if attributes == [] {
      assert attributes + more == more;
    } else {
      var all := attributes + more;
      JoinAppend(attributes[1..], more);
      assert all[1..] == attributes[1..] + more && all[0] == attributes[0];
      assert AllEncodable(all);
      assert Join(all) == Encoding(all[0]) + Join(all[1..]);
    }
  }

  lemma JoinOne(a: Attribute)
    requires Encodable(a)
    ensures AllEncodable([a]) && Join([a]) == Encoding(a)
  {
    assert [a][1..] == [];
    assert Encoding(a) + [] == Encoding(a);
  }

  // -- Trailers -----------------------------------------------------------------------------

  predicate Has(attributes: seq<Attribute>, kind: int) {
    exists i :: 0 <= i < |attributes| && attributes[i].kind == kind
  }

  function WithoutTrailer(data: Bytes, kind: int): Result<(Bytes, Bytes)> {
    var attributes :- Decoded(data);
    if attributes == [] then Err(InvalidInput)
    else
      var last := attributes[|attributes| - 1];
      if last.kind != kind || |last.value| != 8 || Has(attributes[..|attributes| - 1], kind) || |data| < 12
      then Err(InvalidInput)
      else Ok((data[..|data| - 12], last.value))
  }

  /** The data before a trailer of this kind can carry one: whole attributes, room for one more,
      and none of the kind yet. */
  predicate Trailable(data: Bytes, kind: int) {
    Decoded(data).Ok? && |Decoded(data).value| < MAX_ATTRIBUTES && !Has(Decoded(data).value, kind)
  }

  lemma TrailerAppended(body: Bytes, kind: int, tag: Bytes)
    requires 0 <= kind <= 0xFFFF && |tag| == 8
    requires Decoded(body).Ok? && |Decoded(body).value| < MAX_ATTRIBUTES
    requires |body| + 12 <= MAX_BYTES
    ensures Decoded(body + Encoding(Attribute(kind, tag))) == Ok(Decoded(body).value + [Attribute(kind, tag)])
  {
    var attributes, trailer := Decoded(body).value, Attribute(kind, tag);
    DecodeInvertsEncode(body, attributes);
    JoinOne(trailer);
    JoinAppend(attributes, [trailer]);
    DecodeInvertsEncode(body + Encoding(trailer), attributes + [trailer]);
  }

  /** Dropping twelve bytes is dropping the last attribute: a trailer is accepted exactly when the
      data is a body that can carry it, followed by it. */
  lemma TrailerIsLastAttribute(data: Bytes, kind: int, body: Bytes, tag: Bytes)
    requires 0 <= kind <= 0xFFFF
    ensures WithoutTrailer(data, kind) == Ok((body, tag)) <==>
            && |tag| == 8 && data == body + Encoding(Attribute(kind, tag))
            && Trailable(body, kind) && |data| <= MAX_BYTES
  {
    if WithoutTrailer(data, kind) == Ok((body, tag)) {
      var attributes := Decoded(data).value;
      var front, last := attributes[..|attributes| - 1], attributes[|attributes| - 1];
      assert attributes == front + [last];
      DecodeInvertsEncode(data, attributes);
      assert Encodable(attributes[|attributes| - 1]);
      assert AllEncodable(front);
      JoinOne(last);
      JoinAppend(front, [last]);
      assert data == Join(front) + Encoding(last);
      assert data[..|data| - 12] == Join(front);
      DecodeInvertsEncode(Join(front), front);
    }
    if |tag| == 8 && data == body + Encoding(Attribute(kind, tag)) && Trailable(body, kind) && |data| <= MAX_BYTES {
      TrailerAppended(body, kind, tag);
      var attributes := Decoded(data).value;
      assert attributes[..|attributes| - 1] == Decoded(body).value;
      assert data[..|data| - 12] == body;
    }
  }

  // -- Authenticated messages ------------------------------------------------------------------

  /** What the derived keys compute: the shortened keyed hash, and the cipher under an
      initialisation vector. */
  datatype Keys = Keys(tag: Bytes -> Bytes, seal: (Bytes, Bytes) -> Bytes, unseal: (Bytes, Bytes) -> Bytes)

  ghost predicate Tagging(keys: Keys) {
    forall data :: |keys.tag(data)| == 8
  }

  function AuthenticateMessage(keys: Keys, previous: Bytes, current: Bytes): Result<Bytes> {
    if |previous| > MAX_BYTES || !Trailable(current, AUTHENTICATOR) then Err(InvalidInput)
    else
      var trailer :- EncodeAttribute(AUTHENTICATOR, keys.tag(previous + current));
      if |current + trailer| > MAX_BYTES then Err(InvalidInput) else Ok(current + trailer)
  }

  function VerifyMessage(keys: Keys, previous: Bytes, current: Bytes): Result<Bytes> {
    if |previous| > MAX_BYTES then Err(InvalidInput)
    else
      var parts :- WithoutTrailer(current, AUTHENTICATOR);
      if keys.tag(previous + parts.0) == parts.1 then Ok(parts.0) else Err(InvalidInput)
  }

  /** A message verifies to a body exactly when it is that body authenticated. */
  lemma VerifyInvertsAuthenticate(keys: Keys, previous: Bytes, body: Bytes, message: Bytes)
    requires Tagging(keys)
    ensures VerifyMessage(keys, previous, message) == Ok(body) <==>
            AuthenticateMessage(keys, previous, body) == Ok(message)
  {
    var tag := keys.tag(previous + body);
    assert |tag| == 8;
    TrailerIsLastAttribute(message, AUTHENTICATOR, body, tag);
  }

  /** An attribute on the wire: kind and length as two bytes each, most significant first, then the value. */
  lemma EncodingSpelled(a: Attribute)
    requires Encodable(a)
    ensures Encoding(a) == [a.kind / 0x100, a.kind % 0x100, |a.value| / 0x100, |a.value| % 0x100] + a.value
  {
  }

  /** A message can be authenticated exactly when it is whole attributes, one below the budget, without an
      authenticator, and fits the byte budget with one; what is appended is the tag of both messages. */
  lemma AuthenticatedExactly(keys: Keys, previous: Bytes, current: Bytes)
    requires Tagging(keys)
    ensures AuthenticateMessage(keys, previous, current).Ok? <==>
            && |previous| <= 1024 * 1024 && |current| + 12 <= 1024 * 1024
            && Decoded(current).Ok? && |Decoded(current).value| < 4096 && !Has(Decoded(current).value, 0x1005)
    ensures AuthenticateMessage(keys, previous, current).Ok? ==>
              AuthenticateMessage(keys, previous, current).value
                == current + [0x10, 0x05, 0x00, 0x08] + keys.tag(previous + current)
  {
    hide Decoded;
    assert |keys.tag(previous + current)| == 8;
    EncodingSpelled(Attribute(AUTHENTICATOR, keys.tag(previous + current)));
  }

  // -- Padding -----------------------------------------------------------------------------------

  function Repeat(b: byte, n: nat): Bytes {
    seq(n, i => b)
  }

  /** Section 6.3 of RFC 5652, for blocks of 16 bytes. */
  function Padded(data: Bytes): Bytes {
    var n := 16 - |data| % 16;
    data + Repeat(n, n)
  }

  function Unpadded(data: Bytes): Option<Bytes> {
    if data == [] || |data| % 16 != 0 then None
    else
      var n := data[|data| - 1];
      if 1 <= n <= 16 && data[|data| - n..] == Repeat(n, n) then Some(data[..|data| - n]) else None
  }

  lemma PaddedLength(data: Bytes)
    ensures |Padded(data)| == (|data| / 16 + 1) * 16
    ensures |Padded(data)| - |data| == 16 - |data| % 16
  {
    var q, r := |data| / 16, |data| % 16;
    assert |data| == q * 16 + r;
  }

  lemma UnpadOfPadded(data: Bytes)
    ensures Unpadded(Padded(data)) == Some(data)
  {
    PaddedLength(data);
    var n := 16 - |data| % 16;
    var padded := Padded(data);
    assert padded[|padded| - 1] == n;
    assert padded[|padded| - n..] == Repeat(n, n) && padded[..|padded| - n] == data;
  }

  lemma PaddingLength(total: nat, m: nat)
    requires total % 16 == 0 && 1 <= m <= 16 && m <= total
    ensures 16 - (total - m) % 16 == m
  {
    var q := total / 16;
    assert total - m == (q - 1) * 16 + (16 - m);
  }

  lemma PaddedOfUnpad(padded: Bytes)
    requires Unpadded(padded).Some?
    ensures padded == Padded(Unpadded(padded).value)
  {
    var m := padded[|padded| - 1];
    var data := Unpadded(padded).value;
    assert padded == padded[..|padded| - m] + padded[|padded| - m..];
    PaddingLength(|padded|, m);
  }

  /** Unpadding accepts exactly the padded data, whole blocks and never empty. */
  lemma UnpadInvertsPad(padded: Bytes, data: Bytes)
    ensures Unpadded(padded) == Some(data) <==> padded == Padded(data)
    ensures |Padded(data)| == (|data| / 16 + 1) * 16
  {
    hide Padded, Unpadded;
    PaddedLength(data);
    UnpadOfPadded(data);
    if Unpadded(padded) == Some(data) {
      PaddedOfUnpad(padded);
    }
  }

  // -- Encrypted settings ---------------------------------------------------------------------------

  /** Decrypting undoes encrypting whole blocks, which keeps their length. */
  ghost predicate Deciphering(keys: Keys) {
    forall iv, blocks :: |iv| == 16 && |blocks| % 16 == 0 ==>
      |keys.seal(iv, blocks)| == |blocks| && keys.unseal(iv, keys.seal(iv, blocks)) == blocks
  }

  /** Encrypting undoes decrypting as well, as it does for a block cipher. */
  ghost predicate Enciphering(keys: Keys) {
    forall iv, blocks :: |iv| == 16 && |blocks| % 16 == 0 ==>
      |keys.unseal(iv, blocks)| == |blocks| && keys.seal(iv, keys.unseal(iv, blocks)) == blocks
  }

  function SealedLength(n: nat): nat {
    16 + ((n + 12) / 16 + 1) * 16
  }

  /** `iv` is the random initialisation vector. */
  function EncryptSettings(keys: Keys, iv: Bytes, plaintext: Bytes): Result<Bytes> {
    if !Trailable(plaintext, KEY_WRAP_AUTHENTICATOR) || SealedLength(|plaintext|) > 0xFFFF then Err(InvalidInput)
    else
      var trailer :- EncodeAttribute(KEY_WRAP_AUTHENTICATOR, keys.tag(plaintext));
      var sealed := iv + keys.seal(iv, Padded(plaintext + trailer));
      if |sealed| > MAX_BYTES then Err(InvalidInput) else Ok(sealed)
  }

  function DecryptSettings(keys: Keys, encrypted: Bytes): Result<Bytes> {
    if !(32 <= |encrypted| <= 0xFFFF) || |encrypted| % 16 != 0 then Err(InvalidInput)
    else
      match Unpadded(keys.unseal(encrypted[..16], encrypted[16..]))
      case None => Err(InvalidInput)
      case Some(authenticated) =>
        var parts :- WithoutTrailer(authenticated, KEY_WRAP_AUTHENTICATOR);
        if keys.tag(parts.0) == parts.1 then Ok(parts.0) else Err(InvalidInput)
  }

  lemma SealedLengthBound(n: nat)
    ensures SealedLength(n) <= 0xFFFF <==> n <= 65491
    ensures SealedLength(n) % 16 == 0 && SealedLength(n) >= 32
  {
  }

  /** Exactly the plaintexts of whole attributes, with room for the trailer and at most 65491
      bytes, are accepted; the output has the stated length, which decryption accepts. */
  lemma EncryptAcceptsExactly(keys: Keys, iv: Bytes, plaintext: Bytes)
    requires Tagging(keys) && Deciphering(keys) && |iv| == 16
    ensures EncryptSettings(keys, iv, plaintext).Ok? <==>
            Trailable(plaintext, KEY_WRAP_AUTHENTICATOR) && |plaintext| <= 65491
    ensures EncryptSettings(keys, iv, plaintext).Ok? ==>
              var sealed := EncryptSettings(keys, iv, plaintext).value;
              && |sealed| == 16 + ((|plaintext| + 12) / 16 + 1) * 16
              && 32 <= |sealed| <= 0xFFFF && |sealed| % 16 == 0
  {
    SealedLengthBound(|plaintext|);
    var trailer := Attribute(KEY_WRAP_AUTHENTICATOR, keys.tag(plaintext));
    assert |keys.tag(plaintext)| == 8;
    var authenticated := plaintext + Encoding(trailer);
    UnpadInvertsPad(Padded(authenticated), authenticated);
  }

  function Authenticated(keys: Keys, plaintext: Bytes): Bytes
    requires |keys.tag(plaintext)| == 8
  {
    plaintext + Encoding(Attribute(KEY_WRAP_AUTHENTICATOR, keys.tag(plaintext)))
  }

  lemma EncryptedAs(keys: Keys, iv: Bytes, plaintext: Bytes)
    requires |keys.tag(plaintext)| == 8 && EncryptSettings(keys, iv, plaintext).Ok?
    ensures EncryptSettings(keys, iv, plaintext).value == iv + keys.seal(iv, Padded(Authenticated(keys, plaintext)))
    ensures Trailable(plaintext, KEY_WRAP_AUTHENTICATOR)
  {
    hide Padded, Trailable, SealedLength;
  }

  /** What is encrypted is the plaintext and the tag of the plaintext alone, in its own attribute. */
  lemma AuthenticatedSpelled(keys: Keys, plaintext: Bytes)
    requires |keys.tag(plaintext)| == 8
    ensures Authenticated(keys, plaintext) == plaintext + [0x10, 0x1E, 0x00, 0x08] + keys.tag(plaintext)
  {
    EncodingSpelled(Attribute(KEY_WRAP_AUTHENTICATOR, keys.tag(plaintext)));
  }

  lemma Unsealed(keys: Keys, iv: Bytes, data: Bytes)
    requires Deciphering(keys) && |iv| == 16
    ensures Unpadded(keys.unseal(iv, keys.seal(iv, Padded(data)))) == Some(data)
  {
    hide Padded, Unpadded;
    UnpadInvertsPad(Padded(data), data);
  }

  lemma DecryptedAs(keys: Keys, encrypted: Bytes, plaintext: Bytes)
    requires |keys.tag(plaintext)| == 8 && Trailable(plaintext, KEY_WRAP_AUTHENTICATOR)
    requires 32 <= |encrypted| <= 0xFFFF && |encrypted| % 16 == 0
    requires Unpadded(keys.unseal(encrypted[..16], encrypted[16..])) == Some(Authenticated(keys, plaintext))
    requires |plaintext| <= 65491
    ensures DecryptSettings(keys, encrypted) == Ok(plaintext)
  {
    hide Unpadded, WithoutTrailer, Trailable;
    TrailerIsLastAttribute(
      Authenticated(keys, plaintext), KEY_WRAP_AUTHENTICATOR, plaintext, keys.tag(plaintext));
  }

  /** Decrypting what was encrypted gives the plaintext back. */
  lemma SettingsRoundTrip(keys: Keys, iv: Bytes, plaintext: Bytes)
    requires Tagging(keys) && Deciphering(keys) && |iv| == 16
    ensures EncryptSettings(keys, iv, plaintext).Ok? ==>
              DecryptSettings(keys, EncryptSettings(keys, iv, plaintext).value) == Ok(plaintext)
  {
    hide Padded, Unpadded, Trailable, EncryptSettings, DecryptSettings, Authenticated;
    if EncryptSettings(keys, iv, plaintext).Ok? {
      assert |keys.tag(plaintext)| == 8;
      EncryptAcceptsExactly(keys, iv, plaintext);
      EncryptedAs(keys, iv, plaintext);
      var sealed := EncryptSettings(keys, iv, plaintext).value;
      assert sealed[..16] == iv && sealed[16..] == keys.seal(iv, Padded(Authenticated(keys, plaintext)));
      Unsealed(keys, iv, Authenticated(keys, plaintext));
      DecryptedAs(keys, sealed, plaintext);
    }
  }

  /** What a successful decryption found. */
  lemma DecryptedFrom(keys: Keys, encrypted: Bytes, plaintext: Bytes)
    requires Tagging(keys) && DecryptSettings(keys, encrypted) == Ok(plaintext)
    ensures 32 <= |encrypted| <= 0xFFFF && |encrypted| % 16 == 0
    ensures |keys.tag(plaintext)| == 8 && Trailable(plaintext, KEY_WRAP_AUTHENTICATOR)
    ensures keys.unseal(encrypted[..16], encrypted[16..]) == Padded(Authenticated(keys, plaintext))
  {
    hide Padded, Unpadded, WithoutTrailer, Trailable;
    assert |keys.tag(plaintext)| == 8;
    var blocks := keys.unseal(encrypted[..16], encrypted[16..]);
    var found := Unpadded(blocks).value;
    TrailerIsLastAttribute(found, KEY_WRAP_AUTHENTICATOR, plaintext, keys.tag(plaintext));
    UnpadInvertsPad(blocks, found);
  }

  lemma Resealed(keys: Keys, iv: Bytes, blocks: Bytes)
    requires Enciphering(keys) && |iv| == 16 && |blocks| % 16 == 0
    ensures keys.seal(iv, keys.unseal(iv, blocks)) == blocks && |keys.unseal(iv, blocks)| == |blocks|
  {
  }

  /** With a cipher that is a bijection on blocks, decryption accepts nothing but encryptions: of
      the plaintext it returns, under the vector in front. */
  lemma DecryptAcceptsOnlyEncryptions(keys: Keys, encrypted: Bytes, plaintext: Bytes)
    requires Tagging(keys) && Deciphering(keys) && Enciphering(keys)
    ensures DecryptSettings(keys, encrypted) == Ok(plaintext) <==>
            |encrypted| >= 16 && EncryptSettings(keys, encrypted[..16], plaintext) == Ok(encrypted)
  {
    hide Padded, Trailable, EncryptSettings, DecryptSettings, Deciphering, Enciphering, Tagging;
    if |encrypted| >= 16 && EncryptSettings(keys, encrypted[..16], plaintext) == Ok(encrypted) {
      SettingsRoundTrip(keys, encrypted[..16], plaintext);
    }
    if DecryptSettings(keys, encrypted) == Ok(plaintext) {
      DecryptedFrom(keys, encrypted, plaintext);
      var iv, blocks := encrypted[..16], encrypted[16..];
      assert encrypted == iv + blocks && |blocks| % 16 == 0;
      var authenticated := Authenticated(keys, plaintext);
      UnpadInvertsPad(Padded(authenticated), authenticated);
      Resealed(keys, iv, blocks);
      EncryptAcceptsExactly(keys, iv, plaintext);
      EncryptedAs(keys, iv, plaintext);
    }
  }
}
