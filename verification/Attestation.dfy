/** A passkey's public key and credential id, out of an attestation object. */
module Attestation {
  import opened Base
  import opened Cbor
  import opened CborRoundTrip

  const COSE_KEY_TYPE := NumberKey(1)
  const COSE_ALGORITHM := NumberKey(3)
  const COSE_CURVE := NumberKey(-1)
  const COSE_X := NumberKey(-2)
  const COSE_Y := NumberKey(-3)
  const KEY_TYPE_EC2 := Number(2)
  const ALGORITHM_ES256 := Number(-7)
  const CURVE_P256 := Number(1)

  /** "authData" */
  const AUTH_DATA := TextKey([97, 117, 116, 104, 68, 97, 116, 97])

  datatype AttestationError =
    | Malformed(cause: FormatError)
    | NotAMap
    | NoAuthenticatorData
    | TooShort
    | NoCredential
    | CredentialIdPastEnd
    | NotACoseKey
    | NotEllipticCurve
    | NotEs256
    | NotP256
    | NotBytes
    | WrongLength

  type Parsed = Result<Bytes, AttestationError>

  /** What `data[i]!` is under a shift or a mask: undefined counts as 0. */
  function At(data: Bytes, i: nat): byte {
    if i < |data| then data[i] else 0
  }

  /** Bit 6 of the flags: a credential's public key follows. */
  predicate HasCredential(flags: byte) {
    flags / 0x40 % 2 == 1
  }

  function CredentialIdLength(authData: Bytes): nat {
    Shift8(At(authData, 53), At(authData, 54))
  }

  function ExpectBytes(value: Option<Value>, length: nat): Parsed {
    if value.None? || !value.value.ByteString? then Err(NotBytes)
    else if |value.value.bytes| != length then Err(WrongLength)
    else Ok(value.value.bytes)
  }

  function AuthenticatorData(attestation: Bytes): Parsed {
    match Read(attestation)
    case Err(e) => Err(Malformed(e))
    case Ok(Reading(decoded, _)) =>
      if !decoded.Map? then Err(NotAMap)
      else
        match Lookup(decoded.entries, AUTH_DATA)
        case Some(ByteString(bytes)) => Ok(bytes)
        case _ => Err(NoAuthenticatorData)
  }

  function PublicKey(attestation: Bytes): Parsed {
    match AuthenticatorData(attestation)
    case Err(e) => Err(e)
    case Ok(authData) =>
      if |authData| < 37 then Err(TooShort)
      else if !HasCredential(authData[32]) then Err(NoCredential)
      else
        var keyStart := 55 + CredentialIdLength(authData);
        if keyStart > |authData| then Err(CredentialIdPastEnd)
        else
          match Read(authData[keyStart..])
          case Err(e) => Err(Malformed(e))
          case Ok(Reading(key, _)) => if key.Map? then PointOf(key.entries) else Err(NotACoseKey)
  }

  /** `0x04 || x || y` of a COSE key, every field it declares about itself checked. */
  function PointOf(key: seq<Entry>): Parsed {
    if Lookup(key, COSE_KEY_TYPE) != Some(KEY_TYPE_EC2) then Err(NotEllipticCurve)
    else if Lookup(key, COSE_ALGORITHM) != Some(ALGORITHM_ES256) then Err(NotEs256)
    else if Lookup(key, COSE_CURVE) != Some(CURVE_P256) then Err(NotP256)
    else
      match ExpectBytes(Lookup(key, COSE_X), 32)
      case Err(e) => Err(e)
      case Ok(x) =>
        match ExpectBytes(Lookup(key, COSE_Y), 32)
        case Err(e) => Err(e)
        case Ok(y) => Ok([4] + x + y)
  }

  function CredentialId(attestation: Bytes): Parsed {
    match AuthenticatorData(attestation)
    case Err(e) => Err(e)
    case Ok(authData) =>
      if |authData| < 55 || !HasCredential(At(authData, 32)) then Err(NoCredential)
      else
        var end := 55 + CredentialIdLength(authData);
        if end > |authData| then Err(CredentialIdPastEnd) else Ok(authData[55..end])
  }

  // ---------------------------------------------------------------------
  // Section 6.5.1 of WebAuthn Level 2: what an authenticator puts together
  // ---------------------------------------------------------------------

  datatype Credential = Credential(
    rpIdHash: Bytes, flags: byte, signCount: Bytes, aaguid: Bytes, id: Bytes, key: seq<Entry>, extensions: Bytes)

  /** A P-256 signing key in COSE form, its entries in any order and with any others beside them. */
  ghost predicate P256Key(key: seq<Entry>, x: Bytes, y: Bytes) {
    && Encodable(Map(key))
    && |x| == 32 && |y| == 32
    && Entry(COSE_KEY_TYPE, KEY_TYPE_EC2) in key
    && Entry(COSE_ALGORITHM, ALGORITHM_ES256) in key
    && Entry(COSE_CURVE, CURVE_P256) in key
    && Entry(COSE_X, ByteString(x)) in key
    && Entry(COSE_Y, ByteString(y)) in key
  }

  ghost predicate CredentialOk(c: Credential) {
    && |c.rpIdHash| == 32 && |c.signCount| == 4 && |c.aaguid| == 16
    && HasCredential(c.flags) && |c.id| < 0x10000
    && Encodable(Map(c.key))
  }

  /** The fixed part of the authenticator data, up to the credential id. */
  function Prefix(c: Credential): Bytes
    requires |c.id| < 0x10000
  {
    c.rpIdHash + [c.flags] + c.signCount + c.aaguid + [|c.id| / 0x100, |c.id| % 0x100]
  }

  ghost function Pack(c: Credential): Bytes
    requires CredentialOk(c)
  {
    Prefix(c) + (c.id + (Encode(Map(c.key)) + c.extensions))
  }

  /** An attestation object carrying `authData`, with whatever else beside it. */
  ghost predicate Carries(members: seq<Entry>, authData: Bytes) {
    Encodable(Map(members)) && Entry(AUTH_DATA, ByteString(authData)) in members
  }

  lemma {:induction false} LookupFinds(entries: seq<Entry>, e: Entry)
    requires DistinctKeys(entries) && e in entries
    ensures Lookup(entries, e.key) == Some(e.value)
  {
    if entries[0] == e {
    } else {
      assert e in entries[1..];
      var j :| 0 <= j < |entries[1..]| && entries[1..][j] == e;
      assert entries[j + 1] == e;
      LookupFinds(entries[1..], e);
    }
  }

  /** Authenticator data comes back unchanged from any attestation object carrying it. */
  lemma AuthenticatorDataRoundTrip(members: seq<Entry>, authData: Bytes, rest: Bytes)
    requires Carries(members, authData)
    ensures AuthenticatorData(Encode(Map(members)) + rest) == Ok(authData)
  {
    ReadEncoded(Map(members), rest);
    LookupFinds(members, Entry(AUTH_DATA, ByteString(authData)));
  }

  lemma PackLayout(c: Credential)
    requires CredentialOk(c)
    ensures
      var data := Pack(c);
      && |data| >= 55 + |c.id|
      && data[32] == c.flags && CredentialIdLength(data) == |c.id|
      && data[55..55 + |c.id|] == c.id
      && data[55 + |c.id|..] == Encode(Map(c.key)) + c.extensions
  {
    var data, p := Pack(c), Prefix(c);
    var tail := Encode(Map(c.key)) + c.extensions;
    assert |p| == 55 && p[32] == c.flags && p[53] == |c.id| / 0x100 && p[54] == |c.id| % 0x100;
    assert data[32] == p[32] && data[53] == p[53] && data[54] == p[54];
    AfterPrefix(p, c.id, tail);
  }

  lemma AfterPrefix(p: Bytes, id: Bytes, tail: Bytes)
    ensures
      var data := p + (id + tail);
      data[|p|..|p| + |id|] == id && data[|p| + |id|..] == tail
  {
  }

  lemma PointOfKey(key: seq<Entry>, x: Bytes, y: Bytes)
    requires P256Key(key, x, y)
    ensures PointOf(key) == Ok([4] + x + y)
  {
    LookupFinds(key, Entry(COSE_KEY_TYPE, KEY_TYPE_EC2));
    LookupFinds(key, Entry(COSE_ALGORITHM, ALGORITHM_ES256));
    LookupFinds(key, Entry(COSE_CURVE, CURVE_P256));
    LookupFinds(key, Entry(COSE_X, ByteString(x)));
    LookupFinds(key, Entry(COSE_Y, ByteString(y)));
  }

  /** Any P-256 credential is read back: its point and its id, exactly. */
  lemma CredentialRoundTrip(members: seq<Entry>, c: Credential, x: Bytes, y: Bytes, rest: Bytes)
    requires CredentialOk(c) && P256Key(c.key, x, y) && Carries(members, Pack(c))
    ensures PublicKey(Encode(Map(members)) + rest) == Ok([4] + x + y)
    ensures CredentialId(Encode(Map(members)) + rest) == Ok(c.id)
  {
    AuthenticatorDataRoundTrip(members, Pack(c), rest);
    PackLayout(c);
    ReadEncoded(Map(c.key), c.extensions);
    PointOfKey(c.key, x, y);
  }

  /**
   * On arbitrary bytes: a key that is accepted is 65 bytes starting with 4, and
   * the credential id of the same object is accepted with it.
   */
  lemma Accepted(attestation: Bytes)
    requires PublicKey(attestation).Ok?
    ensures |PublicKey(attestation).value| == 65 && PublicKey(attestation).value[0] == 4
    ensures CredentialId(attestation).Ok?
    ensures |CredentialId(attestation).value| == CredentialIdLength(AuthenticatorData(attestation).value)
  {
  }

  /** The name under which an attestation object carries its authenticator data. */
  lemma AuthDataName()
    ensures AUTH_DATA == TextKey(seq(8, i requires 0 <= i < 8 => "authData"[i] as int))
  {
    assert AUTH_DATA.text == seq(8, i requires 0 <= i < 8 => "authData"[i] as int);
  }

  /** A 32-byte coordinate under this label. */
  predicate Coordinate(key: seq<Entry>, at: int, bytes: Bytes) {
    Lookup(key, NumberKey(at)) == Some(ByteString(bytes)) && |bytes| == 32
  }

  /**
   * A COSE key is accepted exactly when it declares itself an elliptic-curve key (2), for ES256 (-7), on
   * P-256 (1), with both coordinates; what is accepted is the point it spells. Otherwise the first of these
   * that fails is the refusal.
   */
  lemma KeyAccepted(key: seq<Entry>, x: Bytes, y: Bytes)
    ensures
      PointOf(key).Ok? && Coordinate(key, -2, x) && Coordinate(key, -3, y) ==> PointOf(key).value == [4] + x + y
    ensures
      var ec, es := Lookup(key, NumberKey(1)) == Some(Number(2)), Lookup(key, NumberKey(3)) == Some(Number(-7));
      var p256 := Lookup(key, NumberKey(-1)) == Some(Number(1));
      && (PointOf(key) == Err(NotEllipticCurve) <==> !ec)
      && (PointOf(key) == Err(NotEs256) <==> ec && !es)
      && (PointOf(key) == Err(NotP256) <==> ec && es && !p256)
      && (PointOf(key).Ok? <==>
            ec && es && p256 && (exists a :: Coordinate(key, -2, a)) && exists b :: Coordinate(key, -3, b))
  {
    if PointOf(key).Ok? {
      var a, b := Lookup(key, COSE_X).value.bytes, Lookup(key, COSE_Y).value.bytes;
      assert Coordinate(key, -2, a) && Coordinate(key, -3, b);
    }
  }

  /** Where the parts lie: flags at 32, the length of the credential id at 53, the id at 55, the key behind it. */
  predicate LaidOut(authData: Bytes, id: Bytes) {
    && |authData| >= 55 + |id| && |id| == (authData[53] as int) * 256 + authData[54] as int
    && authData[32] / 64 % 2 == 1 && authData[55..55 + |id|] == id
  }

  /** On arbitrary bytes: the id and the key are taken from just these places, and only if they are there. */
  lemma TakenFrom(attestation: Bytes, id: Bytes)
    ensures
      CredentialId(attestation) == Ok(id)
      <==> AuthenticatorData(attestation).Ok? && LaidOut(AuthenticatorData(attestation).value, id)
    ensures
      PublicKey(attestation).Ok? && CredentialId(attestation) == Ok(id) ==>
        var read := Read(AuthenticatorData(attestation).value[55 + |id|..]);
        read.Ok? && read.value.value.Map? && PublicKey(attestation) == PointOf(read.value.value.entries)
  {
  }

  /** The authenticator data is what a map carries under its name as bytes; anything else is refused for what it is. */
  lemma CarriedWhen(attestation: Bytes)
    ensures
      var read, r := Read(attestation), AuthenticatorData(attestation);
      var isMap := read.Ok? && read.value.value.Map?;
      && (read.Err? <==> r.Err? && r.error.Malformed?) && (read.Err? ==> r == Err(Malformed(read.error)))
      && (r == Err(NotAMap) <==> read.Ok? && !isMap)
      && (r == Err(NoAuthenticatorData) <==>
            isMap && forall bytes: Bytes :: Lookup(read.value.value.entries, AUTH_DATA) != Some(ByteString(bytes)))
      && (r.Ok? ==> isMap && Lookup(read.value.value.entries, AUTH_DATA) == Some(ByteString(r.value)))
  {
    if AuthenticatorData(attestation) == Err(NoAuthenticatorData) {
      assert forall bytes: Bytes ::
          Lookup(Read(attestation).value.value.entries, AUTH_DATA) != Some(ByteString(bytes));
    }
  }

  /** A coordinate that is no byte string, or not of 32 bytes, is refused as such; the first coordinate first. */
  lemma CoordinatesRefused(key: seq<Entry>)
    requires Lookup(key, NumberKey(1)) == Some(Number(2)) && Lookup(key, NumberKey(3)) == Some(Number(-7))
    requires Lookup(key, NumberKey(-1)) == Some(Number(1))
    ensures
      var x, y := Lookup(key, NumberKey(-2)), Lookup(key, NumberKey(-3));
      var xBytes := x.Some? && x.value.ByteString?;
      var xWhole := xBytes && |x.value.bytes| == 32;
      var yBytes := y.Some? && y.value.ByteString?;
      && (PointOf(key) == Err(NotBytes) <==> !xBytes || (xWhole && !yBytes))
      && (PointOf(key) == Err(WrongLength) <==>
            (xBytes && !xWhole) || (xWhole && yBytes && |y.value.bytes| != 32))
  {
  }

  /** And the refusals, in the order of the checks. */
  lemma Refusals(attestation: Bytes)
    requires AuthenticatorData(attestation).Ok?
    ensures
      var data, r := AuthenticatorData(attestation).value, PublicKey(attestation);
      && (r == Err(TooShort) <==> |data| < 37)
      && (r == Err(NoCredential) <==> |data| >= 37 && data[32] / 64 % 2 == 0)
      && (r == Err(CredentialIdPastEnd) <==>
            |data| >= 37 && data[32] / 64 % 2 == 1
            && (|data| < 55 || 55 + 256 * data[53] + data[54] > |data|))
      && (|data| >= 55 && data[32] / 64 % 2 == 1 && 55 + 256 * data[53] + data[54] <= |data| ==>
            var key := Read(data[55 + 256 * (data[53] as int) + data[54] as int..]);
            && (key.Err? ==> r == Err(Malformed(key.error)))
            && (key.Ok? && !key.value.value.Map? ==> r == Err(NotACoseKey)))
      && (CredentialId(attestation) == Err(NoCredential) <==> |data| < 55 || data[32] / 64 % 2 == 0)
      && (CredentialId(attestation) == Err(CredentialIdPastEnd) <==>
            |data| >= 55 && data[32] / 64 % 2 == 1 && 55 + 256 * data[53] + data[54] > |data|)
  {
  }
}
