/**
 * Checking a passkey assertion. The host's JSON parser, hash and signature check
 * are unknown functions; everything the wallet itself decides is here.
 */
module WebAuthn {
  import opened Base
  import Base64Url

  datatype ClientData = ClientData(challenge: Bytes, ceremony: Bytes)

  datatype Assertion = Assertion(publicKey: Bytes, signature: Bytes, authenticatorData: Bytes, clientData: Bytes)

  datatype Host = Host(
    parse: Bytes -> Option<ClientData>,
    sha256: Bytes -> Bytes,
    verifies: (Bytes, Bytes, Bytes) -> bool)

  datatype WebAuthnError =
    | ClientDataTooLong
    | ClientDataNotJson
    | NotAnAuthentication
    | ChallengeMismatch
    | AuthenticatorDataMalformed
    | UserNotPresent
    | UserNotVerified
    | BackupStateImpossible
    | BadSignature

  const CLIENT_DATA_MAX_LEN := 1024
  const AUTHENTICATOR_DATA_MIN_LEN := 37

  /** "webauthn.get" */
  const SIGN_IN: Bytes := [119, 101, 98, 97, 117, 116, 104, 110, 46, 103, 101, 116]

  /** Refusals in the order the contract numbers them, the host's trap last. */
  function Rank(e: WebAuthnError): nat {
    match e
    case ClientDataTooLong => 20
    case ClientDataNotJson => 21
    case NotAnAuthentication => 22
    case ChallengeMismatch => 23
    case AuthenticatorDataMalformed => 24
    case UserNotPresent => 25
    case UserNotVerified => 26
    case BackupStateImpossible => 27
    case BadSignature => 28
  }

  predicate Flag(flags: byte, weight: nat)
    requires weight > 0
  {
    flags / weight % 2 == 1
  }

  function Parsed(host: Host, a: Assertion): Option<ClientData> {
    host.parse(a.clientData)
  }

  /** What an assertion must satisfy for the refusal e not to apply. */
  predicate Meets(e: WebAuthnError, host: Host, payload: Bytes, a: Assertion) {
    match e
    case ClientDataTooLong => |a.clientData| <= CLIENT_DATA_MAX_LEN
    case ClientDataNotJson => Parsed(host, a).Some?
    case NotAnAuthentication => Parsed(host, a).Some? && Parsed(host, a).value.ceremony == SIGN_IN
    case ChallengeMismatch =>
      Parsed(host, a).Some? && Base64Url.Decode(Parsed(host, a).value.challenge) == Some(payload)
    case AuthenticatorDataMalformed => |a.authenticatorData| >= AUTHENTICATOR_DATA_MIN_LEN
    case UserNotPresent => |a.authenticatorData| > 32 && Flag(a.authenticatorData[32], 1)
    case UserNotVerified => |a.authenticatorData| > 32 && Flag(a.authenticatorData[32], 4)
    case BackupStateImpossible =>
      |a.authenticatorData| > 32 && (Flag(a.authenticatorData[32], 16) ==> Flag(a.authenticatorData[32], 8))
    case BadSignature =>
      host.verifies(a.publicKey, host.sha256(a.authenticatorData + host.sha256(a.clientData)), a.signature)
  }

  ghost predicate Genuine(host: Host, payload: Bytes, a: Assertion) {
    forall e: WebAuthnError :: Meets(e, host, payload, a)
  }

  /** e is the first of the numbered refusals that applies. */
  ghost predicate RefusedFor(e: WebAuthnError, host: Host, payload: Bytes, a: Assertion) {
    && !Meets(e, host, payload, a)
    && forall f: WebAuthnError :: Rank(f) < Rank(e) ==> Meets(f, host, payload, a)
  }

  method Verify(host: Host, payload: Bytes, a: Assertion) returns (r: Option<WebAuthnError>)
    requires |payload| == 32
    ensures r.Some? ==> RefusedFor(r.value, host, payload, a)
    ensures r.None? <==> Genuine(host, payload, a)
  {
    if |a.clientData| > CLIENT_DATA_MAX_LEN {
      return Some(ClientDataTooLong);
    }
    var clientData := host.parse(a.clientData);
    if clientData.None? {
      return Some(ClientDataNotJson);
    }
    if clientData.value.ceremony != SIGN_IN {
      return Some(NotAnAuthentication);
    }
    var expected := new byte[43](_ => 0);
    assert Base64Url.EncodedLength(32) == 43;
    Base64Url.EncodeInto(expected, payload);
    Base64Url.DecodeInvertsEncode(payload, clientData.value.challenge);
    assert expected[..43] == expected[..];
    if clientData.value.challenge != expected[..] {
      return Some(ChallengeMismatch);
    }
    if |a.authenticatorData| < AUTHENTICATOR_DATA_MIN_LEN {
      return Some(AuthenticatorDataMalformed);
    }
    var flags := a.authenticatorData[32];
    if !Flag(flags, 1) {
      return Some(UserNotPresent);
    }
    if !Flag(flags, 4) {
      return Some(UserNotVerified);
    }
    if !Flag(flags, 8) && Flag(flags, 16) {
      return Some(BackupStateImpossible);
    }
    var signed := a.authenticatorData + host.sha256(a.clientData);
    if !host.verifies(a.publicKey, host.sha256(signed), a.signature) {
      return Some(BadSignature);
    }
    r := None;
    forall e: WebAuthnError ensures Meets(e, host, payload, a) {
      match e {
        case BadSignature =>
        case _ =>
      }
    }
  }

  /** An assertion that authorises one transaction is refused, as a mismatch, for every other. */
  lemma OneTransactionOnly(host: Host, payload: Bytes, other: Bytes, a: Assertion)
    requires Genuine(host, payload, a) && other != payload
    ensures RefusedFor(ChallengeMismatch, host, other, a)
    ensures !Genuine(host, other, a)
  {
    assert Meets(ChallengeMismatch, host, payload, a);
    forall f: WebAuthnError | f != ChallengeMismatch ensures Meets(f, host, other, a) {
      assert Meets(f, host, payload, a);
    }
  }

  /** The challenge of an accepted assertion is the one text that spells the payload. */
  lemma ChallengeSpellsPayload(host: Host, payload: Bytes, a: Assertion)
    requires Genuine(host, payload, a)
    ensures Parsed(host, a).Some? && Parsed(host, a).value.challenge == Base64Url.Encode(payload)
  {
    assert Meets(ChallengeMismatch, host, payload, a);
    Base64Url.DecodeInvertsEncode(payload, Parsed(host, a).value.challenge);
  }

  // ---------------------------------------------------------------------
  // The checks, said outright
  // ---------------------------------------------------------------------

  /** The bit at position k, counting from the least. */
  predicate Bit(b: nat, k: nat) {
    if k == 0 then b % 2 == 1 else Bit(b / 2, k - 1)
  }

  lemma FlagsAreBits(flags: byte)
    ensures Flag(flags, 1) <==> Bit(flags, 0)
    ensures Flag(flags, 4) <==> Bit(flags, 2)
    ensures Flag(flags, 8) <==> Bit(flags, 3)
    ensures Flag(flags, 16) <==> Bit(flags, 4)
  {
    assert flags / 2 / 2 == flags / 4 && flags / 4 / 2 == flags / 8 && flags / 8 / 2 == flags / 16;
    assert Bit(flags, 2) <==> Bit(flags / 2, 1);
    assert Bit(flags / 2, 1) <==> Bit(flags / 4, 0);
    assert Bit(flags, 3) <==> Bit(flags / 2, 2);
    assert Bit(flags / 2, 2) <==> Bit(flags / 4, 1);
    assert Bit(flags / 4, 1) <==> Bit(flags / 8, 0);
    assert Bit(flags, 4) <==> Bit(flags / 2, 3);
    assert Bit(flags / 2, 3) <==> Bit(flags / 4, 2);
    assert Bit(flags / 4, 2) <==> Bit(flags / 8, 1);
    assert Bit(flags / 8, 1) <==> Bit(flags / 16, 0);
  }

  predicate Spells(bytes: Bytes, word: string) {
    |bytes| == |word| && forall i | 0 <= i < |word| :: bytes[i] == word[i] as int
  }

  /**
   * One check after the other: at most 1024 bytes, readable, a sign-in, the payload spelled by its challenge,
   * 37 bytes of authenticator data, the user present and verified, no backup without being eligible for it,
   * and the signature. What is refused is refused by the first that fails; the rest is genuine.
   */
  lemma CheckedInOrder(host: Host, payload: Bytes, a: Assertion)
    ensures
      var read := host.parse(a.clientData);
      var short := |a.clientData| <= 1024;
      var readable := short && read.Some?;
      var signIn := readable && Spells(read.value.ceremony, "webauthn.get");
      var matching := signIn && read.value.challenge == Base64Url.Encode(payload);
      var whole := matching && |a.authenticatorData| >= 37;
      var present := whole && Bit(a.authenticatorData[32], 0);
      var verified := present && Bit(a.authenticatorData[32], 2);
      var possible := verified && (Bit(a.authenticatorData[32], 4) ==> Bit(a.authenticatorData[32], 3));
      var signed := possible && host.verifies(
        a.publicKey, host.sha256(a.authenticatorData + host.sha256(a.clientData)), a.signature);
      && (RefusedFor(ClientDataTooLong, host, payload, a) <==> !short)
      && (RefusedFor(ClientDataNotJson, host, payload, a) <==> short && !readable)
      && (RefusedFor(NotAnAuthentication, host, payload, a) <==> readable && !signIn)
      && (RefusedFor(ChallengeMismatch, host, payload, a) <==> signIn && !matching)
      && (RefusedFor(AuthenticatorDataMalformed, host, payload, a) <==> matching && !whole)
      && (RefusedFor(UserNotPresent, host, payload, a) <==> whole && !present)
      && (RefusedFor(UserNotVerified, host, payload, a) <==> present && !verified)
      && (RefusedFor(BackupStateImpossible, host, payload, a) <==> verified && !possible)
      && (RefusedFor(BadSignature, host, payload, a) <==> possible && !signed)
      && (Genuine(host, payload, a) <==> signed)
  {
    if host.parse(a.clientData).Some? {
      Base64Url.DecodeInvertsEncode(payload, host.parse(a.clientData).value.challenge);
      SignInSpelled(host.parse(a.clientData).value.ceremony);
    }
    if |a.authenticatorData| > 32 {
      FlagsAreBits(a.authenticatorData[32]);
    }
  }

  lemma SignInSpelled(ceremony: Bytes)
    ensures ceremony == SIGN_IN <==> Spells(ceremony, "webauthn.get")
  {
    assert Spells(SIGN_IN, "webauthn.get");
    if Spells(ceremony, "webauthn.get") {
      forall i | 0 <= i < |ceremony| ensures ceremony[i] == SIGN_IN[i] {
      }
    }
  }
}
