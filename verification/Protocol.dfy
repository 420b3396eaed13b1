/** Wire records, errors and limits of the rendezvous server. */
module Protocol {
  import opened Prelude

  datatype RelayError =
    | Disabled
    | Unauthorized
    | InvalidRegistration
    | InvalidAccount
    | InvalidTicketRequest
    | NotFound
    | Expired
    | AlreadyClaimed
    | CapacityExceeded
    | InvalidOpaqueEnvelope
    | PeerClosed
    | Internal

  const TICKET_REQUEST_PROTOCOL: Str := Ascii("hypercast-ticket-request/1")
  const HOST_REGISTRATION_PROTOCOL: Str := Ascii("hypercast-host-registration/1")
  const SESSION_REQUEST_PROTOCOL: Str := Ascii("hypercast-session-request/1")
  const SESSION_COMPLETION_PROTOCOL: Str := Ascii("hypercast-session-completion/1")

  // Durations are in milliseconds.
  const MAX_TICKET_TTL := 5 * 60 * 1000
  const MAX_HOST_LEASE := 10 * 60 * 1000
  const MAX_PENDING_SESSIONS_PER_HOST := 8
  const MAX_P2P_SDP_BYTES := 64 * 1024
  const PERSISTED_STATE_VERSION := 1
  const MAX_PERSISTED_STATE_BYTES := 16 * 1024 * 1024
  const MAX_PERSISTED_MAILBOXES := 4096
  const MAX_PERSISTED_TICKETS := 4096
  const MAX_PERSISTED_NONCES := 16384

  datatype HostRegistrationRequest = HostRegistrationRequest(
    protocol: Str,
    hostPublicKey: Str,
    hostFingerprint: Str,
    registrationNonce: Str,
    expires: U64,
    signature: Str,
    account: Option<Str>)

  datatype ClientSessionRequest = ClientSessionRequest(
    protocol: Str,
    logicalSessionId: Str,
    hostFingerprint: Str,
    clientPublicKey: Str,
    clientFingerprint: Str,
    requestNonce: Str,
    expires: U64,
    clientSignature: Str,
    clientEphemeralPublicKey: Str,
    clientChallenge: Str,
    clientHandshakeSignature: Str,
    p2pOfferSdp: Option<Str>,
    p2pOfferSignature: Option<Str>)

  /** What the server offers a polling host. */
  datatype PendingSession = PendingSession(
    requestId: Str,
    protocol: Str,
    logicalSessionId: Str,
    hostPublicKey: Str,
    hostFingerprint: Str,
    clientPublicKey: Str,
    clientFingerprint: Str,
    requestNonce: Str,
    expires: U64,
    clientSignature: Str,
    clientEphemeralPublicKey: Str,
    clientChallenge: Str,
    clientHandshakeSignature: Str,
    p2pOfferSdp: Option<Str>,
    p2pOfferSignature: Option<Str>)

  datatype HostSessionCompletion = HostSessionCompletion(
    protocol: Str,
    hostSignature: Str,
    hostEphemeralPublicKey: Str,
    hostChallenge: Str,
    hostHandshakeSignature: Str,
    p2pAnswerSdp: Option<Str>,
    p2pAnswerSignature: Option<Str>)

  datatype CreateTicketRequest = CreateTicketRequest(
    protocol: Str,
    logicalSessionId: Str,
    hostPublicKey: Str,
    clientPublicKey: Str,
    hostFingerprint: Str,
    clientFingerprint: Str,
    requestNonce: Str,
    expires: U64,
    hostSignature: Str,
    clientSignature: Str)

  datatype HostHandshake = HostHandshake(
    hostEphemeralPublicKey: Str,
    hostChallenge: Str,
    hostHandshakeSignature: Str,
    p2pAnswerSdp: Option<Str>,
    p2pAnswerSignature: Option<Str>)

  datatype TicketResponse = TicketResponse(ticketId: Str, relayUrl: Str, expires: nat)

  datatype SessionReady = SessionReady(ticket: TicketResponse, handshake: HostHandshake)

  datatype Config = Config(
    enabled: bool,
    ticketTtl: nat,
    publicRelayUrl: Str,
    stateFile: bool)
}

/** The `validate_*` and `authorize_*` deciders, with their checks in the server's order. */
module Validation {
  import opened Prelude
  import opened Crypto
  import opened Protocol
  import opened Transcripts
  import opened Rules
  import Hex
  import KitHex

  const FINGERPRINT_PREFIX: Str := [115, 104, 97, 50, 53, 54, 58]  // "sha256:"

  predicate IsFingerprint(value: Str) {
    |value| == 71 && value[..7] == FINGERPRINT_PREFIX && Hex.AllLowerHex(value[7..])
  }

  function Fingerprint(c: Primitives, key: Bytes): Str {
    FINGERPRINT_PREFIX + Hex.Encode(c.sha256(key))
  }

  lemma FingerprintIsFingerprint(c: Primitives, key: Bytes)
    ensures IsFingerprint(Fingerprint(c, key))
  {
    assert Fingerprint(c, key)[7..] == Hex.Encode(c.sha256(key));
  }

  /** A key's fingerprint is the only string that names it. */
  lemma FingerprintNames(c: Primitives, fingerprint: Str, key: Bytes)
    ensures fingerprint == Fingerprint(c, key) <==> NamesKey(c, fingerprint, key)
  {
    PrefixSpelled();
    if fingerprint == Fingerprint(c, key) {
      assert fingerprint[7..] == Hex.Encode(c.sha256(key));
      Hex.DecodesExactlyItsEncoding(fingerprint[7..], 32, 32, c.sha256(key));
    }
    if NamesKey(c, fingerprint, key) {
      Hex.DecodesExactlyItsEncoding(fingerprint[7..], 32, 32, c.sha256(key));
      assert fingerprint == fingerprint[..7] + fingerprint[7..];
    }
    hide Hex.DecodeVec, Hex.Encode;
  }

  lemma PrefixSpelled()
    ensures FINGERPRINT_PREFIX == Ascii("sha256:")
  {
  }

  /** The format test of `load`. */
  lemma FingerprintFormat(value: Str)
    ensures IsFingerprint(value)
       <==> |value| == 71 && value[..7] == Ascii("sha256:") && Hex.Decode(value[7..], 32).Some?
  {
    PrefixSpelled();
  }

  lemma NamedIsFingerprint(c: Primitives, fingerprint: Str, key: Bytes)
    requires NamesKey(c, fingerprint, key)
    ensures IsFingerprint(fingerprint)
  {
    FingerprintNames(c, fingerprint, key);
    FingerprintIsFingerprint(c, key);
  }

  /** `now < expires <= now + span`, the addition saturating. */
  predicate InWindow(expires: U64, now: U64, span: nat) {
    now < expires <= SaturatingAdd(now, span)
  }

  /** Saturation makes no difference. */
  lemma WindowMeans(expires: U64, now: U64)
    ensures InWindow(expires, now, MAX_TICKET_TTL) <==> InTicketTime(expires, now)
    ensures InWindow(expires, now, MAX_HOST_LEASE) <==> InLease(expires, now)
  {
  }

  function AuthorizeMailbox(c: Primitives, mailboxId: Str, token: Str): Result<Bytes32, RelayError> {
    var bytes :- Hex.Decode(token, 32).OkOr(Unauthorized);
    var _ :- Need(mailboxId == MailboxIdForToken(c, bytes), Unauthorized);
    Success(bytes)
  }

  lemma AuthorizedOwnsId(c: Primitives, mailboxId: Str, token: Str)
    ensures AuthorizeMailbox(c, mailboxId, token).Success? <==> OwnsId(c, mailboxId, token)
    ensures AuthorizeMailbox(c, mailboxId, token).Failure? ==>
              AuthorizeMailbox(c, mailboxId, token).error == Unauthorized
  {
    if Hex.Decode(token, 32).Some? {
      var digest := c.sha256(MAILBOX_ID_MAGIC + Hex.Decode(token, 32).value);
      Hex.DecodesExactlyItsEncoding(mailboxId, 32, 32, digest);
    }
    hide Hex.DecodeVec, Hex.Encode;
  }

  const DEFAULT_ACCOUNT: Str := Ascii("default")

  predicate IsAccountByte(b: Byte) {
    48 <= b <= 57 || 65 <= b <= 90 || 97 <= b <= 122 || b == 45 || b == 95
  }

  predicate IsAccountName(name: Str) {
    0 < |name| <= 64 && forall i :: 0 <= i < |name| ==> IsAccountByte(name[i])
  }

  function NormalizeAccount(raw: Option<Str>): Result<Str, RelayError> {
    var name := if raw.Some? then raw.value else DEFAULT_ACCOUNT;
    if IsAccountName(name) then Success(name) else Failure(InvalidAccount)
  }

  lemma AccountBytes(name: Str)
    ensures (forall i :: 0 <= i < |name| ==> IsAccountByte(name[i])) <==> forall b <- name :: IsAccountByte(b)
  {
    if forall i :: 0 <= i < |name| ==> IsAccountByte(name[i]) {
      forall b <- name ensures IsAccountByte(b) {
        var i :| 0 <= i < |name| && name[i] == b;
      }
    } else {
      var i :| 0 <= i < |name| && !IsAccountByte(name[i]);
      assert name[i] in name;
    }
  }

  lemma AccountByte(b: Byte)
    ensures IsAccountByte(b) <==>
      Between(b, 'A', 'Z') || Between(b, 'a', 'z') || Between(b, '0', '9') || b == '-' as int || b == '_' as int
  {
  }

  lemma AccountIsLegal(raw: Option<Str>)
    ensures var name := if raw.Some? then raw.value else Ascii("default");
      NormalizeAccount(raw) == if LegalAccount(name) then Success(name) else Failure(InvalidAccount)
  {
    var name := if raw.Some? then raw.value else DEFAULT_ACCOUNT;
    AccountBytes(name);
    forall b <- name ensures IsAccountByte(b) <==>
      Between(b, 'A', 'Z') || Between(b, 'a', 'z') || Between(b, '0', '9') || b == '-' as int || b == '_' as int
    {
      AccountByte(b);
    }
    hide IsAccountByte, Between;
  }

  datatype ValidatedHostRegistration = ValidatedHostRegistration(hostKey: Bytes, validFor: nat)

  function ValidateHostRegistration(c: Primitives, mailboxId: Str, r: HostRegistrationRequest, now: U64)
    : (v: Result<ValidatedHostRegistration, RelayError>)
    ensures v.Success? ==>
      && Hex.Decode(mailboxId, 32).Some?
      && |v.value.hostKey| == 32
      && r.hostFingerprint == Fingerprint(c, v.value.hostKey)
      && InWindow(r.expires, now, MAX_HOST_LEASE)
      && now + v.value.validFor == r.expires
  {
    var _ :- Need(r.protocol == HOST_REGISTRATION_PROTOCOL && IsFingerprint(r.hostFingerprint), InvalidRegistration);
    var mailbox :- Hex.Decode(mailboxId, 32).OkOr(InvalidRegistration);
    var hostKey :- Hex.DecodeVec(r.hostPublicKey, 32, 32).OkOr(InvalidRegistration);
    var _ :- Need(Fingerprint(c, hostKey) == r.hostFingerprint, InvalidRegistration);
    var nonce :- Hex.Decode(r.registrationNonce, 32).OkOr(InvalidRegistration);
    var signature :- Hex.DecodeVec(r.signature, 64, 64).OkOr(InvalidRegistration);
    var _ :- Need(InWindow(r.expires, now, MAX_HOST_LEASE), InvalidRegistration);
    KitHex.AgreesWithServer(mailboxId, 32);
    var transcript := Layout(HostRegistration(KitHex.DecodeAnyCase(mailboxId, 32).value, r.expires, nonce,
                                              c.sha256(hostKey)));
    var _ :- Need(c.ed25519(hostKey, transcript, signature), Unauthorized);
    Success(ValidatedHostRegistration(hostKey, r.expires - now))
  }

  /** A registration is refused exactly for its faults. The kit's decoding of the mailbox id,
      which the signed bytes are built with, never fails and never differs from the server's. */
  lemma RegistrationRefusedForFaults(c: Primitives, mailboxId: Str, r: HostRegistrationRequest, now: U64)
    ensures match RegistrationFault(c, mailboxId, r, now)
      case Some(error) => ValidateHostRegistration(c, mailboxId, r, now) == Failure(error)
      case None =>
        && ValidateHostRegistration(c, mailboxId, r, now).Success?
        && Some(ValidateHostRegistration(c, mailboxId, r, now).value.hostKey) == Hex.Decode(r.hostPublicKey, 32)
  {
    WindowMeans(r.expires, now);
    if Hex.Decode(r.hostPublicKey, 32).Some? {
      FingerprintNames(c, r.hostFingerprint, Hex.Decode(r.hostPublicKey, 32).value);
      FingerprintIsFingerprint(c, Hex.Decode(r.hostPublicKey, 32).value);
    }
    if Hex.Decode(mailboxId, 32).Some? {
      KitHex.AgreesWithServer(mailboxId, 32);
    }
    hide Layout, Fingerprint, IsFingerprint, Hex.DecodeVec, NamesKey, InWindow, InLease, KitHex.Lower;
  }

  function ValidateP2pSdp(sdp: Str): Result<(), RelayError> {
    Need(sdp != [] && |sdp| <= MAX_P2P_SDP_BYTES
         && ([118, 61, 48, 13, 10] <= sdp || [118, 61, 48, 10] <= sdp)
         && 0 !in sdp,
         InvalidTicketRequest)
  }

  lemma SdpIsLegal(sdp: Str)
    ensures ValidateP2pSdp(sdp) == if LegalSdp(sdp) then Success(()) else Failure(InvalidTicketRequest)
  {
    assert Ascii("v=0\r\n") == [118, 61, 48, 13, 10] && Ascii("v=0\n") == [118, 61, 48, 10];
    if LegalSdp(sdp) {
      assert 0 !in sdp;
    }
  }

  function ValidateClientP2pOffer(c: Primitives, r: ClientSessionRequest, session: Bytes16, hostKey: Bytes,
                                  clientKey: Bytes, nonce: Bytes32): Result<(), RelayError>
  {
    match (r.p2pOfferSdp, r.p2pOfferSignature)
    case (None, None) => Success(())
    case (Some(offer), Some(signatureHex)) =>
      var _ :- ValidateP2pSdp(offer);
      var signature :- Hex.DecodeVec(signatureHex, 64, 80).OkOr(InvalidTicketRequest);
      var transcript := Layout(P2pOffer(session, c.sha256(offer), c.sha256(hostKey), c.sha256(clientKey), nonce));
      Need(c.p256(clientKey, transcript, signature), Unauthorized)
    case _ => Failure(InvalidTicketRequest)
  }

  /** `validate_client_session_request`, with the outcome of its clock test as an argument. */
  function CheckClientRequest(c: Primitives, r: ClientSessionRequest, hostKey: Bytes, hostFingerprint: Str,
                              timely: bool): Result<(), RelayError>
  {
    var _ :- Need(r.protocol == SESSION_REQUEST_PROTOCOL, InvalidTicketRequest);
    var _ :- Need(r.hostFingerprint == hostFingerprint, InvalidTicketRequest);
    var _ :- Need(IsFingerprint(r.clientFingerprint), InvalidTicketRequest);
    var _ :- Need(r.clientFingerprint != hostFingerprint, InvalidTicketRequest);
    var session :- Hex.Decode(r.logicalSessionId, 16).OkOr(InvalidTicketRequest);
    var clientKey :- Hex.DecodeVec(r.clientPublicKey, 64, 256).OkOr(InvalidTicketRequest);
    var _ :- Need(Fingerprint(c, clientKey) == r.clientFingerprint, InvalidTicketRequest);
    var nonce :- Hex.Decode(r.requestNonce, 32).OkOr(InvalidTicketRequest);
    var signature :- Hex.DecodeVec(r.clientSignature, 64, 80).OkOr(InvalidTicketRequest);
    var ephemeral :- Hex.DecodeVec(r.clientEphemeralPublicKey, 64, 256).OkOr(InvalidTicketRequest);
    var challenge :- Hex.Decode(r.clientChallenge, 32).OkOr(InvalidTicketRequest);
    var handshakeSignature :- Hex.DecodeVec(r.clientHandshakeSignature, 64, 80).OkOr(InvalidTicketRequest);
    var _ :- Need(timely, InvalidTicketRequest);
    var transcript := Layout(TicketRequest(session, r.expires, nonce, c.sha256(hostKey), c.sha256(clientKey)));
    var _ :- Need(c.p256(clientKey, transcript, signature), Unauthorized);
    var offer := Layout(HandshakeOffer(session, c.sha256(hostKey), c.sha256(clientKey), c.sha256(ephemeral),
                                       challenge, nonce));
    var _ :- Need(c.p256(clientKey, offer, handshakeSignature), Unauthorized);
    ValidateClientP2pOffer(c, r, session, hostKey, clientKey, nonce)
  }

  function ValidateClientSessionRequest(c: Primitives, r: ClientSessionRequest, hostKey: Bytes,
                                        hostFingerprint: Str, now: U64): Result<(), RelayError>
  {
    CheckClientRequest(c, r, hostKey, hostFingerprint, InWindow(r.expires, now, MAX_TICKET_TTL))
  }

  /** A session request is refused exactly for its faults, in the order of the checks. */
  lemma RequestRefusedForFaults(c: Primitives, r: ClientSessionRequest, hostKey: Bytes, hostFingerprint: Str, now: U64)
    ensures ValidateClientSessionRequest(c, r, hostKey, hostFingerprint, now)
         == match RequestFault(c, r, hostKey, hostFingerprint, now)
            case Some(error) => Failure(error)
            case None => Success(())
  {
    hide Layout, Fingerprint, IsFingerprint, Hex.DecodeVec, NamesKey, InWindow, InTicketTime, LegalSdp, ValidateP2pSdp;
    WindowMeans(r.expires, now);
    if Hex.DecodeVec(r.clientPublicKey, 64, 256).Some? {
      FingerprintNames(c, r.clientFingerprint, Hex.DecodeVec(r.clientPublicKey, 64, 256).value);
      FingerprintIsFingerprint(c, Hex.DecodeVec(r.clientPublicKey, 64, 256).value);
    }
    if r.p2pOfferSdp.Some? {
      SdpIsLegal(r.p2pOfferSdp.value);
    }
  }

  /** It is valid at a time if and only if it is signed throughout and in its window then. */
  lemma ClockTestSplits(c: Primitives, r: ClientSessionRequest, hostKey: Bytes, hostFingerprint: Str, now: U64)
    ensures ValidateClientSessionRequest(c, r, hostKey, hostFingerprint, now).Success?
       <==> SignedRequest(c, r, hostKey, hostFingerprint) && InTicketTime(r.expires, now)
  {
    RequestRefusedForFaults(c, r, hostKey, hostFingerprint, now);
    hide ValidateClientSessionRequest, WellFormedRequest, ClientSigned, WellFormedOffer, OfferSigned;
  }

  function ValidateHostP2pAnswer(c: Primitives, h: HostSessionCompletion, r: ClientSessionRequest, session: Bytes16,
                                 hostKey: Bytes, clientKey: Bytes): Result<(Option<Str>, Option<Str>), RelayError>
  {
    match r.p2pOfferSdp
    case None =>
      var _ :- Need(h.p2pAnswerSdp.None? && h.p2pAnswerSignature.None?, InvalidTicketRequest);
      Success((None, None))
    case Some(offer) =>
      var answer :- h.p2pAnswerSdp.OkOr(InvalidTicketRequest);
      var signatureHex :- h.p2pAnswerSignature.OkOr(InvalidTicketRequest);
      var _ :- ValidateP2pSdp(answer);
      var signature :- Hex.DecodeVec(signatureHex, 64, 64).OkOr(InvalidTicketRequest);
      var transcript := Layout(P2pAnswer(session, c.sha256(offer), c.sha256(answer), c.sha256(hostKey),
                                         c.sha256(clientKey)));
      var _ :- Need(c.ed25519(hostKey, transcript, signature), Unauthorized);
      Success((Some(answer), Some(signatureHex)))
  }

  function ValidateHostSessionCompletion(c: Primitives, h: HostSessionCompletion, r: ClientSessionRequest,
                                         hostKey: Bytes): Result<HostHandshake, RelayError>
  {
    var session :- Hex.Decode(r.logicalSessionId, 16).OkOr(InvalidTicketRequest);
    var clientKey :- Hex.DecodeVec(r.clientPublicKey, 64, 256).OkOr(InvalidTicketRequest);
    var clientEphemeral :- Hex.DecodeVec(r.clientEphemeralPublicKey, 64, 256).OkOr(InvalidTicketRequest);
    var clientChallenge :- Hex.Decode(r.clientChallenge, 32).OkOr(InvalidTicketRequest);
    var hostEphemeral :- Hex.DecodeVec(h.hostEphemeralPublicKey, 64, 256).OkOr(InvalidTicketRequest);
    var hostChallenge :- Hex.Decode(h.hostChallenge, 32).OkOr(InvalidTicketRequest);
    var signature :- Hex.DecodeVec(h.hostHandshakeSignature, 64, 64).OkOr(InvalidTicketRequest);
    var transcript := Layout(Handshake(session, c.sha256(hostKey), c.sha256(clientKey), c.sha256(hostEphemeral),
                                       c.sha256(clientEphemeral), hostChallenge, clientChallenge));
    var _ :- Need(c.ed25519(hostKey, transcript, signature), Unauthorized);
    var answer :- ValidateHostP2pAnswer(c, h, r, session, hostKey, clientKey);
    Success(HostHandshake(h.hostEphemeralPublicKey, h.hostChallenge, h.hostHandshakeSignature, answer.0, answer.1))
  }

  datatype ValidatedTicketRequest = ValidatedTicketRequest(
    hostKey: Bytes,
    clientKey: Bytes,
    nonce: Bytes32,
    validFor: nat)

  function ValidateTicketRequest(c: Primitives, r: CreateTicketRequest, now: U64)
    : Result<ValidatedTicketRequest, RelayError>
  {
    var _ :- Need(r.protocol == TICKET_REQUEST_PROTOCOL && IsFingerprint(r.hostFingerprint)
                  && IsFingerprint(r.clientFingerprint) && r.hostFingerprint != r.clientFingerprint,
                  InvalidTicketRequest);
    var hostKey :- Hex.DecodeVec(r.hostPublicKey, 32, 32).OkOr(InvalidTicketRequest);
    var clientKey :- Hex.DecodeVec(r.clientPublicKey, 64, 256).OkOr(InvalidTicketRequest);
    var session :- Hex.Decode(r.logicalSessionId, 16).OkOr(InvalidTicketRequest);
    var _ :- Need(Fingerprint(c, hostKey) == r.hostFingerprint && Fingerprint(c, clientKey) == r.clientFingerprint,
                  InvalidTicketRequest);
    var nonce :- Hex.Decode(r.requestNonce, 32).OkOr(InvalidTicketRequest);
    var hostSignature :- Hex.DecodeVec(r.hostSignature, 64, 64).OkOr(InvalidTicketRequest);
    var clientSignature :- Hex.DecodeVec(r.clientSignature, 64, 80).OkOr(InvalidTicketRequest);
    var _ :- Need(InWindow(r.expires, now, MAX_TICKET_TTL), InvalidTicketRequest);
    var transcript := Layout(TicketRequest(session, r.expires, nonce, c.sha256(hostKey), c.sha256(clientKey)));
    var _ :- Need(c.ed25519(hostKey, transcript, hostSignature) && c.p256(clientKey, transcript, clientSignature),
                  Unauthorized);
    Success(ValidatedTicketRequest(hostKey, clientKey, nonce, r.expires - now))
  }

  /** What both parties signed to obtain a ticket. */
  datatype Evidence = Evidence(
    session: Bytes16,
    expires: U64,
    nonce: Bytes32,
    hostKey: Bytes,
    clientKey: Bytes,
    hostSignature: Bytes,
    clientSignature: Bytes)

  function TranscriptOf(c: Primitives, e: Evidence): Bytes {
    Layout(TicketRequest(e.session, e.expires, e.nonce, c.sha256(e.hostKey), c.sha256(e.clientKey)))
  }

  /** Both keys verified one HCT1 transcript. */
  predicate Genuine(c: Primitives, e: Evidence) {
    && |e.hostKey| == 32
    && 64 <= |e.clientKey| <= 256
    && |e.hostSignature| == 64
    && 64 <= |e.clientSignature| <= 80
    && c.sha256(e.hostKey) != c.sha256(e.clientKey)
    && c.ed25519(e.hostKey, TranscriptOf(c, e), e.hostSignature)
    && c.p256(e.clientKey, TranscriptOf(c, e), e.clientSignature)
  }

  function EvidenceOf(c: Primitives, r: CreateTicketRequest, now: U64): (e: Evidence)
    requires ValidateTicketRequest(c, r, now).Success?
    ensures Genuine(c, e) && e.expires == r.expires
    ensures InWindow(e.expires, now, MAX_TICKET_TTL)
    ensures ValidateTicketRequest(c, r, now)
         == Success(ValidatedTicketRequest(e.hostKey, e.clientKey, e.nonce, e.expires - now))
  {
    Evidence(Hex.Decode(r.logicalSessionId, 16).value, r.expires, Hex.Decode(r.requestNonce, 32).value,
             Hex.Decode(r.hostPublicKey, 32).value, Hex.DecodeVec(r.clientPublicKey, 64, 256).value,
             Hex.DecodeVec(r.hostSignature, 64, 64).value, Hex.DecodeVec(r.clientSignature, 64, 80).value)
  }

  /** A request whose fields encode what both parties signed is accepted in its window. */
  lemma SignedRequestIsAccepted(c: Primitives, e: Evidence, now: U64)
    requires Genuine(c, e) && InWindow(e.expires, now, MAX_TICKET_TTL)
    ensures ValidateTicketRequest(c, RequestOf(c, e), now).Success?
    ensures EvidenceOf(c, RequestOf(c, e), now) == e
  {
    hide Hex.DecodeVec, Hex.Encode, IsFingerprint, Fingerprint;
    Hex.DecodeEncode(e.session, 16, 16);
    Hex.DecodeEncode(e.nonce, 32, 32);
    Hex.DecodeEncode(e.hostKey, 32, 32);
    Hex.DecodeEncode(e.clientKey, 64, 256);
    Hex.DecodeEncode(e.hostSignature, 64, 64);
    Hex.DecodeEncode(e.clientSignature, 64, 80);
    FingerprintIsFingerprint(c, e.hostKey);
    FingerprintIsFingerprint(c, e.clientKey);
    FingerprintsDiffer(c, e.hostKey, e.clientKey);
  }

  lemma FingerprintsDiffer(c: Primitives, a: Bytes, b: Bytes)
    ensures Fingerprint(c, a) == Fingerprint(c, b) <==> c.sha256(a) == c.sha256(b)
  {
    assert Fingerprint(c, a)[7..] == Hex.Encode(c.sha256(a)) && Fingerprint(c, b)[7..] == Hex.Encode(c.sha256(b));
    if Fingerprint(c, a) == Fingerprint(c, b) {
      Hex.EncodeInjective(c.sha256(a), c.sha256(b));
    }
  }

  function RequestOf(c: Primitives, e: Evidence): CreateTicketRequest {
    CreateTicketRequest(TICKET_REQUEST_PROTOCOL, Hex.Encode(e.session), Hex.Encode(e.hostKey), Hex.Encode(e.clientKey),
                        Fingerprint(c, e.hostKey), Fingerprint(c, e.clientKey), Hex.Encode(e.nonce), e.expires,
                        Hex.Encode(e.hostSignature), Hex.Encode(e.clientSignature))
  }

  /** A ticket request is valid if and only if it is the canonical encoding of genuine evidence
      in its window; the evidence is then unique. */
  lemma ValidIffEncodesEvidence(c: Primitives, r: CreateTicketRequest, now: U64, e: Evidence)
    ensures ValidateTicketRequest(c, r, now).Success? && EvidenceOf(c, r, now) == e
       <==> Genuine(c, e) && InWindow(e.expires, now, MAX_TICKET_TTL) && r == RequestOf(c, e)
  {
    if ValidateTicketRequest(c, r, now).Success? && EvidenceOf(c, r, now) == e {
      Hex.DecodesExactlyItsEncoding(r.logicalSessionId, 16, 16, e.session);
      Hex.DecodesExactlyItsEncoding(r.requestNonce, 32, 32, e.nonce);
      Hex.DecodesExactlyItsEncoding(r.hostPublicKey, 32, 32, e.hostKey);
      Hex.DecodesExactlyItsEncoding(r.clientPublicKey, 64, 256, e.clientKey);
      Hex.DecodesExactlyItsEncoding(r.hostSignature, 64, 64, e.hostSignature);
      Hex.DecodesExactlyItsEncoding(r.clientSignature, 64, 80, e.clientSignature);
      hide Hex.DecodeVec, Hex.Encode, IsFingerprint, Fingerprint, Layout;
    } else if Genuine(c, e) && InWindow(e.expires, now, MAX_TICKET_TTL) && r == RequestOf(c, e) {
      hide *;
      SignedRequestIsAccepted(c, e, now);
    }
  }

  /** The ticket request that `complete_session_request` assembles. */
  function TicketRequestFor(r: ClientSessionRequest, h: HostSessionCompletion, hostKey: Bytes, hostFingerprint: Str)
    : CreateTicketRequest
  {
    CreateTicketRequest(TICKET_REQUEST_PROTOCOL, r.logicalSessionId, Hex.Encode(hostKey), r.clientPublicKey,
                        hostFingerprint, r.clientFingerprint, r.requestNonce, r.expires, h.hostSignature,
                        r.clientSignature)
  }

  /** A ticket request is refused exactly for its faults. */
  lemma TicketRequestRefusedForFaults(c: Primitives, r: CreateTicketRequest, now: U64)
    ensures match TicketRequestFault(c, r, now)
      case Some(error) => ValidateTicketRequest(c, r, now) == Failure(error)
      case None => ValidateTicketRequest(c, r, now).Success?
  {
    hide Layout, Fingerprint, IsFingerprint, Hex.DecodeVec, NamesKey, InWindow, InTicketTime;
    WindowMeans(r.expires, now);
    if Hex.Decode(r.hostPublicKey, 32).Some? {
      FingerprintNames(c, r.hostFingerprint, Hex.Decode(r.hostPublicKey, 32).value);
      FingerprintIsFingerprint(c, Hex.Decode(r.hostPublicKey, 32).value);
    }
    if Hex.DecodeVec(r.clientPublicKey, 64, 256).Some? {
      FingerprintNames(c, r.clientFingerprint, Hex.DecodeVec(r.clientPublicKey, 64, 256).value);
      FingerprintIsFingerprint(c, Hex.DecodeVec(r.clientPublicKey, 64, 256).value);
    }
  }

  /** The server accepts a completion exactly when the handshake it carries is genuine, and
      returns that handshake unchanged. */
  lemma CompletionAcceptedIffGenuine(c: Primitives, h: HostSessionCompletion, r: ClientSessionRequest, hostKey: Bytes)
    ensures ValidateHostSessionCompletion(c, h, r, hostKey).Success?
       <==> GenuineHandshake(c, r, hostKey, Offered(h))
    ensures ValidateHostSessionCompletion(c, h, r, hostKey).Success?
        ==> ValidateHostSessionCompletion(c, h, r, hostKey).value == Offered(h)
    ensures Answerable(r) && ValidateHostSessionCompletion(c, h, r, hostKey).Failure? ==>
      Some(ValidateHostSessionCompletion(c, h, r, hostKey).error)
        == if !WellFormedHandshake(Offered(h)) then Some(InvalidTicketRequest)
           else if !HandshakeSigned(c, r, hostKey, Offered(h)) then Some(Unauthorized)
           else if !WellFormedAnswer(r, Offered(h)) then Some(InvalidTicketRequest)
           else Some(Unauthorized)
  {
    if h.p2pAnswerSdp.Some? {
      SdpIsLegal(h.p2pAnswerSdp.value);
    }
    hide Layout, Hex.DecodeVec, LegalSdp, ValidateP2pSdp;
  }

  /** Every check that completion repeats on a sound stored request passes again: what is left
      is the clock and what the host supplies. */
  lemma StoredRequestRevalidates(c: Primitives, r: ClientSessionRequest, h: HostSessionCompletion, hostKey: Bytes,
                                 hostFingerprint: Str, now: U64)
    requires |hostKey| == 32 && NamesKey(c, hostFingerprint, hostKey)
    requires SignedRequest(c, r, hostKey, hostFingerprint)
    ensures var validated := ValidateTicketRequest(c, TicketRequestFor(r, h, hostKey, hostFingerprint), now);
      if Hex.Decode(h.hostSignature, 64).None? || !InTicketTime(r.expires, now)
      then validated == Failure(InvalidTicketRequest)
      else if !HostSigned(c, r, hostKey, h.hostSignature) then validated == Failure(Unauthorized)
      else validated.Success? && Some(validated.value.nonce) == Hex.Decode(r.requestNonce, 32)
  {
    hide Layout, Hex.DecodeVec, Hex.Encode, LegalSdp, NamesKey, InTicketTime, IsFingerprint, Fingerprint;
    TicketRequestRefusedForFaults(c, TicketRequestFor(r, h, hostKey, hostFingerprint), now);
    Hex.DecodeEncode(hostKey, 32, 32);
  }

  /** All the checks of a completion: it is refused exactly for the faults of the host or the
      clock. */
  lemma CompletionRefusedForFaults(c: Primitives, r: ClientSessionRequest, h: HostSessionCompletion, hostKey: Bytes,
                                   hostFingerprint: Str, now: U64)
    requires |hostKey| == 32 && NamesKey(c, hostFingerprint, hostKey)
    requires SignedRequest(c, r, hostKey, hostFingerprint)
    ensures var handshake := ValidateHostSessionCompletion(c, h, r, hostKey);
      var validated := ValidateTicketRequest(c, TicketRequestFor(r, h, hostKey, hostFingerprint), now);
      match CompletionFault(c, r, hostKey, h, now)
      case Some(error) => handshake == Failure(error) || (handshake.Success? && validated == Failure(error))
      case None =>
        && handshake == Success(Offered(h)) && validated.Success?
        && Some(validated.value.nonce) == Hex.Decode(r.requestNonce, 32)
  {
    hide ValidateHostSessionCompletion, ValidateTicketRequest, WellFormedHandshake, HandshakeSigned, WellFormedAnswer,
      AnswerSigned, HostSigned, NamesKey, Hex.DecodeVec, InTicketTime;
    CompletionAcceptedIffGenuine(c, h, r, hostKey);
    StoredRequestRevalidates(c, r, h, hostKey, hostFingerprint, now);
  }
}
