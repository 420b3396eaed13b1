/** What the server demands of its callers, in its own terms: the rules that the checks in
    Validation and the operations are held against. Nothing here refers to them. */
module Rules {
  import opened Prelude
  import opened Crypto
  import opened Protocol
  import opened Transcripts
  import Hex

  /** "sha256:" and the lower-case digest of the key. */
  predicate NamesKey(c: Primitives, fingerprint: Str, key: Bytes) {
    && |fingerprint| == 71 && fingerprint[..7] == Ascii("sha256:")
    && Hex.Decode(fingerprint[7..], 32) == Some(c.sha256(key))
  }

  /** The mailbox id is the digest of the token under a fixed prefix. */
  predicate OwnsId(c: Primitives, mailboxId: Str, token: Str) {
    && Hex.Decode(token, 32).Some?
    && Hex.Decode(mailboxId, 32)
       == Some(c.sha256(Ascii("hypercast-rendezvous-mailbox/1") + Hex.Decode(token, 32).value))
  }

  /** What every operation on a mailbox demands first. */
  predicate Authorized(cfg: Config, c: Primitives, mailboxId: Str, token: Str) {
    cfg.enabled && OwnsId(c, mailboxId, token)
  }

  predicate Between(b: Byte, first: char, last: char) {
    first as int <= b <= last as int
  }

  /** Up to 64 letters, digits, hyphens and underscores. */
  predicate LegalAccount(name: Str) {
    && 1 <= |name| <= 64
    && forall b <- name ::
         Between(b, 'A', 'Z') || Between(b, 'a', 'z') || Between(b, '0', '9') || b == '-' as int || b == '_' as int
  }

  predicate LegalSdp(sdp: Str) {
    && 1 <= |sdp| <= 65536
    && (Ascii("v=0\r\n") <= sdp || Ascii("v=0\n") <= sdp)
    && forall i :: 0 <= i < |sdp| ==> sdp[i] != 0
  }

  // ---- Registrations ----

  predicate WellFormedRegistration(c: Primitives, mailboxId: Str, r: HostRegistrationRequest) {
    && r.protocol == Ascii("hypercast-host-registration/1")
    && Hex.Decode(mailboxId, 32).Some?
    && Hex.Decode(r.hostPublicKey, 32).Some?
    && NamesKey(c, r.hostFingerprint, Hex.Decode(r.hostPublicKey, 32).value)
    && Hex.Decode(r.registrationNonce, 32).Some?
    && Hex.Decode(r.signature, 64).Some?
  }

  /** A registration that its host key signed for this mailbox. */
  predicate SignedRegistration(c: Primitives, mailboxId: Str, r: HostRegistrationRequest) {
    && WellFormedRegistration(c, mailboxId, r)
    && (var hostKey := Hex.Decode(r.hostPublicKey, 32).value;
        c.ed25519(hostKey,
                  Layout(HostRegistration(Hex.Decode(mailboxId, 32).value, r.expires,
                                          Hex.Decode(r.registrationNonce, 32).value, c.sha256(hostKey))),
                  Hex.Decode(r.signature, 64).value))
  }

  /** Ten minutes at most. */
  predicate InLease(expires: U64, now: U64) {
    now < expires <= now + 600000
  }

  /** The error that a registration is refused with, if its content is at fault. */
  function RegistrationFault(c: Primitives, mailboxId: Str, r: HostRegistrationRequest, now: U64): Option<RelayError> {
    if !WellFormedRegistration(c, mailboxId, r) || !InLease(r.expires, now) then Some(InvalidRegistration)
    else if !SignedRegistration(c, mailboxId, r) then Some(Unauthorized)
    else None
  }

  // ---- Session requests ----

  /** Five minutes at most. */
  predicate InTicketTime(expires: U64, now: U64) {
    now < expires <= now + 300000
  }

  predicate WellFormedRequest(c: Primitives, r: ClientSessionRequest, hostFingerprint: Str) {
    && r.protocol == Ascii("hypercast-session-request/1")
    && r.hostFingerprint == hostFingerprint
    && Hex.Decode(r.logicalSessionId, 16).Some?
    && Hex.DecodeVec(r.clientPublicKey, 64, 256).Some?
    && NamesKey(c, r.clientFingerprint, Hex.DecodeVec(r.clientPublicKey, 64, 256).value)
    && r.clientFingerprint != hostFingerprint
    && Hex.Decode(r.requestNonce, 32).Some?
    && Hex.DecodeVec(r.clientSignature, 64, 80).Some?
    && Hex.DecodeVec(r.clientEphemeralPublicKey, 64, 256).Some?
    && Hex.Decode(r.clientChallenge, 32).Some?
    && Hex.DecodeVec(r.clientHandshakeSignature, 64, 80).Some?
  }

  /** The client signed the ticket request and the handshake offer. */
  predicate ClientSigned(c: Primitives, r: ClientSessionRequest, hostKey: Bytes, hostFingerprint: Str)
    requires WellFormedRequest(c, r, hostFingerprint)
  {
    var session, nonce := Hex.Decode(r.logicalSessionId, 16).value, Hex.Decode(r.requestNonce, 32).value;
    var clientKey := Hex.DecodeVec(r.clientPublicKey, 64, 256).value;
    var ephemeral := Hex.DecodeVec(r.clientEphemeralPublicKey, 64, 256).value;
    && c.p256(clientKey, Layout(TicketRequest(session, r.expires, nonce, c.sha256(hostKey), c.sha256(clientKey))),
              Hex.DecodeVec(r.clientSignature, 64, 80).value)
    && c.p256(clientKey,
              Layout(HandshakeOffer(session, c.sha256(hostKey), c.sha256(clientKey), c.sha256(ephemeral),
                                    Hex.Decode(r.clientChallenge, 32).value, nonce)),
              Hex.DecodeVec(r.clientHandshakeSignature, 64, 80).value)
  }

  /** There is no offer, or a legal one with a signature. */
  predicate WellFormedOffer(r: ClientSessionRequest) {
    && (r.p2pOfferSdp.Some? <==> r.p2pOfferSignature.Some?)
    && (r.p2pOfferSdp.Some? ==>
          LegalSdp(r.p2pOfferSdp.value) && Hex.DecodeVec(r.p2pOfferSignature.value, 64, 80).Some?)
  }

  predicate OfferSigned(c: Primitives, r: ClientSessionRequest, hostKey: Bytes, hostFingerprint: Str)
    requires WellFormedRequest(c, r, hostFingerprint) && WellFormedOffer(r)
  {
    var clientKey := Hex.DecodeVec(r.clientPublicKey, 64, 256).value;
    r.p2pOfferSdp.Some? ==>
      c.p256(clientKey,
             Layout(P2pOffer(Hex.Decode(r.logicalSessionId, 16).value, c.sha256(r.p2pOfferSdp.value),
                             c.sha256(hostKey), c.sha256(clientKey), Hex.Decode(r.requestNonce, 32).value)),
             Hex.DecodeVec(r.p2pOfferSignature.value, 64, 80).value)
  }

  /** A session request in order at whatever time: every field, fingerprint and signature. */
  predicate SignedRequest(c: Primitives, r: ClientSessionRequest, hostKey: Bytes, hostFingerprint: Str) {
    && WellFormedRequest(c, r, hostFingerprint)
    && ClientSigned(c, r, hostKey, hostFingerprint)
    && WellFormedOffer(r)
    && OfferSigned(c, r, hostKey, hostFingerprint)
  }

  function RequestFault(c: Primitives, r: ClientSessionRequest, hostKey: Bytes, hostFingerprint: Str, now: U64)
    : Option<RelayError>
  {
    if !WellFormedRequest(c, r, hostFingerprint) || !InTicketTime(r.expires, now) then Some(InvalidTicketRequest)
    else if !ClientSigned(c, r, hostKey, hostFingerprint) then Some(Unauthorized)
    else if !WellFormedOffer(r) then Some(InvalidTicketRequest)
    else if !OfferSigned(c, r, hostKey, hostFingerprint) then Some(Unauthorized)
    else None
  }

  // ---- Ticket requests ----

  predicate WellFormedTicketRequest(c: Primitives, r: CreateTicketRequest) {
    && r.protocol == Ascii("hypercast-ticket-request/1")
    && Hex.Decode(r.hostPublicKey, 32).Some?
    && Hex.DecodeVec(r.clientPublicKey, 64, 256).Some?
    && NamesKey(c, r.hostFingerprint, Hex.Decode(r.hostPublicKey, 32).value)
    && NamesKey(c, r.clientFingerprint, Hex.DecodeVec(r.clientPublicKey, 64, 256).value)
    && r.hostFingerprint != r.clientFingerprint
    && Hex.Decode(r.logicalSessionId, 16).Some?
    && Hex.Decode(r.requestNonce, 32).Some?
    && Hex.Decode(r.hostSignature, 64).Some?
    && Hex.DecodeVec(r.clientSignature, 64, 80).Some?
  }

  /** Both parties signed it. */
  predicate SignedTicketRequest(c: Primitives, r: CreateTicketRequest) {
    && WellFormedTicketRequest(c, r)
    && (var hostKey := Hex.Decode(r.hostPublicKey, 32).value;
        var clientKey := Hex.DecodeVec(r.clientPublicKey, 64, 256).value;
        var message := Layout(TicketRequest(Hex.Decode(r.logicalSessionId, 16).value, r.expires,
                                            Hex.Decode(r.requestNonce, 32).value, c.sha256(hostKey),
                                            c.sha256(clientKey)));
        && c.ed25519(hostKey, message, Hex.Decode(r.hostSignature, 64).value)
        && c.p256(clientKey, message, Hex.DecodeVec(r.clientSignature, 64, 80).value))
  }

  function TicketRequestFault(c: Primitives, r: CreateTicketRequest, now: U64): Option<RelayError> {
    if !WellFormedTicketRequest(c, r) || !InTicketTime(r.expires, now) then Some(InvalidTicketRequest)
    else if !SignedTicketRequest(c, r) then Some(Unauthorized)
    else None
  }

  // ---- Completions ----

  /** The part of a completion the host supplies, copied into a handshake. */
  function Offered(h: HostSessionCompletion): HostHandshake {
    HostHandshake(h.hostEphemeralPublicKey, h.hostChallenge, h.hostHandshakeSignature, h.p2pAnswerSdp,
                  h.p2pAnswerSignature)
  }

  /** What a handshake repeats of the request. */
  predicate Answerable(r: ClientSessionRequest) {
    && Hex.Decode(r.logicalSessionId, 16).Some?
    && Hex.DecodeVec(r.clientPublicKey, 64, 256).Some?
    && Hex.DecodeVec(r.clientEphemeralPublicKey, 64, 256).Some?
    && Hex.Decode(r.clientChallenge, 32).Some?
  }

  predicate WellFormedHandshake(h: HostHandshake) {
    && Hex.DecodeVec(h.hostEphemeralPublicKey, 64, 256).Some?
    && Hex.Decode(h.hostChallenge, 32).Some?
    && Hex.Decode(h.hostHandshakeSignature, 64).Some?
  }

  predicate HandshakeSigned(c: Primitives, r: ClientSessionRequest, hostKey: Bytes, h: HostHandshake)
    requires Answerable(r) && WellFormedHandshake(h)
  {
    c.ed25519(hostKey,
              Layout(Handshake(Hex.Decode(r.logicalSessionId, 16).value, c.sha256(hostKey),
                               c.sha256(Hex.DecodeVec(r.clientPublicKey, 64, 256).value),
                               c.sha256(Hex.DecodeVec(h.hostEphemeralPublicKey, 64, 256).value),
                               c.sha256(Hex.DecodeVec(r.clientEphemeralPublicKey, 64, 256).value),
                               Hex.Decode(h.hostChallenge, 32).value, Hex.Decode(r.clientChallenge, 32).value)),
              Hex.Decode(h.hostHandshakeSignature, 64).value)
  }

  /** An answer is there exactly when there was an offer, and then it is legal and has a
      signature. */
  predicate WellFormedAnswer(r: ClientSessionRequest, h: HostHandshake) {
    && (r.p2pOfferSdp.Some? <==> h.p2pAnswerSdp.Some?)
    && (r.p2pOfferSdp.Some? <==> h.p2pAnswerSignature.Some?)
    && (r.p2pOfferSdp.Some? ==>
          LegalSdp(h.p2pAnswerSdp.value) && Hex.Decode(h.p2pAnswerSignature.value, 64).Some?)
  }

  predicate AnswerSigned(c: Primitives, r: ClientSessionRequest, hostKey: Bytes, h: HostHandshake)
    requires Answerable(r) && WellFormedAnswer(r, h)
  {
    r.p2pOfferSdp.Some? ==>
      c.ed25519(hostKey,
                Layout(P2pAnswer(Hex.Decode(r.logicalSessionId, 16).value, c.sha256(r.p2pOfferSdp.value),
                                 c.sha256(h.p2pAnswerSdp.value), c.sha256(hostKey),
                                 c.sha256(Hex.DecodeVec(r.clientPublicKey, 64, 256).value))),
                Hex.Decode(h.p2pAnswerSignature.value, 64).value)
  }

  /** A handshake that verifies against the request it answers. */
  predicate GenuineHandshake(c: Primitives, r: ClientSessionRequest, hostKey: Bytes, h: HostHandshake) {
    && Answerable(r) && WellFormedHandshake(h) && HandshakeSigned(c, r, hostKey, h)
    && WellFormedAnswer(r, h) && AnswerSigned(c, r, hostKey, h)
  }

  /** The host's own signature over the stored request's ticket transcript. */
  predicate HostSigned(c: Primitives, r: ClientSessionRequest, hostKey: Bytes, hostSignature: Str) {
    && Hex.Decode(r.logicalSessionId, 16).Some?
    && Hex.Decode(r.requestNonce, 32).Some?
    && Hex.DecodeVec(r.clientPublicKey, 64, 256).Some?
    && Hex.Decode(hostSignature, 64).Some?
    && c.ed25519(hostKey,
                 Layout(TicketRequest(Hex.Decode(r.logicalSessionId, 16).value, r.expires,
                                      Hex.Decode(r.requestNonce, 32).value, c.sha256(hostKey),
                                      c.sha256(Hex.DecodeVec(r.clientPublicKey, 64, 256).value))),
                 Hex.Decode(hostSignature, 64).value)
  }

  /** The error that the completion of a stored request is refused with, if the host or the clock
      is at fault. */
  function CompletionFault(c: Primitives, r: ClientSessionRequest, hostKey: Bytes, h: HostSessionCompletion, now: U64)
    : Option<RelayError>
    requires Answerable(r)
  {
    if !WellFormedHandshake(Offered(h)) then Some(InvalidTicketRequest)
    else if !HandshakeSigned(c, r, hostKey, Offered(h)) then Some(Unauthorized)
    else if !WellFormedAnswer(r, Offered(h)) then Some(InvalidTicketRequest)
    else if !AnswerSigned(c, r, hostKey, Offered(h)) then Some(Unauthorized)
    else if Hex.Decode(h.hostSignature, 64).None? || !InTicketTime(r.expires, now) then Some(InvalidTicketRequest)
    else if !HostSigned(c, r, hostKey, h.hostSignature) then Some(Unauthorized)
    else None
  }

  // ---- Claims ----

  /** The proof is a signature, with the key and the scheme of the role, over the message that
      claims the ticket for that role. */
  ghost predicate ProvesRole(c: Primitives, role: EndpointRole, hostKey: Bytes, clientKey: Bytes, ticketId: Str,
                             proof: Str)
  {
    exists message: Bytes, signature: Bytes ::
      && Parse(message) == Some(Claim(role, ticketId))
      && Hex.DecodeVec(proof, 64, 80) == Some(signature)
      && match role
         case Host => c.ed25519(hostKey, message, signature)
         case Client => c.p256(clientKey, message, signature)
  }
}
