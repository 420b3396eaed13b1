/** The cryptographic primitives, left uninterpreted. */
module Crypto {
  import opened Prelude

  datatype EndpointRole = Host | Client

  /** SHA-256, Ed25519 verification and P-256 verification over DER inputs:
      key, message, signature. */
  datatype Primitives = Primitives(
    sha256: Bytes -> Bytes32,
    ed25519: (Bytes, Bytes, Bytes) -> bool,
    p256: (Bytes, Bytes, Bytes) -> bool)

  function VerifyEndpoint(c: Primitives, role: EndpointRole, key: Bytes, message: Bytes, signature: Bytes): bool {
    match role
    case Host => c.ed25519(key, message, signature)
    case Client => c.p256(key, message, signature)
  }
}

/** `u64::to_be_bytes`. */
module BigEndian {
  import opened Prelude

  function Limit(n: nat): (l: nat)
    ensures l > 0
  {
    if n == 0 then 1 else 256 * Limit(n - 1)
  }

  function Of(x: nat, n: nat): (b: Bytes)
    requires x < Limit(n)
    ensures |b| == n
  {
    if n == 0 then [] else Of(x / 256, n - 1) + [x % 256]
  }

  function Value(b: Bytes): (x: nat)
    ensures x < Limit(|b|)
  {
    if b == [] then 0 else 256 * Value(b[..|b| - 1]) + b[|b| - 1]
  }

  lemma {:induction false} ValueOf(x: nat, n: nat)
    requires x < Limit(n)
    ensures Value(Of(x, n)) == x
  {
    if n > 0 {
      ValueOf(x / 256, n - 1);
      assert Of(x, n)[..n - 1] == Of(x / 256, n - 1);
    }
  }

  lemma {:induction false} OfValue(b: Bytes)
    ensures Of(Value(b), |b|) == b
  {
    if b != [] {
      OfValue(b[..|b| - 1]);
    }
  }

  lemma LimitOfU64()
    ensures Limit(8) == U64_LIMIT
  {
    assert Limit(2) == 0x1_0000;
    assert Limit(4) == 0x1_0000_0000;
    assert Limit(6) == 0x1_0000_0000_0000;
  }

  function U64Bytes(x: U64): (b: Bytes)
    ensures |b| == 8
  {
    LimitOfU64();
    Of(x, 8)
  }

  function U64Value(b: Bytes): U64
    requires |b| == 8
  {
    LimitOfU64();
    Value(b)
  }
}

/** Every byte string that is signed: the six kit transcripts and the relay claim. */
module Transcripts {
  import opened Prelude
  import opened Crypto
  import BigEndian
  import Hex
  import KitHex

  /** What a signed message says. Keys and SDPs appear by digest. */
  datatype Signed =
    | TicketRequest(session: Bytes16, expires: U64, nonce: Bytes32, host: Bytes32, client: Bytes32)
    | HostRegistration(mailbox: Bytes32, expires: U64, nonce: Bytes32, host: Bytes32)
    | HandshakeOffer(session: Bytes16, host: Bytes32, client: Bytes32, clientEphemeral: Bytes32,
                     clientChallenge: Bytes32, nonce: Bytes32)
    | Handshake(session: Bytes16, host: Bytes32, client: Bytes32, hostEphemeral: Bytes32,
                clientEphemeral: Bytes32, hostChallenge: Bytes32, clientChallenge: Bytes32)
    | P2pOffer(session: Bytes16, offer: Bytes32, host: Bytes32, client: Bytes32, nonce: Bytes32)
    | P2pAnswer(session: Bytes16, offer: Bytes32, answer: Bytes32, host: Bytes32, client: Bytes32)
    | Claim(role: EndpointRole, ticketId: Str)

  const HCT1: Bytes := [72, 67, 84, 49]
  const HHR1: Bytes := [72, 72, 82, 49]
  const HCO1: Bytes := [72, 67, 79, 49]
  const HCK1: Bytes := [72, 67, 75, 49]
  const HPO1: Bytes := [72, 80, 79, 49]
  const HPA1: Bytes := [72, 80, 65, 49]
  const HCR1: Bytes := [72, 67, 82, 49]

  function Layout(m: Signed): Bytes {
    match m
    case TicketRequest(s, e, n, h, c) => HCT1 + s + BigEndian.U64Bytes(e) + n + h + c
    case HostRegistration(b, e, n, h) => HHR1 + b + BigEndian.U64Bytes(e) + n + h
    case HandshakeOffer(s, h, c, ce, cc, n) => HCO1 + s + h + c + ce + cc + n
    case Handshake(s, h, c, he, ce, hc, cc) => HCK1 + s + h + c + he + ce + hc + cc
    case P2pOffer(s, o, h, c, n) => HPO1 + s + o + h + c + n
    case P2pAnswer(s, o, a, h, c) => HPA1 + s + o + a + h + c
    case Claim(r, t) => HCR1 + [if r == Host then 0 else 1] + t
  }

  /** An independent reader of the fixed offsets. */
  function Parse(b: Bytes): Option<Signed> {
    if |b| < 5 then None
    else if b[..4] == HCT1 && |b| == 124 then
      Some(TicketRequest(b[4..20], BigEndian.U64Value(b[20..28]), b[28..60], b[60..92], b[92..]))
    else if b[..4] == HHR1 && |b| == 108 then
      Some(HostRegistration(b[4..36], BigEndian.U64Value(b[36..44]), b[44..76], b[76..]))
    else if b[..4] == HCO1 && |b| == 180 then
      Some(HandshakeOffer(b[4..20], b[20..52], b[52..84], b[84..116], b[116..148], b[148..]))
    else if b[..4] == HCK1 && |b| == 212 then
      Some(Handshake(b[4..20], b[20..52], b[52..84], b[84..116], b[116..148], b[148..180], b[180..]))
    else if b[..4] == HPO1 && |b| == 148 then
      Some(P2pOffer(b[4..20], b[20..52], b[52..84], b[84..116], b[116..]))
    else if b[..4] == HPA1 && |b| == 148 then
      Some(P2pAnswer(b[4..20], b[20..52], b[52..84], b[84..116], b[116..]))
    else if b[..4] == HCR1 && b[4] <= 1 then
      Some(Claim(if b[4] == 0 then Host else Client, b[5..]))
    else None
  }

  lemma U64RoundTrip(e: U64, b: Bytes)
    requires |b| == 8
    ensures BigEndian.U64Bytes(e) == b <==> BigEndian.U64Value(b) == e
  {
    BigEndian.LimitOfU64();
    BigEndian.ValueOf(e, 8);
    BigEndian.OfValue(b);
  }

  lemma ParseTicketRequest(m: Signed, b: Bytes)
    requires m.TicketRequest? && b == Layout(m)
    ensures Parse(b) == Some(m)
  {
    U64RoundTrip(m.expires, BigEndian.U64Bytes(m.expires));
    assert b[..4] == HCT1 && b[4..20] == m.session && b[20..28] == BigEndian.U64Bytes(m.expires);
    assert b[28..60] == m.nonce && b[60..92] == m.host && b[92..] == m.client;
  }

  lemma ParseHostRegistration(m: Signed, b: Bytes)
    requires m.HostRegistration? && b == Layout(m)
    ensures Parse(b) == Some(m)
  {
    U64RoundTrip(m.expires, BigEndian.U64Bytes(m.expires));
    assert b[..4] == HHR1 && b[4..36] == m.mailbox && b[36..44] == BigEndian.U64Bytes(m.expires);
    assert b[44..76] == m.nonce && b[76..] == m.host;
  }

  lemma ParseHandshakeOffer(m: Signed, b: Bytes)
    requires m.HandshakeOffer? && b == Layout(m)
    ensures Parse(b) == Some(m)
  {
    assert b[..4] == HCO1 && b[4..20] == m.session && b[20..52] == m.host && b[52..84] == m.client;
    assert b[84..116] == m.clientEphemeral && b[116..148] == m.clientChallenge && b[148..] == m.nonce;
  }

  lemma ParseHandshake(m: Signed, b: Bytes)
    requires m.Handshake? && b == Layout(m)
    ensures Parse(b) == Some(m)
  {
    assert b[..4] == HCK1 && b[4..20] == m.session && b[20..52] == m.host && b[52..84] == m.client;
    assert b[84..116] == m.hostEphemeral && b[116..148] == m.clientEphemeral;
    assert b[148..180] == m.hostChallenge && b[180..] == m.clientChallenge;
  }

  lemma ParseP2p(m: Signed, b: Bytes)
    requires (m.P2pOffer? || m.P2pAnswer?) && b == Layout(m)
    ensures Parse(b) == Some(m)
  {
    if m.P2pOffer? {
      assert b[..4] == HPO1 && b[4..20] == m.session && b[20..52] == m.offer;
      assert b[52..84] == m.host && b[84..116] == m.client && b[116..] == m.nonce;
    } else {
      assert b[..4] == HPA1 && b[4..20] == m.session && b[20..52] == m.offer;
      assert b[52..84] == m.answer && b[84..116] == m.host && b[116..] == m.client;
    }
  }

  lemma ParseClaim(m: Signed, b: Bytes)
    requires m.Claim? && b == Layout(m)
    ensures Parse(b) == Some(m)
  {
    assert b[..4] == HCR1 && b[5..] == m.ticketId;
  }

  lemma ParseOfLayout(m: Signed)
    ensures Parse(Layout(m)) == Some(m)
  {
    var b := Layout(m);
    match m
    case TicketRequest(_, _, _, _, _) => ParseTicketRequest(m, b);
    case HostRegistration(_, _, _, _) => ParseHostRegistration(m, b);
    case HandshakeOffer(_, _, _, _, _, _) => ParseHandshakeOffer(m, b);
    case Handshake(_, _, _, _, _, _, _) => ParseHandshake(m, b);
    case Claim(_, _) => ParseClaim(m, b);
    case _ => ParseP2p(m, b);
  }

  lemma Join(b: Bytes, i: nat, j: nat)
    requires i <= j <= |b|
    ensures b[..i] + b[i..j] == b[..j]
  {
  }

  lemma LayoutOfRequests(b: Bytes)
    requires Parse(b).Some? && (Parse(b).value.TicketRequest? || Parse(b).value.HostRegistration?)
    ensures Layout(Parse(b).value) == b
  {
    hide BigEndian.U64Bytes, BigEndian.U64Value;
    match Parse(b).value
    case TicketRequest(_, e, _, _, _) =>
      U64RoundTrip(e, b[20..28]);
      Join(b, 4, 20);
      Join(b, 20, 28);
      Join(b, 28, 60);
      Join(b, 60, 92);
      Join(b, 92, 124);
    case HostRegistration(_, e, _, _) =>
      U64RoundTrip(e, b[36..44]);
      Join(b, 4, 36);
      Join(b, 36, 44);
      Join(b, 44, 76);
      Join(b, 76, 108);
  }

  lemma LayoutOfHandshakes(b: Bytes)
    requires Parse(b).Some? && (Parse(b).value.HandshakeOffer? || Parse(b).value.Handshake?)
    ensures Layout(Parse(b).value) == b
  {
    hide BigEndian.U64Bytes, BigEndian.U64Value;
    Join(b, 4, 20);
    Join(b, 20, 52);
    Join(b, 52, 84);
    Join(b, 84, 116);
    Join(b, 116, 148);
    Join(b, 148, 180);
    if Parse(b).value.Handshake? {
      Join(b, 180, 212);
    }
  }

  lemma LayoutOfOthers(b: Bytes)
    requires Parse(b).Some? && (Parse(b).value.P2pOffer? || Parse(b).value.P2pAnswer? || Parse(b).value.Claim?)
    ensures Layout(Parse(b).value) == b
  {
    hide BigEndian.U64Bytes, BigEndian.U64Value;
    if Parse(b).value.Claim? {
      Join(b, 4, 5);
      Join(b, 5, |b|);
    } else {
      Join(b, 4, 20);
      Join(b, 20, 52);
      Join(b, 52, 84);
      Join(b, 84, 116);
      Join(b, 116, 148);
    }
  }

  lemma LayoutOfParse(b: Bytes)
    requires Parse(b).Some?
    ensures Layout(Parse(b).value) == b
  {
    hide Layout, Parse;
    match Parse(b).value
    case TicketRequest(_, _, _, _, _) => LayoutOfRequests(b);
    case HostRegistration(_, _, _, _) => LayoutOfRequests(b);
    case HandshakeOffer(_, _, _, _, _, _) => LayoutOfHandshakes(b);
    case Handshake(_, _, _, _, _, _, _) => LayoutOfHandshakes(b);
    case _ => LayoutOfOthers(b);
  }

  /** No byte string is two different messages, of the same kind or of two kinds. */
  lemma LayoutIsUnambiguous(b: Bytes, m: Signed)
    ensures Layout(m) == b <==> Parse(b) == Some(m)
  {
    if Layout(m) == b {
      ParseOfLayout(m);
    }
    if Parse(b) == Some(m) {
      LayoutOfParse(b);
    }
  }

  lemma LayoutInjective(m: Signed, n: Signed)
    ensures Layout(m) == Layout(n) <==> m == n
  {
    ParseOfLayout(m);
    ParseOfLayout(n);
  }

  lemma FixedLengths(m: Signed)
    ensures |Layout(m)| ==
      match m
      case TicketRequest(_, _, _, _, _) => 124
      case HostRegistration(_, _, _, _) => 108
      case HandshakeOffer(_, _, _, _, _, _) => 180
      case Handshake(_, _, _, _, _, _, _) => 212
      case P2pOffer(_, _, _, _, _) => 148
      case P2pAnswer(_, _, _, _, _) => 148
      case Claim(_, t) => 5 + |t|
    ensures Layout(m)[..4] ==
      match m
      case TicketRequest(_, _, _, _, _) => Ascii("HCT1")
      case HostRegistration(_, _, _, _) => Ascii("HHR1")
      case HandshakeOffer(_, _, _, _, _, _) => Ascii("HCO1")
      case Handshake(_, _, _, _, _, _, _) => Ascii("HCK1")
      case P2pOffer(_, _, _, _, _) => Ascii("HPO1")
      case P2pAnswer(_, _, _, _, _) => Ascii("HPA1")
      case Claim(_, _) => Ascii("HCR1")
  {
    hide BigEndian.U64Bytes;
    var first := match m
      case TicketRequest(_, _, _, _, _) => HCT1
      case HostRegistration(_, _, _, _) => HHR1
      case HandshakeOffer(_, _, _, _, _, _) => HCO1
      case Handshake(_, _, _, _, _, _, _) => HCK1
      case P2pOffer(_, _, _, _, _) => HPO1
      case P2pAnswer(_, _, _, _, _) => HPA1
      case Claim(_, _) => HCR1;
    assert Layout(m)[..4] == first;
  }

  method TicketRequestTranscript(
      c: Primitives, session: Bytes16, expires: U64, nonce: Bytes32, hostKey: Bytes, clientKey: Bytes)
    returns (t: Bytes)
    ensures Parse(t) == Some(TicketRequest(session, expires, nonce, c.sha256(hostKey), c.sha256(clientKey)))
  {
    t := HCT1;
    t := t + session;
    t := t + BigEndian.U64Bytes(expires);
    t := t + nonce;
    t := t + c.sha256(hostKey);
    t := t + c.sha256(clientKey);
    ParseOfLayout(TicketRequest(session, expires, nonce, c.sha256(hostKey), c.sha256(clientKey)));
  }

  /** The kit's `expect` needs a mailbox id that its own decoder accepts. */
  method HostRegistrationTranscript(
      c: Primitives, mailboxId: Str, expires: U64, nonce: Bytes32, hostKey: Bytes)
    returns (t: Bytes)
    requires KitHex.DecodeAnyCase(mailboxId, 32).Some?
    ensures Parse(t)
         == Some(HostRegistration(KitHex.DecodeAnyCase(mailboxId, 32).value, expires, nonce, c.sha256(hostKey)))
  {
    var mailbox := KitHex.DecodeHex(mailboxId, 32);
    t := HHR1;
    t := t + mailbox.value;
    t := t + BigEndian.U64Bytes(expires);
    t := t + nonce;
    t := t + c.sha256(hostKey);
    ParseOfLayout(HostRegistration(mailbox.value, expires, nonce, c.sha256(hostKey)));
  }

  method HandshakeOfferTranscript(
      c: Primitives, session: Bytes16, hostKey: Bytes, clientKey: Bytes, clientEphemeral: Bytes,
      clientChallenge: Bytes32, nonce: Bytes32)
    returns (t: Bytes)
    ensures Parse(t) == Some(HandshakeOffer(session, c.sha256(hostKey), c.sha256(clientKey),
                                            c.sha256(clientEphemeral), clientChallenge, nonce))
  {
    t := HCO1;
    t := t + session;
    t := t + c.sha256(hostKey);
    t := t + c.sha256(clientKey);
    t := t + c.sha256(clientEphemeral);
    t := t + clientChallenge;
    t := t + nonce;
    ParseOfLayout(HandshakeOffer(session, c.sha256(hostKey), c.sha256(clientKey),
                                 c.sha256(clientEphemeral), clientChallenge, nonce));
  }

  /** The digests of the values, one after another. */
  function Digests(c: Primitives, values: seq<Bytes>): Bytes {
    if values == [] then [] else Digests(c, values[..|values| - 1]) + c.sha256(values[|values| - 1])
  }

  /** The loop shared by the builders that append several digests. */
  method AppendDigests(c: Primitives, start: Bytes, values: seq<Bytes>) returns (t: Bytes)
    ensures t == start + Digests(c, values)
  {
    t := start;
    for i := 0 to |values|
      invariant t == start + Digests(c, values[..i])
    {
      assert values[..i + 1][..i] == values[..i];
      t := t + c.sha256(values[i]);
    }
    assert values[..|values|] == values;
  }

  lemma FourDigests(c: Primitives, v: Bytes, w: Bytes, x: Bytes, y: Bytes)
    ensures Digests(c, [v, w, x]) == c.sha256(v) + c.sha256(w) + c.sha256(x)
    ensures Digests(c, [v, w, x, y]) == c.sha256(v) + c.sha256(w) + c.sha256(x) + c.sha256(y)
  {
    assert [v][..0] == [] && [v, w][..1] == [v];
    assert Digests(c, [v]) == c.sha256(v);
    assert Digests(c, [v, w]) == c.sha256(v) + c.sha256(w);
    assert [v, w, x][..2] == [v, w] && [v, w, x, y][..3] == [v, w, x];
  }

  method SessionHandshakeTranscript(
      c: Primitives, session: Bytes16, hostKey: Bytes, clientKey: Bytes, hostEphemeral: Bytes,
      clientEphemeral: Bytes, hostChallenge: Bytes32, clientChallenge: Bytes32)
    returns (t: Bytes)
    ensures Parse(t) == Some(Handshake(session, c.sha256(hostKey), c.sha256(clientKey),
                                       c.sha256(hostEphemeral), c.sha256(clientEphemeral),
                                       hostChallenge, clientChallenge))
  {
    t := HCK1;
    t := t + session;
    t := AppendDigests(c, t, [hostKey, clientKey, hostEphemeral, clientEphemeral]);
    t := t + hostChallenge;
    t := t + clientChallenge;
    FourDigests(c, hostKey, clientKey, hostEphemeral, clientEphemeral);
    var m := Handshake(session, c.sha256(hostKey), c.sha256(clientKey), c.sha256(hostEphemeral),
                       c.sha256(clientEphemeral), hostChallenge, clientChallenge);
    assert t == Layout(m);
    ParseOfLayout(m);
  }

  method P2pOfferTranscript(
      c: Primitives, session: Bytes16, offer: Bytes, hostKey: Bytes, clientKey: Bytes, nonce: Bytes32)
    returns (t: Bytes)
    ensures Parse(t)
         == Some(P2pOffer(session, c.sha256(offer), c.sha256(hostKey), c.sha256(clientKey), nonce))
  {
    t := HPO1;
    t := t + session;
    t := AppendDigests(c, t, [offer, hostKey, clientKey]);
    t := t + nonce;
    FourDigests(c, offer, hostKey, clientKey, []);
    var m := P2pOffer(session, c.sha256(offer), c.sha256(hostKey), c.sha256(clientKey), nonce);
    assert t == Layout(m);
    ParseOfLayout(m);
  }

  method P2pAnswerTranscript(
      c: Primitives, session: Bytes16, offer: Bytes, answer: Bytes, hostKey: Bytes, clientKey: Bytes)
    returns (t: Bytes)
    ensures Parse(t)
         == Some(P2pAnswer(session, c.sha256(offer), c.sha256(answer), c.sha256(hostKey), c.sha256(clientKey)))
  {
    t := HPA1;
    t := t + session;
    t := AppendDigests(c, t, [offer, answer, hostKey, clientKey]);
    FourDigests(c, offer, answer, hostKey, clientKey);
    var m := P2pAnswer(session, c.sha256(offer), c.sha256(answer), c.sha256(hostKey), c.sha256(clientKey));
    assert t == Layout(m);
    ParseOfLayout(m);
  }

  method EndpointClaimMessage(ticketId: Str, role: EndpointRole) returns (m: Bytes)
    ensures m == Layout(Claim(role, ticketId))
    ensures Parse(m) == Some(Claim(role, ticketId))
  {
    m := HCR1;
    m := m + [match role case Host => 0 case Client => 1];
    m := m + ticketId;
    ParseOfLayout(Claim(role, ticketId));
  }

  const MAILBOX_ID_MAGIC: Bytes := Ascii("hypercast-rendezvous-mailbox/1")

  function MailboxIdForToken(c: Primitives, token: Bytes32): Str {
    Hex.Encode(c.sha256(MAILBOX_ID_MAGIC + token))
  }
}
