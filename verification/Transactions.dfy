/** Each operation of the server as one atomic transaction over the tables: what it refuses,
    what it answers without writing, and what it would commit. There is no rollback here; the
    class in AppState.dfy mutates in place, undoes by hand, and is proved to agree. */
module Transactions {
  import opened Prelude
  import opened Crypto
  import opened Protocol
  import opened Transcripts
  import opened Rules
  import opened Validation
  import opened State
  import opened Persistence
  import Hex

  datatype Plan<+R> =
    | Refuse(error: RelayError, kept: Memory)
    | Answer(reply: R, kept: Memory)
    | Commit(reply: R, next: Memory, undone: Memory)

  /** The outcome of one attempt to persist. */
  function PersistResult(cfg: Config, io: Io): Result<(), RelayError> {
    if !cfg.stateFile then Success(())
    else if io.size > MAX_PERSISTED_STATE_BYTES then Failure(CapacityExceeded)
    else if !io.writes then Failure(Internal)
    else Success(())
  }

  function MemoryAfter<R>(plan: Plan<R>, cfg: Config, io: Io): Memory {
    match plan
    case Refuse(_, kept) => kept
    case Answer(_, kept) => kept
    case Commit(_, next, undone) => if PersistResult(cfg, io).Success? then next else undone
  }

  function ReplyOf<R>(plan: Plan<R>, cfg: Config, io: Io): Result<R, RelayError> {
    match plan
    case Refuse(error, _) => Failure(error)
    case Answer(reply, _) => Success(reply)
    case Commit(reply, _, _) =>
      if PersistResult(cfg, io).Success? then Success(reply) else Failure(PersistResult(cfg, io).error)
  }

  predicate Commits<R>(plan: Plan<R>, cfg: Config, io: Io) {
    plan.Commit? && PersistResult(cfg, io).Success?
  }

  /** The file is replaced by a snapshot of `m`, or is left as it was. */
  ghost predicate FileAfter(
      written: bool, cfg: Config, io: Io, now: nat, m: Memory, before: Option<File>, after: Option<File>)
  {
    if written && cfg.stateFile
    then
      && after.Some? && after.value.size == io.size <= MAX_PERSISTED_STATE_BYTES
      && Snapshot(after.value.content, m, now)
    else after == before
  }

  /** The whole effect of a transaction on memory and on the file. */
  ghost predicate Transacts<R>(plan: Plan<R>, cfg: Config, io: Io, now: nat, before: Option<File>,
                               memory: Memory, after: Option<File>)
  {
    && memory == MemoryAfter(plan, cfg, io)
    && FileAfter(Commits(plan, cfg, io), cfg, io, now, memory, before, after)
  }

  // ---- Mailboxes ----

  /** The checks made before the lock is taken. */
  function Gate(cfg: Config, c: Primitives, mailboxId: Str, token: Str): Result<(), RelayError> {
    var _ :- Need(cfg.enabled, Disabled);
    var _ :- AuthorizeMailbox(c, mailboxId, token);
    Success(())
  }

  function Open(c: Primitives, boxes: Mailboxes, mailboxId: Str, token: Str): (r: Result<Mailbox, RelayError>)
    ensures r.Success? ==> mailboxId in boxes && r.value == boxes[mailboxId]
  {
    var _ :- Need(mailboxId in boxes, NotFound);
    var _ :- Need(boxes[mailboxId].tokenDigest == c.sha256(token), Unauthorized);
    Success(boxes[mailboxId])
  }

  function Upsert(accounts: Accounts, account: Str, mailboxId: Str, fingerprint: Str, seconds: nat): Accounts {
    var hosts := if account in accounts then accounts[account] else map[];
    var entry := if mailboxId in hosts then hosts[mailboxId].(lastSeen := seconds)
                 else AccountEntry(fingerprint, seconds, seconds);
    accounts[account := hosts[mailboxId := entry]]
  }

  /** Everything `register_host` decides before it takes the lock. */
  function CheckRegistration(cfg: Config, c: Primitives, now: U64, mailboxId: Str, token: Str,
                             r: HostRegistrationRequest): Result<(ValidatedHostRegistration, Str), RelayError>
  {
    var _ :- Gate(cfg, c, mailboxId, token);
    var validated :- ValidateHostRegistration(c, mailboxId, r, now);
    var account :- NormalizeAccount(r.account);
    Success((validated, account))
  }

  function PlanRegister(cfg: Config, c: Primitives, m: Memory, now: U64, mailboxId: Str, token: Str,
                        r: HostRegistrationRequest): Plan<()>
  {
    var pruned := m.(mailboxes := LiveMailboxes(m.mailboxes, now));
    var checked := CheckRegistration(cfg, c, now, mailboxId, token, r);
    if checked.Failure? then Refuse(checked.error, m) else
    var (validated, account) := checked.value;
    var hostKey := validated.hostKey;
    var lease := now + validated.validFor;
    var known := mailboxId in pruned.mailboxes;
    if known && (pruned.mailboxes[mailboxId].tokenDigest != c.sha256(token)
                 || pruned.mailboxes[mailboxId].hostKey != hostKey)
    then Refuse(Unauthorized, pruned) else
    var box := if known then pruned.mailboxes[mailboxId].(expires := lease)
               else Mailbox(c.sha256(token), hostKey, r.hostFingerprint, lease, map[]);
    var listed := pruned.(accounts := Upsert(m.accounts, account, mailboxId, r.hostFingerprint, now / 1000));
    Commit((), listed.(mailboxes := pruned.mailboxes[mailboxId := box]), listed)
  }

  predicate HoldsNonce(sessions: Sessions, nonce: Str) {
    exists id <- sessions :: sessions[id].request.requestNonce == nonce
  }

  function OtherClients(sessions: Sessions, client: Str): Sessions {
    map id | id in sessions && sessions[id].request.clientFingerprint != client :: sessions[id]
  }

  function WithSessions(m: Memory, mailboxId: Str, sessions: Sessions): Memory
    requires mailboxId in m.mailboxes
  {
    m.(mailboxes := m.mailboxes[mailboxId := m.mailboxes[mailboxId].(sessions := sessions)])
  }

  function PlanSubmit(cfg: Config, c: Primitives, m: Memory, now: U64, mailboxId: Str, token: Str,
                      r: ClientSessionRequest, freshId: Str): Plan<Str>
  {
    var pruned := m.(mailboxes := LiveMailboxes(m.mailboxes, now));
    var gate := Gate(cfg, c, mailboxId, token);
    if gate.Failure? then Refuse(gate.error, m) else
    var box := Open(c, pruned.mailboxes, mailboxId, token);
    if box.Failure? then Refuse(box.error, pruned) else
    var valid := ValidateClientSessionRequest(c, r, box.value.hostKey, box.value.hostFingerprint, now);
    if valid.Failure? then Refuse(valid.error, pruned) else
    var live := UnexpiredSessions(box.value.sessions, now);
    if HoldsNonce(live, r.requestNonce) then Refuse(AlreadyClaimed, WithSessions(pruned, mailboxId, live)) else
    var others := OtherClients(live, r.clientFingerprint);
    if |others| >= MAX_PENDING_SESSIONS_PER_HOST
    then Refuse(CapacityExceeded, WithSessions(pruned, mailboxId, others))
    else Commit(freshId, WithSessions(pruned, mailboxId, others[freshId := StoredSession(r, None)]), pruned)
  }

  function PendingSessions(sessions: Sessions): Sessions {
    map id | id in sessions && sessions[id].ready.None? :: sessions[id]
  }

  /** The offer of one stored request. */
  function Offer(requestId: Str, box: Mailbox, r: ClientSessionRequest): PendingSession {
    PendingSession(requestId, r.protocol, r.logicalSessionId, Hex.Encode(box.hostKey), box.hostFingerprint,
                   r.clientPublicKey, r.clientFingerprint, r.requestNonce, r.expires, r.clientSignature,
                   r.clientEphemeralPublicKey, r.clientChallenge, r.clientHandshakeSignature, r.p2pOfferSdp,
                   r.p2pOfferSignature)
  }

  /** The reply is the set of sessions from which the server picks any one. */
  function PlanNext(cfg: Config, c: Primitives, m: Memory, now: U64, mailboxId: Str, token: Str): Plan<Sessions> {
    var pruned := m.(mailboxes := LiveMailboxes(m.mailboxes, now));
    var gate := Gate(cfg, c, mailboxId, token);
    if gate.Failure? then Refuse(gate.error, m) else
    var box := Open(c, pruned.mailboxes, mailboxId, token);
    if box.Failure? then Refuse(box.error, pruned) else
    var live := UnexpiredSessions(box.value.sessions, now);
    Answer(PendingSessions(live), WithSessions(pruned, mailboxId, live))
  }

  /** The reply to a poll: the offer of any one of the pending sessions, or nothing if there is
      none. */
  ghost predicate Polls(plan: Plan<Sessions>, boxes: Mailboxes, mailboxId: Str,
                        r: Result<Option<PendingSession>, RelayError>)
  {
    match r
    case Failure(error) => plan.Refuse? && plan.error == error
    case Success(None) => plan.Answer? && plan.reply == map[]
    case Success(Some(p)) =>
      && plan.Answer? && p.requestId in plan.reply && mailboxId in boxes
      && p == Offer(p.requestId, boxes[mailboxId], plan.reply[p.requestId].request)
  }

  /** The reply is the session's ready value, absent while it is pending. */
  function PlanStatus(cfg: Config, c: Primitives, m: Memory, now: U64, mailboxId: Str, token: Str, requestId: Str)
    : Plan<Option<SessionReady>>
  {
    var pruned := m.(mailboxes := LiveMailboxes(m.mailboxes, now));
    var gate := Gate(cfg, c, mailboxId, token);
    if gate.Failure? then Refuse(gate.error, m) else
    var box := Open(c, pruned.mailboxes, mailboxId, token);
    if box.Failure? then Refuse(box.error, pruned) else
    if requestId !in box.value.sessions then Refuse(NotFound, pruned) else
    var stored := box.value.sessions[requestId];
    if stored.request.expires <= now then Refuse(Expired, pruned)
    else Answer(stored.ready, pruned)
  }

  /** The table work of `ice_configuration`. */
  function PlanIce(cfg: Config, c: Primitives, m: Memory, now: U64, mailboxId: Str, token: Str): Plan<()> {
    var pruned := m.(mailboxes := LiveMailboxes(m.mailboxes, now));
    var gate := Gate(cfg, c, mailboxId, token);
    if gate.Failure? then Refuse(gate.error, m) else
    var box := Open(c, pruned.mailboxes, mailboxId, token);
    if box.Failure? then Refuse(box.error, pruned) else Answer((), pruned)
  }

  /** The registry entries of one account whose mailbox lease is live. */
  function LiveHosts(m: Memory, account: Str, now: nat): map<Str, AccountEntry> {
    if account in m.accounts
    then map id | id in m.accounts[account] && id in m.mailboxes && m.mailboxes[id].expires > now
           :: m.accounts[account][id]
    else map[]
  }

  function PlanList(m: Memory, now: U64, account: Str): Plan<map<Str, AccountEntry>> {
    var name := NormalizeAccount(Some(account));
    if name.Failure? then Refuse(name.error, m) else
    var hosts := LiveHosts(m, name.value, now);
    Answer(hosts, m.(mailboxes := LiveMailboxes(m.mailboxes, now),
                     accounts := if name.value in m.accounts then m.accounts[name.value := hosts] else m.accounts))
  }

  // ---- Tickets ----

  function Issued(cfg: Config, m: Memory, now: U64, v: ValidatedTicketRequest, ticketId: Str, channel: nat): Memory {
    var ticket := Ticket(v.hostKey, v.clientKey, now + Min(cfg.ticketTtl, v.validFor), false, false, channel);
    m.(nonces := m.nonces[v.nonce := now + v.validFor], tickets := m.tickets[ticketId := ticket])
  }

  function IssuedReply(cfg: Config, now: U64, v: ValidatedTicketRequest, ticketId: Str): TicketResponse {
    TicketResponse(ticketId, cfg.publicRelayUrl, now + Min(cfg.ticketTtl, v.validFor))
  }

  /** The two validations `complete_session_request` makes of a pending session. */
  function CheckCompletion(c: Primitives, h: HostSessionCompletion, r: ClientSessionRequest, hostKey: Bytes,
                           hostFingerprint: Str, now: U64)
    : Result<(HostHandshake, ValidatedTicketRequest), RelayError>
  {
    var handshake :- ValidateHostSessionCompletion(c, h, r, hostKey);
    var validated :- ValidateTicketRequest(c, TicketRequestFor(r, h, hostKey, hostFingerprint), now);
    Success((handshake, validated))
  }

  function PlanComplete(cfg: Config, c: Primitives, m: Memory, now: U64, mailboxId: Str, token: Str, requestId: Str,
                        h: HostSessionCompletion, ticketId: Str, channel: nat): Plan<SessionReady>
  {
    var boxed := m.(mailboxes := LiveMailboxes(m.mailboxes, now));
    var gate := Gate(cfg, c, mailboxId, token);
    if gate.Failure? then Refuse(gate.error, m) else
    if h.protocol != SESSION_COMPLETION_PROTOCOL then Refuse(InvalidTicketRequest, m) else
    var box := Open(c, boxed.mailboxes, mailboxId, token);
    if box.Failure? then Refuse(box.error, boxed) else
    if requestId !in box.value.sessions then Refuse(NotFound, boxed) else
    var stored := box.value.sessions[requestId];
    if stored.ready.Some? then Answer(stored.ready.value, boxed) else
    var checked := CheckCompletion(c, h, stored.request, box.value.hostKey, box.value.hostFingerprint, now);
    if checked.Failure? then Refuse(checked.error, boxed) else
    var (handshake, v) := checked.value;
    var pruned := boxed.(nonces := LiveNonces(m.nonces, now));
    if v.nonce in pruned.nonces then Refuse(AlreadyClaimed, pruned) else
    var ready := SessionReady(IssuedReply(cfg, now, v, ticketId), handshake);
    var sessions := box.value.sessions[requestId := stored.(ready := Some(ready))];
    Commit(ready, WithSessions(Issued(cfg, pruned, now, v, ticketId, channel), mailboxId, sessions), pruned)
  }

  /** `create_ticket` with the outcome of the admin authorization as an argument. */
  function PlanCreateTicket(cfg: Config, c: Primitives, m: Memory, now: U64, admin: bool, r: CreateTicketRequest,
                            ticketId: Str, channel: nat): Plan<TicketResponse>
  {
    if !cfg.enabled then Refuse(Disabled, m) else
    if !admin then Refuse(Unauthorized, m) else
    var validated := ValidateTicketRequest(c, r, now);
    if validated.Failure? then Refuse(validated.error, m) else
    var v := validated.value;
    var pruned := m.(nonces := LiveNonces(m.nonces, now));
    if v.nonce in pruned.nonces then Refuse(AlreadyClaimed, pruned) else
    Commit(IssuedReply(cfg, now, v, ticketId), Issued(cfg, pruned, now, v, ticketId, channel), pruned)
  }

  function KeyOf(t: Ticket, role: EndpointRole): Bytes {
    match role case Host => t.hostKey case Client => t.clientKey
  }

  function Claimed(t: Ticket, role: EndpointRole): bool {
    match role case Host => t.hostClaimed case Client => t.clientClaimed
  }

  function SetClaimed(t: Ticket, role: EndpointRole, claimed: bool): Ticket {
    match role case Host => t.(hostClaimed := claimed) case Client => t.(clientClaimed := claimed)
  }

  predicate ProvesClaim(c: Primitives, t: Ticket, ticketId: Str, role: EndpointRole, proof: Str) {
    && Hex.DecodeVec(proof, 64, 80).Some?
    && VerifyEndpoint(c, role, KeyOf(t, role), Layout(Claim(role, ticketId)), Hex.DecodeVec(proof, 64, 80).value)
  }

  /** A granted claim replies with the ticket's arrival channel; the second one ends the ticket. */
  function PlanClaim(c: Primitives, m: Memory, now: U64, ticketId: Str, role: EndpointRole, proof: Str): Plan<nat> {
    var pruned := m.(tickets := LiveTickets(m.tickets, now));
    if ticketId !in pruned.tickets then Refuse(NotFound, pruned) else
    var t := pruned.tickets[ticketId];
    if !ProvesClaim(c, t, ticketId, role, proof) then Refuse(Unauthorized, pruned) else
    if Claimed(t, role) then Refuse(AlreadyClaimed, pruned) else
    var marked := SetClaimed(t, role, true);
    var tickets := if marked.BothClaimed() then Remove(pruned.tickets, ticketId)
                   else pruned.tickets[ticketId := marked];
    Commit(t.channel, pruned.(tickets := tickets), pruned)
  }
}
