/** Runs of the server: every operation and every crash, under one lock and a monotone clock. */
module Runs {
  import opened Prelude
  import opened Crypto
  import opened Protocol
  import opened Rules
  import opened Validation
  import opened State
  import opened Persistence
  import opened Transactions
  import opened Server
  import opened AccountListing
  import Hex

  datatype Op =
    | Register(mailboxId: Str, token: Str, registration: HostRegistrationRequest)
    | Submit(mailboxId: Str, token: Str, request: ClientSessionRequest, freshId: Str)
    | Next(mailboxId: Str, token: Str)
    | Complete(mailboxId: Str, token: Str, requestId: Str, completion: HostSessionCompletion, ticketId: Str)
    | Status(mailboxId: Str, token: Str, requestId: Str)
    | Ice(mailboxId: Str, token: Str)
    | ListHosts(account: Str)
    | CreateTicket(admin: bool, ticketRequest: CreateTicketRequest, ticketId: Str)
    | Claim(ticketId: Str, role: EndpointRole, proof: Str)
    | Crash

  /** `io` is the file system's answer to the one attempt to persist the operation may make. */
  datatype Event = Event(op: Op, now: U64, io: Io)

  /** A ticket that was issued and persisted: the signatures it rests on and, when it completed
      a session, the mailbox and request id. */
  datatype Issue = Issue(evidence: Evidence, session: Option<(Str, Str)>)

  datatype Grant = Grant(channel: nat, role: EndpointRole)

  /** The server and its file, with the history the theorems speak of: the ids drawn so far, the
      tickets issued, the claims granted, the account each mailbox last registered under since
      the last restart, and whether there was a restart. */
  datatype System = System(
    memory: Memory,
    disk: Option<File>,
    now: U64,
    nextChannel: nat,
    requestIds: set<Str>,
    ticketIds: set<Str>,
    issued: map<Str, Issue>,
    grants: seq<Grant>,
    homes: map<Str, Str>,
    restarted: bool)

  ghost predicate Initial(s: System) {
    s == System(EMPTY, None, s.now, 0, {}, {}, map[], [], map[], false)
  }

  // ---- What each writing operation plans in a given state ----

  function RegisterPlan(cfg: Config, c: Primitives, s: System, ev: Event): Plan<()>
    requires ev.op.Register?
  {
    PlanRegister(cfg, c, s.memory, ev.now, ev.op.mailboxId, ev.op.token, ev.op.registration)
  }

  function SubmitPlan(cfg: Config, c: Primitives, s: System, ev: Event): Plan<Str>
    requires ev.op.Submit?
  {
    PlanSubmit(cfg, c, s.memory, ev.now, ev.op.mailboxId, ev.op.token, ev.op.request, ev.op.freshId)
  }

  function CompletePlan(cfg: Config, c: Primitives, s: System, ev: Event): Plan<SessionReady>
    requires ev.op.Complete?
  {
    PlanComplete(cfg, c, s.memory, ev.now, ev.op.mailboxId, ev.op.token, ev.op.requestId, ev.op.completion,
                 ev.op.ticketId, s.nextChannel)
  }

  function CreatePlan(cfg: Config, c: Primitives, s: System, ev: Event): Plan<TicketResponse>
    requires ev.op.CreateTicket?
  {
    PlanCreateTicket(cfg, c, s.memory, ev.now, ev.op.admin, ev.op.ticketRequest, ev.op.ticketId, s.nextChannel)
  }

  function ClaimPlan(c: Primitives, s: System, ev: Event): Plan<nat>
    requires ev.op.Claim?
  {
    PlanClaim(c, s.memory, ev.now, ev.op.ticketId, ev.op.role, ev.op.proof)
  }

  function CompleteIssue(cfg: Config, c: Primitives, s: System, ev: Event): Issue
    requires ev.op.Complete? && CompletePlan(cfg, c, s, ev).Commit?
  {
    var box := s.memory.mailboxes[ev.op.mailboxId];
    var request := TicketRequestFor(box.sessions[ev.op.requestId].request, ev.op.completion, box.hostKey,
                                    box.hostFingerprint);
    Issue(EvidenceOf(c, request, ev.now), Some((ev.op.mailboxId, ev.op.requestId)))
  }

  function CreateIssue(cfg: Config, c: Primitives, s: System, ev: Event): Issue
    requires ev.op.CreateTicket? && CreatePlan(cfg, c, s, ev).Commit?
  {
    Issue(EvidenceOf(c, ev.op.ticketRequest, ev.now), None)
  }

  function AccountName(r: HostRegistrationRequest): Str {
    if r.account.Some? then r.account.value else DEFAULT_ACCOUNT
  }

  // ---- One step ----

  ghost predicate RegisterStep(cfg: Config, c: Primitives, s: System, ev: Event, s': System)
    requires ev.op.Register?
  {
    var plan := RegisterPlan(cfg, c, s, ev);
    && Transacts(plan, cfg, ev.io, ev.now, s.disk, s'.memory, s'.disk)
    && s' == s.(memory := s'.memory, disk := s'.disk, now := ev.now,
                homes := if Commits(plan, cfg, ev.io) then s.homes[ev.op.mailboxId := AccountName(ev.op.registration)]
                         else s.homes)
  }

  ghost predicate SubmitStep(cfg: Config, c: Primitives, s: System, ev: Event, s': System)
    requires ev.op.Submit?
  {
    && ev.op.freshId !in s.requestIds
    && Transacts(SubmitPlan(cfg, c, s, ev), cfg, ev.io, ev.now, s.disk, s'.memory, s'.disk)
    && s' == s.(memory := s'.memory, disk := s'.disk, now := ev.now, requestIds := s.requestIds + {ev.op.freshId})
  }

  ghost predicate CompleteStep(cfg: Config, c: Primitives, s: System, ev: Event, s': System)
    requires ev.op.Complete?
  {
    var plan, id := CompletePlan(cfg, c, s, ev), ev.op.ticketId;
    && id !in s.ticketIds && Hex.Decode(id, 16).Some?
    && Transacts(plan, cfg, ev.io, ev.now, s.disk, s'.memory, s'.disk)
    && s' == s.(memory := s'.memory, disk := s'.disk, now := ev.now, ticketIds := s.ticketIds + {id},
                nextChannel := s.nextChannel + (if plan.Commit? then 1 else 0),
                issued := if Commits(plan, cfg, ev.io) then s.issued[id := CompleteIssue(cfg, c, s, ev)] else s.issued)
  }

  ghost predicate CreateStep(cfg: Config, c: Primitives, s: System, ev: Event, s': System)
    requires ev.op.CreateTicket?
  {
    var plan, id := CreatePlan(cfg, c, s, ev), ev.op.ticketId;
    && id !in s.ticketIds && Hex.Decode(id, 16).Some?
    && Transacts(plan, cfg, ev.io, ev.now, s.disk, s'.memory, s'.disk)
    && s' == s.(memory := s'.memory, disk := s'.disk, now := ev.now, ticketIds := s.ticketIds + {id},
                nextChannel := s.nextChannel + (if plan.Commit? then 1 else 0),
                issued := if Commits(plan, cfg, ev.io) then s.issued[id := CreateIssue(cfg, c, s, ev)] else s.issued)
  }

  ghost predicate ClaimStep(cfg: Config, c: Primitives, s: System, ev: Event, s': System)
    requires ev.op.Claim?
  {
    var plan := ClaimPlan(c, s, ev);
    && Transacts(plan, cfg, ev.io, ev.now, s.disk, s'.memory, s'.disk)
    && s' == s.(memory := s'.memory, disk := s'.disk, now := ev.now,
                grants := if Commits(plan, cfg, ev.io) then s.grants + [Grant(plan.reply, ev.op.role)] else s.grants)
  }

  /** The operations that never write. */
  ghost predicate ReadStep(cfg: Config, c: Primitives, s: System, ev: Event, s': System)
    requires ev.op.Next? || ev.op.Status? || ev.op.Ice? || ev.op.ListHosts?
  {
    var memory := match ev.op
      case Next(id, token) => MemoryAfter(PlanNext(cfg, c, s.memory, ev.now, id, token), cfg, ev.io)
      case Status(id, token, r) => MemoryAfter(PlanStatus(cfg, c, s.memory, ev.now, id, token, r), cfg, ev.io)
      case Ice(id, token) => MemoryAfter(PlanIce(cfg, c, s.memory, ev.now, id, token), cfg, ev.io)
      case ListHosts(account) => MemoryAfter(PlanList(s.memory, ev.now, account), cfg, ev.io);
    s' == s.(memory := memory, now := ev.now)
  }

  ghost predicate CrashStep(cfg: Config, s: System, ev: Event, s': System) {
    && Reloaded(cfg, s.disk, ev.now, s.nextChannel, s'.memory, s'.nextChannel)
    && s' == s.(memory := s'.memory, now := ev.now, nextChannel := s'.nextChannel, homes := map[], restarted := true)
  }

  ghost predicate Step(cfg: Config, c: Primitives, s: System, ev: Event, s': System) {
    && s.now <= ev.now
    && match ev.op
       case Register(_, _, _) => RegisterStep(cfg, c, s, ev, s')
       case Submit(_, _, _, _) => SubmitStep(cfg, c, s, ev, s')
       case Complete(_, _, _, _, _) => CompleteStep(cfg, c, s, ev, s')
       case CreateTicket(_, _, _) => CreateStep(cfg, c, s, ev, s')
       case Claim(_, _, _) => ClaimStep(cfg, c, s, ev, s')
       case Crash => CrashStep(cfg, s, ev, s')
       case _ => ReadStep(cfg, c, s, ev, s')
  }

  // ---- What the caller is told ----

  /** `Admitted` carries the channel, which the server keeps to itself. */
  datatype Reply =
    | Acknowledged(done: Result<(), RelayError>)
    | Created(requestId: Result<Str, RelayError>)
    | Polled(offer: Result<Option<PendingSession>, RelayError>)
    | Finished(ready: Result<SessionReady, RelayError>)
    | Shown(status: Result<Option<SessionReady>, RelayError>)
    | Listed(hosts: Result<seq<AccountHost>, RelayError>)
    | Ticketed(ticket: Result<TicketResponse, RelayError>)
    | Admitted(channel: Result<nat, RelayError>)

  /** The server may reply so; only polls and listings leave it a choice. */
  ghost predicate Answers(cfg: Config, c: Primitives, s: System, ev: Event, reply: Reply)
    requires !ev.op.Crash?
  {
    match ev.op
    case Register(_, _, _) => reply == Acknowledged(ReplyOf(RegisterPlan(cfg, c, s, ev), cfg, ev.io))
    case Submit(_, _, _, _) => reply == Created(ReplyOf(SubmitPlan(cfg, c, s, ev), cfg, ev.io))
    case Next(id, token) =>
      reply.Polled? && Polls(PlanNext(cfg, c, s.memory, ev.now, id, token), s.memory.mailboxes, id, reply.offer)
    case Complete(_, _, _, _, _) => reply == Finished(ReplyOf(CompletePlan(cfg, c, s, ev), cfg, ev.io))
    case Status(id, token, r) => reply == Shown(ReplyOf(PlanStatus(cfg, c, s.memory, ev.now, id, token, r), cfg, ev.io))
    case Ice(id, token) => reply == Acknowledged(ReplyOf(PlanIce(cfg, c, s.memory, ev.now, id, token), cfg, ev.io))
    case ListHosts(account) => reply.Listed? && ListsHosts(PlanList(s.memory, ev.now, account), reply.hosts)
    case CreateTicket(_, _, _) => reply == Ticketed(ReplyOf(CreatePlan(cfg, c, s, ev), cfg, ev.io))
    case Claim(_, _, _) => reply == Admitted(ReplyOf(ClaimPlan(c, s, ev), cfg, ev.io))
  }

  ghost predicate IsRun(cfg: Config, c: Primitives, states: seq<System>, events: seq<Event>) {
    && |states| == |events| + 1
    && Initial(states[0])
    && (forall i {:trigger events[i]} :: 0 <= i < |events| ==> Step(cfg, c, states[i], events[i], states[i + 1]))
  }

  /** There is a restart among the events from `i` up to `j`. */
  ghost predicate RestartBetween(events: seq<Event>, i: nat, j: nat)
    requires j <= |events|
  {
    exists k :: i <= k < j && events[k].op.Crash?
  }
}

/** What holds in every reachable state. */
module Invariants {
  import opened Prelude
  import opened Crypto
  import opened Protocol
  import opened Rules
  import opened Validation
  import opened State
  import opened Persistence
  import opened Transactions
  import opened Server
  import opened Runs
  import Hex

  // ---- Mailboxes ----

  ghost predicate SessionInv(c: Primitives, hostKey: Bytes, s: StoredSession, now: U64) {
    && SignedRequest(c, s.request, hostKey, Fingerprint(c, hostKey))
    && s.request.expires <= SaturatingAdd(now, MAX_TICKET_TTL)
    && (s.ready.Some? ==>
          && GenuineHandshake(c, s.request, hostKey, s.ready.value.handshake)
          && s.ready.value.ticket.expires <= s.request.expires)
  }

  /** No two sessions of a mailbox share a nonce or a client. */
  ghost predicate DistinctSessions(sessions: Sessions) {
    forall a <- sessions, b <- sessions :: a != b ==>
      && sessions[a].request.requestNonce != sessions[b].request.requestNonce
      && sessions[a].request.clientFingerprint != sessions[b].request.clientFingerprint
  }

  ghost predicate BoxInv(c: Primitives, id: Str, box: Mailbox, now: U64, requestIds: set<Str>) {
    && Hex.Decode(id, 32).Some?
    && |box.hostKey| == 32
    && box.hostFingerprint == Fingerprint(c, box.hostKey)
    && |box.sessions| <= MAX_PENDING_SESSIONS_PER_HOST
    && DistinctSessions(box.sessions)
    && (forall r <- box.sessions :: r in requestIds && SessionInv(c, box.hostKey, box.sessions[r], now))
  }

  ghost predicate BoxesInv(c: Primitives, boxes: Mailboxes, now: U64, requestIds: set<Str>) {
    forall id <- boxes :: BoxInv(c, id, boxes[id], now, requestIds)
  }

  // ---- Tickets, issues and nonces ----

  ghost predicate TicketInv(id: Str, t: Ticket, issued: map<Str, Issue>, nextChannel: nat, grants: seq<Grant>) {
    && id in issued
    && t.hostKey == issued[id].evidence.hostKey
    && t.clientKey == issued[id].evidence.clientKey
    && t.expires <= issued[id].evidence.expires
    && !t.BothClaimed()
    && t.channel < nextChannel
    && (forall role :: Grant(t.channel, role) in grants ==> Claimed(t, role))
  }

  ghost predicate TicketsInv(tickets: Tickets, issued: map<Str, Issue>, nextChannel: nat, grants: seq<Grant>) {
    && (forall id <- tickets :: TicketInv(id, tickets[id], issued, nextChannel, grants))
    && (forall a <- tickets, b <- tickets :: a != b ==> tickets[a].channel != tickets[b].channel)
  }

  /** Every granted claim is the only one for its channel and role. */
  ghost predicate GrantsInv(grants: seq<Grant>, nextChannel: nat) {
    && (forall g <- grants :: g.channel < nextChannel)
    && (forall i, j :: 0 <= i < j < |grants| ==> grants[i] != grants[j])
  }

  ghost predicate IssuedInv(c: Primitives, issued: map<Str, Issue>, ticketIds: set<Str>) {
    forall id <- issued :: id in ticketIds && Hex.Decode(id, 16).Some? && Genuine(c, issued[id].evidence)
  }

  /** A signed request is used for one ticket. */
  ghost predicate OnceInv(issued: map<Str, Issue>) {
    forall a <- issued, b <- issued :: a != b ==>
      (issued[a].evidence.nonce, issued[a].evidence.expires) != (issued[b].evidence.nonce, issued[b].evidence.expires)
  }

  /** The nonce of an issued ticket is remembered until the signed request expires. */
  ghost predicate NonceInv(nonces: Nonces, issued: map<Str, Issue>, now: U64) {
    forall id <- issued :: issued[id].evidence.expires > now ==>
      Remembers(nonces, issued[id].evidence.nonce, issued[id].evidence.expires)
  }

  /** The nonce is held at least until the given time. */
  ghost predicate Remembers(nonces: Nonces, nonce: Bytes32, until: U64) {
    nonce in nonces && nonces[nonce] >= until
  }

  /** The nonce of a held ticket is remembered until the signed request expires, with or without
      a file: a restart that forgets the nonces forgets the tickets too. */
  ghost predicate HeldInv(tickets: Tickets, nonces: Nonces, issued: map<Str, Issue>, now: U64) {
    forall id <- tickets ::
      && id in issued
      && (issued[id].evidence.expires > now ==>
            Remembers(nonces, issued[id].evidence.nonce, issued[id].evidence.expires))
  }

  /** A session and the ticket issued for it name each other. */
  ghost predicate LinkInv(boxes: Mailboxes, issued: map<Str, Issue>, requestIds: set<Str>) {
    && (forall id <- issued :: issued[id].session.Some? ==>
          var (mailboxId, requestId) := issued[id].session.value;
          && requestId in requestIds
          && (mailboxId in boxes && requestId in boxes[mailboxId].sessions ==>
                var ready := boxes[mailboxId].sessions[requestId].ready;
                ready.Some? && ready.value.ticket.ticketId == id))
    && (forall mailboxId <- boxes, requestId <- boxes[mailboxId].sessions ::
          boxes[mailboxId].sessions[requestId].ready.Some? ==>
            var id := boxes[mailboxId].sessions[requestId].ready.value.ticket.ticketId;
            id in issued && issued[id].session == Some((mailboxId, requestId)))
    && (forall a <- issued, b <- issued ::
          issued[a].session.Some? && issued[a].session == issued[b].session ==> a == b)
  }

  // ---- The file ----

  /** A file that passes every check of `load` except, perhaps, the three caps. */
  ghost predicate SoundFile(disk: Option<File>) {
    disk.Some? ==>
      && disk.value.size <= MAX_PERSISTED_STATE_BYTES
      && disk.value.content.version == PERSISTED_STATE_VERSION
      && (forall e <- disk.value.content.nonces :: NonceOk(e))
      && (forall k <- disk.value.content.mailboxes :: MailboxOk(k, disk.value.content.mailboxes[k]))
      && (forall k <- disk.value.content.tickets :: TicketOk(k, disk.value.content.tickets[k]))
  }

  function FileView(disk: Option<File>, t: nat): View
    requires SoundFile(disk)
  {
    if disk.None? then View(map[], map[], map[]) else RestoredView(disk.value.content, t)
  }

  /** From now on, the file and the memory give the same view. */
  ghost predicate FileInv(cfg: Config, disk: Option<File>, memory: Memory, now: U64) {
    cfg.stateFile ==>
      && SoundFile(disk)
      && (forall t: nat :: now <= t ==> FileView(disk, t) == LiveView(memory, t))
  }

  // ---- Accounts ----

  ghost predicate HomesInv(homes: map<Str, Str>, memory: Memory) {
    forall id <- homes :: id in memory.mailboxes ==>
      homes[id] in memory.accounts && id in memory.accounts[homes[id]]
  }

  // ---- All of it ----

  /** Nonces survive: there is a file, or there was no restart. */
  predicate Durable(cfg: Config, s: System) {
    cfg.stateFile || !s.restarted
  }

  ghost predicate Inv(cfg: Config, c: Primitives, s: System) {
    && BoxesInv(c, s.memory.mailboxes, s.now, s.requestIds)
    && TicketsInv(s.memory.tickets, s.issued, s.nextChannel, s.grants)
    && GrantsInv(s.grants, s.nextChannel)
    && IssuedInv(c, s.issued, s.ticketIds)
    && (Durable(cfg, s) ==> OnceInv(s.issued) && NonceInv(s.memory.nonces, s.issued, s.now))
    && HeldInv(s.memory.tickets, s.memory.nonces, s.issued, s.now)
    && LinkInv(s.memory.mailboxes, s.issued, s.requestIds)
    && FileInv(cfg, s.disk, s.memory, s.now)
    && HomesInv(s.homes, s.memory)
  }

  lemma InitialInv(cfg: Config, c: Primitives, s: System)
    requires Initial(s)
    ensures Inv(cfg, c, s)
  {
    forall t: nat ensures FileView(None, t) == LiveView(EMPTY, t) {
      assert OpenTickets(EMPTY.tickets, t) == map[];
      assert LiveNonces(EMPTY.nonces, t) == map[];
      assert RestoredBoxes(EMPTY.mailboxes, t) == map[];
    }
  }

  // ---- Shrinking tables ----

  ghost predicate ShrunkBox(a: Mailbox, b: Mailbox) {
    && b == a.(expires := b.expires, sessions := b.sessions)
    && Within(b.sessions, a.sessions)
  }

  ghost predicate ShrunkBoxes(a: Mailboxes, b: Mailboxes) {
    forall k <- b :: k in a && ShrunkBox(a[k], b[k])
  }

  lemma BoxShrinks(c: Primitives, id: Str, a: Mailbox, b: Mailbox, now: U64, later: U64, ids: set<Str>, more: set<Str>)
    requires BoxInv(c, id, a, now, ids) && ShrunkBox(a, b) && now <= later && ids <= more
    ensures BoxInv(c, id, b, later, more)
  {
    hide SignedRequest, GenuineHandshake, Hex.Decode, Fingerprint;
    WithinSize(b.sessions, a.sessions);
    forall r <- b.sessions ensures r in more && SessionInv(c, b.hostKey, b.sessions[r], later) {
      assert r in a.sessions && SessionInv(c, a.hostKey, a.sessions[r], now);
    }
  }

  lemma BoxesShrink(c: Primitives, a: Mailboxes, b: Mailboxes, now: U64, later: U64, ids: set<Str>, more: set<Str>)
    requires BoxesInv(c, a, now, ids) && ShrunkBoxes(a, b) && now <= later && ids <= more
    ensures BoxesInv(c, b, later, more)
  {
    hide BoxInv, ShrunkBox;
    forall id <- b ensures BoxInv(c, id, b[id], later, more) {
      BoxShrinks(c, id, a[id], b[id], now, later, ids, more);
    }
  }

  lemma LinkShrink(a: Mailboxes, b: Mailboxes, issued: map<Str, Issue>, ids: set<Str>, more: set<Str>)
    requires LinkInv(a, issued, ids) && ShrunkBoxes(a, b) && ids <= more
    ensures LinkInv(b, issued, more)
  {
    forall k <- b, r <- b[k].sessions ensures k in a && r in a[k].sessions && a[k].sessions[r] == b[k].sessions[r] {
      assert ShrunkBox(a[k], b[k]);
    }
  }

  lemma TicketsShrink(a: Tickets, b: Tickets, issued: map<Str, Issue>, nextChannel: nat, grants: seq<Grant>)
    requires TicketsInv(a, issued, nextChannel, grants) && Within(b, a)
    ensures TicketsInv(b, issued, nextChannel, grants)
  {
    forall id <- b ensures TicketInv(id, b[id], issued, nextChannel, grants) {
      assert TicketInv(id, a[id], issued, nextChannel, grants);
    }
  }

  // ---- Quiet effects: refusals, answers, and writes that were undone ----

  ghost predicate AccountsKept(before: Memory, after: Memory) {
    forall account <- before.accounts, id <- before.accounts[account] ::
      id in after.mailboxes ==> account in after.accounts && id in after.accounts[account]
  }

  ghost predicate Quiet(before: Memory, after: Memory, now: U64) {
    OnlyExpiredDropped(before, after, now) && AccountsKept(before, after)
  }

  lemma TicketsGrow(tickets: Tickets, issued: map<Str, Issue>, nextChannel: nat, later: nat, grants: seq<Grant>)
    requires TicketsInv(tickets, issued, nextChannel, grants) && GrantsInv(grants, nextChannel)
    requires nextChannel <= later
    ensures TicketsInv(tickets, issued, later, grants) && GrantsInv(grants, later)
  {
    forall id <- tickets ensures TicketInv(id, tickets[id], issued, later, grants) {
      assert TicketInv(id, tickets[id], issued, nextChannel, grants);
    }
  }

  lemma FileQuiet(cfg: Config, disk: Option<File>, before: Memory, after: Memory, now: U64, later: U64)
    requires FileInv(cfg, disk, before, now) && now <= later
    requires OnlyExpiredDropped(before, after, later)
    ensures FileInv(cfg, disk, after, later)
  {
    hide OnlyExpiredDropped, LiveView, RestoredView, SoundFile;
    if cfg.stateFile {
      forall t: nat | later <= t ensures FileView(disk, t) == LiveView(after, t) {
        ExpiredDroppedKeepsView(before, after, later, t);
      }
    }
  }

  lemma QuietKeeps(cfg: Config, c: Primitives, s: System, s': System)
    requires Inv(cfg, c, s) && s.now <= s'.now
    requires s' == s.(memory := s'.memory, now := s'.now, requestIds := s'.requestIds, ticketIds := s'.ticketIds,
                      nextChannel := s'.nextChannel)
    requires s.requestIds <= s'.requestIds && s.ticketIds <= s'.ticketIds && s.nextChannel <= s'.nextChannel
    requires Quiet(s.memory, s'.memory, s'.now)
    ensures Inv(cfg, c, s')
  {
    hide BoxesInv, TicketsInv, LinkInv, GrantsInv, FileInv, OnceInv, Genuine;
    var m, m' := s.memory, s'.memory;
    assert ShrunkBoxes(m.mailboxes, m'.mailboxes);
    BoxesShrink(c, m.mailboxes, m'.mailboxes, s.now, s'.now, s.requestIds, s'.requestIds);
    LinkShrink(m.mailboxes, m'.mailboxes, s.issued, s.requestIds, s'.requestIds);
    TicketsShrink(m.tickets, m'.tickets, s.issued, s.nextChannel, s.grants);
    TicketsGrow(m'.tickets, s.issued, s.nextChannel, s'.nextChannel, s.grants);
    FileQuiet(cfg, s.disk, m, m', s.now, s'.now);
    assert IssuedInv(c, s'.issued, s'.ticketIds);
    assert HomesInv(s'.homes, m');
  }
}
