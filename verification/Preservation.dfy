/** Whatever an operation does short of a successful write only drops expired entries. */
module Rollback {
  import opened Prelude
  import opened Crypto
  import opened Protocol
  import opened Rules
  import opened Validation
  import opened State
  import opened Persistence
  import opened Transactions
  import opened Invariants

  /** The memory left by a refusal, an answer, or a write that failed and was undone. */
  ghost predicate QuietUnlessCommitted<R>(m: Memory, plan: Plan<R>, now: U64) {
    match plan
    case Refuse(_, kept) => Quiet(m, kept, now)
    case Answer(_, kept) => Quiet(m, kept, now)
    case Commit(_, _, undone) => Quiet(m, undone, now)
  }

  lemma PruneBoxes(m: Memory, now: U64)
    ensures Quiet(m, m, now)
    ensures Quiet(m, m.(mailboxes := LiveMailboxes(m.mailboxes, now)), now)
  {
  }

  lemma RegisterQuiet(cfg: Config, c: Primitives, m: Memory, now: U64, mailboxId: Str, token: Str,
                      r: HostRegistrationRequest)
    ensures QuietUnlessCommitted(m, PlanRegister(cfg, c, m, now, mailboxId, token, r), now)
  {
    hide CheckRegistration, OnlyExpiredDropped;
    PruneBoxes(m, now);
    var plan := PlanRegister(cfg, c, m, now, mailboxId, token, r);
    if plan.Commit? {
      AccountsDoNotMatter(m, m.(mailboxes := LiveMailboxes(m.mailboxes, now)), plan.undone, now);
    }
  }

  lemma AccountsDoNotMatter(before: Memory, a: Memory, b: Memory, now: U64)
    requires OnlyExpiredDropped(before, a, now) && b == a.(accounts := b.accounts)
    ensures OnlyExpiredDropped(before, b, now)
  {
  }

  /** Storing a session table from which only expired sessions are missing. */
  lemma StoreQuiet(m: Memory, now: U64, mailboxId: Str, sessions: Sessions)
    requires mailboxId in m.mailboxes && m.mailboxes[mailboxId].expires > now
    requires Within(sessions, m.mailboxes[mailboxId].sessions)
    requires forall r <- m.mailboxes[mailboxId].sessions ::
               m.mailboxes[mailboxId].sessions[r].request.expires > now ==> r in sessions
    ensures Quiet(m, WithSessions(m.(mailboxes := LiveMailboxes(m.mailboxes, now)), mailboxId, sessions), now)
  {
  }

  lemma SubmitQuiet(cfg: Config, c: Primitives, m: Memory, now: U64, mailboxId: Str, token: Str,
                    r: ClientSessionRequest, freshId: Str)
    requires forall id <- m.mailboxes :: |m.mailboxes[id].sessions| <= MAX_PENDING_SESSIONS_PER_HOST
    ensures QuietUnlessCommitted(m, PlanSubmit(cfg, c, m, now, mailboxId, token, r, freshId), now)
  {
    hide Gate, ValidateClientSessionRequest, HoldsNonce, Quiet;
    PruneBoxes(m, now);
    if mailboxId in m.mailboxes && m.mailboxes[mailboxId].expires > now {
      var all := m.mailboxes[mailboxId].sessions;
      var live := UnexpiredSessions(all, now);
      var others := OtherClients(live, r.clientFingerprint);
      StoreQuiet(m, now, mailboxId, live);
      if |others| >= MAX_PENDING_SESSIONS_PER_HOST {
        WithinSize(live, all);
        WithinSize(others, live);
        StoreQuiet(m, now, mailboxId, others);
      }
    }
  }

  lemma NextQuiet(cfg: Config, c: Primitives, m: Memory, now: U64, mailboxId: Str, token: Str)
    ensures QuietUnlessCommitted(m, PlanNext(cfg, c, m, now, mailboxId, token), now)
  {
    hide Gate, Quiet;
    PruneBoxes(m, now);
    if mailboxId in m.mailboxes && m.mailboxes[mailboxId].expires > now {
      StoreQuiet(m, now, mailboxId, UnexpiredSessions(m.mailboxes[mailboxId].sessions, now));
    }
  }

  lemma LookupQuiet(cfg: Config, c: Primitives, m: Memory, now: U64, mailboxId: Str, token: Str, requestId: Str)
    ensures QuietUnlessCommitted(m, PlanStatus(cfg, c, m, now, mailboxId, token, requestId), now)
    ensures QuietUnlessCommitted(m, PlanIce(cfg, c, m, now, mailboxId, token), now)
  {
    hide Gate, Quiet;
    PruneBoxes(m, now);
  }

  lemma ListQuiet(m: Memory, now: U64, account: Str)
    ensures QuietUnlessCommitted(m, PlanList(m, now, account), now)
  {
    hide NormalizeAccount;
  }

  lemma PruneNonces(m: Memory, now: U64)
    ensures Quiet(m, m.(nonces := LiveNonces(m.nonces, now)), now)
    ensures Quiet(m, m.(mailboxes := LiveMailboxes(m.mailboxes, now), nonces := LiveNonces(m.nonces, now)), now)
    ensures Quiet(m, m.(tickets := LiveTickets(m.tickets, now)), now)
  {
  }

  lemma CompleteQuiet(cfg: Config, c: Primitives, m: Memory, now: U64, mailboxId: Str, token: Str, requestId: Str,
                      h: HostSessionCompletion, ticketId: Str, channel: nat)
    ensures QuietUnlessCommitted(m, PlanComplete(cfg, c, m, now, mailboxId, token, requestId, h, ticketId, channel),
                                 now)
  {
    hide Gate, CheckCompletion, Quiet;
    PruneBoxes(m, now);
    PruneNonces(m, now);
  }

  lemma CreateQuiet(cfg: Config, c: Primitives, m: Memory, now: U64, admin: bool, r: CreateTicketRequest,
                    ticketId: Str, channel: nat)
    ensures QuietUnlessCommitted(m, PlanCreateTicket(cfg, c, m, now, admin, r, ticketId, channel), now)
  {
    hide ValidateTicketRequest, Quiet;
    PruneBoxes(m, now);
    PruneNonces(m, now);
  }

  lemma ClaimQuiet(c: Primitives, m: Memory, now: U64, ticketId: Str, role: EndpointRole, proof: Str)
    ensures QuietUnlessCommitted(m, PlanClaim(c, m, now, ticketId, role, proof), now)
  {
    hide ProvesClaim, Quiet;
    PruneNonces(m, now);
  }
}

/** Every step keeps the invariant. */
module Preservation {
  import opened Prelude
  import opened Crypto
  import opened Protocol
  import opened Rules
  import opened Validation
  import opened State
  import opened Persistence
  import opened Transactions
  import opened Server
  import opened Runs
  import opened Invariants
  import opened Rollback
  import Hex

  lemma BoxesPut(c: Primitives, boxes: Mailboxes, id: Str, box: Mailbox, now: U64, ids: set<Str>)
    requires BoxesInv(c, boxes, now, ids) && BoxInv(c, id, box, now, ids)
    ensures BoxesInv(c, boxes[id := box], now, ids)
  {
    hide BoxInv;
  }

  /** A successful write leaves a file that `load` accepts and that restores the live view. */
  lemma FileWritten(cfg: Config, c: Primitives, io: Io, now: U64, m: Memory, before: Option<File>, after: Option<File>,
                    issued: map<Str, Issue>, requestIds: set<Str>, ticketIds: set<Str>, nextChannel: nat,
                    grants: seq<Grant>)
    requires FileAfter(true, cfg, io, now, m, before, after)
    requires BoxesInv(c, m.mailboxes, now, requestIds)
    requires TicketsInv(m.tickets, issued, nextChannel, grants)
    requires IssuedInv(c, issued, ticketIds)
    ensures FileInv(cfg, after, m, now)
  {
    if cfg.stateFile {
      hide LiveView, RestoredView;
      var p := after.value.content;
      SnapshotNonces(p, m, now, now);
      forall k <- p.mailboxes ensures MailboxOk(k, p.mailboxes[k]) {
        assert BoxInv(c, k, m.mailboxes[k], now, requestIds);
        FingerprintIsFingerprint(c, m.mailboxes[k].hostKey);
      }
      forall k <- p.tickets ensures TicketOk(k, p.tickets[k]) {
        assert TicketInv(k, m.tickets[k], issued, nextChannel, grants);
      }
      forall t: nat | now <= t ensures FileView(after, t) == LiveView(m, t) {
        SnapshotRestoresView(p, m, now, t);
      }
    }
  }

  lemma RegisterKeeps(cfg: Config, c: Primitives, s: System, ev: Event, s': System)
    requires s.now <= ev.now && ev.op.Register? && RegisterStep(cfg, c, s, ev, s')
    requires Commits(RegisterPlan(cfg, c, s, ev), cfg, ev.io)
    requires Inv(cfg, c, s)
    ensures Inv(cfg, c, s')
  {
    hide BoxInv, LinkInv, TicketsInv, GrantsInv, IssuedInv, OnceInv, FileInv, CheckRegistration, Snapshot;
    var m, m', id := s.memory, s'.memory, ev.op.mailboxId;
    var live := LiveMailboxes(m.mailboxes, ev.now);
    assert m' == RegisterPlan(cfg, c, s, ev).next;
    assert m'.mailboxes == live[id := m'.mailboxes[id]];
    BoxesShrink(c, m.mailboxes, live, s.now, ev.now, s.requestIds, s.requestIds);
    LinkShrink(m.mailboxes, live, s.issued, s.requestIds, s.requestIds);
    RegisteredBox(cfg, c, s, ev, m'.mailboxes[id]);
    BoxesPut(c, live, id, m'.mailboxes[id], ev.now, s.requestIds);
    RegisteredLink(live, id, m'.mailboxes[id], s.issued, s.requestIds);
    FileWritten(cfg, c, ev.io, ev.now, m', s.disk, s'.disk, s.issued, s.requestIds, s.ticketIds, s.nextChannel,
                s.grants);
    RegisteredHome(cfg, c, s, ev, s');
  }

  /** The mailbox that a committed registration stores. */
  lemma RegisteredBox(cfg: Config, c: Primitives, s: System, ev: Event, box: Mailbox)
    requires ev.op.Register? && RegisterPlan(cfg, c, s, ev).Commit? && s.now <= ev.now
    requires BoxesInv(c, s.memory.mailboxes, s.now, s.requestIds)
    requires ev.op.mailboxId in RegisterPlan(cfg, c, s, ev).next.mailboxes
    requires box == RegisterPlan(cfg, c, s, ev).next.mailboxes[ev.op.mailboxId]
    ensures BoxInv(c, ev.op.mailboxId, box, ev.now, s.requestIds)
    ensures var live := LiveMailboxes(s.memory.mailboxes, ev.now);
      if ev.op.mailboxId in live then ShrunkBox(live[ev.op.mailboxId], box) else box.sessions == map[]
  {
    var id, r := ev.op.mailboxId, ev.op.registration;
    var live := LiveMailboxes(s.memory.mailboxes, ev.now);
    CheckedRegistration(cfg, c, ev.now, id, ev.op.token, r);
    hide CheckRegistration, SignedRequest, GenuineHandshake, Hex.Decode, Fingerprint;
    if id in live {
      assert BoxInv(c, id, live[id], s.now, s.requestIds);
      BoxShrinks(c, id, live[id], box, s.now, ev.now, s.requestIds, s.requestIds);
    }
  }

  lemma CheckedRegistration(cfg: Config, c: Primitives, now: U64, id: Str, token: Str, r: HostRegistrationRequest)
    requires CheckRegistration(cfg, c, now, id, token, r).Success?
    ensures var v := CheckRegistration(cfg, c, now, id, token, r).value.0;
      && Hex.Decode(id, 32).Some? && |v.hostKey| == 32 && r.hostFingerprint == Fingerprint(c, v.hostKey)
      && ValidateHostRegistration(c, id, r, now) == Success(v)
    ensures CheckRegistration(cfg, c, now, id, token, r).value.1 == AccountName(r)
  {
    hide Gate;
  }

  lemma RegisteredLink(live: Mailboxes, id: Str, box: Mailbox, issued: map<Str, Issue>, requestIds: set<Str>)
    requires LinkInv(live, issued, requestIds)
    requires if id in live then ShrunkBox(live[id], box) else box.sessions == map[]
    ensures LinkInv(live[id := box], issued, requestIds)
  {
  }

  lemma RegisteredHome(cfg: Config, c: Primitives, s: System, ev: Event, s': System)
    requires HomesInv(s.homes, s.memory) && ev.op.Register? && RegisterStep(cfg, c, s, ev, s')
    requires Commits(RegisterPlan(cfg, c, s, ev), cfg, ev.io)
    ensures HomesInv(s'.homes, s'.memory)
  {
    hide Gate, ValidateHostRegistration, FileAfter;
  }

  lemma SubmitKeeps(cfg: Config, c: Primitives, s: System, ev: Event, s': System)
    requires s.now <= ev.now && ev.op.Submit? && SubmitStep(cfg, c, s, ev, s')
    requires Commits(SubmitPlan(cfg, c, s, ev), cfg, ev.io)
    requires Inv(cfg, c, s)
    ensures Inv(cfg, c, s')
  {
    hide BoxInv, LinkInv, TicketsInv, GrantsInv, IssuedInv, OnceInv, FileInv, Snapshot, Gate,
      ValidateClientSessionRequest, HoldsNonce;
    var m, m', id := s.memory, s'.memory, ev.op.mailboxId;
    var live := LiveMailboxes(m.mailboxes, ev.now);
    assert m' == SubmitPlan(cfg, c, s, ev).next;
    assert m'.mailboxes == live[id := m'.mailboxes[id]];
    BoxesShrink(c, m.mailboxes, live, s.now, ev.now, s.requestIds, s'.requestIds);
    LinkShrink(m.mailboxes, live, s.issued, s.requestIds, s.requestIds);
    SubmitCommits(cfg, c, m, ev.now, id, ev.op.token, ev.op.request, ev.op.freshId);
    SubmittedBox(c, id, live[id], ev.op.request, ev.op.freshId, s.now, ev.now, s.requestIds);
    BoxesPut(c, live, id, m'.mailboxes[id], ev.now, s'.requestIds);
    SubmittedLink(live, id, m'.mailboxes[id], s.issued, s.requestIds, ev.op.freshId);
    FileWritten(cfg, c, ev.io, ev.now, m', s.disk, s'.disk, s.issued, s'.requestIds, s.ticketIds, s.nextChannel,
                s.grants);
    assert HomesInv(s'.homes, m');
  }

  /** When a submission is committed, and what it stores. */
  lemma SubmitCommits(cfg: Config, c: Primitives, m: Memory, now: U64, mailboxId: Str, token: Str,
                      r: ClientSessionRequest, freshId: Str)
    ensures var plan := PlanSubmit(cfg, c, m, now, mailboxId, token, r, freshId);
      plan.Commit? <==>
        && Gate(cfg, c, mailboxId, token).Success?
        && mailboxId in m.mailboxes && m.mailboxes[mailboxId].expires > now
        && (var box := m.mailboxes[mailboxId];
            var live := UnexpiredSessions(box.sessions, now);
            && box.tokenDigest == c.sha256(token)
            && ValidateClientSessionRequest(c, r, box.hostKey, box.hostFingerprint, now).Success?
            && !HoldsNonce(live, r.requestNonce)
            && |OtherClients(live, r.clientFingerprint)| < MAX_PENDING_SESSIONS_PER_HOST)
    ensures var plan := PlanSubmit(cfg, c, m, now, mailboxId, token, r, freshId);
      plan.Commit? ==>
        && mailboxId in plan.next.mailboxes
        && plan.next.mailboxes[mailboxId] == Submitted(m.mailboxes[mailboxId], r, freshId, now)
  {
    hide Gate, ValidateClientSessionRequest, HoldsNonce;
  }

  /** The new session joins the unexpired sessions of the other clients. */
  function Submitted(box: Mailbox, r: ClientSessionRequest, freshId: Str, now: U64): Mailbox {
    var others := OtherClients(UnexpiredSessions(box.sessions, now), r.clientFingerprint);
    box.(sessions := others[freshId := StoredSession(r, None)])
  }

  lemma SubmittedDistinct(sessions: Sessions, r: ClientSessionRequest, freshId: Str, now: U64)
    requires DistinctSessions(sessions) && freshId !in sessions
    requires !HoldsNonce(UnexpiredSessions(sessions, now), r.requestNonce)
    ensures var others := OtherClients(UnexpiredSessions(sessions, now), r.clientFingerprint);
      DistinctSessions(others[freshId := StoredSession(r, None)])
  {
    var live := UnexpiredSessions(sessions, now);
    forall x <- OtherClients(live, r.clientFingerprint) ensures sessions[x].request.requestNonce != r.requestNonce {
      assert x in live;
    }
  }

  lemma AddSession(c: Primitives, id: Str, box: Mailbox, s: StoredSession, freshId: Str, now: U64, ids: set<Str>)
    requires BoxInv(c, id, box, now, ids) && freshId !in ids
    requires |box.sessions| < MAX_PENDING_SESSIONS_PER_HOST
    requires DistinctSessions(box.sessions[freshId := s])
    requires SessionInv(c, box.hostKey, s, now)
    ensures BoxInv(c, id, box.(sessions := box.sessions[freshId := s]), now, ids + {freshId})
  {
    hide SessionInv, DistinctSessions, Hex.Decode, Fingerprint;
  }

  lemma SubmittedBox(c: Primitives, id: Str, box: Mailbox, r: ClientSessionRequest, freshId: Str, now: U64, later: U64,
                     ids: set<Str>)
    requires BoxInv(c, id, box, now, ids) && freshId !in ids && now <= later
    requires ValidateClientSessionRequest(c, r, box.hostKey, box.hostFingerprint, later).Success?
    requires !HoldsNonce(UnexpiredSessions(box.sessions, later), r.requestNonce)
    requires |OtherClients(UnexpiredSessions(box.sessions, later), r.clientFingerprint)| < MAX_PENDING_SESSIONS_PER_HOST
    ensures BoxInv(c, id, Submitted(box, r, freshId, later), later, ids + {freshId})
    ensures AddedSession(box, Submitted(box, r, freshId, later), freshId)
  {
    hide ValidateClientSessionRequest, SignedRequest, HoldsNonce, Hex.Decode, Fingerprint, GenuineHandshake;
    var others := OtherClients(UnexpiredSessions(box.sessions, later), r.clientFingerprint);
    ClockTestSplits(c, r, box.hostKey, box.hostFingerprint, later);
    assert freshId !in box.sessions;
    SubmittedDistinct(box.sessions, r, freshId, later);
    assert ShrunkBox(box, box.(sessions := others));
    assert AddedSession(box, Submitted(box, r, freshId, later), freshId);
    hide AddedSession, OtherClients, UnexpiredSessions, DistinctSessions, ShrunkBox;
    BoxShrinks(c, id, box, box.(sessions := others), now, later, ids, ids);
    assert SessionInv(c, box.hostKey, StoredSession(r, None), later);
    AddSession(c, id, box.(sessions := others), StoredSession(r, None), freshId, later, ids);
  }

  ghost predicate AddedSession(a: Mailbox, b: Mailbox, freshId: Str) {
    && b == a.(sessions := b.sessions)
    && freshId in b.sessions && b.sessions[freshId].ready.None?
    && (forall r <- b.sessions :: r != freshId ==> r in a.sessions && a.sessions[r] == b.sessions[r])
  }

  lemma SubmittedLink(live: Mailboxes, id: Str, box: Mailbox, issued: map<Str, Issue>, requestIds: set<Str>,
                      freshId: Str)
    requires LinkInv(live, issued, requestIds) && freshId !in requestIds
    requires id in live && AddedSession(live[id], box, freshId)
    ensures LinkInv(live[id := box], issued, requestIds + {freshId})
  {
  }

  // ---- Issuing ----

  lemma IssueTickets(tickets: Tickets, issued: map<Str, Issue>, nextChannel: nat, grants: seq<Grant>, id: Str,
                     t: Ticket, issue: Issue)
    requires TicketsInv(tickets, issued, nextChannel, grants) && GrantsInv(grants, nextChannel)
    requires id !in issued
    requires t.hostKey == issue.evidence.hostKey && t.clientKey == issue.evidence.clientKey
    requires t.expires <= issue.evidence.expires
    requires !t.hostClaimed && !t.clientClaimed && t.channel == nextChannel
    ensures TicketsInv(tickets[id := t], issued[id := issue], nextChannel + 1, grants)
    ensures GrantsInv(grants, nextChannel + 1)
  {
    var next := tickets[id := t];
    forall k <- next ensures TicketInv(k, next[k], issued[id := issue], nextChannel + 1, grants) {
      if k != id {
        assert TicketInv(k, tickets[k], issued, nextChannel, grants);
      }
    }
  }

  lemma IssueIssued(c: Primitives, issued: map<Str, Issue>, ids: set<Str>, id: Str, issue: Issue)
    requires IssuedInv(c, issued, ids) && Genuine(c, issue.evidence) && Hex.Decode(id, 16).Some?
    ensures IssuedInv(c, issued[id := issue], ids + {id})
  {
    hide Genuine, Hex.Decode;
  }

  /** A nonce that is not remembered was never used for a request that is still valid. */
  lemma IssueOnce(nonces: Nonces, issued: map<Str, Issue>, now: U64, later: U64, id: Str, issue: Issue)
    requires OnceInv(issued) && NonceInv(nonces, issued, now) && now <= later
    requires id !in issued && issue.evidence.expires > later
    requires issue.evidence.nonce !in LiveNonces(nonces, later)
    ensures OnceInv(issued[id := issue])
    ensures NonceInv(LiveNonces(nonces, later)[issue.evidence.nonce := issue.evidence.expires], issued[id := issue],
                     later)
  {
    var e := issue.evidence;
    forall k <- issued | issued[k].evidence.expires > later ensures issued[k].evidence.nonce != e.nonce {
    }
  }

  lemma IssueLinkNone(boxes: Mailboxes, issued: map<Str, Issue>, ids: set<Str>, id: Str, issue: Issue)
    requires LinkInv(boxes, issued, ids) && id !in issued && issue.session.None?
    ensures LinkInv(boxes, issued[id := issue], ids)
  {
  }

  /** The nonce of a new ticket is added without displacing one that is still needed. */
  lemma IssueHeld(tickets: Tickets, nonces: Nonces, issued: map<Str, Issue>, now: U64, later: U64, id: Str, t: Ticket,
                  issue: Issue)
    requires HeldInv(tickets, nonces, issued, now) && now <= later
    requires id !in issued && issue.evidence.nonce !in LiveNonces(nonces, later)
    ensures HeldInv(tickets[id := t], LiveNonces(nonces, later)[issue.evidence.nonce := issue.evidence.expires],
                    issued[id := issue], later)
  {
  }

  lemma CreateCommits(cfg: Config, c: Primitives, m: Memory, now: U64, admin: bool, r: CreateTicketRequest,
                      ticketId: Str, channel: nat)
    ensures var plan := PlanCreateTicket(cfg, c, m, now, admin, r, ticketId, channel);
      plan.Commit? <==>
        && cfg.enabled && admin
        && ValidateTicketRequest(c, r, now).Success?
        && ValidateTicketRequest(c, r, now).value.nonce !in LiveNonces(m.nonces, now)
    ensures var plan := PlanCreateTicket(cfg, c, m, now, admin, r, ticketId, channel);
      plan.Commit? ==>
        var e := EvidenceOf(c, r, now);
        plan.next == m.(nonces := LiveNonces(m.nonces, now)[e.nonce := e.expires],
                        tickets := m.tickets[ticketId := NewTicket(cfg, e, now, channel)])
  {
    if ValidateTicketRequest(c, r, now).Success? {
      var e := EvidenceOf(c, r, now);
      hide ValidateTicketRequest;
    }
    hide ValidateTicketRequest;
  }

  function NewTicket(cfg: Config, e: Evidence, now: U64, channel: nat): (t: Ticket)
    requires now < e.expires
    ensures t.expires <= e.expires
  {
    Ticket(e.hostKey, e.clientKey, now + Min(cfg.ticketTtl, e.expires - now), false, false, channel)
  }

  lemma CreateKeeps(cfg: Config, c: Primitives, s: System, ev: Event, s': System)
    requires s.now <= ev.now && ev.op.CreateTicket? && CreateStep(cfg, c, s, ev, s')
    requires Commits(CreatePlan(cfg, c, s, ev), cfg, ev.io)
    requires Inv(cfg, c, s)
    ensures Inv(cfg, c, s')
  {
    hide BoxesInv, LinkInv, TicketsInv, GrantsInv, FileInv, OnceInv, NonceInv, HeldInv, Snapshot, Genuine,
      ValidateTicketRequest;
    var m, m', id := s.memory, s'.memory, ev.op.ticketId;
    CreateCommits(cfg, c, m, ev.now, ev.op.admin, ev.op.ticketRequest, id, s.nextChannel);
    var issue := CreateIssue(cfg, c, s, ev);
    var e := issue.evidence;
    assert id !in s.issued;
    IssueTickets(m.tickets, s.issued, s.nextChannel, s.grants, id, NewTicket(cfg, e, ev.now, s.nextChannel), issue);
    IssueIssued(c, s.issued, s.ticketIds, id, issue);
    BoxesLater(c, m.mailboxes, s.now, ev.now, s.requestIds);
    IssueLinkNone(m.mailboxes, s.issued, s.requestIds, id, issue);
    IssueHeld(m.tickets, m.nonces, s.issued, s.now, ev.now, id, NewTicket(cfg, issue.evidence, ev.now, s.nextChannel),
              issue);
    if Durable(cfg, s) {
      IssueOnce(m.nonces, s.issued, s.now, ev.now, id, issue);
    }
    FileWritten(cfg, c, ev.io, ev.now, m', s.disk, s'.disk, s'.issued, s.requestIds, s'.ticketIds, s'.nextChannel,
                s.grants);
  }

  lemma BoxesLater(c: Primitives, boxes: Mailboxes, now: U64, later: U64, ids: set<Str>)
    requires BoxesInv(c, boxes, now, ids) && now <= later
    ensures BoxesInv(c, boxes, later, ids)
  {
    BoxesShrink(c, boxes, boxes, now, later, ids, ids);
  }

  // ---- Completion ----

  /** When a completion is committed, and what it stores. */
  lemma CompleteCommits(cfg: Config, c: Primitives, m: Memory, now: U64, mailboxId: Str, token: Str, requestId: Str,
                        h: HostSessionCompletion, ticketId: Str, channel: nat)
    ensures var plan := PlanComplete(cfg, c, m, now, mailboxId, token, requestId, h, ticketId, channel);
      plan.Commit? <==>
        && Gate(cfg, c, mailboxId, token).Success?
        && h.protocol == SESSION_COMPLETION_PROTOCOL
        && mailboxId in m.mailboxes && m.mailboxes[mailboxId].expires > now
        && (var box := m.mailboxes[mailboxId];
            && box.tokenDigest == c.sha256(token)
            && requestId in box.sessions && box.sessions[requestId].ready.None?
            && (var checked :=
                  CheckCompletion(c, h, box.sessions[requestId].request, box.hostKey, box.hostFingerprint, now);
                checked.Success? && checked.value.1.nonce !in LiveNonces(m.nonces, now)))
    ensures var plan := PlanComplete(cfg, c, m, now, mailboxId, token, requestId, h, ticketId, channel);
      plan.Commit? ==>
        var box := m.mailboxes[mailboxId];
        var (handshake, v) :=
          CheckCompletion(c, h, box.sessions[requestId].request, box.hostKey, box.hostFingerprint, now).value;
        && plan.reply == SessionReady(IssuedReply(cfg, now, v, ticketId), handshake)
        && plan.next.accounts == m.accounts
        && plan.next.nonces == LiveNonces(m.nonces, now)[v.nonce := now + v.validFor]
        && plan.next.tickets
             == m.tickets[ticketId :=
                  Ticket(v.hostKey, v.clientKey, now + Min(cfg.ticketTtl, v.validFor), false, false, channel)]
        && plan.next.mailboxes
             == LiveMailboxes(m.mailboxes, now)[mailboxId := Completed(box, requestId, Some(plan.reply))]
  {
    hide Gate, CheckCompletion;
  }

  lemma CompletedBox(c: Primitives, id: Str, box: Mailbox, requestId: Str, ready: SessionReady, now: U64, ids: set<Str>)
    requires BoxInv(c, id, box, now, ids) && requestId in box.sessions
    requires GenuineHandshake(c, box.sessions[requestId].request, box.hostKey, ready.handshake)
    requires ready.ticket.expires <= box.sessions[requestId].request.expires
    ensures BoxInv(c, id, Completed(box, requestId, Some(ready)), now, ids)
  {
    hide SignedRequest, GenuineHandshake, Hex.Decode, Fingerprint;
    var done := Completed(box, requestId, Some(ready));
    assert done.sessions.Keys == box.sessions.Keys;
    WithinSize(done.sessions, box.sessions);
    assert DistinctSessions(done.sessions);
    assert SessionInv(c, box.hostKey, box.sessions[requestId], now);
  }

  lemma CompletedLink(boxes: Mailboxes, mailboxId: Str, requestId: Str, ready: SessionReady, issued: map<Str, Issue>,
                      ids: set<Str>, issue: Issue)
    requires LinkInv(boxes, issued, ids)
    requires mailboxId in boxes && requestId in boxes[mailboxId].sessions && requestId in ids
    requires boxes[mailboxId].sessions[requestId].ready.None?
    requires issue.session == Some((mailboxId, requestId)) && ready.ticket.ticketId !in issued
    ensures LinkInv(boxes[mailboxId := Completed(boxes[mailboxId], requestId, Some(ready))],
                    issued[ready.ticket.ticketId := issue], ids)
  {
  }

  /** The evidence behind a committed completion. */
  lemma CompletionEvidence(cfg: Config, c: Primitives, s: System, ev: Event)
    requires ev.op.Complete? && CompletePlan(cfg, c, s, ev).Commit?
    ensures var box := s.memory.mailboxes[ev.op.mailboxId];
      var r := box.sessions[ev.op.requestId].request;
      var (handshake, v) := CheckCompletion(c, ev.op.completion, r, box.hostKey, box.hostFingerprint, ev.now).value;
      var issue := CompleteIssue(cfg, c, s, ev);
      && v == ValidatedTicketRequest(issue.evidence.hostKey, issue.evidence.clientKey, issue.evidence.nonce,
                                     issue.evidence.expires - ev.now)
      && Genuine(c, issue.evidence)
      && issue.evidence.expires == r.expires > ev.now
      && issue.session == Some((ev.op.mailboxId, ev.op.requestId))
      && GenuineHandshake(c, r, box.hostKey, handshake)
  {
    hide ValidateTicketRequest, ValidateHostSessionCompletion, GenuineHandshake, Genuine, Gate, PlanComplete;
    CompleteCommits(cfg, c, s.memory, ev.now, ev.op.mailboxId, ev.op.token, ev.op.requestId, ev.op.completion,
                    ev.op.ticketId, s.nextChannel);
    var box := s.memory.mailboxes[ev.op.mailboxId];
    var r := box.sessions[ev.op.requestId].request;
    CompletionAcceptedIffGenuine(c, ev.op.completion, r, box.hostKey);
  }

  lemma LiveShrinks(boxes: Mailboxes, now: U64)
    ensures ShrunkBoxes(boxes, LiveMailboxes(boxes, now))
    ensures forall k <- boxes :: boxes[k].expires > now ==>
              k in LiveMailboxes(boxes, now) && LiveMailboxes(boxes, now)[k] == boxes[k]
  {
  }

  lemma CompleteKeepsBoxes(cfg: Config, c: Primitives, s: System, ev: Event)
    requires BoxesInv(c, s.memory.mailboxes, s.now, s.requestIds) && LinkInv(s.memory.mailboxes, s.issued, s.requestIds)
    requires s.now <= ev.now && ev.op.Complete? && CompletePlan(cfg, c, s, ev).Commit? && ev.op.ticketId !in s.issued
    ensures var boxes := CompletePlan(cfg, c, s, ev).next.mailboxes;
      && BoxesInv(c, boxes, ev.now, s.requestIds)
      && LinkInv(boxes, s.issued[ev.op.ticketId := CompleteIssue(cfg, c, s, ev)], s.requestIds)
      && boxes.Keys <= s.memory.mailboxes.Keys
  {
    hide BoxInv, LinkInv, Genuine, CheckCompletion, Gate, GenuineHandshake, ShrunkBoxes, PlanComplete, CompleteIssue;
    var m, mailboxId := s.memory, ev.op.mailboxId;
    var live := LiveMailboxes(m.mailboxes, ev.now);
    CompleteCommits(cfg, c, m, ev.now, mailboxId, ev.op.token, ev.op.requestId, ev.op.completion, ev.op.ticketId,
                    s.nextChannel);
    CompletionEvidence(cfg, c, s, ev);
    var issue, ready := CompleteIssue(cfg, c, s, ev), CompletePlan(cfg, c, s, ev).reply;
    LiveShrinks(m.mailboxes, ev.now);
    hide LiveMailboxes;
    BoxesShrink(c, m.mailboxes, live, s.now, ev.now, s.requestIds, s.requestIds);
    LinkShrink(m.mailboxes, live, s.issued, s.requestIds, s.requestIds);
    CompletedBox(c, mailboxId, live[mailboxId], ev.op.requestId, ready, ev.now, s.requestIds);
    BoxesPut(c, live, mailboxId, Completed(live[mailboxId], ev.op.requestId, Some(ready)), ev.now, s.requestIds);
    DrawnId(c, mailboxId, live[mailboxId], ev.now, s.requestIds, ev.op.requestId);
    CompletedLink(live, mailboxId, ev.op.requestId, ready, s.issued, s.requestIds, issue);
    LiveWithin(m.mailboxes, ev.now);
  }

  lemma CompleteKeeps(cfg: Config, c: Primitives, s: System, ev: Event, s': System)
    requires s.now <= ev.now && ev.op.Complete? && CompleteStep(cfg, c, s, ev, s')
    requires Commits(CompletePlan(cfg, c, s, ev), cfg, ev.io)
    requires Inv(cfg, c, s)
    ensures Inv(cfg, c, s')
  {
    hide BoxesInv, LinkInv, TicketsInv, GrantsInv, FileInv, OnceInv, NonceInv, HeldInv, Snapshot, Genuine,
      CheckCompletion, Gate, GenuineHandshake, PlanComplete, LiveMailboxes, LiveNonces, Completed, CompleteIssue,
      EvidenceOf;
    var m, m', id := s.memory, s'.memory, ev.op.ticketId;
    CompleteCommits(cfg, c, m, ev.now, ev.op.mailboxId, ev.op.token, ev.op.requestId, ev.op.completion, id,
                    s.nextChannel);
    CompletionEvidence(cfg, c, s, ev);
    var issue := CompleteIssue(cfg, c, s, ev);
    assert id !in s.issued;
    CompleteKeepsBoxes(cfg, c, s, ev);
    var ticket := NewTicket(cfg, issue.evidence, ev.now, s.nextChannel);
    IssueTickets(m.tickets, s.issued, s.nextChannel, s.grants, id, ticket, issue);
    IssueIssued(c, s.issued, s.ticketIds, id, issue);
    IssueHeld(m.tickets, m.nonces, s.issued, s.now, ev.now, id, ticket, issue);
    if Durable(cfg, s) {
      IssueOnce(m.nonces, s.issued, s.now, ev.now, id, issue);
    }
    FileWritten(cfg, c, ev.io, ev.now, m', s.disk, s'.disk, s'.issued, s.requestIds, s'.ticketIds, s'.nextChannel,
                s.grants);
  }

  lemma LiveWithin(boxes: Mailboxes, now: U64)
    ensures LiveMailboxes(boxes, now).Keys <= boxes.Keys
  {
  }

  lemma DrawnId(c: Primitives, id: Str, box: Mailbox, now: U64, ids: set<Str>, requestId: Str)
    requires BoxInv(c, id, box, now, ids) && requestId in box.sessions
    ensures requestId in ids
  {
    hide SessionInv;
  }

  // ---- Claims ----

  lemma ClaimTickets(tickets: Tickets, issued: map<Str, Issue>, nextChannel: nat, grants: seq<Grant>, id: Str,
                     role: EndpointRole)
    requires TicketsInv(tickets, issued, nextChannel, grants) && GrantsInv(grants, nextChannel)
    requires id in tickets && !Claimed(tickets[id], role)
    ensures var marked := SetClaimed(tickets[id], role, true);
      var next := if marked.BothClaimed() then Remove(tickets, id) else tickets[id := marked];
      TicketsInv(next, issued, nextChannel, grants + [Grant(marked.channel, role)])
    ensures GrantsInv(grants + [Grant(tickets[id].channel, role)], nextChannel)
  {
    var marked := SetClaimed(tickets[id], role, true);
    var next := if marked.BothClaimed() then Remove(tickets, id) else tickets[id := marked];
    var more := grants + [Grant(marked.channel, role)];
    assert TicketInv(id, tickets[id], issued, nextChannel, grants);
    forall k <- next ensures TicketInv(k, next[k], issued, nextChannel, more) {
      assert TicketInv(k, tickets[k], issued, nextChannel, grants);
    }
  }

  lemma HeldShrinks(a: Tickets, b: Tickets, nonces: Nonces, issued: map<Str, Issue>, now: U64, later: U64)
    requires HeldInv(a, nonces, issued, now) && now <= later && b.Keys <= a.Keys
    ensures HeldInv(b, nonces, issued, later)
  {
  }

  lemma ClaimKeeps(cfg: Config, c: Primitives, s: System, ev: Event, s': System)
    requires s.now <= ev.now && ev.op.Claim? && ClaimStep(cfg, c, s, ev, s')
    requires Commits(ClaimPlan(c, s, ev), cfg, ev.io)
    requires Inv(cfg, c, s)
    ensures Inv(cfg, c, s')
  {
    hide BoxesInv, LinkInv, TicketsInv, GrantsInv, IssuedInv, FileInv, OnceInv, HeldInv, Snapshot, ProvesClaim;
    var m, m' := s.memory, s'.memory;
    var live := LiveTickets(m.tickets, ev.now);
    TicketsShrink(m.tickets, live, s.issued, s.nextChannel, s.grants);
    ClaimTickets(live, s.issued, s.nextChannel, s.grants, ev.op.ticketId, ev.op.role);
    BoxesLater(c, m.mailboxes, s.now, ev.now, s.requestIds);
    assert m' == ClaimPlan(c, s, ev).next;
    HeldShrinks(m.tickets, m'.tickets, m.nonces, s.issued, s.now, ev.now);
    FileWritten(cfg, c, ev.io, ev.now, m', s.disk, s'.disk, s.issued, s.requestIds, s.ticketIds, s.nextChannel,
                s'.grants);
  }

  // ---- Restarts ----

  /** What a restart brings back. */
  lemma CrashRestores(cfg: Config, s: System, now: U64, m': Memory, channel: nat)
    requires FileInv(cfg, s.disk, s.memory, s.now) && s.now <= now
    requires Reloaded(cfg, s.disk, now, s.nextChannel, m', channel)
    requires cfg.stateFile
    ensures LiveView(m', now) == LiveView(s.memory, now)
    ensures m'.nonces == LiveNonces(s.memory.nonces, now)
    ensures m'.mailboxes == RestoredBoxes(s.memory.mailboxes, now)
    ensures forall k <- m'.tickets ::
              k in s.memory.tickets && !s.memory.tickets[k].BothClaimed()
              && ToPersisted(m'.tickets[k]) == ToPersisted(s.memory.tickets[k])
  {
    hide MailboxOk, TicketOk, NonceOk, RestoredView;
    assert FileView(s.disk, now) == LiveView(s.memory, now);
    assert Restore(s.disk, now).value == FileView(s.disk, now);
    var a, b := LiveView(m', now), LiveView(s.memory, now);
    assert a.nonces == b.nonces && a.mailboxes == b.mailboxes && a.tickets == b.tickets;
    forall k <- m'.tickets ensures k in a.tickets && a.tickets[k] == ToPersisted(m'.tickets[k]) {
      assert k in LiveTickets(m'.tickets, now);
    }
  }

  lemma CrashTickets(a: Tickets, b: Tickets, issued: map<Str, Issue>, nextChannel: nat, later: nat, grants: seq<Grant>)
    requires TicketsInv(a, issued, nextChannel, grants) && GrantsInv(grants, nextChannel)
    requires FreshTickets(b, nextChannel, later)
    requires forall k <- b :: k in a && ToPersisted(b[k]) == ToPersisted(a[k])
    ensures TicketsInv(b, issued, later, grants) && GrantsInv(grants, later)
  {
    forall k <- b ensures TicketInv(k, b[k], issued, later, grants) {
      assert TicketInv(k, a[k], issued, nextChannel, grants);
    }
  }

  lemma CrashFile(cfg: Config, disk: Option<File>, before: Memory, after: Memory, now: U64, later: U64)
    requires FileInv(cfg, disk, before, now) && now <= later
    requires cfg.stateFile ==> LiveView(after, later) == LiveView(before, later)
    ensures FileInv(cfg, disk, after, later)
  {
    hide LiveView, RestoredView, SoundFile, Age;
    if cfg.stateFile {
      forall t: nat | later <= t ensures FileView(disk, t) == LiveView(after, t) {
        LiveViewAges(before, later, t);
        LiveViewAges(after, later, t);
      }
    }
  }

  lemma RestoredShrinks(boxes: Mailboxes, now: U64)
    ensures ShrunkBoxes(boxes, RestoredBoxes(boxes, now))
  {
  }

  lemma CrashKeeps(cfg: Config, c: Primitives, s: System, ev: Event, s': System)
    requires Inv(cfg, c, s) && s.now <= ev.now && CrashStep(cfg, s, ev, s')
    ensures Inv(cfg, c, s')
  {
    hide BoxesInv, LinkInv, TicketsInv, GrantsInv, IssuedInv, FileInv, OnceInv, LiveView, AllLive, FreshTickets;
    var m, m' := s.memory, s'.memory;
    if cfg.stateFile {
      CrashRestores(cfg, s, ev.now, m', s'.nextChannel);
      RestoredShrinks(m.mailboxes, ev.now);
    }
    assert ShrunkBoxes(m.mailboxes, m'.mailboxes);
    BoxesShrink(c, m.mailboxes, m'.mailboxes, s.now, ev.now, s.requestIds, s.requestIds);
    LinkShrink(m.mailboxes, m'.mailboxes, s.issued, s.requestIds, s.requestIds);
    CrashTickets(m.tickets, m'.tickets, s.issued, s.nextChannel, s'.nextChannel, s.grants);
    CrashFile(cfg, s.disk, m, m', s.now, ev.now);
    assert HomesInv(s'.homes, m');
  }

  // ---- Every step ----

  /** A step that commits no write has a quiet effect on memory and none on the rest. */
  ghost predicate Uneventful(s: System, s': System) {
    && s.now <= s'.now
    && s' == s.(memory := s'.memory, now := s'.now, requestIds := s'.requestIds, ticketIds := s'.ticketIds,
                nextChannel := s'.nextChannel)
    && s.requestIds <= s'.requestIds && s.ticketIds <= s'.ticketIds && s.nextChannel <= s'.nextChannel
    && Quiet(s.memory, s'.memory, s'.now)
  }

  predicate Writes(cfg: Config, c: Primitives, s: System, ev: Event) {
    match ev.op
    case Register(_, _, _) => Commits(RegisterPlan(cfg, c, s, ev), cfg, ev.io)
    case Submit(_, _, _, _) => Commits(SubmitPlan(cfg, c, s, ev), cfg, ev.io)
    case Complete(_, _, _, _, _) => Commits(CompletePlan(cfg, c, s, ev), cfg, ev.io)
    case CreateTicket(_, _, _) => Commits(CreatePlan(cfg, c, s, ev), cfg, ev.io)
    case Claim(_, _, _) => Commits(ClaimPlan(c, s, ev), cfg, ev.io)
    case _ => false
  }

  /** Refusals, answers and failed writes only drop expired entries: the hand-written rollback
      restores everything else, and the file is untouched. */
  lemma NoWriteIsUneventful(cfg: Config, c: Primitives, s: System, ev: Event, s': System)
    requires BoxesInv(c, s.memory.mailboxes, s.now, s.requestIds)
    requires Step(cfg, c, s, ev, s') && !ev.op.Crash? && !Writes(cfg, c, s, ev)
    ensures Uneventful(s, s')
  {
    hide BoxInv, PlanRegister, PlanSubmit, PlanComplete, PlanCreateTicket, PlanClaim, Quiet, Snapshot, EvidenceOf,
      CompleteIssue, CreateIssue, Reloaded, AccountName, ReadStep;
    var m, now := s.memory, ev.now;
    match ev.op
    case Register(id, token, r) => RegisterQuiet(cfg, c, m, now, id, token, r);
    case Submit(id, token, r, freshId) =>
      SessionsBounded(c, m.mailboxes, s.now, s.requestIds);
      SubmitQuiet(cfg, c, m, now, id, token, r, freshId);
    case Complete(id, token, requestId, h, ticketId) =>
      CompleteQuiet(cfg, c, m, now, id, token, requestId, h, ticketId, s.nextChannel);
    case CreateTicket(admin, r, ticketId) => CreateQuiet(cfg, c, m, now, admin, r, ticketId, s.nextChannel);
    case Claim(ticketId, role, proof) => ClaimQuiet(c, m, now, ticketId, role, proof);
    case _ => ReadIsUneventful(cfg, c, s, ev, s');
  }

  lemma ReadIsUneventful(cfg: Config, c: Primitives, s: System, ev: Event, s': System)
    requires ev.op.Next? || ev.op.Status? || ev.op.Ice? || ev.op.ListHosts?
    requires s.now <= ev.now && ReadStep(cfg, c, s, ev, s')
    ensures Uneventful(s, s')
  {
    hide PlanNext, PlanStatus, PlanIce, PlanList, Quiet;
    var m, now := s.memory, ev.now;
    match ev.op
    case Next(id, token) =>
      NextQuiet(cfg, c, m, now, id, token);
      AnswersDoNotCommit(cfg, c, m, now, id, token, []);
    case Status(id, token, requestId) =>
      LookupQuiet(cfg, c, m, now, id, token, requestId);
      AnswersDoNotCommit(cfg, c, m, now, id, token, requestId);
    case Ice(id, token) =>
      LookupQuiet(cfg, c, m, now, id, token, []);
      AnswersDoNotCommit(cfg, c, m, now, id, token, []);
    case ListHosts(account) =>
      ListQuiet(m, now, account);
      AnswersDoNotCommit(cfg, c, m, now, account, [], []);
  }

  lemma SessionsBounded(c: Primitives, boxes: Mailboxes, now: U64, ids: set<Str>)
    requires BoxesInv(c, boxes, now, ids)
    ensures forall id <- boxes :: |boxes[id].sessions| <= MAX_PENDING_SESSIONS_PER_HOST
  {
    hide SessionInv;
    forall id <- boxes ensures |boxes[id].sessions| <= MAX_PENDING_SESSIONS_PER_HOST {
      assert BoxInv(c, id, boxes[id], now, ids);
    }
  }

  lemma AnswersDoNotCommit(cfg: Config, c: Primitives, m: Memory, now: U64, mailboxId: Str, token: Str, requestId: Str)
    ensures !PlanStatus(cfg, c, m, now, mailboxId, token, requestId).Commit?
    ensures !PlanIce(cfg, c, m, now, mailboxId, token).Commit?
    ensures !PlanNext(cfg, c, m, now, mailboxId, token).Commit?
    ensures !PlanList(m, now, mailboxId).Commit?
  {
    hide Gate, Open;
  }

  lemma StepKeepsInv(cfg: Config, c: Primitives, s: System, ev: Event, s': System)
    requires Inv(cfg, c, s) && Step(cfg, c, s, ev, s')
    ensures Inv(cfg, c, s')
  {
    hide BoxesInv, TicketsInv, GrantsInv, IssuedInv, LinkInv, FileInv, HomesInv, OnceInv, NonceInv, RegisterStep,
      SubmitStep, CompleteStep, CreateStep, ClaimStep, CrashStep, ReadStep, RegisterPlan, SubmitPlan, CompletePlan,
      CreatePlan, ClaimPlan;
    if !ev.op.Crash? && !Writes(cfg, c, s, ev) {
      NoWriteIsUneventful(cfg, c, s, ev, s');
      QuietKeeps(cfg, c, s, s');
    } else {
      hide Inv;
      match ev.op
      case Register(_, _, _) => RegisterKeeps(cfg, c, s, ev, s');
      case Submit(_, _, _, _) => SubmitKeeps(cfg, c, s, ev, s');
      case Complete(_, _, _, _, _) => CompleteKeeps(cfg, c, s, ev, s');
      case CreateTicket(_, _, _) => CreateKeeps(cfg, c, s, ev, s');
      case Claim(_, _, _) => ClaimKeeps(cfg, c, s, ev, s');
      case Crash => CrashKeeps(cfg, c, s, ev, s');
    }
  }

  /** The invariant holds throughout every run. */
  lemma {:induction false} RunKeepsInv(cfg: Config, c: Primitives, states: seq<System>, events: seq<Event>, i: nat)
    requires IsRun(cfg, c, states, events) && i < |states|
    ensures Inv(cfg, c, states[i])
  {
    hide Inv, Step;
    if i == 0 {
      InitialInv(cfg, c, states[0]);
    } else {
      RunKeepsInv(cfg, c, states, events, i - 1);
      assert Step(cfg, c, states[i - 1], events[i - 1], states[i]);
      StepKeepsInv(cfg, c, states[i - 1], events[i - 1], states[i]);
    }
  }
}
