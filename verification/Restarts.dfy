/** What a restart changes in the replies of a server that has a state file. */
module Restarts {
  import opened Prelude
  import opened Crypto
  import opened Protocol
  import opened Rules
  import opened Validation
  import opened State
  import opened Persistence
  import opened Transactions
  import opened Server
  import opened AccountListing
  import opened Runs
  import opened Invariants
  import opened Preservation
  import opened Theorems
  import opened Meeting
  import Transcripts
  import Hex

  /** The same reply, but for the channel on which a claim is admitted. */
  predicate Agree(a: Reply, b: Reply) {
    a == b || (a.Admitted? && b.Admitted? && a.channel.Success? && b.channel.Success?)
  }

  /** The sessions of the mailbox that the operation names, if the caller is served. */
  predicate Reaches(cfg: Config, c: Primitives, s: System, ev: Event)
    requires NamesMailbox(ev.op)
  {
    Authorized(cfg, c, ev.op.mailboxId, ev.op.token) && HoldsToken(c, s, ev)
  }

  /** The session asked for is one that a restart at `t` does not bring back. */
  predicate AsksForDropped(cfg: Config, c: Primitives, s: System, t: nat, ev: Event)
    requires ev.op.Status? || ev.op.Complete?
  {
    && Reaches(cfg, c, s, ev)
    && (var sessions := s.memory.mailboxes[ev.op.mailboxId].sessions;
        ev.op.requestId in sessions && !Restorable(sessions[ev.op.requestId], t))
  }

  /** A session that a restart at `t` does not bring back has the nonce of the submission, or it
      is one of eight that leave no room for a new client, unless the write would fail with the
      same error. */
  ghost predicate HingesOnDropped(cfg: Config, io: Io, sessions: Sessions, t: nat, now: U64, r: ClientSessionRequest) {
    var live := UnexpiredSessions(sessions, now);
    exists x <- live ::
      && !Restorable(live[x], t)
      && (live[x].request.requestNonce == r.requestNonce
          || (!HoldsNonce(live, r.requestNonce) && |live| == MAX_PENDING_SESSIONS_PER_HOST
              && !ClientHoldsSession(sessions, r.clientFingerprint, now)
              && PersistResult(cfg, io) != Failure(CapacityExceeded)))
  }

  /** A call that can tell a server that restarted at `t` from one that did not:
      - a listing of live hosts, since the registry is empty until they register again;
      - a claim of a role that is marked, since the marks are gone;
      - asking for, or completing, a session that has expired or whose ticket has;
      - a valid submission whose refusal hinges on an unexpired session whose ticket has. */
  ghost predicate CanTell(cfg: Config, c: Primitives, s: System, t: nat, ev: Event) {
    match ev.op
    case ListHosts(account) =>
      NormalizeAccount(Some(account)).Success? && LiveHosts(s.memory, account, ev.now) != map[]
    case Claim(id, role, proof) =>
      var live := LiveTickets(s.memory.tickets, ev.now);
      id in live && Claimed(live[id], role) && ProvesClaim(c, live[id], id, role, proof)
    case Status(_, _, _) => AsksForDropped(cfg, c, s, t, ev)
    case Complete(_, _, _, h, _) => AsksForDropped(cfg, c, s, t, ev) && h.protocol == SESSION_COMPLETION_PROTOCOL
    case Submit(_, _, r, _) =>
      && Reaches(cfg, c, s, ev)
      && (var box := s.memory.mailboxes[ev.op.mailboxId];
          && SignedRequest(c, r, box.hostKey, box.hostFingerprint) && InTicketTime(r.expires, ev.now)
          && HingesOnDropped(cfg, ev.io, box.sessions, t, ev.now, r))
    case _ => false
  }

  // ---- The restarted memory ----

  /** `m'` is what a restart at `t` makes of `m`. */
  ghost predicate Rebuilt(m: Memory, m': Memory, t: nat) {
    && m'.nonces == LiveNonces(m.nonces, t)
    && m'.mailboxes == RestoredBoxes(m.mailboxes, t)
    && m'.accounts == map[]
    && m'.tickets.Keys == LiveTickets(m.tickets, t).Keys
    && (forall k <- m'.tickets ::
          && ToPersisted(m'.tickets[k]) == ToPersisted(m.tickets[k])
          && !m'.tickets[k].hostClaimed && !m'.tickets[k].clientClaimed)
  }

  lemma RestartRebuilds(cfg: Config, c: Primitives, s: System, crash: Event, s': System)
    requires Reachable(cfg, c, s) && s.now <= crash.now && CrashStep(cfg, s, crash, s') && cfg.stateFile
    ensures Rebuilt(s.memory, s'.memory, crash.now)
  {
    hide Reachable, BoxesInv, GrantsInv, IssuedInv, LinkInv, HomesInv, OnceInv, NonceInv, HeldInv, FileInv,
      LiveNonces, RestoredBoxes;
    ReachableInv(cfg, c, s);
    CrashRestores(cfg, s, crash.now, s'.memory, s'.nextChannel);
    var m, m', t := s.memory, s'.memory, crash.now;
    assert OpenTickets(m'.tickets, t) == OpenTickets(m.tickets, t);
    forall k <- LiveTickets(m.tickets, t) ensures k in m'.tickets {
      assert TicketInv(k, m.tickets[k], s.issued, s.nextChannel, s.grants);
      assert k in OpenTickets(m.tickets, t);
    }
    forall k <- m'.tickets ensures k in LiveTickets(m.tickets, t) {
      assert k in LiveTickets(m'.tickets, t);
    }
  }

  lemma OpenRebuilt(c: Primitives, m: Memory, m': Memory, t: nat, now: nat, id: Str, token: Str)
    requires Rebuilt(m, m', t) && t <= now
    ensures LiveMailboxes(m'.mailboxes, now).Keys == LiveMailboxes(m.mailboxes, now).Keys
    ensures forall k <- LiveMailboxes(m'.mailboxes, now) :: m'.mailboxes[k] == Restored(m.mailboxes[k], t)
    ensures var a := Open(c, LiveMailboxes(m.mailboxes, now), id, token);
      var b := Open(c, LiveMailboxes(m'.mailboxes, now), id, token);
      match a
      case Failure(error) => b == Failure(error)
      case Success(box) => b == Success(Restored(box, t))
  {
  }

  /** The plans decide alike; what they leave in memory may differ. */
  ghost predicate SameOutcome<R>(a: Plan<R>, b: Plan<R>) {
    match (a, b)
    case (Refuse(e, _), Refuse(f, _)) => e == f
    case (Answer(x, _), Answer(y, _)) => x == y
    case (Commit(x, _, _), Commit(y, _, _)) => x == y
    case _ => false
  }

  lemma SameReply<R>(a: Plan<R>, b: Plan<R>, cfg: Config, io: Io)
    requires SameOutcome(a, b)
    ensures ReplyOf(a, cfg, io) == ReplyOf(b, cfg, io)
  {
  }

  // ---- Operation by operation ----

  lemma RegisterPlans(cfg: Config, c: Primitives, m: Memory, now: U64, id: Str, token: Str, r: HostRegistrationRequest)
    ensures var plan, checked := PlanRegister(cfg, c, m, now, id, token, r),
                                 CheckRegistration(cfg, c, now, id, token, r);
      var live := LiveMailboxes(m.mailboxes, now);
      if checked.Failure? then plan.Refuse? && plan.error == checked.error
      else if id in live && (live[id].tokenDigest != c.sha256(token) || live[id].hostKey != checked.value.0.hostKey)
      then plan.Refuse? && plan.error == Unauthorized
      else plan.Commit? && plan.reply == ()
  {
    hide CheckRegistration, Upsert, LiveMailboxes;
  }

  lemma RegisterSame(cfg: Config, c: Primitives, m: Memory, m': Memory, t: nat, now: U64, io: Io, id: Str, token: Str,
                     r: HostRegistrationRequest)
    requires Rebuilt(m, m', t) && t <= now
    ensures ReplyOf(PlanRegister(cfg, c, m, now, id, token, r), cfg, io)
         == ReplyOf(PlanRegister(cfg, c, m', now, id, token, r), cfg, io)
  {
    hide CheckRegistration, PlanRegister, Rebuilt, Open, RestorableSessions, ReplyOf;
    OpenRebuilt(c, m, m', t, now, id, token);
    RegisterPlans(cfg, c, m, now, id, token, r);
    RegisterPlans(cfg, c, m', now, id, token, r);
    SameReply(PlanRegister(cfg, c, m, now, id, token, r), PlanRegister(cfg, c, m', now, id, token, r), cfg, io);
  }

  /** What the session table has to say against a valid submission. */
  function Verdict(sessions: Sessions, now: U64, r: ClientSessionRequest): Result<(), RelayError> {
    var live := UnexpiredSessions(sessions, now);
    var _ :- Need(!HoldsNonce(live, r.requestNonce), AlreadyClaimed);
    Need(|OtherClients(live, r.clientFingerprint)| < MAX_PENDING_SESSIONS_PER_HOST, CapacityExceeded)
  }

  lemma SubmitPlans(cfg: Config, c: Primitives, m: Memory, now: U64, id: Str, token: Str, r: ClientSessionRequest,
                    freshId: Str)
    ensures var plan, gate := PlanSubmit(cfg, c, m, now, id, token, r, freshId), Gate(cfg, c, id, token);
      var box := Open(c, LiveMailboxes(m.mailboxes, now), id, token);
      if gate.Failure? then plan.Refuse? && plan.error == gate.error
      else if box.Failure? then plan.Refuse? && plan.error == box.error
      else
        var valid := ValidateClientSessionRequest(c, r, box.value.hostKey, box.value.hostFingerprint, now);
        var verdict := Verdict(box.value.sessions, now, r);
        if valid.Failure? then plan.Refuse? && plan.error == valid.error
        else if verdict.Failure? then plan.Refuse? && plan.error == verdict.error
        else plan.Commit? && plan.reply == freshId
  {
    hide Gate, Open, ValidateClientSessionRequest, HoldsNonce, OtherClients, UnexpiredSessions, LiveMailboxes;
  }

  /** The verdict, or else the outcome of the write. */
  function Outcome(cfg: Config, io: Io, verdict: Result<(), RelayError>): Result<(), RelayError> {
    if verdict.Failure? then verdict else PersistResult(cfg, io)
  }

  lemma RestorableUnexpired(sessions: Sessions, t: nat, now: U64)
    requires t <= now
    ensures UnexpiredSessions(RestorableSessions(sessions, t), now)
         == RestorableSessions(UnexpiredSessions(sessions, now), t)
  {
  }

  /** A nonce that is held by one session at most is forgotten with that session. */
  lemma NonceForgotten(live: Sessions, t: nat, nonce: Str)
    requires DistinctSessions(live)
    ensures HoldsNonce(RestorableSessions(live, t), nonce) <==>
              && HoldsNonce(live, nonce)
              && !exists x <- live :: !Restorable(live[x], t) && live[x].request.requestNonce == nonce
  {
    if HoldsNonce(live, nonce) {
      var x :| x in live && live[x].request.requestNonce == nonce;
      if Restorable(live[x], t) {
        assert x in RestorableSessions(live, t);
      }
    }
  }

  /** Eight sessions that are all brought back leave as little room as before; otherwise there
      is room. */
  lemma RoomAfterRestart(sessions: Sessions, t: nat, now: U64, client: Str)
    requires |sessions| <= MAX_PENDING_SESSIONS_PER_HOST
    ensures var live := UnexpiredSessions(sessions, now);
      |OtherClients(RestorableSessions(live, t), client)| >= MAX_PENDING_SESSIONS_PER_HOST <==>
        && |live| == MAX_PENDING_SESSIONS_PER_HOST && !ClientHoldsSession(sessions, client, now)
        && (forall x <- live :: Restorable(live[x], t))
  {
    var live := UnexpiredSessions(sessions, now);
    var kept := RestorableSessions(live, t);
    var others := OtherClients(kept, client);
    FullTable(sessions, client, now);
    WithinSize(live, sessions);
    WithinSize(kept, live);
    WithinSize(others, kept);
    WithinSize(others, OtherClients(live, client));
    if forall x <- live :: Restorable(live[x], t) {
      assert kept == live;
    }
  }

  lemma LiveDistinct(sessions: Sessions, now: U64)
    requires DistinctSessions(sessions)
    ensures DistinctSessions(UnexpiredSessions(sessions, now))
  {
  }

  /** Exactly the submissions whose refusal hinges on a session that is not brought back. */
  lemma VerdictSame(cfg: Config, io: Io, sessions: Sessions, t: nat, now: U64, r: ClientSessionRequest)
    requires t <= now && |sessions| <= MAX_PENDING_SESSIONS_PER_HOST && DistinctSessions(sessions)
    ensures Outcome(cfg, io, Verdict(sessions, now, r))
         == Outcome(cfg, io, Verdict(RestorableSessions(sessions, t), now, r))
       <==> !HingesOnDropped(cfg, io, sessions, t, now, r)
  {
    hide OtherClients, UnexpiredSessions, RestorableSessions, Restorable, ClientHoldsSession, DistinctSessions;
    var live := UnexpiredSessions(sessions, now);
    LiveDistinct(sessions, now);
    RestorableUnexpired(sessions, t, now);
    NonceForgotten(live, t, r.requestNonce);
    RoomAfterRestart(sessions, t, now, r.clientFingerprint);
    FullTable(sessions, r.clientFingerprint, now);
  }

  lemma SubmitSame(cfg: Config, c: Primitives, m: Memory, m': Memory, t: nat, now: U64, io: Io, id: Str, token: Str,
                   r: ClientSessionRequest, freshId: Str)
    requires Rebuilt(m, m', t) && t <= now
    requires id in m.mailboxes ==>
      |m.mailboxes[id].sessions| <= MAX_PENDING_SESSIONS_PER_HOST && DistinctSessions(m.mailboxes[id].sessions)
    ensures ReplyOf(PlanSubmit(cfg, c, m, now, id, token, r, freshId), cfg, io)
         == ReplyOf(PlanSubmit(cfg, c, m', now, id, token, r, freshId), cfg, io)
       <==> !(Gate(cfg, c, id, token).Success? && Open(c, LiveMailboxes(m.mailboxes, now), id, token).Success?
              && ValidateClientSessionRequest(c, r, m.mailboxes[id].hostKey, m.mailboxes[id].hostFingerprint,
                                              now).Success?
              && HingesOnDropped(cfg, io, m.mailboxes[id].sessions, t, now, r))
  {
    hide Gate, ValidateClientSessionRequest, Verdict, HingesOnDropped, PlanSubmit, Open, Rebuilt, LiveMailboxes,
      RestorableSessions, DistinctSessions;
    OpenRebuilt(c, m, m', t, now, id, token);
    SubmitPlans(cfg, c, m, now, id, token, r, freshId);
    SubmitPlans(cfg, c, m', now, id, token, r, freshId);
    if Open(c, LiveMailboxes(m.mailboxes, now), id, token).Success? {
      OpenFinds(c, m, now, id, token);
      VerdictSame(cfg, io, m.mailboxes[id].sessions, t, now, r);
    }
  }

  lemma NextPlans(cfg: Config, c: Primitives, m: Memory, now: U64, id: Str, token: Str)
    ensures var plan, gate := PlanNext(cfg, c, m, now, id, token), Gate(cfg, c, id, token);
      var box := Open(c, LiveMailboxes(m.mailboxes, now), id, token);
      if gate.Failure? then plan.Refuse? && plan.error == gate.error
      else if box.Failure? then plan.Refuse? && plan.error == box.error
      else plan.Answer? && plan.reply == PendingSessions(UnexpiredSessions(box.value.sessions, now))
  {
    hide Gate, Open, PendingSessions, UnexpiredSessions, LiveMailboxes;
  }

  lemma NextSame(cfg: Config, c: Primitives, m: Memory, m': Memory, t: nat, now: U64, id: Str, token: Str,
                 r: Result<Option<PendingSession>, RelayError>)
    requires Rebuilt(m, m', t) && t <= now
    ensures Polls(PlanNext(cfg, c, m, now, id, token), m.mailboxes, id, r)
       <==> Polls(PlanNext(cfg, c, m', now, id, token), m'.mailboxes, id, r)
  {
    hide Gate, PlanNext, Open, UnexpiredSessions, RestorableSessions, PendingSessions, LiveMailboxes, Rebuilt,
      Hex.Encode;
    NextPlans(cfg, c, m, now, id, token);
    NextPlans(cfg, c, m', now, id, token);
    OpenRebuilt(c, m, m', t, now, id, token);
    var box := Open(c, LiveMailboxes(m.mailboxes, now), id, token);
    if box.Success? {
      OpenFinds(c, m, now, id, token);
      OpenFinds(c, m', now, id, token);
      PendingRebuilt(box.value.sessions, t, now);
    }
  }

  lemma OpenFinds(c: Primitives, m: Memory, now: nat, id: Str, token: Str)
    requires Open(c, LiveMailboxes(m.mailboxes, now), id, token).Success?
    ensures id in m.mailboxes && Open(c, LiveMailboxes(m.mailboxes, now), id, token).value == m.mailboxes[id]
  {
  }

  lemma PendingRebuilt(sessions: Sessions, t: nat, now: nat)
    requires t <= now
    ensures PendingSessions(UnexpiredSessions(RestorableSessions(sessions, t), now))
         == PendingSessions(UnexpiredSessions(sessions, now))
  {
  }

  /** Exactly the sessions that are not brought back are shown differently. */
  lemma StatusSame(cfg: Config, c: Primitives, m: Memory, m': Memory, t: nat, now: U64, io: Io, id: Str, token: Str,
                   requestId: Str)
    requires Rebuilt(m, m', t) && t <= now
    ensures ReplyOf(PlanStatus(cfg, c, m, now, id, token, requestId), cfg, io)
         == ReplyOf(PlanStatus(cfg, c, m', now, id, token, requestId), cfg, io)
       <==> !(Gate(cfg, c, id, token).Success? && Open(c, LiveMailboxes(m.mailboxes, now), id, token).Success?
              && requestId in m.mailboxes[id].sessions && !Restorable(m.mailboxes[id].sessions[requestId], t))
  {
    hide Gate;
    OpenRebuilt(c, m, m', t, now, id, token);
    hide Rebuilt, LiveMailboxes;
  }

  lemma IceSame(cfg: Config, c: Primitives, m: Memory, m': Memory, t: nat, now: U64, io: Io, id: Str, token: Str)
    requires Rebuilt(m, m', t) && t <= now
    ensures ReplyOf(PlanIce(cfg, c, m, now, id, token), cfg, io)
         == ReplyOf(PlanIce(cfg, c, m', now, id, token), cfg, io)
  {
    hide Gate, Rebuilt, LiveMailboxes, Open, ReplyOf;
    OpenRebuilt(c, m, m', t, now, id, token);
    SameReply(PlanIce(cfg, c, m, now, id, token), PlanIce(cfg, c, m', now, id, token), cfg, io);
  }

  lemma NoncesRebuilt(m: Memory, m': Memory, t: nat, now: nat)
    requires Rebuilt(m, m', t) && t <= now
    ensures LiveNonces(m'.nonces, now) == LiveNonces(m.nonces, now)
  {
  }

  lemma CreateSame(cfg: Config, c: Primitives, m: Memory, m': Memory, t: nat, now: U64, io: Io, admin: bool,
                   r: CreateTicketRequest, ticketId: Str, a: nat, b: nat)
    requires Rebuilt(m, m', t) && t <= now
    ensures ReplyOf(PlanCreateTicket(cfg, c, m, now, admin, r, ticketId, a), cfg, io)
         == ReplyOf(PlanCreateTicket(cfg, c, m', now, admin, r, ticketId, b), cfg, io)
  {
    NoncesRebuilt(m, m', t, now);
    hide Rebuilt, ValidateTicketRequest, LiveNonces;
  }

  /** A completion past the expiry of the request is never told that there is no such request. */
  lemma LateCompletionFails(c: Primitives, h: HostSessionCompletion, r: ClientSessionRequest, hostKey: Bytes,
                            hostFingerprint: Str, now: U64)
    requires r.expires <= now
    ensures CheckCompletion(c, h, r, hostKey, hostFingerprint, now).Failure?
    ensures CheckCompletion(c, h, r, hostKey, hostFingerprint, now).error != NotFound
  {
    hide Hex.DecodeVec, Hex.Encode, IsFingerprint, Fingerprint, Transcripts.Layout;
  }

  /** A session that is not brought back is not found, where it would have been ready or late. */
  lemma CompleteDropped(cfg: Config, c: Primitives, m: Memory, m': Memory, t: nat, now: U64, io: Io, id: Str,
                        token: Str, requestId: Str, h: HostSessionCompletion, ticketId: Str, a: nat, b: nat)
    requires Rebuilt(m, m', t) && t <= now
    requires Gate(cfg, c, id, token).Success? && h.protocol == SESSION_COMPLETION_PROTOCOL
    requires Open(c, LiveMailboxes(m.mailboxes, now), id, token).Success?
    requires requestId in m.mailboxes[id].sessions && !Restorable(m.mailboxes[id].sessions[requestId], t)
    ensures ReplyOf(PlanComplete(cfg, c, m, now, id, token, requestId, h, ticketId, a), cfg, io)
         != ReplyOf(PlanComplete(cfg, c, m', now, id, token, requestId, h, ticketId, b), cfg, io)
  {
    hide Gate, CheckCompletion, Rebuilt, LiveMailboxes, LiveNonces, Open;
    OpenRebuilt(c, m, m', t, now, id, token);
    OpenFinds(c, m, now, id, token);
    var box := m.mailboxes[id];
    var r := box.sessions[requestId].request;
    if r.expires <= now {
      LateCompletionFails(c, h, r, box.hostKey, box.hostFingerprint, now);
    }
  }

  lemma SessionRestored(sessions: Sessions, t: nat, requestId: Str)
    ensures requestId in RestorableSessions(sessions, t)
       <==> requestId in sessions && Restorable(sessions[requestId], t)
    ensures requestId in RestorableSessions(sessions, t) ==>
              RestorableSessions(sessions, t)[requestId] == sessions[requestId]
  {
  }

  lemma CompleteKept(cfg: Config, c: Primitives, m: Memory, m': Memory, t: nat, now: U64, id: Str, token: Str,
                     requestId: Str, h: HostSessionCompletion, ticketId: Str, a: nat, b: nat)
    requires Rebuilt(m, m', t) && t <= now
    requires Open(c, LiveMailboxes(m.mailboxes, now), id, token).Success? && requestId in m.mailboxes[id].sessions ==>
               Restorable(m.mailboxes[id].sessions[requestId], t)
    ensures SameOutcome(PlanComplete(cfg, c, m, now, id, token, requestId, h, ticketId, a),
                        PlanComplete(cfg, c, m', now, id, token, requestId, h, ticketId, b))
  {
    hide Gate, CheckCompletion, Rebuilt, LiveMailboxes, LiveNonces, Open, Issued, IssuedReply, Restorable,
      RestorableSessions, WithSessions;
    OpenRebuilt(c, m, m', t, now, id, token);
    NoncesRebuilt(m, m', t, now);
    if Open(c, LiveMailboxes(m.mailboxes, now), id, token).Success? {
      OpenFinds(c, m, now, id, token);
      SessionRestored(m.mailboxes[id].sessions, t, requestId);
    }
  }

  lemma CompleteSame(cfg: Config, c: Primitives, m: Memory, m': Memory, t: nat, now: U64, io: Io, id: Str, token: Str,
                     requestId: Str, h: HostSessionCompletion, ticketId: Str, a: nat, b: nat)
    requires Rebuilt(m, m', t) && t <= now
    ensures ReplyOf(PlanComplete(cfg, c, m, now, id, token, requestId, h, ticketId, a), cfg, io)
         == ReplyOf(PlanComplete(cfg, c, m', now, id, token, requestId, h, ticketId, b), cfg, io)
       <==> !(Gate(cfg, c, id, token).Success? && h.protocol == SESSION_COMPLETION_PROTOCOL
              && Open(c, LiveMailboxes(m.mailboxes, now), id, token).Success?
              && requestId in m.mailboxes[id].sessions && !Restorable(m.mailboxes[id].sessions[requestId], t))
  {
    hide Gate, Rebuilt, LiveMailboxes, Open, ReplyOf, Restorable, CheckCompletion;
    var p := PlanComplete(cfg, c, m, now, id, token, requestId, h, ticketId, a);
    var q := PlanComplete(cfg, c, m', now, id, token, requestId, h, ticketId, b);
    if Gate(cfg, c, id, token).Failure? || h.protocol != SESSION_COMPLETION_PROTOCOL {
      SameReply(p, q, cfg, io);
    } else {
      hide PlanComplete;
      if Open(c, LiveMailboxes(m.mailboxes, now), id, token).Success? {
        OpenFinds(c, m, now, id, token);
      }
      if Open(c, LiveMailboxes(m.mailboxes, now), id, token).Success? && requestId in m.mailboxes[id].sessions
         && !Restorable(m.mailboxes[id].sessions[requestId], t)
      {
        CompleteDropped(cfg, c, m, m', t, now, io, id, token, requestId, h, ticketId, a, b);
      } else {
        CompleteKept(cfg, c, m, m', t, now, id, token, requestId, h, ticketId, a, b);
        SameReply(p, q, cfg, io);
      }
    }
  }

  lemma ListSame(m: Memory, m': Memory, now: U64, account: Str, a: Result<seq<AccountHost>, RelayError>,
                 b: Result<seq<AccountHost>, RelayError>)
    requires m'.accounts == map[]
    requires ListsHosts(PlanList(m, now, account), a) && ListsHosts(PlanList(m', now, account), b)
    ensures a == b <==> !(NormalizeAccount(Some(account)).Success? && LiveHosts(m, account, now) != map[])
  {
    assert LiveHosts(m', account, now) == map[];
    if NormalizeAccount(Some(account)).Success? && LiveHosts(m, account, now) == map[] {
      assert a.value == [] && b.value == [];
    }
  }

  lemma EmptyListingSame(m: Memory, m': Memory, now: U64, account: Str)
    requires m'.accounts == map[]
    requires NormalizeAccount(Some(account)).Success? ==> LiveHosts(m, account, now) == map[]
    ensures forall r :: ListsHosts(PlanList(m, now, account), r) <==> ListsHosts(PlanList(m', now, account), r)
  {
    hide Lists, NormalizeAccount;
    assert NormalizeAccount(Some(account)).Success? ==> NormalizeAccount(Some(account)).value == account by {
      NormalizedIsItself(account);
    }
    assert LiveHosts(m', account, now) == map[];
  }

  lemma NormalizedIsItself(account: Str)
    ensures NormalizeAccount(Some(account)).Success? ==> NormalizeAccount(Some(account)).value == account
  {
  }

  /** A claim is answered alike exactly when its role is not marked. */
  lemma ClaimSame(cfg: Config, c: Primitives, s: System, s': System, t: nat, ev: Event)
    requires Rebuilt(s.memory, s'.memory, t) && t <= ev.now && ev.op.Claim?
    ensures Agree(Admitted(ReplyOf(ClaimPlan(c, s, ev), cfg, ev.io)),
                  Admitted(ReplyOf(ClaimPlan(c, s', ev), cfg, ev.io)))
       <==> !CanTell(cfg, c, s, t, ev)
  {
    hide ProvesClaim, Rebuilt, RestoredBoxes, LiveNonces, PlanClaim;
    var id := ev.op.ticketId;
    TicketRebuilt(s.memory, s'.memory, t, ev.now, id);
    if id in LiveTickets(s.memory.tickets, ev.now) {
      SameProof(c, s.memory.tickets[id], s'.memory.tickets[id], id, ev.op.role, ev.op.proof);
    }
    ClaimReplies(cfg, c, s, ev);
    ClaimReplies(cfg, c, s', ev);
  }

  lemma TicketRebuilt(m: Memory, m': Memory, t: nat, now: nat, id: Str)
    requires Rebuilt(m, m', t) && t <= now
    ensures id in LiveTickets(m.tickets, now) <==> id in LiveTickets(m'.tickets, now)
    ensures id in LiveTickets(m.tickets, now) ==>
      && ToPersisted(m'.tickets[id]) == ToPersisted(m.tickets[id])
      && !m'.tickets[id].hostClaimed && !m'.tickets[id].clientClaimed
  {
    assert id in LiveTickets(m.tickets, now) ==> id in LiveTickets(m.tickets, t);
    assert id in m'.tickets <==> id in LiveTickets(m.tickets, t);
  }

  lemma ClaimReplies(cfg: Config, c: Primitives, s: System, ev: Event)
    requires ev.op.Claim?
    ensures var r, live := ReplyOf(ClaimPlan(c, s, ev), cfg, ev.io), LiveTickets(s.memory.tickets, ev.now);
      if ev.op.ticketId !in live then r == Failure(NotFound)
      else if !ProvesClaim(c, live[ev.op.ticketId], ev.op.ticketId, ev.op.role, ev.op.proof)
      then r == Failure(Unauthorized)
      else if Claimed(live[ev.op.ticketId], ev.op.role) then r == Failure(AlreadyClaimed)
      else if PersistResult(cfg, ev.io).Success? then r.Success?
      else r == Failure(PersistResult(cfg, ev.io).error) && r.error != AlreadyClaimed
  {
    hide ProvesClaim;
  }

  // ---- All of them ----

  ghost predicate TableSound(m: Memory, id: Str) {
    id in m.mailboxes ==>
      |m.mailboxes[id].sessions| <= MAX_PENDING_SESSIONS_PER_HOST && DistinctSessions(m.mailboxes[id].sessions)
  }

  lemma TableIsSound(cfg: Config, c: Primitives, s: System, id: Str)
    requires Reachable(cfg, c, s)
    ensures TableSound(s.memory, id)
  {
    hide Reachable, DistinctSessions;
    if id in s.memory.mailboxes {
      SessionTableBounded(cfg, c, s, id);
    }
  }

  /** The rules for the caller and for a submission are what the server checks. */
  lemma AdmittedAsValidated(cfg: Config, c: Primitives, s: System, ev: Event)
    requires NamesMailbox(ev.op)
    ensures Gate(cfg, c, ev.op.mailboxId, ev.op.token).Success? <==> Authorized(cfg, c, ev.op.mailboxId, ev.op.token)
    ensures ev.op.Submit? && ev.op.mailboxId in s.memory.mailboxes ==>
      var box, r := s.memory.mailboxes[ev.op.mailboxId], ev.op.request;
      (ValidateClientSessionRequest(c, r, box.hostKey, box.hostFingerprint, ev.now).Success? <==>
         SignedRequest(c, r, box.hostKey, box.hostFingerprint) && InTicketTime(r.expires, ev.now))
  {
    hide Gate, Authorized, ValidateClientSessionRequest, SignedRequest, InTicketTime;
    GateMeans(cfg, c, ev.op.mailboxId, ev.op.token);
    if ev.op.Submit? && ev.op.mailboxId in s.memory.mailboxes {
      var box := s.memory.mailboxes[ev.op.mailboxId];
      ClockTestSplits(c, ev.op.request, box.hostKey, box.hostFingerprint, ev.now);
    }
  }

  lemma MailboxRepliesKept(cfg: Config, c: Primitives, s: System, s': System, t: nat, ev: Event)
    requires Rebuilt(s.memory, s'.memory, t) && t <= ev.now
    requires NamesMailbox(ev.op) && !CanTell(cfg, c, s, t, ev) && TableSound(s.memory, ev.op.mailboxId)
    ensures forall r :: Answers(cfg, c, s, ev, r) <==> Answers(cfg, c, s', ev, r)
  {
    hide Rebuilt, ReplyOf, Polls, PlanRegister, PlanSubmit, PlanComplete, PlanNext, PlanStatus, PlanIce, Gate,
      Restorable, HingesOnDropped, ValidateClientSessionRequest, Authorized, SignedRequest, InTicketTime;
    var m, m', now := s.memory, s'.memory, ev.now;
    TokenOpens(c, s, ev);
    AdmittedAsValidated(cfg, c, s, ev);
    match ev.op
    case Register(id, token, r) => RegisterSame(cfg, c, m, m', t, now, ev.io, id, token, r);
    case Submit(id, token, r, freshId) => SubmitSame(cfg, c, m, m', t, now, ev.io, id, token, r, freshId);
    case Next(id, token) =>
      forall r ensures Answers(cfg, c, s, ev, r) <==> Answers(cfg, c, s', ev, r) {
        if r.Polled? {
          NextSame(cfg, c, m, m', t, now, id, token, r.offer);
        }
      }
    case Complete(id, token, requestId, h, ticketId) =>
      CompleteSame(cfg, c, m, m', t, now, ev.io, id, token, requestId, h, ticketId, s.nextChannel, s'.nextChannel);
    case Status(id, token, requestId) => StatusSame(cfg, c, m, m', t, now, ev.io, id, token, requestId);
    case Ice(id, token) => IceSame(cfg, c, m, m', t, now, ev.io, id, token);
  }

  /** Whoever cannot tell gets from the restarted server exactly the replies that the server
      would have given without the restart, up to the channel of a claim. */
  lemma RestartKeepsReplies(cfg: Config, c: Primitives, s: System, crash: Event, s': System, ev: Event)
    requires Reachable(cfg, c, s) && cfg.stateFile && s.now <= crash.now <= ev.now && CrashStep(cfg, s, crash, s')
    requires !ev.op.Crash? && !CanTell(cfg, c, s, crash.now, ev)
    ensures !ev.op.Claim? ==> forall r :: Answers(cfg, c, s, ev, r) <==> Answers(cfg, c, s', ev, r)
    ensures forall a, b :: ev.op.Claim? && Answers(cfg, c, s, ev, a) && Answers(cfg, c, s', ev, b) ==> Agree(a, b)
  {
    hide Reachable, CrashStep, ReplyOf, ListsHosts, PlanCreateTicket, PlanClaim, PlanList, RestoredBoxes, LiveNonces,
      LiveTickets, Reaches, AsksForDropped, Restorable, ProvesClaim;
    RestartRebuilds(cfg, c, s, crash, s');
    var m, m', t, now := s.memory, s'.memory, crash.now, ev.now;
    if NamesMailbox(ev.op) {
      hide CanTell, Answers;
      TableIsSound(cfg, c, s, ev.op.mailboxId);
      MailboxRepliesKept(cfg, c, s, s', t, ev);
    } else {
      match ev.op
      case ListHosts(account) =>
        EmptyListingSame(m, m', now, account);
      case CreateTicket(admin, r, ticketId) =>
        CreateSame(cfg, c, m, m', t, now, ev.io, admin, r, ticketId, s.nextChannel, s'.nextChannel);
      case Claim(_, _, _) =>
        ClaimSame(cfg, c, s, s', t, ev);
      case _ =>
    }
  }

  lemma MailboxRepliesDiffer(cfg: Config, c: Primitives, s: System, s': System, t: nat, ev: Event)
    requires Rebuilt(s.memory, s'.memory, t) && t <= ev.now
    requires (ev.op.Status? || ev.op.Complete? || ev.op.Submit?) && CanTell(cfg, c, s, t, ev)
    requires TableSound(s.memory, ev.op.mailboxId)
    ensures forall a, b :: Answers(cfg, c, s, ev, a) && Answers(cfg, c, s', ev, b) ==> !Agree(a, b)
  {
    hide Rebuilt, ReplyOf, PlanComplete, PlanStatus, PlanSubmit, Gate, Restorable, HoldsToken, Open, HingesOnDropped,
      ValidateClientSessionRequest, Authorized, SignedRequest, InTicketTime;
    var m, m', now := s.memory, s'.memory, ev.now;
    TokenOpens(c, s, ev);
    AdmittedAsValidated(cfg, c, s, ev);
    match ev.op
    case Submit(id, token, r, freshId) => SubmitSame(cfg, c, m, m', t, now, ev.io, id, token, r, freshId);
    case Complete(id, token, requestId, h, ticketId) =>
      CompleteSame(cfg, c, m, m', t, now, ev.io, id, token, requestId, h, ticketId, s.nextChannel, s'.nextChannel);
    case Status(id, token, requestId) => StatusSame(cfg, c, m, m', t, now, ev.io, id, token, requestId);
  }

  /** And whoever can tell, does. */
  lemma RestartShows(cfg: Config, c: Primitives, s: System, crash: Event, s': System, ev: Event, a: Reply, b: Reply)
    requires Reachable(cfg, c, s) && cfg.stateFile && s.now <= crash.now <= ev.now && CrashStep(cfg, s, crash, s')
    requires !ev.op.Crash? && CanTell(cfg, c, s, crash.now, ev)
    requires Answers(cfg, c, s, ev, a) && Answers(cfg, c, s', ev, b)
    ensures !Agree(a, b)
  {
    hide Reachable, CrashStep, ReplyOf, ListsHosts, PlanClaim, PlanList, ProvesClaim, LiveTickets, RestoredBoxes,
      LiveNonces, AsksForDropped, LiveHosts, HingesOnDropped, ValidateClientSessionRequest, Reaches;
    RestartRebuilds(cfg, c, s, crash, s');
    if ev.op.ListHosts? {
      NormalizedIsItself(ev.op.account);
      ListSame(s.memory, s'.memory, ev.now, ev.op.account, a.hosts, b.hosts);
    } else if ev.op.Claim? {
      ClaimSame(cfg, c, s, s', crash.now, ev);
    } else {
      TableIsSound(cfg, c, s, ev.op.mailboxId);
      MailboxRepliesDiffer(cfg, c, s, s', crash.now, ev);
    }
  }

  lemma TokenOpens(c: Primitives, s: System, ev: Event)
    requires NamesMailbox(ev.op)
    ensures HoldsToken(c, s, ev)
       <==> Open(c, LiveMailboxes(s.memory.mailboxes, ev.now), ev.op.mailboxId, ev.op.token).Success?
    ensures HoldsToken(c, s, ev) ==> ev.op.mailboxId in s.memory.mailboxes
  {
  }
}
