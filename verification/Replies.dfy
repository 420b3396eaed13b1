/** What every caller is told, case by case, and what a committed operation leaves, in terms of the
    rules and of the tables alone. */
module Replies {
  import opened Prelude
  import opened Crypto
  import opened Protocol
  import opened Rules
  import opened Validation
  import opened State
  import opened Persistence
  import opened Transactions
  import opened Server
  import opened AccountListing
  import opened Runs
  import opened Invariants
  import opened Preservation
  import opened Theorems
  import opened Restarts
  import Transcripts
  import Hex

  /** The mailbox that a caller reaches, or the error. */
  function Reached(cfg: Config, c: Primitives, m: Memory, t: nat, id: Str, token: Str): Result<Mailbox, RelayError> {
    if !cfg.enabled then Failure(Disabled)
    else if !OwnsId(c, id, token) then Failure(Unauthorized)
    else if id !in m.mailboxes || m.mailboxes[id].expires <= t then Failure(NotFound)
    else if m.mailboxes[id].tokenDigest != c.sha256(token) then Failure(Unauthorized)
    else Success(m.mailboxes[id])
  }

  lemma ReachedMeans(cfg: Config, c: Primitives, m: Memory, t: nat, id: Str, token: Str)
    ensures var gate, box := Gate(cfg, c, id, token), Open(c, LiveMailboxes(m.mailboxes, t), id, token);
      Reached(cfg, c, m, t, id, token)
        == if gate.Failure? then Failure(gate.error) else if box.Failure? then Failure(box.error) else box
  {
    hide Gate, OwnsId;
    GateMeans(cfg, c, id, token);
  }

  // ---- Reading ----

  lemma StatusReplies(cfg: Config, c: Primitives, m: Memory, t: U64, id: Str, token: Str, requestId: Str)
    ensures var plan := PlanStatus(cfg, c, m, t, id, token, requestId);
      match Reached(cfg, c, m, t, id, token)
      case Failure(error) => plan.Refuse? && plan.error == error
      case Success(box) =>
        if requestId !in box.sessions then plan.Refuse? && plan.error == NotFound
        else if box.sessions[requestId].request.expires <= t then plan.Refuse? && plan.error == Expired
        else plan.Answer? && plan.reply == box.sessions[requestId].ready
  {
    hide Gate, Open, Reached, LiveMailboxes;
    ReachedMeans(cfg, c, m, t, id, token);
  }

  lemma NextReplies(cfg: Config, c: Primitives, m: Memory, t: U64, id: Str, token: Str)
    ensures var plan := PlanNext(cfg, c, m, t, id, token);
      match Reached(cfg, c, m, t, id, token)
      case Failure(error) => plan.Refuse? && plan.error == error
      case Success(box) =>
        && plan.Answer?
        && (forall r :: r in plan.reply <==>
              r in box.sessions && box.sessions[r].request.expires > t && box.sessions[r].ready.None?)
        && (forall r <- plan.reply :: plan.reply[r] == box.sessions[r])
  {
    hide Gate, Open, Reached, LiveMailboxes;
    ReachedMeans(cfg, c, m, t, id, token);
  }

  lemma IceReplies(cfg: Config, c: Primitives, m: Memory, t: U64, id: Str, token: Str)
    ensures var plan := PlanIce(cfg, c, m, t, id, token);
      match Reached(cfg, c, m, t, id, token)
      case Failure(error) => plan.Refuse? && plan.error == error
      case Success(_) => plan.Answer?
  {
    hide Gate, Open, Reached, LiveMailboxes;
    ReachedMeans(cfg, c, m, t, id, token);
  }

  /** A legal account is listed exactly: the hosts registered under it whose mailbox is live. */
  lemma ListReplies(m: Memory, t: U64, account: Str)
    ensures var plan := PlanList(m, t, account);
      if !LegalAccount(account) then plan == Refuse(InvalidAccount, m)
      else
        && plan.Answer?
        && (forall id :: id in plan.reply <==>
              && account in m.accounts && id in m.accounts[account]
              && id in m.mailboxes && m.mailboxes[id].expires > t)
        && (forall id <- plan.reply :: plan.reply[id] == m.accounts[account][id])
  {
    hide NormalizeAccount, LegalAccount;
    AccountIsLegal(Some(account));
  }

  // ---- Writing ----

  /** What becomes of a reply that hinges on a write. */
  lemma WriteReplies<R>(plan: Plan<R>, cfg: Config, io: Io)
    requires plan.Commit?
    ensures ReplyOf(plan, cfg, io)
         == if cfg.stateFile && io.size > 16777216 then Failure(CapacityExceeded)
            else if cfg.stateFile && !io.writes then Failure(Internal)
            else Success(plan.reply)
    ensures Commits(plan, cfg, io) <==> !cfg.stateFile || (io.size <= 16777216 && io.writes)
  {
  }

  lemma RegisterReplies(cfg: Config, c: Primitives, s: System, ev: Event)
    requires ev.op.Register?
    ensures var plan, id, r := RegisterPlan(cfg, c, s, ev), ev.op.mailboxId, ev.op.registration;
      if !cfg.enabled then plan.Refuse? && plan.error == Disabled
      else if !OwnsId(c, id, ev.op.token) then plan.Refuse? && plan.error == Unauthorized
      else
        match RegistrationFault(c, id, r, ev.now)
        case Some(error) => plan.Refuse? && plan.error == error
        case None =>
          if !LegalAccount(AccountName(r)) then plan.Refuse? && plan.error == InvalidAccount
          else if !MayRegister(c, s, ev) then plan.Refuse? && plan.error == Unauthorized
          else plan.Commit?
  {
    var id, r, now := ev.op.mailboxId, ev.op.registration, ev.now;
    hide Gate, OwnsId, ValidateHostRegistration, RegistrationFault, NormalizeAccount, LegalAccount, PlanRegister;
    GateMeans(cfg, c, id, ev.op.token);
    RegistrationRefusedForFaults(c, id, r, now);
    AccountIsLegal(r.account);
    RegisterPlans(cfg, c, s.memory, now, id, ev.op.token, r);
  }

  lemma SubmitReplies(cfg: Config, c: Primitives, m: Memory, t: U64, id: Str, token: Str, r: ClientSessionRequest,
                      freshId: Str)
    ensures var plan := PlanSubmit(cfg, c, m, t, id, token, r, freshId);
      match Reached(cfg, c, m, t, id, token)
      case Failure(error) => plan.Refuse? && plan.error == error
      case Success(box) =>
        match RequestFault(c, r, box.hostKey, box.hostFingerprint, t)
        case Some(error) => plan.Refuse? && plan.error == error
        case None =>
          var live := UnexpiredIds(box.sessions, t);
          if exists k <- live :: box.sessions[k].request.requestNonce == r.requestNonce
          then plan.Refuse? && plan.error == AlreadyClaimed
          else if |set k | k in live && box.sessions[k].request.clientFingerprint != r.clientFingerprint| >= 8
          then plan.Refuse? && plan.error == CapacityExceeded
          else plan.Commit? && plan.reply == freshId
  {
    hide Gate, Open, Reached, LiveMailboxes, PlanSubmit, ValidateClientSessionRequest, RequestFault;
    ReachedMeans(cfg, c, m, t, id, token);
    SubmitPlans(cfg, c, m, t, id, token, r, freshId);
    if Reached(cfg, c, m, t, id, token).Success? {
      var box := Reached(cfg, c, m, t, id, token).value;
      RequestRefusedForFaults(c, r, box.hostKey, box.hostFingerprint, t);
      TableVerdict(box.sessions, t, r);
    }
  }

  lemma TableVerdict(sessions: Sessions, t: U64, r: ClientSessionRequest)
    ensures var live := UnexpiredIds(sessions, t);
      Verdict(sessions, t, r)
        == if exists k <- live :: sessions[k].request.requestNonce == r.requestNonce then Failure(AlreadyClaimed)
           else if |set k | k in live && sessions[k].request.clientFingerprint != r.clientFingerprint| >= 8
           then Failure(CapacityExceeded) else Success(())
  {
    var live := UnexpiredSessions(sessions, t);
    assert HoldsNonce(live, r.requestNonce) <==>
      exists k <- UnexpiredIds(sessions, t) :: sessions[k].request.requestNonce == r.requestNonce;
    assert OtherClients(live, r.clientFingerprint).Keys
        == set k | k in UnexpiredIds(sessions, t) && sessions[k].request.clientFingerprint != r.clientFingerprint;
  }

  /** Of a session that is held, in any reachable state. */
  lemma CompleteReplies(cfg: Config, c: Primitives, s: System, ev: Event)
    requires Reachable(cfg, c, s) && s.now <= ev.now && ev.op.Complete?
    ensures var plan, h, id := CompletePlan(cfg, c, s, ev), ev.op.completion, ev.op.mailboxId;
      if Authorized(cfg, c, id, ev.op.token) && h.protocol != Ascii("hypercast-session-completion/1")
      then plan.Refuse? && plan.error == InvalidTicketRequest
      else
        match Reached(cfg, c, s.memory, ev.now, id, ev.op.token)
        case Failure(error) => plan.Refuse? && plan.error == error
        case Success(box) =>
          if ev.op.requestId !in box.sessions then plan.Refuse? && plan.error == NotFound
          else
            var stored := box.sessions[ev.op.requestId];
            if stored.ready.Some? then plan.Answer? && plan.reply == stored.ready.value
            else
              && Answerable(stored.request) && Hex.Decode(stored.request.requestNonce, 32).Some?
              && match CompletionFault(c, stored.request, box.hostKey, h, ev.now)
                 case Some(error) => plan.Refuse? && plan.error == error
                 case None =>
                   if Used(s.memory.nonces, Hex.Decode(stored.request.requestNonce, 32).value, ev.now)
                   then plan.Refuse? && plan.error == AlreadyClaimed
                   else plan.Commit? && plan.reply.handshake == Offered(h)
  {
    var id, h := ev.op.mailboxId, ev.op.completion;
    var box := Reached(cfg, c, s.memory, ev.now, id, ev.op.token);
    if box.Success? && ev.op.requestId in box.value.sessions {
      SoundlyStored(cfg, c, s, id, ev.op.requestId, ev.now);
      var r := box.value.sessions[ev.op.requestId].request;
      SoundNonce(c, r, box.value.hostKey, box.value.hostFingerprint);
      CompletionVerdict(c, h, r, box.value.hostKey, box.value.hostFingerprint, ev.now);
    }
    hide Reachable, Gate, Open, Reached, LiveMailboxes, CheckCompletion, CompletionFault, SignedRequest, Authorized,
      Answerable, NamesKey;
    GateMeans(cfg, c, id, ev.op.token);
    ReachedMeans(cfg, c, s.memory, ev.now, id, ev.op.token);
  }

  lemma SoundlyStored(cfg: Config, c: Primitives, s: System, id: Str, requestId: Str, t: U64)
    requires Reachable(cfg, c, s) && s.now <= t
    requires id in s.memory.mailboxes && requestId in s.memory.mailboxes[id].sessions
    ensures var box := s.memory.mailboxes[id];
      && |box.hostKey| == 32 && NamesKey(c, box.hostFingerprint, box.hostKey)
      && SignedRequest(c, box.sessions[requestId].request, box.hostKey, box.hostFingerprint)
  {
    hide Reachable, TicketsInv, GrantsInv, IssuedInv, FileInv, HomesInv, LinkInv, OnceInv, NonceInv, HeldInv, BoxInv,
      SignedRequest, NamesKey;
    ReachableInv(cfg, c, s);
    StoredSessionSound(c, id, s.memory.mailboxes[id], s.now, s.requestIds, requestId, t);
  }

  lemma CreateReplies(cfg: Config, c: Primitives, s: System, ev: Event)
    requires ev.op.CreateTicket?
    ensures var plan, r := CreatePlan(cfg, c, s, ev), ev.op.ticketRequest;
      if !cfg.enabled then plan.Refuse? && plan.error == Disabled
      else if !ev.op.admin then plan.Refuse? && plan.error == Unauthorized
      else
        match TicketRequestFault(c, r, ev.now)
        case Some(error) => plan.Refuse? && plan.error == error
        case None =>
          && Hex.Decode(r.requestNonce, 32).Some?
          && if Used(s.memory.nonces, Hex.Decode(r.requestNonce, 32).value, ev.now)
             then plan.Refuse? && plan.error == AlreadyClaimed
             else plan.Commit?
  {
    var r := ev.op.ticketRequest;
    TicketRequestRefusedForFaults(c, r, ev.now);
    if ValidateTicketRequest(c, r, ev.now).Success? {
      assert Some(ValidateTicketRequest(c, r, ev.now).value.nonce) == Hex.Decode(r.requestNonce, 32);
    }
    hide ValidateTicketRequest, TicketRequestFault, Hex.Decode;
  }

  lemma ClaimRepliesExactly(c: Primitives, s: System, ev: Event)
    requires ev.op.Claim?
    ensures var plan, tickets, id := ClaimPlan(c, s, ev), s.memory.tickets, ev.op.ticketId;
      if id !in tickets || tickets[id].expires <= ev.now then plan.Refuse? && plan.error == NotFound
      else if !ProvesRole(c, ev.op.role, tickets[id].hostKey, tickets[id].clientKey, id, ev.op.proof)
      then plan.Refuse? && plan.error == Unauthorized
      else if (match ev.op.role case Host => tickets[id].hostClaimed case Client => tickets[id].clientClaimed)
      then plan.Refuse? && plan.error == AlreadyClaimed
      else plan.Commit? && plan.reply == tickets[id].channel
  {
    hide ProvesClaim, ProvesRole;
    if ev.op.ticketId in s.memory.tickets {
      ProofMeans(c, s.memory.tickets[ev.op.ticketId], ev.op.ticketId, ev.op.role, ev.op.proof);
    }
  }

  // ---- What is left ----

  /** The shorter of the configured lifetime and what is left of the signed request. */
  function Lifetime(cfg: Config, expires: U64, now: U64): nat
    requires now < expires
  {
    if cfg.ticketTtl <= expires - now then cfg.ticketTtl else expires - now
  }

  /** A committed ticket request stores the ticket that its reply names, until the time that the
      reply gives, and remembers the nonce until the request expires. */
  lemma TicketEffect(cfg: Config, c: Primitives, s: System, ev: Event, s': System)
    requires ev.op.CreateTicket? && CreateStep(cfg, c, s, ev, s') && Commits(CreatePlan(cfg, c, s, ev), cfg, ev.io)
    ensures var r, id, reply := ev.op.ticketRequest, ev.op.ticketId, CreatePlan(cfg, c, s, ev).reply;
      && InTicketTime(r.expires, ev.now)
      && Hex.Decode(r.hostPublicKey, 32).Some? && Hex.DecodeVec(r.clientPublicKey, 64, 256).Some?
      && Hex.Decode(r.requestNonce, 32).Some?
      && s'.memory.tickets
         == s.memory.tickets[id := Ticket(Hex.Decode(r.hostPublicKey, 32).value,
                                          Hex.DecodeVec(r.clientPublicKey, 64, 256).value,
                                          ev.now + Lifetime(cfg, r.expires, ev.now), false, false, s.nextChannel)]
      && reply == TicketResponse(id, cfg.publicRelayUrl, s'.memory.tickets[id].expires)
      && Remembered(s.memory.nonces, s'.memory.nonces, ev.now, Hex.Decode(r.requestNonce, 32).value, r.expires)
      && s'.memory.mailboxes == s.memory.mailboxes
  {
    hide FileAfter, Hex.DecodeVec, Transcripts.Layout, NamesKey, IsFingerprint, Fingerprint;
  }

  /** The unexpired nonces, and the new one. */
  ghost predicate Remembered(before: Nonces, after: Nonces, now: nat, nonce: Bytes32, expires: nat) {
    && nonce in after && after[nonce] == expires
    && (forall n :: n != nonce ==>
          (n in after <==> n in before && before[n] > now) && (n in after ==> after[n] == before[n]))
  }

  /** A committed completion does the same for the stored request, and makes its session ready
      with that reply and the host's handshake; nothing else of any live mailbox changes. */
  lemma CompletionEffect(cfg: Config, c: Primitives, s: System, ev: Event, s': System)
    requires Reachable(cfg, c, s) && s.now <= ev.now
    requires ev.op.Complete? && CompleteStep(cfg, c, s, ev, s') && Commits(CompletePlan(cfg, c, s, ev), cfg, ev.io)
    ensures ev.op.mailboxId in s.memory.mailboxes && ev.op.requestId in s.memory.mailboxes[ev.op.mailboxId].sessions
    ensures var box, id := s.memory.mailboxes[ev.op.mailboxId], ev.op.ticketId;
      var reply := CompletePlan(cfg, c, s, ev).reply;
      var r := box.sessions[ev.op.requestId].request;
      && r.expires > ev.now
      && Hex.DecodeVec(r.clientPublicKey, 64, 256).Some? && Hex.Decode(r.requestNonce, 32).Some?
      && s'.memory.tickets
         == s.memory.tickets[id := Ticket(box.hostKey, Hex.DecodeVec(r.clientPublicKey, 64, 256).value,
                                          ev.now + Lifetime(cfg, r.expires, ev.now), false, false, s.nextChannel)]
      && reply == SessionReady(TicketResponse(id, cfg.publicRelayUrl, s'.memory.tickets[id].expires),
                               Offered(ev.op.completion))
      && Remembered(s.memory.nonces, s'.memory.nonces, ev.now, Hex.Decode(r.requestNonce, 32).value, r.expires)
      && ReadySet(s.memory.mailboxes, s'.memory.mailboxes, ev.now, ev.op.mailboxId, ev.op.requestId, reply)
  {
    hide Reachable, PlanComplete, Hex.DecodeVec, LiveMailboxes, LiveNonces, Remembered, ReadySet, Completed,
      CheckCompletion, NamesKey, SignedRequest, Lifetime, Gate, Offered;
    CompletionLeaves(cfg, c, s, ev, s');
    var m, now, id, requestId, h := s.memory, ev.now, ev.op.mailboxId, ev.op.requestId, ev.op.completion;
    hide CompleteStep;
    CompletionChecks(cfg, c, m, now, id, ev.op.token, requestId, h, ev.op.ticketId, s.nextChannel);
    SoundlyStored(cfg, c, s, id, requestId, now);
    var box := m.mailboxes[id];
    CompletionStores(cfg, c, m, now, id, ev.op.token, requestId, h, ev.op.ticketId, s.nextChannel);
    var r := box.sessions[requestId].request;
    var v := CheckCompletion(c, h, r, box.hostKey, box.hostFingerprint, now).value.1;
    NonceAdded(m.nonces, now, v.nonce, r.expires);
    MadeReady(m.mailboxes, now, id, requestId, CompletePlan(cfg, c, s, ev).reply);
  }

  lemma CompletionChecks(cfg: Config, c: Primitives, m: Memory, now: U64, id: Str, token: Str, requestId: Str,
                         h: HostSessionCompletion, ticketId: Str, channel: nat)
    requires PlanComplete(cfg, c, m, now, id, token, requestId, h, ticketId, channel).Commit?
    ensures id in m.mailboxes && requestId in m.mailboxes[id].sessions
    ensures var box := m.mailboxes[id];
      CheckCompletion(c, h, box.sessions[requestId].request, box.hostKey, box.hostFingerprint, now).Success?
  {
    hide Gate, CheckCompletion, PlanComplete;
    CompleteCommits(cfg, c, m, now, id, token, requestId, h, ticketId, channel);
  }

  /** What a completion commits, in terms of the stored request. */
  lemma CompletionStores(cfg: Config, c: Primitives, m: Memory, now: U64, id: Str, token: Str, requestId: Str,
                         h: HostSessionCompletion, ticketId: Str, channel: nat)
    requires PlanComplete(cfg, c, m, now, id, token, requestId, h, ticketId, channel).Commit?
    requires id in m.mailboxes && requestId in m.mailboxes[id].sessions
    requires var box := m.mailboxes[id];
      && |box.hostKey| == 32 && NamesKey(c, box.hostFingerprint, box.hostKey)
      && SignedRequest(c, box.sessions[requestId].request, box.hostKey, box.hostFingerprint)
      && CheckCompletion(c, h, box.sessions[requestId].request, box.hostKey, box.hostFingerprint, now).Success?
    ensures var plan, box := PlanComplete(cfg, c, m, now, id, token, requestId, h, ticketId, channel), m.mailboxes[id];
      var r := box.sessions[requestId].request;
      var v := CheckCompletion(c, h, r, box.hostKey, box.hostFingerprint, now).value.1;
      && r.expires > now
      && Hex.DecodeVec(r.clientPublicKey, 64, 256) == Some(v.clientKey)
      && Hex.Decode(r.requestNonce, 32) == Some(v.nonce)
      && plan.next.tickets
         == m.tickets[ticketId :=
              Ticket(box.hostKey, v.clientKey, now + Lifetime(cfg, r.expires, now), false, false, channel)]
      && plan.reply == SessionReady(TicketResponse(ticketId, cfg.publicRelayUrl, now + Lifetime(cfg, r.expires, now)),
                                    Offered(h))
      && plan.next.nonces == LiveNonces(m.nonces, now)[v.nonce := r.expires]
      && plan.next.mailboxes == LiveMailboxes(m.mailboxes, now)[id := Completed(box, requestId, Some(plan.reply))]
  {
    hide Gate, CheckCompletion, PlanComplete, Hex.DecodeVec, LiveMailboxes, LiveNonces, Completed, NamesKey,
      SignedRequest, Offered;
    CompleteCommits(cfg, c, m, now, id, token, requestId, h, ticketId, channel);
    var box := m.mailboxes[id];
    var r := box.sessions[requestId].request;
    CheckedParts(c, h, r, box.hostKey, box.hostFingerprint, now);
    CheckedKeys(c, h, r, box.hostKey, box.hostFingerprint, now);
  }

  lemma CheckedParts(c: Primitives, h: HostSessionCompletion, r: ClientSessionRequest, hostKey: Bytes,
                     hostFingerprint: Str, now: U64)
    requires |hostKey| == 32 && NamesKey(c, hostFingerprint, hostKey) && SignedRequest(c, r, hostKey, hostFingerprint)
    requires CheckCompletion(c, h, r, hostKey, hostFingerprint, now).Success?
    ensures var (handshake, v) := CheckCompletion(c, h, r, hostKey, hostFingerprint, now).value;
      handshake == Offered(h) && Some(v.nonce) == Hex.Decode(r.requestNonce, 32)
  {
    hide CheckCompletion, NamesKey, SignedRequest, CompletionFault, GenuineHandshake, HostSigned;
    CompletionVerdict(c, h, r, hostKey, hostFingerprint, now);
  }

  lemma CompletionLeaves(cfg: Config, c: Primitives, s: System, ev: Event, s': System)
    requires ev.op.Complete? && CompleteStep(cfg, c, s, ev, s') && Commits(CompletePlan(cfg, c, s, ev), cfg, ev.io)
    ensures s'.memory == CompletePlan(cfg, c, s, ev).next
  {
    hide CompletePlan, CompleteIssue, FileAfter;
  }

  lemma NonceAdded(nonces: Nonces, now: nat, nonce: Bytes32, expires: nat)
    ensures Remembered(nonces, LiveNonces(nonces, now)[nonce := expires], now, nonce, expires)
  {
  }

  lemma MadeReady(boxes: Mailboxes, now: nat, id: Str, requestId: Str, ready: SessionReady)
    requires id in boxes && requestId in boxes[id].sessions
    ensures ReadySet(boxes, LiveMailboxes(boxes, now)[id := Completed(boxes[id], requestId, Some(ready))], now, id,
                     requestId, ready)
  {
  }

  /** The mailbox table after a session is made ready. */
  ghost predicate ReadySet(before: Mailboxes, after: Mailboxes, now: nat, id: Str, requestId: Str, ready: SessionReady)
    requires id in before && requestId in before[id].sessions
  {
    && id in after
    && after[id] == before[id].(sessions :=
         before[id].sessions[requestId := StoredSession(before[id].sessions[requestId].request, Some(ready))])
    && (forall k :: k != id ==>
          (k in after <==> k in before && before[k].expires > now) && (k in after ==> after[k] == before[k]))
  }

  /** The keys and the time that a checked completion hands on are those of the stored request. */
  lemma CheckedKeys(c: Primitives, h: HostSessionCompletion, r: ClientSessionRequest, hostKey: Bytes,
                    hostFingerprint: Str, now: U64)
    requires CheckCompletion(c, h, r, hostKey, hostFingerprint, now).Success?
    ensures |hostKey| == 32 ==> CheckCompletion(c, h, r, hostKey, hostFingerprint, now).value.1.hostKey == hostKey
    ensures var v := CheckCompletion(c, h, r, hostKey, hostFingerprint, now).value.1;
      && Some(v.clientKey) == Hex.DecodeVec(r.clientPublicKey, 64, 256)
      && r.expires > now && now + v.validFor == r.expires
  {
    if |hostKey| == 32 {
      Hex.DecodeEncode(hostKey, 32, 32);
    }
    hide ValidateHostSessionCompletion, Hex.DecodeVec, Hex.Encode, IsFingerprint, Fingerprint, Transcripts.Layout;
  }

  /** A granted claim marks its role, ends the ticket if both are marked, and touches no other. */
  lemma ClaimEffect(cfg: Config, c: Primitives, s: System, ev: Event, s': System)
    requires ev.op.Claim? && ClaimStep(cfg, c, s, ev, s') && Commits(ClaimPlan(c, s, ev), cfg, ev.io)
    ensures ev.op.ticketId in s.memory.tickets
    ensures var id, before, after := ev.op.ticketId, s.memory.tickets, s'.memory.tickets;
      var t, host := before[id], ev.op.role == Host;
      && (id in after <==> !(if host then t.clientClaimed else t.hostClaimed))
      && (id in after ==> after[id] == Ticket(t.hostKey, t.clientKey, t.expires, host, !host, t.channel))
      && (forall k :: k != id ==>
            (k in after <==> k in before && before[k].expires > ev.now) && (k in after ==> after[k] == before[k]))
    ensures s'.memory.mailboxes == s.memory.mailboxes && s'.memory.nonces == s.memory.nonces
    ensures s'.grants == s.grants + [Grant(s.memory.tickets[ev.op.ticketId].channel, ev.op.role)]
  {
    hide ProvesClaim, FileAfter;
  }

  /** What a restart with a file brings back, entry by entry. */
  lemma RestartKeepsExactly(cfg: Config, c: Primitives, s: System, crash: Event, s': System)
    requires Reachable(cfg, c, s) && s.now <= crash.now && CrashStep(cfg, s, crash, s') && cfg.stateFile
    ensures forall n :: n in s'.memory.nonces <==> n in s.memory.nonces && s.memory.nonces[n] > crash.now
    ensures forall n <- s'.memory.nonces :: s'.memory.nonces[n] == s.memory.nonces[n]
    ensures forall k :: k in s'.memory.tickets <==> k in s.memory.tickets && s.memory.tickets[k].expires > crash.now
    ensures forall k <- s'.memory.tickets ::
              var t, t' := s.memory.tickets[k], s'.memory.tickets[k];
              t' == Ticket(t.hostKey, t.clientKey, t.expires, false, false, t'.channel) && t'.channel >= s.nextChannel
    ensures forall id :: id in s'.memory.mailboxes <==>
              id in s.memory.mailboxes && s.memory.mailboxes[id].expires > crash.now
    ensures forall id <- s'.memory.mailboxes ::
              BroughtBack(s.memory.mailboxes[id], s'.memory.mailboxes[id], crash.now)
    ensures s'.memory.accounts == map[]
  {
    hide Reachable, Restore;
    RestartRebuilds(cfg, c, s, crash, s');
    forall k ensures k in s'.memory.tickets <==> k in s.memory.tickets && s.memory.tickets[k].expires > crash.now {
      assert k in s'.memory.tickets <==> k in LiveTickets(s.memory.tickets, crash.now);
    }
  }

  /** The mailbox with the sessions whose request, and ticket if they have one, are unexpired. */
  ghost predicate BroughtBack(before: Mailbox, after: Mailbox, t: nat) {
    && after == before.(sessions := after.sessions)
    && (forall r :: r in after.sessions <==>
          && r in before.sessions && before.sessions[r].request.expires > t
          && (before.sessions[r].ready.None? || before.sessions[r].ready.value.ticket.expires > t))
    && (forall r <- after.sessions :: after.sessions[r] == before.sessions[r])
  }
}
