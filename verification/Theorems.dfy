/** What every run of the server guarantees. */
module Theorems {
  import opened Prelude
  import opened Crypto
  import opened Protocol
  import opened Rules
  import opened Validation
  import opened State
  import opened Persistence
  import opened Transactions
  import opened Server
  import opened Runs
  import opened Invariants
  import opened Rollback
  import opened Preservation
  import Transcripts
  import Hex

  /** Some run passes through `s`. */
  ghost predicate Reachable(cfg: Config, c: Primitives, s: System) {
    exists states, events, i :: IsRun(cfg, c, states, events) && 0 <= i < |states| && states[i] == s
  }

  lemma ReachableInv(cfg: Config, c: Primitives, s: System)
    requires Reachable(cfg, c, s)
    ensures Inv(cfg, c, s)
  {
    hide IsRun, Inv;
    var states, events, i :| IsRun(cfg, c, states, events) && 0 <= i < |states| && states[i] == s;
    RunKeepsInv(cfg, c, states, events, i);
  }

  lemma ReachableStep(cfg: Config, c: Primitives, s: System, ev: Event, s': System)
    requires Reachable(cfg, c, s) && Step(cfg, c, s, ev, s')
    ensures Reachable(cfg, c, s')
  {
    hide Step;
    var states, events, i :| IsRun(cfg, c, states, events) && 0 <= i < |states| && states[i] == s;
    var longer, more := states[..i + 1] + [s'], events[..i] + [ev];
    forall k | 0 <= k < |more| ensures Step(cfg, c, longer[k], more[k], longer[k + 1]) {
      if k < i {
        assert Step(cfg, c, states[k], events[k], states[k + 1]);
      }
    }
    assert IsRun(cfg, c, longer, more);
    assert longer[i + 1] == s';
  }

  /** The request ids in the tables have all been drawn. */
  lemma ReachableIdsDrawn(cfg: Config, c: Primitives, s: System)
    requires Reachable(cfg, c, s)
    ensures forall id <- s.memory.mailboxes, r <- s.memory.mailboxes[id].sessions :: r in s.requestIds
  {
    hide Reachable, BoxesInv;
    ReachableInv(cfg, c, s);
    DrawnIds(c, s.memory.mailboxes, s.now, s.requestIds);
  }

  // ---- Crash refinement ----

  /** In every reachable state and for every later time, `load` accepts the file exactly when
      the file is within the entry caps, and then rebuilds the live view of memory. */
  lemma CrashRefinement(cfg: Config, c: Primitives, s: System, t: nat)
    requires Reachable(cfg, c, s) && cfg.stateFile && s.now <= t
    ensures Restore(s.disk, t)
         == if s.disk.None? || WithinCaps(s.disk.value.content) then Success(LiveView(s.memory, t))
            else Failure(TooManyEntries)
  {
    hide LiveView, RestoredView, NonceOk, MailboxOk, TicketOk, Reachable, BoxesInv, TicketsInv, LinkInv;
    ReachableInv(cfg, c, s);
    assert FileView(s.disk, t) == LiveView(s.memory, t);
  }

  /** A write leaves a file that loads exactly when the live tables are within the caps. */
  lemma WrittenFileLoads(cfg: Config, c: Primitives, s: System, ev: Event, s': System, t: nat)
    requires Reachable(cfg, c, s) && Step(cfg, c, s, ev, s')
    requires cfg.stateFile && Writes(cfg, c, s, ev) && ev.now <= t
    ensures Restore(s'.disk, t).Success? <==>
        && |LiveMailboxes(s'.memory.mailboxes, ev.now)| <= MAX_PERSISTED_MAILBOXES
        && |OpenTickets(s'.memory.tickets, ev.now)| <= MAX_PERSISTED_TICKETS
        && |LiveNonces(s'.memory.nonces, ev.now)| <= MAX_PERSISTED_NONCES
  {
    WriteSnapshots(cfg, c, s, ev, s');
    hide Reachable, Step, Writes, Restore, LiveView;
    ReachableStep(cfg, c, s, ev, s');
    CrashRefinement(cfg, c, s', t);
  }

  lemma WriteSnapshots(cfg: Config, c: Primitives, s: System, ev: Event, s': System)
    requires Step(cfg, c, s, ev, s') && Writes(cfg, c, s, ev) && cfg.stateFile
    ensures s'.now == ev.now && s'.disk.Some? && Snapshot(s'.disk.value.content, s'.memory, ev.now)
  {
    hide RegisterPlan, SubmitPlan, CompletePlan, CreatePlan, ClaimPlan, Snapshot, MemoryAfter;
  }

  /** A restart is invisible in the live view, from then on. */
  lemma RestartKeepsView(cfg: Config, c: Primitives, s: System, ev: Event, s': System, t: nat)
    requires Reachable(cfg, c, s) && s.now <= ev.now <= t && CrashStep(cfg, s, ev, s') && cfg.stateFile
    ensures LiveView(s'.memory, t) == LiveView(s.memory, t)
  {
    hide Reachable, LiveView, BoxesInv, TicketsInv, LinkInv, FileInv, Age;
    ReachableInv(cfg, c, s);
    CrashRestores(cfg, s, ev.now, s'.memory, s'.nextChannel);
    LiveViewAges(s.memory, ev.now, t);
    LiveViewAges(s'.memory, ev.now, t);
  }

  // ---- Rollback ----

  /** An operation that refuses, answers, or fails to persist leaves the file alone and the
      mailbox, nonce and ticket tables as they were, less expired entries. */
  lemma FailedWriteRollsBack(cfg: Config, c: Primitives, s: System, ev: Event, s': System)
    requires Reachable(cfg, c, s) && Step(cfg, c, s, ev, s')
    requires !ev.op.Crash? && !Writes(cfg, c, s, ev)
    ensures OnlyExpiredDropped(s.memory, s'.memory, ev.now)
    ensures s'.disk == s.disk && s'.issued == s.issued && s'.grants == s.grants
  {
    ReachableInv(cfg, c, s);
    StepTime(cfg, c, s, ev, s');
    hide Step, Reachable, BoxesInv, OnlyExpiredDropped, Writes;
    NoWriteIsUneventful(cfg, c, s, ev, s');
  }

  lemma StepTime(cfg: Config, c: Primitives, s: System, ev: Event, s': System)
    requires Step(cfg, c, s, ev, s')
    ensures s.now <= ev.now == s'.now
    ensures s.requestIds <= s'.requestIds && s.ticketIds <= s'.ticketIds
  {
    hide RegisterPlan, SubmitPlan, CompletePlan, CreatePlan, ClaimPlan, Transacts, MemoryAfter, Reloaded;
  }

  // ---- The life of a session ----

  datatype Phase = Unborn | Pending | Ready(value: SessionReady) | Gone

  /** What `session_status` shows of a request id to a caller who holds the mailbox token. */
  function PhaseOf(s: System, mailboxId: Str, requestId: Str): Phase {
    var boxes := s.memory.mailboxes;
    if requestId !in s.requestIds then Unborn
    else if mailboxId in boxes && boxes[mailboxId].expires > s.now && requestId in boxes[mailboxId].sessions
            && boxes[mailboxId].sessions[requestId].request.expires > s.now
    then
      match boxes[mailboxId].sessions[requestId].ready
      case None => Pending
      case Some(v) => Ready(v)
    else Gone
  }

  // ---- The rules and the checks ----

  /** The checks made before the lock demand exactly an enabled server and the token that the
      mailbox id is derived from. */
  lemma GateMeans(cfg: Config, c: Primitives, mailboxId: Str, token: Str)
    ensures Gate(cfg, c, mailboxId, token).Success? <==> Authorized(cfg, c, mailboxId, token)
    ensures Gate(cfg, c, mailboxId, token).Failure? ==>
              Gate(cfg, c, mailboxId, token).error == if cfg.enabled then Unauthorized else Disabled
  {
    AuthorizedOwnsId(c, mailboxId, token);
    hide AuthorizeMailbox, OwnsId;
  }

  /** The claim test is exactly the rule for its role. */
  lemma ProofMeans(c: Primitives, t: Ticket, ticketId: Str, role: EndpointRole, proof: Str)
    ensures ProvesClaim(c, t, ticketId, role, proof) <==> ProvesRole(c, role, t.hostKey, t.clientKey, ticketId, proof)
  {
    hide Transcripts.Parse, Transcripts.Layout, Hex.DecodeVec;
    var m := Transcripts.Signed.Claim(role, ticketId);
    Transcripts.LayoutIsUnambiguous(Transcripts.Layout(m), m);
    forall message | Transcripts.Parse(message) == Some(m) ensures message == Transcripts.Layout(m) {
      Transcripts.LayoutIsUnambiguous(message, m);
    }
  }

  // ---- What a token holder is shown ----

  /** At whatever later time the call is made. */
  lemma StatusShowsPhase(cfg: Config, c: Primitives, s: System, t: U64, mailboxId: Str, token: Str, requestId: Str)
    requires Reachable(cfg, c, s) && s.now <= t
    requires Authorized(cfg, c, mailboxId, token)
    requires mailboxId in s.memory.mailboxes ==> s.memory.mailboxes[mailboxId].tokenDigest == c.sha256(token)
    ensures var plan := PlanStatus(cfg, c, s.memory, t, mailboxId, token, requestId);
      match PhaseOf(s.(now := t), mailboxId, requestId)
      case Pending => plan.Answer? && plan.reply == None
      case Ready(v) => plan.Answer? && plan.reply == Some(v)
      case _ =>
        && plan.Refuse?
        && plan.error == if mailboxId in s.memory.mailboxes && s.memory.mailboxes[mailboxId].expires > t
                            && requestId in s.memory.mailboxes[mailboxId].sessions
                         then Expired else NotFound
  {
    hide Gate, Reachable, Authorized;
    GateMeans(cfg, c, mailboxId, token);
    ReachableIdsDrawn(cfg, c, s);
  }

  /** Each session in the later state was there before with the same request, and its ready
      value, once set, is kept; a session with a newly drawn id is pending. */
  ghost predicate Carried(s: System, s': System) {
    forall id <- s'.memory.mailboxes, r <- s'.memory.mailboxes[id].sessions |
        s'.memory.mailboxes[id].expires > s'.now ::
      CarriedSession(s.memory.mailboxes, s.now, s.requestIds, id, r, s'.memory.mailboxes[id].sessions[r])
  }

  ghost predicate CarriedSession(boxes: Mailboxes, now: U64, ids: set<Str>, id: Str, r: Str, later: StoredSession) {
    if r in ids then
      && id in boxes && boxes[id].expires > now && r in boxes[id].sessions
      && boxes[id].sessions[r].request == later.request
      && (boxes[id].sessions[r].ready.Some? ==> later.ready == boxes[id].sessions[r].ready)
    else later.ready.None?
  }

  lemma RegisterCarries(cfg: Config, c: Primitives, s: System, ev: Event, s': System)
    requires s.now <= ev.now && ev.op.Register? && RegisterStep(cfg, c, s, ev, s')
    requires Commits(RegisterPlan(cfg, c, s, ev), cfg, ev.io)
    requires forall id <- s.memory.mailboxes, r <- s.memory.mailboxes[id].sessions :: r in s.requestIds
    ensures Carried(s, s')
  {
    hide CheckRegistration, FileAfter, Upsert;
  }

  lemma SubmitCarries(cfg: Config, c: Primitives, s: System, ev: Event, s': System)
    requires s.now <= ev.now && ev.op.Submit? && SubmitStep(cfg, c, s, ev, s')
    requires Commits(SubmitPlan(cfg, c, s, ev), cfg, ev.io)
    requires forall id <- s.memory.mailboxes, r <- s.memory.mailboxes[id].sessions :: r in s.requestIds
    ensures Carried(s, s')
  {
    hide Gate, ValidateClientSessionRequest, HoldsNonce, FileAfter;
  }

  lemma CompleteCarries(cfg: Config, c: Primitives, s: System, ev: Event, s': System)
    requires s.now <= ev.now && ev.op.Complete? && CompleteStep(cfg, c, s, ev, s')
    requires Commits(CompletePlan(cfg, c, s, ev), cfg, ev.io)
    requires forall id <- s.memory.mailboxes, r <- s.memory.mailboxes[id].sessions :: r in s.requestIds
    ensures Carried(s, s')
  {
    CompleteCommits(cfg, c, s.memory, ev.now, ev.op.mailboxId, ev.op.token, ev.op.requestId, ev.op.completion,
                    ev.op.ticketId, s.nextChannel);
    hide Gate, CheckCompletion, FileAfter, PlanComplete;
  }

  lemma TicketStepCarries(cfg: Config, c: Primitives, s: System, ev: Event, s': System)
    requires s.now <= ev.now
    requires (ev.op.CreateTicket? && CreateStep(cfg, c, s, ev, s') && Commits(CreatePlan(cfg, c, s, ev), cfg, ev.io))
          || (ev.op.Claim? && ClaimStep(cfg, c, s, ev, s') && Commits(ClaimPlan(c, s, ev), cfg, ev.io))
    requires forall id <- s.memory.mailboxes, r <- s.memory.mailboxes[id].sessions :: r in s.requestIds
    ensures Carried(s, s')
  {
    hide ValidateTicketRequest, ProvesClaim, FileAfter;
  }

  lemma CrashCarries(cfg: Config, s: System, ev: Event, s': System)
    requires s.now <= ev.now && CrashStep(cfg, s, ev, s') && FileInv(cfg, s.disk, s.memory, s.now)
    requires forall id <- s.memory.mailboxes, r <- s.memory.mailboxes[id].sessions :: r in s.requestIds
    ensures Carried(s, s')
  {
    if cfg.stateFile {
      CrashRestores(cfg, s, ev.now, s'.memory, s'.nextChannel);
    }
    hide FileInv, LiveView, AllLive, FreshTickets, Restore;
  }

  lemma QuietCarries(s: System, s': System)
    requires Uneventful(s, s')
    requires forall id <- s.memory.mailboxes, r <- s.memory.mailboxes[id].sessions :: r in s.requestIds
    ensures Carried(s, s')
  {
  }

  lemma DrawnIds(c: Primitives, boxes: Mailboxes, now: U64, ids: set<Str>)
    requires BoxesInv(c, boxes, now, ids)
    ensures forall id <- boxes, r <- boxes[id].sessions :: r in ids
  {
    hide BoxInv;
    forall id <- boxes, r <- boxes[id].sessions ensures r in ids {
      DrawnId(c, id, boxes[id], now, ids, r);
    }
  }

  lemma StepCarries(cfg: Config, c: Primitives, s: System, ev: Event, s': System)
    requires Inv(cfg, c, s) && Step(cfg, c, s, ev, s')
    ensures Carried(s, s')
  {
    hide BoxesInv, TicketsInv, GrantsInv, IssuedInv, LinkInv, FileInv, HomesInv, OnceInv, NonceInv, RegisterStep,
      SubmitStep, CompleteStep, CreateStep, ClaimStep, CrashStep, ReadStep, RegisterPlan, SubmitPlan, CompletePlan,
      CreatePlan, ClaimPlan, Carried, Uneventful, Commits;
    DrawnIds(c, s.memory.mailboxes, s.now, s.requestIds);
    if !ev.op.Crash? && !Writes(cfg, c, s, ev) {
      NoWriteIsUneventful(cfg, c, s, ev, s');
      QuietCarries(s, s');
    } else {
      match ev.op
      case Register(_, _, _) => RegisterCarries(cfg, c, s, ev, s');
      case Submit(_, _, _, _) => SubmitCarries(cfg, c, s, ev, s');
      case Complete(_, _, _, _, _) => CompleteCarries(cfg, c, s, ev, s');
      case CreateTicket(_, _, _) => TicketStepCarries(cfg, c, s, ev, s');
      case Claim(_, _, _) => TicketStepCarries(cfg, c, s, ev, s');
      case Crash => CrashCarries(cfg, s, ev, s');
    }
  }

  /** Unborn, then pending, then ready with one value, then gone for good. */
  predicate Advances(p: Phase, q: Phase) {
    p == q || p.Unborn? || q.Gone? || (p.Pending? && q.Ready?)
  }

  lemma StepAdvances(cfg: Config, c: Primitives, s: System, ev: Event, s': System, mailboxId: Str, requestId: Str)
    requires Inv(cfg, c, s) && Step(cfg, c, s, ev, s')
    ensures Advances(PhaseOf(s, mailboxId, requestId), PhaseOf(s', mailboxId, requestId))
    ensures PhaseOf(s, mailboxId, requestId).Unborn? ==> !PhaseOf(s', mailboxId, requestId).Ready?
  {
    hide Inv, Step;
    StepCarries(cfg, c, s, ev, s');
    StepTime(cfg, c, s, ev, s');
  }

  lemma {:induction false} SessionLifecycle(cfg: Config, c: Primitives, states: seq<System>, events: seq<Event>,
                                            i: nat, j: nat,
                         mailboxId: Str, requestId: Str)
    requires IsRun(cfg, c, states, events) && i <= j < |states|
    ensures Advances(PhaseOf(states[i], mailboxId, requestId), PhaseOf(states[j], mailboxId, requestId))
  {
    hide Inv, Step, PhaseOf;
    if i < j {
      SessionLifecycle(cfg, c, states, events, i, j - 1, mailboxId, requestId);
      RunKeepsInv(cfg, c, states, events, j - 1);
      assert Step(cfg, c, states[j - 1], events[j - 1], states[j]);
      StepAdvances(cfg, c, states[j - 1], events[j - 1], states[j], mailboxId, requestId);
    }
  }

  /** If the session is still held, it is ready with the given value. */
  ghost predicate Settled(s: System, mailboxId: Str, requestId: Str, v: SessionReady) {
    var boxes := s.memory.mailboxes;
    && requestId in s.requestIds
    && (mailboxId in boxes && boxes[mailboxId].expires > s.now && requestId in boxes[mailboxId].sessions ==>
          boxes[mailboxId].sessions[requestId].ready == Some(v))
  }

  function CompleteReply(cfg: Config, c: Primitives, s: System, ev: Event): Result<SessionReady, RelayError>
    requires ev.op.Complete?
  {
    ReplyOf(CompletePlan(cfg, c, s, ev), cfg, ev.io)
  }

  /** A completion that replies has either found the value or stored it. */
  lemma ReplySettles(cfg: Config, c: Primitives, s: System, ev: Event, s': System, v: SessionReady)
    requires s.now <= ev.now && ev.op.Complete? && CompleteStep(cfg, c, s, ev, s')
    requires forall id <- s.memory.mailboxes, r <- s.memory.mailboxes[id].sessions :: r in s.requestIds
    requires CompleteReply(cfg, c, s, ev) == Success(v)
    ensures Settled(s', ev.op.mailboxId, ev.op.requestId, v)
    ensures var boxes := s.memory.mailboxes;
      && ev.op.mailboxId in boxes && boxes[ev.op.mailboxId].expires > s.now
      && ev.op.requestId in boxes[ev.op.mailboxId].sessions
      && (var ready := boxes[ev.op.mailboxId].sessions[ev.op.requestId].ready; ready.Some? ==> ready == Some(v))
  {
    hide Gate, CheckCompletion, FileAfter;
  }

  lemma {:induction false} SettledStays(cfg: Config, c: Primitives, states: seq<System>, events: seq<Event>, i: nat,
                                        j: nat,
                     mailboxId: Str, requestId: Str, v: SessionReady)
    requires IsRun(cfg, c, states, events) && i <= j < |states|
    requires Settled(states[i], mailboxId, requestId, v)
    ensures Settled(states[j], mailboxId, requestId, v)
  {
    hide Inv, Step;
    if i < j {
      SettledStays(cfg, c, states, events, i, j - 1, mailboxId, requestId, v);
      RunKeepsInv(cfg, c, states, events, j - 1);
      assert Step(cfg, c, states[j - 1], events[j - 1], states[j]);
      StepCarries(cfg, c, states[j - 1], events[j - 1], states[j]);
      StepTime(cfg, c, states[j - 1], events[j - 1], states[j]);
    }
  }

  lemma RunStep(cfg: Config, c: Primitives, states: seq<System>, events: seq<Event>, k: nat)
    requires IsRun(cfg, c, states, events) && k < |events|
    ensures states[k].now <= events[k].now
    ensures events[k].op.Complete? ==> CompleteStep(cfg, c, states[k], events[k], states[k + 1])
    ensures forall id <- states[k].memory.mailboxes, r <- states[k].memory.mailboxes[id].sessions ::
              r in states[k].requestIds
  {
    hide BoxesInv, RegisterStep, SubmitStep, CompleteStep, CreateStep, ClaimStep, CrashStep, ReadStep;
    assert Step(cfg, c, states[k], events[k], states[k + 1]);
    RunKeepsInv(cfg, c, states, events, k);
    DrawnIds(c, states[k].memory.mailboxes, states[k].now, states[k].requestIds);
  }

  /** Completing a session again, whatever happened in between, returns the first value. */
  lemma RepeatedCompletionAgrees(cfg: Config, c: Primitives, states: seq<System>, events: seq<Event>, i: nat, j: nat,
                                 v: SessionReady, w: SessionReady)
    requires IsRun(cfg, c, states, events) && i < j < |events|
    requires events[i].op.Complete? && events[j].op.Complete?
    requires events[i].op.mailboxId == events[j].op.mailboxId && events[i].op.requestId == events[j].op.requestId
    requires CompleteReply(cfg, c, states[i], events[i]) == Success(v)
    requires CompleteReply(cfg, c, states[j], events[j]) == Success(w)
    ensures v == w
  {
    hide CompleteStep, CompleteReply, Initial, Step, CompletePlan;
    assert |states| == |events| + 1;
    RunStep(cfg, c, states, events, i);
    RunStep(cfg, c, states, events, j);
    ReplySettles(cfg, c, states[i], events[i], states[i + 1], v);
    SettledStays(cfg, c, states, events, i + 1, j, events[i].op.mailboxId, events[i].op.requestId, v);
    ReplySettles(cfg, c, states[j], events[j], states[j + 1], w);
  }

  /** The host is offered exactly the pending sessions, at whatever later time it polls. */
  lemma NextOffersPending(cfg: Config, c: Primitives, s: System, t: U64, mailboxId: Str, token: Str, requestId: Str)
    requires Reachable(cfg, c, s) && s.now <= t
    requires PlanNext(cfg, c, s.memory, t, mailboxId, token).Answer?
    ensures requestId in PlanNext(cfg, c, s.memory, t, mailboxId, token).reply
       <==> PhaseOf(s.(now := t), mailboxId, requestId).Pending?
  {
    hide Gate, Reachable;
    ReachableIdsDrawn(cfg, c, s);
  }

  /** The request as the host reads it from an offer. */
  function RequestIn(p: PendingSession): ClientSessionRequest {
    ClientSessionRequest(p.protocol, p.logicalSessionId, p.hostFingerprint, p.clientPublicKey, p.clientFingerprint,
                         p.requestNonce, p.expires, p.clientSignature, p.clientEphemeralPublicKey, p.clientChallenge,
                         p.clientHandshakeSignature, p.p2pOfferSdp, p.p2pOfferSignature)
  }

  /** An offer tells the host exactly the stored request and its own key, and the client's
      signatures in it verify. */
  lemma OfferIsTheRequest(cfg: Config, c: Primitives, s: System, id: Str, requestId: Str)
    requires Reachable(cfg, c, s)
    requires id in s.memory.mailboxes && requestId in s.memory.mailboxes[id].sessions
    ensures var box := s.memory.mailboxes[id];
      var p := Offer(requestId, box, box.sessions[requestId].request);
      && RequestIn(p) == box.sessions[requestId].request
      && Hex.Decode(p.hostPublicKey, 32) == Some(box.hostKey)
      && NamesKey(c, p.hostFingerprint, box.hostKey)
      && SignedRequest(c, RequestIn(p), box.hostKey, p.hostFingerprint)
  {
    SessionProvenance(cfg, c, s, id, requestId);
    var box := s.memory.mailboxes[id];
    SoundNamesHost(c, box.sessions[requestId].request, box.hostKey, box.hostFingerprint);
    hide Reachable, TicketsInv, GrantsInv, IssuedInv, FileInv, HomesInv, LinkInv, OnceInv, NonceInv, HeldInv,
      SignedRequest, SessionInv, GenuineHandshake, Fingerprint, NamesKey;
    ReachableInv(cfg, c, s);
    assert BoxInv(c, id, box, s.now, s.requestIds);
    Hex.DecodeEncode(box.hostKey, 32, 32);
  }

  lemma SoundNamesHost(c: Primitives, r: ClientSessionRequest, hostKey: Bytes, hostFingerprint: Str)
    requires SignedRequest(c, r, hostKey, hostFingerprint)
    ensures r.hostFingerprint == hostFingerprint
  {
  }

  /** A committed submission makes its own session pending, ends the same client's earlier
      session in that mailbox, and touches no other unexpired session anywhere. */
  lemma SubmissionEffect(cfg: Config, c: Primitives, s: System, ev: Event, s': System, mailboxId: Str, requestId: Str)
    requires Reachable(cfg, c, s) && s.now <= ev.now && ev.op.Submit? && SubmitStep(cfg, c, s, ev, s')
    requires Commits(SubmitPlan(cfg, c, s, ev), cfg, ev.io)
    ensures PhaseOf(s', ev.op.mailboxId, ev.op.freshId) == Pending
    ensures s'.memory.mailboxes[ev.op.mailboxId].sessions[ev.op.freshId].request == ev.op.request
    ensures requestId in s.requestIds ==>
      PhaseOf(s', mailboxId, requestId)
        == if mailboxId == ev.op.mailboxId && requestId in s.memory.mailboxes[mailboxId].sessions
              && s.memory.mailboxes[mailboxId].sessions[requestId].request.clientFingerprint
                 == ev.op.request.clientFingerprint
           then Gone
           else PhaseOf(s.(now := ev.now), mailboxId, requestId)
  {
    hide Gate, CheckClientRequest, HoldsNonce, FileAfter, Reachable, Open, SubmitPlan;
    SubmittedTable(cfg, c, s, ev);
    ReachableIdsDrawn(cfg, c, s);
  }

  lemma SubmittedTable(cfg: Config, c: Primitives, s: System, ev: Event)
    requires ev.op.Submit? && SubmitPlan(cfg, c, s, ev).Commit?
    ensures ev.op.mailboxId in s.memory.mailboxes && s.memory.mailboxes[ev.op.mailboxId].expires > ev.now
    ensures ev.op.request.expires > ev.now
    ensures SubmitPlan(cfg, c, s, ev).next.mailboxes
         == LiveMailboxes(s.memory.mailboxes, ev.now)[ev.op.mailboxId :=
              Submitted(s.memory.mailboxes[ev.op.mailboxId], ev.op.request, ev.op.freshId, ev.now)]
  {
    hide Gate, CheckClientRequest, HoldsNonce;
    SubmitCommits(cfg, c, s.memory, ev.now, ev.op.mailboxId, ev.op.token, ev.op.request, ev.op.freshId);
    var box := s.memory.mailboxes[ev.op.mailboxId];
    ClockTestSplits(c, ev.op.request, box.hostKey, box.hostFingerprint, ev.now);
  }

  /** While its lease lasts, a mailbox keeps its token, host key and fingerprint through every
      step and restart. */
  lemma MailboxKeepsOwner(cfg: Config, c: Primitives, s: System, ev: Event, s': System, id: Str)
    requires Reachable(cfg, c, s) && Step(cfg, c, s, ev, s')
    requires id in s.memory.mailboxes && s.memory.mailboxes[id].expires > ev.now
    requires cfg.stateFile || !ev.op.Crash?
    ensures id in s'.memory.mailboxes
    ensures s'.memory.mailboxes[id].tokenDigest == s.memory.mailboxes[id].tokenDigest
    ensures s'.memory.mailboxes[id].hostKey == s.memory.mailboxes[id].hostKey
    ensures s'.memory.mailboxes[id].hostFingerprint == s.memory.mailboxes[id].hostFingerprint
  {
    hide Reachable, BoxesInv, TicketsInv, GrantsInv, IssuedInv, LinkInv, FileInv, HomesInv, OnceInv, NonceInv,
      FileAfter, RegisterPlan, SubmitPlan, CompletePlan, CreatePlan, ClaimPlan, CompleteIssue, CreateIssue,
      AccountName, Reloaded, ReadStep;
    ReachableInv(cfg, c, s);
    StepTime(cfg, c, s, ev, s');
    if ev.op.Crash? {
      CrashRestores(cfg, s, ev.now, s'.memory, s'.nextChannel);
    } else if !Writes(cfg, c, s, ev) {
      NoWriteIsUneventful(cfg, c, s, ev, s');
    } else {
      WriteKeepsOwner(cfg, c, s, ev, id);
    }
  }

  /** The mailbox table that a committed operation leaves. */
  function Written(cfg: Config, c: Primitives, s: System, ev: Event): Mailboxes
    requires Writes(cfg, c, s, ev)
  {
    match ev.op
    case Register(_, _, _) => RegisterPlan(cfg, c, s, ev).next.mailboxes
    case Submit(_, _, _, _) => SubmitPlan(cfg, c, s, ev).next.mailboxes
    case Complete(_, _, _, _, _) => CompletePlan(cfg, c, s, ev).next.mailboxes
    case CreateTicket(_, _, _) => CreatePlan(cfg, c, s, ev).next.mailboxes
    case Claim(_, _, _) => ClaimPlan(c, s, ev).next.mailboxes
  }

  lemma WriteKeepsOwner(cfg: Config, c: Primitives, s: System, ev: Event, id: Str)
    requires Writes(cfg, c, s, ev)
    requires id in s.memory.mailboxes && s.memory.mailboxes[id].expires > ev.now
    ensures id in Written(cfg, c, s, ev)
    ensures Written(cfg, c, s, ev)[id].tokenDigest == s.memory.mailboxes[id].tokenDigest
    ensures Written(cfg, c, s, ev)[id].hostKey == s.memory.mailboxes[id].hostKey
    ensures Written(cfg, c, s, ev)[id].hostFingerprint == s.memory.mailboxes[id].hostFingerprint
  {
    hide Gate, CheckRegistration, ValidateClientSessionRequest, HoldsNonce, CheckCompletion, ValidateTicketRequest,
      ProvesClaim, Upsert, Open, PlanSubmit, PlanComplete;
    match ev.op
    case Submit(_, _, _, _) => SubmittedTable(cfg, c, s, ev);
    case Complete(mailboxId, token, requestId, h, ticketId) =>
      CompleteCommits(cfg, c, s.memory, ev.now, mailboxId, token, requestId, h, ticketId, s.nextChannel);
    case _ =>
  }

  /** The caller's key owns the mailbox, or nobody does. */
  predicate MayRegister(c: Primitives, s: System, ev: Event)
    requires ev.op.Register?
  {
    ev.op.mailboxId in s.memory.mailboxes && s.memory.mailboxes[ev.op.mailboxId].expires > ev.now ==>
      && s.memory.mailboxes[ev.op.mailboxId].tokenDigest == c.sha256(ev.op.token)
      && Some(s.memory.mailboxes[ev.op.mailboxId].hostKey) == Hex.Decode(ev.op.registration.hostPublicKey, 32)
  }

  /** A registration is committed exactly when the host key signed it for a mailbox id derived
      from the token, within the lease limit, under a legal account name, and a live mailbox has
      the same owner. */
  lemma RegistrationCommits(cfg: Config, c: Primitives, s: System, ev: Event)
    requires ev.op.Register?
    ensures var r := ev.op.registration;
      RegisterPlan(cfg, c, s, ev).Commit? <==>
        && Authorized(cfg, c, ev.op.mailboxId, ev.op.token)
        && SignedRegistration(c, ev.op.mailboxId, r)
        && InLease(r.expires, ev.now)
        && LegalAccount(AccountName(r))
        && MayRegister(c, s, ev)
  {
    hide Gate, ValidateHostRegistration, WellFormedRegistration, Upsert, Authorized, LegalAccount, NormalizeAccount,
      InLease;
    GateMeans(cfg, c, ev.op.mailboxId, ev.op.token);
    RegistrationRefusedForFaults(c, ev.op.mailboxId, ev.op.registration, ev.now);
    AccountIsLegal(ev.op.registration.account);
  }

  /** It then holds the mailbox until the signed expiry, with the sessions it had, for the key
      that signed and the token it came with, and leaves every other live mailbox as it was. */
  lemma RegistrationEffect(cfg: Config, c: Primitives, s: System, ev: Event, s': System)
    requires Reachable(cfg, c, s) && s.now <= ev.now && ev.op.Register? && RegisterStep(cfg, c, s, ev, s')
    requires Commits(RegisterPlan(cfg, c, s, ev), cfg, ev.io)
    ensures Hex.Decode(ev.op.registration.hostPublicKey, 32).Some?
    ensures var id, boxes, boxes' := ev.op.mailboxId, s.memory.mailboxes, s'.memory.mailboxes;
      var hostKey := Hex.Decode(ev.op.registration.hostPublicKey, 32).value;
      && id in boxes'
      && NamesKey(c, boxes'[id].hostFingerprint, hostKey)
      && boxes'[id] == Mailbox(c.sha256(ev.op.token), hostKey, boxes'[id].hostFingerprint, ev.op.registration.expires,
                               if id in boxes && boxes[id].expires > ev.now then boxes[id].sessions else map[])
      && (forall k :: k != id ==>
            && (k in boxes' <==> k in boxes && boxes[k].expires > ev.now)
            && (k in boxes' ==> boxes'[k] == boxes[k]))
  {
    hide Reachable, TicketsInv, GrantsInv, IssuedInv, FileInv, HomesInv, LinkInv, OnceInv, NonceInv, HeldInv,
      SessionInv, Gate, ValidateHostRegistration, NormalizeAccount, Upsert, FileAfter, Fingerprint, DistinctSessions,
      WellFormedRegistration, Hex.Decode, Authorized, LegalAccount, NamesKey, InWindow, InLease;
    RegistrationCommits(cfg, c, s, ev);
    RegistrationRefusedForFaults(c, ev.op.mailboxId, ev.op.registration, ev.now);
    var hostKey := ValidateHostRegistration(c, ev.op.mailboxId, ev.op.registration, ev.now).value.hostKey;
    FingerprintNames(c, ev.op.registration.hostFingerprint, hostKey);
    ReachableInv(cfg, c, s);
    if ev.op.mailboxId in s.memory.mailboxes {
      assert BoxInv(c, ev.op.mailboxId, s.memory.mailboxes[ev.op.mailboxId], s.now, s.requestIds);
    }
  }

  predicate NamesMailbox(op: Op) {
    op.Register? || op.Submit? || op.Next? || op.Complete? || op.Status? || op.Ice?
  }

  predicate Refused(cfg: Config, c: Primitives, s: System, ev: Event)
    requires NamesMailbox(ev.op)
  {
    match ev.op
    case Register(_, _, _) => RegisterPlan(cfg, c, s, ev).Refuse?
    case Submit(_, _, _, _) => SubmitPlan(cfg, c, s, ev).Refuse?
    case Complete(_, _, _, _, _) => CompletePlan(cfg, c, s, ev).Refuse?
    case Next(id, token) => PlanNext(cfg, c, s.memory, ev.now, id, token).Refuse?
    case Status(id, token, r) => PlanStatus(cfg, c, s.memory, ev.now, id, token, r).Refuse?
    case Ice(id, token) => PlanIce(cfg, c, s.memory, ev.now, id, token).Refuse?
  }

  /** The caller holds the token that the live mailbox was registered with. */
  predicate HoldsToken(c: Primitives, s: System, ev: Event)
    requires NamesMailbox(ev.op)
  {
    && ev.op.mailboxId in s.memory.mailboxes
    && s.memory.mailboxes[ev.op.mailboxId].expires > ev.now
    && s.memory.mailboxes[ev.op.mailboxId].tokenDigest == c.sha256(ev.op.token)
  }

  /** Only the holder of its token is served by a mailbox; polling and the relay configuration
      are then never refused. A registration may also create the mailbox. */
  lemma ServedExactlyToTokenHolders(cfg: Config, c: Primitives, s: System, ev: Event)
    requires NamesMailbox(ev.op)
    ensures !Refused(cfg, c, s, ev) ==>
      && Authorized(cfg, c, ev.op.mailboxId, ev.op.token)
      && (HoldsToken(c, s, ev)
          || (ev.op.Register? && ev.op.mailboxId !in LiveMailboxes(s.memory.mailboxes, ev.now)))
    ensures (ev.op.Next? || ev.op.Ice?) && Authorized(cfg, c, ev.op.mailboxId, ev.op.token) && HoldsToken(c, s, ev)
      ==> !Refused(cfg, c, s, ev)
  {
    hide Gate, ValidateHostRegistration, ValidateClientSessionRequest, CheckCompletion, NormalizeAccount, HoldsNonce,
      OtherClients, UnexpiredSessions, PendingSessions, Upsert, Issued, IssuedReply, LiveNonces, Authorized;
    GateMeans(cfg, c, ev.op.mailboxId, ev.op.token);
  }

  /** Without the token, a call changes nothing but expired entries. */
  lemma StrangersChangeNothing(cfg: Config, c: Primitives, s: System, ev: Event, s': System)
    requires Reachable(cfg, c, s) && Step(cfg, c, s, ev, s') && NamesMailbox(ev.op)
    requires ev.op.mailboxId in LiveMailboxes(s.memory.mailboxes, ev.now) && !HoldsToken(c, s, ev)
    ensures OnlyExpiredDropped(s.memory, s'.memory, ev.now)
    ensures s'.disk == s.disk && s'.issued == s.issued && s'.grants == s.grants
  {
    hide Reachable, Step, OnlyExpiredDropped, HoldsToken, RegisterPlan, SubmitPlan, CompletePlan, Gate;
    ServedExactlyToTokenHolders(cfg, c, s, ev);
    FailedWriteRollsBack(cfg, c, s, ev, s');
  }

  // ---- One ticket ----

  /** At most one ticket is ever issued for a session, and a ready session names it. */
  lemma OneTicketPerSession(cfg: Config, c: Primitives, s: System, a: Str, b: Str, mailboxId: Str, requestId: Str)
    requires Reachable(cfg, c, s)
    requires a in s.issued && s.issued[a].session == Some((mailboxId, requestId))
    ensures b in s.issued && s.issued[b].session == Some((mailboxId, requestId)) ==> a == b
    ensures var p := PhaseOf(s, mailboxId, requestId);
      p.Gone? || (p.Ready? && p.value.ticket.ticketId == a)
  {
    hide Reachable, BoxesInv, TicketsInv, GrantsInv, IssuedInv, FileInv, HomesInv, OnceInv, NonceInv;
    ReachableInv(cfg, c, s);
  }

  /** One HCT1 transcript yields at most one ticket as long as nonces survive. */
  lemma OneTicketPerSignedRequest(cfg: Config, c: Primitives, s: System, a: Str, b: Str)
    requires Reachable(cfg, c, s) && Durable(cfg, s)
    requires a in s.issued && b in s.issued
    requires TranscriptOf(c, s.issued[a].evidence) == TranscriptOf(c, s.issued[b].evidence)
    ensures a == b
  {
    ReachableInv(cfg, c, s);
    var e, f := s.issued[a].evidence, s.issued[b].evidence;
    Transcripts.LayoutInjective(
      Transcripts.TicketRequest(e.session, e.expires, e.nonce, c.sha256(e.hostKey), c.sha256(e.clientKey)),
      Transcripts.TicketRequest(f.session, f.expires, f.nonce, c.sha256(f.hostKey), c.sha256(f.clientKey)));
    hide Reachable, BoxesInv, TicketsInv, GrantsInv, IssuedInv, FileInv, HomesInv, LinkInv, NonceInv;
  }

  /** The nonce of every ticket held is remembered until the signed request expires, which is
      not before the ticket does, whether or not there is a file and however often it restarts. */
  lemma LiveTicketNonceRemembered(cfg: Config, c: Primitives, s: System, id: Str)
    requires Reachable(cfg, c, s) && id in s.memory.tickets
    ensures id in s.issued
    ensures var e := s.issued[id].evidence;
      && s.memory.tickets[id].expires <= e.expires
      && (e.expires > s.now ==> Remembers(s.memory.nonces, e.nonce, e.expires))
  {
    hide Reachable, BoxesInv, GrantsInv, IssuedInv, FileInv, HomesInv, LinkInv, OnceInv, NonceInv;
    ReachableInv(cfg, c, s);
    assert TicketInv(id, s.memory.tickets[id], s.issued, s.nextChannel, s.grants);
  }

  // ---- Claims ----

  /** However claims, failed writes and restarts interleave, the claims granted on one channel
      are at most two, one for each role: the channel's capacity suffices and no two arrivals
      have the same role. `picks` are grants, in any order. */
  lemma GrantsPerChannel(cfg: Config, c: Primitives, s: System, channel: nat, picks: seq<nat>)
    requires Reachable(cfg, c, s)
    requires forall k :: 0 <= k < |picks| ==> picks[k] < |s.grants| && s.grants[picks[k]].channel == channel
    requires forall j, k :: 0 <= j < k < |picks| ==> picks[j] != picks[k]
    ensures |picks| <= 2
    ensures |picks| == 2 ==> s.grants[picks[0]].role != s.grants[picks[1]].role
  {
    hide Reachable, BoxesInv, TicketsInv, IssuedInv, FileInv, HomesInv, LinkInv, OnceInv, NonceInv;
    ReachableInv(cfg, c, s);
    if |picks| > 2 {
      TwoRoles(s.grants[picks[0]].role, s.grants[picks[1]].role, s.grants[picks[2]].role);
    }
    forall j, k | 0 <= j < k < |picks| ensures s.grants[picks[j]].role != s.grants[picks[k]].role {
      var a, b := Min(picks[j], picks[k]), Max(picks[j], picks[k]);
      assert s.grants[a] != s.grants[b];
    }
  }

  lemma TwoRoles(a: EndpointRole, b: EndpointRole, d: EndpointRole)
    ensures a == b || b == d || a == d
  {
  }

  /** A claim is granted exactly when the ticket is live, the role has not claimed it, and the
      proof is the role's own signature over its claim, in the scheme of its role. */
  lemma ClaimCommitsExactly(c: Primitives, s: System, ev: Event)
    requires ev.op.Claim?
    ensures var tickets, id := s.memory.tickets, ev.op.ticketId;
      ClaimPlan(c, s, ev).Commit? <==>
        && id in tickets && tickets[id].expires > ev.now
        && (match ev.op.role case Host => !tickets[id].hostClaimed case Client => !tickets[id].clientClaimed)
        && ProvesRole(c, ev.op.role, tickets[id].hostKey, tickets[id].clientKey, id, ev.op.proof)
  {
    hide ProvesClaim, ProvesRole;
    if ev.op.ticketId in s.memory.tickets {
      ProofMeans(c, s.memory.tickets[ev.op.ticketId], ev.op.ticketId, ev.op.role, ev.op.proof);
    }
  }

  /** A granted claim is signed with the key of that role that also signed the ticket's request. */
  lemma ClaimIsAuthenticated(cfg: Config, c: Primitives, s: System, ev: Event)
    requires Reachable(cfg, c, s) && ev.op.Claim? && ClaimPlan(c, s, ev).Commit?
    ensures ev.op.ticketId in s.issued
    ensures var e := s.issued[ev.op.ticketId].evidence;
      Genuine(c, e) && ProvesRole(c, ev.op.role, e.hostKey, e.clientKey, ev.op.ticketId, ev.op.proof)
  {
    hide Reachable, BoxesInv, GrantsInv, FileInv, HomesInv, LinkInv, OnceInv, NonceInv, HeldInv, ProvesRole, Genuine,
      ClaimPlan;
    ReachableInv(cfg, c, s);
    ClaimCommitsExactly(c, s, ev);
    assert TicketInv(ev.op.ticketId, s.memory.tickets[ev.op.ticketId], s.issued, s.nextChannel, s.grants);
  }

  // ---- Completing a stored request ----

  /** The completion is for a stored, unexpired request that is still pending, by the holder of
      the mailbox token. */
  predicate CompletesPending(cfg: Config, c: Primitives, s: System, ev: Event) {
    && ev.op.Complete?
    && Authorized(cfg, c, ev.op.mailboxId, ev.op.token)
    && ev.op.mailboxId in s.memory.mailboxes
    && (var box := s.memory.mailboxes[ev.op.mailboxId];
        && box.expires > ev.now && box.tokenDigest == c.sha256(ev.op.token)
        && ev.op.requestId in box.sessions
        && box.sessions[ev.op.requestId].ready.None? && box.sessions[ev.op.requestId].request.expires > ev.now)
  }

  /** What the host supplies is in order: the version, the handshake with its answer, and the
      signature over the request. */
  predicate HostIsGenuine(c: Primitives, s: System, ev: Event)
    requires ev.op.Complete? && ev.op.mailboxId in s.memory.mailboxes
    requires ev.op.requestId in s.memory.mailboxes[ev.op.mailboxId].sessions
  {
    var box, h := s.memory.mailboxes[ev.op.mailboxId], ev.op.completion;
    var r := box.sessions[ev.op.requestId].request;
    && h.protocol == Ascii("hypercast-session-completion/1")
    && GenuineHandshake(c, r, box.hostKey, Offered(h))
    && HostSigned(c, r, box.hostKey, h.hostSignature)
  }

  /** The nonce is remembered at the time. */
  predicate Used(nonces: Nonces, nonce: Bytes32, now: nat) {
    nonce in nonces && nonces[nonce] > now
  }

  /** Completing a stored, unexpired request never fails because of the client: it commits
      exactly when what the host supplies is genuine and the nonce is unused. */
  lemma CompletionDependsOnTheHost(cfg: Config, c: Primitives, s: System, ev: Event)
    requires Reachable(cfg, c, s) && s.now <= ev.now && CompletesPending(cfg, c, s, ev)
    ensures var r := s.memory.mailboxes[ev.op.mailboxId].sessions[ev.op.requestId].request;
      && Hex.Decode(r.requestNonce, 32).Some?
      && (CompletePlan(cfg, c, s, ev).Commit? <==>
            HostIsGenuine(c, s, ev) && !Used(s.memory.nonces, Hex.Decode(r.requestNonce, 32).value, ev.now))
  {
    ReachableInv(cfg, c, s);
    var box := s.memory.mailboxes[ev.op.mailboxId];
    var r, h := box.sessions[ev.op.requestId].request, ev.op.completion;
    StoredSessionSound(c, ev.op.mailboxId, box, s.now, s.requestIds, ev.op.requestId, ev.now);
    hide Inv, Reachable, PlanComplete, Gate, Authorized;
    GateMeans(cfg, c, ev.op.mailboxId, ev.op.token);
    CompleteCommits(cfg, c, s.memory, ev.now, ev.op.mailboxId, ev.op.token, ev.op.requestId, h, ev.op.ticketId,
                    s.nextChannel);
    SoundNonce(c, r, box.hostKey, box.hostFingerprint);
    CompletionVerdict(c, h, r, box.hostKey, box.hostFingerprint, ev.now);
    hide CheckCompletion, SignedRequest;
  }

  lemma SoundNonce(c: Primitives, r: ClientSessionRequest, hostKey: Bytes, hostFingerprint: Str)
    requires SignedRequest(c, r, hostKey, hostFingerprint)
    ensures Hex.Decode(r.requestNonce, 32).Some? && Answerable(r)
  {
    hide Hex.DecodeVec, NamesKey;
  }

  lemma StoredSessionSound(c: Primitives, id: Str, box: Mailbox, now: U64, ids: set<Str>, requestId: Str, later: U64)
    requires BoxInv(c, id, box, now, ids) && requestId in box.sessions && now <= later
    ensures |box.hostKey| == 32 && NamesKey(c, box.hostFingerprint, box.hostKey)
    ensures SignedRequest(c, box.sessions[requestId].request, box.hostKey, box.hostFingerprint)
    ensures box.sessions[requestId].request.expires > later ==>
              InTicketTime(box.sessions[requestId].request.expires, later)
  {
    hide SignedRequest, GenuineHandshake, Hex.Decode, Fingerprint, NamesKey;
    FingerprintNames(c, box.hostFingerprint, box.hostKey);
    assert SessionInv(c, box.hostKey, box.sessions[requestId], now);
  }

  /** The checks that the completion of a sound stored request goes through. */
  lemma CompletionVerdict(c: Primitives, h: HostSessionCompletion, r: ClientSessionRequest, hostKey: Bytes,
                          hostFingerprint: Str, now: U64)
    requires |hostKey| == 32 && NamesKey(c, hostFingerprint, hostKey) && SignedRequest(c, r, hostKey, hostFingerprint)
    ensures Answerable(r)
    ensures var checked := CheckCompletion(c, h, r, hostKey, hostFingerprint, now);
      match CompletionFault(c, r, hostKey, h, now)
      case Some(error) => checked == Failure(error)
      case None =>
        && checked.Success? && checked.value.0 == Offered(h)
        && Some(checked.value.1.nonce) == Hex.Decode(r.requestNonce, 32)
    ensures CompletionFault(c, r, hostKey, h, now).None? <==>
              && GenuineHandshake(c, r, hostKey, Offered(h)) && HostSigned(c, r, hostKey, h.hostSignature)
              && InTicketTime(r.expires, now)
  {
    SoundNonce(c, r, hostKey, hostFingerprint);
    CompletionRefusedForFaults(c, r, h, hostKey, hostFingerprint, now);
    hide ValidateHostSessionCompletion, ValidateTicketRequest, WellFormedHandshake, HandshakeSigned, WellFormedAnswer,
      AnswerSigned, SignedRequest, NamesKey, InTicketTime;
  }

  // ---- Provenance ----

  /** In every reachable state, after restarts too: both keys of a ticket verified one HCT1
      transcript. */
  lemma TicketProvenance(cfg: Config, c: Primitives, s: System, id: Str)
    requires Reachable(cfg, c, s) && id in s.memory.tickets
    ensures exists e: Evidence ::
              && Genuine(c, e)
              && e.hostKey == s.memory.tickets[id].hostKey && e.clientKey == s.memory.tickets[id].clientKey
              && s.memory.tickets[id].expires <= e.expires
  {
    hide Reachable, BoxesInv, GrantsInv, FileInv, HomesInv, LinkInv, OnceInv, NonceInv, Genuine;
    ReachableInv(cfg, c, s);
    assert TicketInv(id, s.memory.tickets[id], s.issued, s.nextChannel, s.grants);
    assert Genuine(c, s.issued[id].evidence);
  }

  /** A ready session's handshake verifies under the mailbox's host key on the HCK1 transcript
      rebuilt from the stored request, with a signed answer exactly when there was an offer. */
  lemma SessionProvenance(cfg: Config, c: Primitives, s: System, id: Str, r: Str)
    requires Reachable(cfg, c, s)
    requires id in s.memory.mailboxes && r in s.memory.mailboxes[id].sessions
    ensures var box := s.memory.mailboxes[id];
      && NamesKey(c, box.hostFingerprint, box.hostKey)
      && SignedRequest(c, box.sessions[r].request, box.hostKey, box.hostFingerprint)
      && (box.sessions[r].ready.Some? ==>
            GenuineHandshake(c, box.sessions[r].request, box.hostKey, box.sessions[r].ready.value.handshake))
  {
    hide Reachable, TicketsInv, GrantsInv, IssuedInv, FileInv, HomesInv, LinkInv, OnceInv, NonceInv, Genuine,
      SignedRequest, GenuineHandshake, Fingerprint, NamesKey;
    ReachableInv(cfg, c, s);
    assert BoxInv(c, id, s.memory.mailboxes[id], s.now, s.requestIds);
    FingerprintNames(c, s.memory.mailboxes[id].hostFingerprint, s.memory.mailboxes[id].hostKey);
    assert SessionInv(c, s.memory.mailboxes[id].hostKey, s.memory.mailboxes[id].sessions[r], s.now);
  }

  // ---- The session table of a mailbox ----

  lemma SessionTableBounded(cfg: Config, c: Primitives, s: System, id: Str)
    requires Reachable(cfg, c, s) && id in s.memory.mailboxes
    ensures |s.memory.mailboxes[id].sessions| <= MAX_PENDING_SESSIONS_PER_HOST
    ensures DistinctSessions(s.memory.mailboxes[id].sessions)
  {
    hide Reachable, TicketsInv, GrantsInv, IssuedInv, FileInv, HomesInv, LinkInv, OnceInv, NonceInv, SessionInv;
    ReachableInv(cfg, c, s);
    assert BoxInv(c, id, s.memory.mailboxes[id], s.now, s.requestIds);
  }

  predicate ClientHoldsSession(sessions: Sessions, client: Str, now: U64) {
    exists r <- sessions :: sessions[r].request.clientFingerprint == client && sessions[r].request.expires > now
  }

  lemma FullTable(sessions: Sessions, client: Str, now: U64)
    requires |sessions| <= MAX_PENDING_SESSIONS_PER_HOST
    ensures |OtherClients(UnexpiredSessions(sessions, now), client)| >= MAX_PENDING_SESSIONS_PER_HOST <==>
              && |UnexpiredSessions(sessions, now)| == MAX_PENDING_SESSIONS_PER_HOST
              && !ClientHoldsSession(sessions, client, now)
    ensures |OtherClients(UnexpiredSessions(sessions, now), client)| >= MAX_PENDING_SESSIONS_PER_HOST ==>
              OtherClients(UnexpiredSessions(sessions, now), client) == sessions
  {
    var live := UnexpiredSessions(sessions, now);
    var others := OtherClients(live, client);
    WithinSize(live, sessions);
    WithinSize(others, live);
    if ClientHoldsSession(sessions, client, now) {
      var r :| r in sessions && sessions[r].request.clientFingerprint == client && sessions[r].request.expires > now;
      assert r in live && r !in others;
    } else {
      assert others == live;
    }
  }

  /** A full table refuses a submission exactly when eight unexpired sessions of other clients
      fill it; no session is lost, and a client that holds a session is never refused. */
  lemma FullTableRefusal(cfg: Config, c: Primitives, s: System, ev: Event, box: Mailbox)
    requires Reachable(cfg, c, s) && s.now <= ev.now && ev.op.Submit?
    requires ev.op.mailboxId in s.memory.mailboxes && box == s.memory.mailboxes[ev.op.mailboxId]
    requires Authorized(cfg, c, ev.op.mailboxId, ev.op.token)
    requires box.expires > ev.now && box.tokenDigest == c.sha256(ev.op.token)
    requires SignedRequest(c, ev.op.request, box.hostKey, box.hostFingerprint)
    requires InTicketTime(ev.op.request.expires, ev.now)
    ensures var plan, live := SubmitPlan(cfg, c, s, ev), UnexpiredIds(box.sessions, ev.now);
      plan.Refuse? && plan.error == CapacityExceeded <==>
        && (forall r <- live :: box.sessions[r].request.requestNonce != ev.op.request.requestNonce)
        && |live| == 8
        && (forall r <- live :: box.sessions[r].request.clientFingerprint != ev.op.request.clientFingerprint)
    ensures var plan := SubmitPlan(cfg, c, s, ev);
      plan.Refuse? && plan.error == CapacityExceeded ==>
        ev.op.mailboxId in plan.kept.mailboxes && plan.kept.mailboxes[ev.op.mailboxId] == box
  {
    hide Reachable, DistinctSessions, ValidateClientSessionRequest, Gate, OtherClients, Authorized, SignedRequest,
      InTicketTime;
    GateMeans(cfg, c, ev.op.mailboxId, ev.op.token);
    ClockTestSplits(c, ev.op.request, box.hostKey, box.hostFingerprint, ev.now);
    SessionTableBounded(cfg, c, s, ev.op.mailboxId);
    FullTable(box.sessions, ev.op.request.clientFingerprint, ev.now);
    assert UnexpiredSessions(box.sessions, ev.now).Keys == UnexpiredIds(box.sessions, ev.now);
  }

  /** The requests that have not expired. */
  function UnexpiredIds(sessions: Sessions, now: nat): set<Str> {
    set r | r in sessions && sessions[r].request.expires > now
  }

  // ---- Accounts ----

  /** A live mailbox is listed under the account of its last successful registration since the
      last restart. */
  lemma ListedUnderLastAccount(cfg: Config, c: Primitives, s: System, id: Str)
    requires Reachable(cfg, c, s)
    requires id in s.homes
    requires id in s.memory.mailboxes && s.memory.mailboxes[id].expires > s.now
    ensures id in LiveHosts(s.memory, s.homes[id], s.now)
  {
    hide Reachable, BoxesInv, TicketsInv, GrantsInv, IssuedInv, FileInv, LinkInv, OnceInv, NonceInv;
    ReachableInv(cfg, c, s);
  }

  /** Listing prunes lazily without losing a live host of any account. */
  lemma ListingKeepsLiveHosts(cfg: Config, io: Io, m: Memory, now: U64, account: Str, other: Str, t: nat)
    requires now <= t
    ensures LiveHosts(MemoryAfter(PlanList(m, now, account), cfg, io), other, t) == LiveHosts(m, other, t)
  {
    hide NormalizeAccount;
    var kept := MemoryAfter(PlanList(m, now, account), cfg, io);
    assert LiveHosts(kept, other, t).Keys == LiveHosts(m, other, t).Keys;
  }
}
