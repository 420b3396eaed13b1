/** The running server takes steps of the transition system. */
module Driver {
  import opened Prelude
  import opened Crypto
  import opened Protocol
  import opened State
  import opened Persistence
  import opened Transactions
  import opened Server
  import opened AccountListing
  import opened Runs
  import opened Invariants
  import opened Preservation
  import opened Theorems
  import Hex

  /** The object in memory and the file are what the abstract state says. */
  ghost predicate Mirrors(state: AppState, s: System)
    reads state
  {
    state.Mem() == s.memory && state.disk == s.disk && state.nextChannel == s.nextChannel
  }

  /** The ids the operation draws are new. */
  predicate FreshIds(s: System, op: Op) {
    match op
    case Submit(_, _, _, freshId) => freshId !in s.requestIds
    case Complete(_, _, _, _, ticketId) => ticketId !in s.ticketIds && Hex.Decode(ticketId, 16).Some?
    case CreateTicket(_, _, ticketId) => ticketId !in s.ticketIds && Hex.Decode(ticketId, 16).Some?
    case _ => true
  }

  lemma TicketIdUnused(cfg: Config, c: Primitives, s: System, id: Str)
    requires Reachable(cfg, c, s) && id !in s.ticketIds
    ensures id !in s.memory.tickets
  {
    hide Reachable, BoxesInv, GrantsInv, FileInv, HomesInv, LinkInv, OnceInv, NonceInv;
    ReachableInv(cfg, c, s);
    forall k <- s.memory.tickets ensures k in s.ticketIds {
      assert TicketInv(k, s.memory.tickets[k], s.issued, s.nextChannel, s.grants);
    }
  }

  /** Each request, served by the imperative operations, is one step from a reachable state to
      a reachable state, and gets a reply that the state allows: whatever is proved of reachable
      states, runs and replies holds of the object. */
  method Dispatch(state: AppState, ev: Event, ghost s: System) returns (reply: Reply, ghost s': System)
    requires Reachable(state.config, state.c, s) && Mirrors(state, s)
    requires s.now <= ev.now && !ev.op.Crash? && FreshIds(s, ev.op)
    modifies state
    ensures Step(state.config, state.c, s, ev, s') && Mirrors(state, s')
    ensures Answers(state.config, state.c, s, ev, reply)
    ensures Reachable(state.config, state.c, s')
  {
    hide Reachable, Transacts, ReplyOf, ReadStep, CompleteStep, CreateStep, PlanRegister, PlanSubmit, PlanClaim,
      Hex.Decode;
    ghost var cfg, c := state.config, state.c;
    s' := s.(now := ev.now);
    match ev.op {
      case Register(mailboxId, token, r) =>
        var done := state.RegisterHost(mailboxId, token, r, ev.now, ev.io);
        reply := Acknowledged(done);
        if Commits(RegisterPlan(cfg, c, s, ev), cfg, ev.io) {
          s' := s'.(homes := s.homes[mailboxId := AccountName(r)]);
        }
      case Submit(mailboxId, token, r, freshId) =>
        var requestId := state.SubmitSessionRequest(mailboxId, token, r, freshId, ev.now, ev.io);
        reply := Created(requestId);
        s' := s'.(requestIds := s.requestIds + {freshId});
      case Complete(_, _, _, _, _) =>
        reply, s' := Complete(state, ev, s);
      case CreateTicket(_, _, _) =>
        reply, s' := CreateTicket(state, ev, s);
      case Claim(ticketId, role, proof) =>
        var channel := state.Claim(ticketId, role, proof, ev.now, ev.io);
        reply := Admitted(channel);
        if Commits(ClaimPlan(c, s, ev), cfg, ev.io) {
          s' := s'.(grants := s.grants + [Grant(ClaimPlan(c, s, ev).reply, role)]);
        }
      case Crash =>
        assert false;
        reply := Acknowledged(Success(()));
      case _ =>
        reply := Read(state, ev, s);
    }
    s' := s'.(memory := state.Mem(), disk := state.disk, nextChannel := state.nextChannel);
    ReachableStep(cfg, c, s, ev, s');
  }

  /** A completion that commits adds its ticket to those issued. */
  method Complete(state: AppState, ev: Event, ghost s: System) returns (reply: Reply, ghost s': System)
    requires Reachable(state.config, state.c, s) && Mirrors(state, s)
    requires s.now <= ev.now && ev.op.Complete? && FreshIds(s, ev.op)
    modifies state
    ensures Step(state.config, state.c, s, ev, s') && Mirrors(state, s')
    ensures Answers(state.config, state.c, s, ev, reply)
  {
    hide Reachable, Transacts, ReplyOf, PlanComplete, CompleteIssue, Hex.Decode;
    ghost var cfg, c := state.config, state.c;
    var id := ev.op.ticketId;
    TicketIdUnused(cfg, c, s, id);
    var ready := state.CompleteSessionRequest(ev.op.mailboxId, ev.op.token, ev.op.requestId, ev.op.completion, id,
                                              ev.now, ev.io);
    reply := Finished(ready);
    s' := s.(memory := state.Mem(), disk := state.disk, now := ev.now, ticketIds := s.ticketIds + {id},
             nextChannel := state.nextChannel);
    if Commits(CompletePlan(cfg, c, s, ev), cfg, ev.io) {
      s' := s'.(issued := s.issued[id := CompleteIssue(cfg, c, s, ev)]);
    }
  }

  /** So does a ticket request that commits. */
  method CreateTicket(state: AppState, ev: Event, ghost s: System) returns (reply: Reply, ghost s': System)
    requires Reachable(state.config, state.c, s) && Mirrors(state, s)
    requires s.now <= ev.now && ev.op.CreateTicket? && FreshIds(s, ev.op)
    modifies state
    ensures Step(state.config, state.c, s, ev, s') && Mirrors(state, s')
    ensures Answers(state.config, state.c, s, ev, reply)
  {
    hide Reachable, Transacts, ReplyOf, PlanCreateTicket, CreateIssue, Hex.Decode;
    ghost var cfg, c := state.config, state.c;
    var id := ev.op.ticketId;
    TicketIdUnused(cfg, c, s, id);
    var ticket := state.CreateTicket(ev.op.admin, ev.op.ticketRequest, id, ev.now, ev.io);
    reply := Ticketed(ticket);
    s' := s.(memory := state.Mem(), disk := state.disk, now := ev.now, ticketIds := s.ticketIds + {id},
             nextChannel := state.nextChannel);
    if Commits(CreatePlan(cfg, c, s, ev), cfg, ev.io) {
      s' := s'.(issued := s.issued[id := CreateIssue(cfg, c, s, ev)]);
    }
  }

  /** The operations that never write do not depend on the file system. */
  method Read(state: AppState, ev: Event, ghost s: System) returns (reply: Reply)
    requires Mirrors(state, s)
    requires ev.op.Next? || ev.op.Status? || ev.op.Ice? || ev.op.ListHosts?
    modifies state
    ensures state.disk == old(state.disk) && state.nextChannel == old(state.nextChannel)
    ensures ReadStep(state.config, state.c, s, ev, s.(memory := state.Mem(), now := ev.now))
    ensures Answers(state.config, state.c, s, ev, reply)
  {
    hide PlanNext, PlanStatus, PlanIce, PlanList, Polls, ListsHosts;
    match ev.op {
      case Next(mailboxId, token) =>
        var offer := state.NextSessionRequest(mailboxId, token, ev.now);
        reply := Polled(offer);
        AnswersDoNotCommit(state.config, state.c, s.memory, ev.now, mailboxId, token, []);
      case Status(mailboxId, token, requestId) =>
        var status := state.SessionStatus(mailboxId, token, requestId, ev.now);
        reply := Shown(status);
        AnswersDoNotCommit(state.config, state.c, s.memory, ev.now, mailboxId, token, requestId);
      case Ice(mailboxId, token) =>
        var done := state.IceConfiguration(mailboxId, token, ev.now);
        reply := Acknowledged(done);
        AnswersDoNotCommit(state.config, state.c, s.memory, ev.now, mailboxId, token, []);
      case ListHosts(account) =>
        var hosts := state.ListAccountHosts(account, ev.now);
        reply := Listed(hosts);
        AnswersDoNotCommit(state.config, state.c, s.memory, ev.now, account, [], []);
    }
  }

  /** A start-up from the file is the crash step; it succeeds exactly when the file is within
      the caps. */
  method Restart(cfg: Config, c: Primitives, disk: Option<File>, nextChannel: nat, now: U64, ghost s: System)
    returns (r: Result<AppState, LoadError>, ghost s': System)
    requires Reachable(cfg, c, s) && s.now <= now && disk == s.disk && nextChannel == s.nextChannel
    ensures r.Success? ==>
      && Mirrors(r.value, s') && CrashStep(cfg, s, Event(Crash, now, Io(0, false)), s')
      && Reachable(cfg, c, s')
    ensures r.Success? <==> !cfg.stateFile || disk.None? || WithinCaps(disk.value.content)
  {
    hide Reachable, Reloaded, Restore;
    r := AppState.Load(cfg, c, disk, nextChannel, now);
    s' := s;
    if cfg.stateFile {
      CrashRefinement(cfg, c, s, now);
    }
    if r.Success? {
      s' := s.(memory := r.value.Mem(), now := now, nextChannel := r.value.nextChannel, homes := map[],
               restarted := true);
      ReachableStep(cfg, c, s, Event(Crash, now, Io(0, false)), s');
    }
  }
}
