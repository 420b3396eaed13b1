/** What a ready session tells the client about its ticket stays true. */
module Promises {
  import opened Prelude
  import opened Crypto
  import opened Protocol
  import opened State
  import opened Persistence
  import opened Transactions
  import opened Server
  import opened Runs
  import opened Invariants
  import opened Preservation
  import opened Theorems
  import opened Meeting
  import opened Replies
  import Replay

  /** The ready value names the configured relay and, while the ticket is held, its expiry. */
  predicate KeptPromise(cfg: Config, tickets: Tickets, ready: SessionReady) {
    && ready.ticket.relayUrl == cfg.publicRelayUrl
    && (ready.ticket.ticketId in tickets ==> tickets[ready.ticket.ticketId].expires == ready.ticket.expires)
  }

  ghost predicate AllKept(cfg: Config, m: Memory) {
    forall id <- m.mailboxes, r <- m.mailboxes[id].sessions :: m.mailboxes[id].sessions[r].ready.Some? ==>
      KeptPromise(cfg, m.tickets, m.mailboxes[id].sessions[r].ready.value)
  }

  /** Whatever is ready in the later table was so in the earlier one. */
  ghost predicate NothingNewReady(a: Mailboxes, b: Mailboxes) {
    forall id <- b, r <- b[id].sessions :: b[id].sessions[r].ready.Some? ==>
      id in a && r in a[id].sessions && a[id].sessions[r].ready == b[id].sessions[r].ready
  }

  lemma OthersNotReady(cfg: Config, c: Primitives, s: System, ev: Event, s': System)
    requires Reachable(cfg, c, s) && Step(cfg, c, s, ev, s')
    requires !(ev.op.Complete? && Writes(cfg, c, s, ev))
    ensures NothingNewReady(s.memory.mailboxes, s'.memory.mailboxes)
  {
    hide Reachable, RegisterPlan, SubmitPlan, CompletePlan, CreatePlan, ClaimPlan, CreateIssue, CompleteIssue,
      ReadStep, Transacts, Reloaded, BoxesInv, Submitted, LiveMailboxes, AccountName, OnlyExpiredDropped, Commits;
    ReachableInv(cfg, c, s);
    if ev.op.Crash? {
      if cfg.stateFile {
        RestartKeepsExactly(cfg, c, s, ev, s');
      } else {
        EmptyAfterCrash(cfg, s, ev, s');
      }
    } else if !Writes(cfg, c, s, ev) {
      NoWriteIsUneventful(cfg, c, s, ev, s');
      DroppedNotReady(s.memory, s'.memory, s'.now);
    } else {
      match ev.op
      case Register(_, _, _) => RegistrationEffect(cfg, c, s, ev, s');
      case Submit(_, _, _, _) => SubmitNotReady(cfg, c, s, ev, s');
      case CreateTicket(_, _, _) => TicketEffect(cfg, c, s, ev, s');
      case Claim(_, _, _) => ClaimEffect(cfg, c, s, ev, s');
      case _ =>
    }
  }

  lemma EmptyAfterCrash(cfg: Config, s: System, ev: Event, s': System)
    requires CrashStep(cfg, s, ev, s') && !cfg.stateFile
    ensures s'.memory == EMPTY
  {
    hide Restore;
  }

  lemma DroppedNotReady(a: Memory, b: Memory, now: U64)
    requires OnlyExpiredDropped(a, b, now)
    ensures NothingNewReady(a.mailboxes, b.mailboxes)
  {
  }

  lemma SubmitNotReady(cfg: Config, c: Primitives, s: System, ev: Event, s': System)
    requires ev.op.Submit? && SubmitStep(cfg, c, s, ev, s') && Commits(SubmitPlan(cfg, c, s, ev), cfg, ev.io)
    ensures NothingNewReady(s.memory.mailboxes, s'.memory.mailboxes)
  {
    hide SubmitPlan, FileAfter;
    SubmittedTable(cfg, c, s, ev);
  }

  lemma StepKeepsPromises(cfg: Config, c: Primitives, s: System, ev: Event, s': System)
    requires Reachable(cfg, c, s) && Step(cfg, c, s, ev, s') && AllKept(cfg, s.memory)
    ensures AllKept(cfg, s'.memory)
  {
    ReachableInv(cfg, c, s);
    StepFollows(cfg, c, s, ev, s');
    StepTime(cfg, c, s, ev, s');
    ReadyIdsDrawn(cfg, c, s);
    if ev.op.Complete? && Writes(cfg, c, s, ev) {
      CompletionKeepsPromises(cfg, c, s, ev, s');
    } else {
      hide Inv, Reachable, Step, Writes, Marks;
      OthersNotReady(cfg, c, s, ev, s');
    }
  }

  /** The ticket of a ready session has a drawn id. */
  lemma ReadyIdsDrawn(cfg: Config, c: Primitives, s: System)
    requires Reachable(cfg, c, s)
    ensures forall id <- s.memory.mailboxes, r <- s.memory.mailboxes[id].sessions ::
              s.memory.mailboxes[id].sessions[r].ready.Some? ==>
                s.memory.mailboxes[id].sessions[r].ready.value.ticket.ticketId in s.ticketIds
  {
    hide Reachable, BoxesInv, TicketsInv, GrantsInv, FileInv, HomesInv, OnceInv, NonceInv, HeldInv;
    ReachableInv(cfg, c, s);
  }

  lemma CompletionKeepsPromises(cfg: Config, c: Primitives, s: System, ev: Event, s': System)
    requires Reachable(cfg, c, s) && Step(cfg, c, s, ev, s') && ev.op.Complete? && Writes(cfg, c, s, ev)
    requires AllKept(cfg, s.memory) && Follows(s, s', false)
    requires forall id <- s.memory.mailboxes, r <- s.memory.mailboxes[id].sessions ::
               s.memory.mailboxes[id].sessions[r].ready.Some? ==>
                 s.memory.mailboxes[id].sessions[r].ready.value.ticket.ticketId in s.ticketIds
    ensures AllKept(cfg, s'.memory)
  {
    hide Reachable, CompletePlan, CompleteIssue, Transacts, Lifetime, Remembered;
    CompletionEffect(cfg, c, s, ev, s');
    hide Follows, CompleteStep;
  }

  /** In every reachable state, after restarts too: a ready session names the configured relay,
      and its expiry is that of the ticket it names as long as that ticket is held. */
  lemma ReadyTellsTicketExpiry(cfg: Config, c: Primitives, s: System, id: Str, r: Str)
    requires Reachable(cfg, c, s)
    requires id in s.memory.mailboxes && r in s.memory.mailboxes[id].sessions
    requires s.memory.mailboxes[id].sessions[r].ready.Some?
    ensures KeptPromise(cfg, s.memory.tickets, s.memory.mailboxes[id].sessions[r].ready.value)
  {
    hide KeptPromise;
    var states, events, i :| IsRun(cfg, c, states, events) && 0 <= i < |states| && states[i] == s;
    RunKeepsPromises(cfg, c, states, events, i);
  }

  lemma {:induction false} RunKeepsPromises(cfg: Config, c: Primitives, states: seq<System>, events: seq<Event>, i: nat)
    requires IsRun(cfg, c, states, events) && i < |states|
    ensures AllKept(cfg, states[i].memory)
  {
    hide Step, AllKept, Reachable;
    if i == 0 {
      NoneReady(cfg, states[0]);
    } else {
      RunKeepsPromises(cfg, c, states, events, i - 1);
      Replay.RunReaches(cfg, c, states, events, i - 1);
      assert Step(cfg, c, states[i - 1], events[i - 1], states[i]);
      StepKeepsPromises(cfg, c, states[i - 1], events[i - 1], states[i]);
    }
  }

  lemma NoneReady(cfg: Config, s: System)
    requires Initial(s)
    ensures AllKept(cfg, s.memory)
  {
  }
}
