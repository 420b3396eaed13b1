/** Which claims arrive on one channel, and when a claim can be repeated. */
module Meeting {
  import opened Prelude
  import opened Crypto
  import opened Protocol
  import opened Rules
  import opened Validation
  import opened State
  import opened Persistence
  import opened Transactions
  import opened Server
  import opened Runs
  import opened Invariants
  import opened Preservation
  import opened Theorems
  import Transcripts
  import Hex

  /** Every ticket of the later state whose id was drawn before was held before; it is the same
      ticket but for its claim marks, and on the same channel unless there was a restart, which
      gives it a channel that was never used. A ticket with a new id has a new channel too. */
  ghost predicate Follows(s: System, s': System, restarted: bool) {
    forall id <- s'.memory.tickets ::
      if id in s.ticketIds then
        && id in s.memory.tickets
        && ToPersisted(s'.memory.tickets[id]) == ToPersisted(s.memory.tickets[id])
        && (if restarted then s.nextChannel <= s'.memory.tickets[id].channel
            else s'.memory.tickets[id].channel == s.memory.tickets[id].channel)
      else s.nextChannel <= s'.memory.tickets[id].channel
  }

  /** The event is a claim of that ticket and role, and it is granted. */
  predicate Granted(cfg: Config, c: Primitives, s: System, ev: Event, id: Str, role: EndpointRole) {
    && ev.op.Claim? && ev.op.ticketId == id && ev.op.role == role
    && Commits(ClaimPlan(c, s, ev), cfg, ev.io)
  }

  /** A mark is there because the claim was granted just now, or because it was there before and
      there was no restart. */
  ghost predicate Marks(cfg: Config, c: Primitives, s: System, ev: Event, s': System) {
    forall id <- s'.memory.tickets, role :: Claimed(s'.memory.tickets[id], role) ==>
      || Granted(cfg, c, s, ev, id, role)
      || (!ev.op.Crash? && id in s.memory.tickets && Claimed(s.memory.tickets[id], role))
  }

  lemma MailboxWriteFollows(cfg: Config, c: Primitives, s: System, ev: Event, s': System)
    requires Step(cfg, c, s, ev, s') && Writes(cfg, c, s, ev) && (ev.op.Register? || ev.op.Submit?)
    ensures s'.memory.tickets == s.memory.tickets
  {
    hide Gate, CheckRegistration, ValidateClientSessionRequest, HoldsNonce, Upsert, Open, FileAfter, OtherClients,
      UnexpiredSessions, LiveMailboxes;
  }

  lemma IssueFollows(cfg: Config, c: Primitives, s: System, ev: Event, s': System)
    requires Step(cfg, c, s, ev, s') && Writes(cfg, c, s, ev) && (ev.op.Complete? || ev.op.CreateTicket?)
    requires forall id <- s.memory.tickets :: id in s.ticketIds
    ensures Follows(s, s', false) && Marks(cfg, c, s, ev, s')
  {
    hide Gate, CheckCompletion, ValidateTicketRequest, EvidenceOf, PlanComplete, PlanCreateTicket, FileAfter,
      CompleteIssue, CreateIssue;
    match ev.op
    case Complete(mailboxId, token, requestId, h, ticketId) =>
      CompleteCommits(cfg, c, s.memory, ev.now, mailboxId, token, requestId, h, ticketId, s.nextChannel);
    case CreateTicket(admin, r, ticketId) =>
      CreateCommits(cfg, c, s.memory, ev.now, admin, r, ticketId, s.nextChannel);
  }

  lemma ClaimFollows(cfg: Config, c: Primitives, s: System, ev: Event, s': System)
    requires Step(cfg, c, s, ev, s') && Writes(cfg, c, s, ev) && ev.op.Claim?
    requires forall id <- s.memory.tickets :: id in s.ticketIds
    ensures Follows(s, s', false) && Marks(cfg, c, s, ev, s')
  {
    hide ProvesClaim, FileAfter;
  }

  lemma WriteFollows(cfg: Config, c: Primitives, s: System, ev: Event, s': System)
    requires Step(cfg, c, s, ev, s') && Writes(cfg, c, s, ev)
    requires forall id <- s.memory.tickets :: id in s.ticketIds
    ensures Follows(s, s', false) && Marks(cfg, c, s, ev, s')
  {
    hide Step;
    assert !ev.op.Crash?;
    if ev.op.Claim? {
      ClaimFollows(cfg, c, s, ev, s');
    } else if ev.op.Complete? || ev.op.CreateTicket? {
      IssueFollows(cfg, c, s, ev, s');
    } else {
      assert ev.op.Register? || ev.op.Submit?;
      MailboxWriteFollows(cfg, c, s, ev, s');
    }
  }

  lemma QuietFollows(cfg: Config, c: Primitives, s: System, ev: Event, s': System)
    requires Uneventful(s, s') && !ev.op.Crash?
    requires forall id <- s.memory.tickets :: id in s.ticketIds
    ensures Follows(s, s', false) && Marks(cfg, c, s, ev, s')
  {
    hide ClaimPlan;
  }

  lemma CrashFollows(cfg: Config, c: Primitives, s: System, ev: Event, s': System)
    requires s.now <= ev.now && ev.op.Crash? && CrashStep(cfg, s, ev, s')
    requires FileInv(cfg, s.disk, s.memory, s.now)
    requires forall id <- s.memory.tickets :: id in s.ticketIds
    ensures Follows(s, s', true) && Marks(cfg, c, s, ev, s')
    ensures s.nextChannel <= s'.nextChannel && s'.grants == s.grants
  {
    hide FileInv, LiveView, AllLive, ClaimPlan;
    if cfg.stateFile {
      CrashRestores(cfg, s, ev.now, s'.memory, s'.nextChannel);
    }
  }

  lemma StepFollows(cfg: Config, c: Primitives, s: System, ev: Event, s': System)
    requires Inv(cfg, c, s) && Step(cfg, c, s, ev, s')
    ensures Follows(s, s', ev.op.Crash?) && Marks(cfg, c, s, ev, s')
    ensures s.nextChannel <= s'.nextChannel && s.grants <= s'.grants
  {
    hide BoxesInv, TicketsInv, GrantsInv, IssuedInv, LinkInv, FileInv, HomesInv, OnceInv, NonceInv, RegisterPlan,
      SubmitPlan, CompletePlan, CreatePlan, ClaimPlan, Transacts, ReadStep, MemoryAfter, Commits, CrashStep, Follows,
      Marks;
    ChannelsUsed(cfg, c, s);
    if ev.op.Crash? {
      CrashFollows(cfg, c, s, ev, s');
    } else if Writes(cfg, c, s, ev) {
      WriteFollows(cfg, c, s, ev, s');
    } else {
      NoWriteIsUneventful(cfg, c, s, ev, s');
      QuietFollows(cfg, c, s, ev, s');
    }
  }

  lemma FollowsTwice(a: System, b: System, d: System, first: bool, second: bool)
    requires Follows(a, b, first) && Follows(b, d, second)
    requires a.nextChannel <= b.nextChannel && a.ticketIds <= b.ticketIds
    requires forall id <- b.memory.tickets :: id in b.ticketIds
    ensures Follows(a, d, first || second)
  {
  }

  lemma {:induction false} RunFollows(cfg: Config, c: Primitives, states: seq<System>, events: seq<Event>, i: nat,
                                      j: nat)
    requires IsRun(cfg, c, states, events) && i <= j < |states|
    ensures Follows(states[i], states[j], RestartBetween(events, i, j))
    ensures states[i].nextChannel <= states[j].nextChannel && states[i].grants <= states[j].grants
    ensures states[i].ticketIds <= states[j].ticketIds
  {
    hide Inv, Step;
    RunKeepsInv(cfg, c, states, events, i);
    ChannelsUsed(cfg, c, states[i]);
    if i < j {
      RunFollows(cfg, c, states, events, i, j - 1);
      RunKeepsInv(cfg, c, states, events, j - 1);
      assert Step(cfg, c, states[j - 1], events[j - 1], states[j]);
      StepFollows(cfg, c, states[j - 1], events[j - 1], states[j]);
      StepTime(cfg, c, states[j - 1], events[j - 1], states[j]);
      ChannelsUsed(cfg, c, states[j - 1]);
      FollowsTwice(states[i], states[j - 1], states[j], RestartBetween(events, i, j - 1), events[j - 1].op.Crash?);
      assert RestartBetween(events, i, j) <==> RestartBetween(events, i, j - 1) || events[j - 1].op.Crash?;
    }
  }

  lemma ChannelsUsed(cfg: Config, c: Primitives, s: System)
    requires Inv(cfg, c, s)
    ensures forall id <- s.memory.tickets :: id in s.ticketIds && s.memory.tickets[id].channel < s.nextChannel
    ensures forall a <- s.memory.tickets, b <- s.memory.tickets :: a != b ==>
              s.memory.tickets[a].channel != s.memory.tickets[b].channel
    ensures forall id <- s.memory.tickets, role ::
              Grant(s.memory.tickets[id].channel, role) in s.grants ==> Claimed(s.memory.tickets[id], role)
  {
    hide BoxesInv, GrantsInv, LinkInv, FileInv, HomesInv, OnceInv, NonceInv, HeldInv;
    forall id <- s.memory.tickets
      ensures id in s.ticketIds && s.memory.tickets[id].channel < s.nextChannel
      ensures forall role :: Grant(s.memory.tickets[id].channel, role) in s.grants ==>
                Claimed(s.memory.tickets[id], role)
    {
      assert TicketInv(id, s.memory.tickets[id], s.issued, s.nextChannel, s.grants);
    }
  }

  /** A granted claim answers with the channel of the ticket it claims. */
  lemma ClaimGrants(cfg: Config, c: Primitives, states: seq<System>, events: seq<Event>, k: nat)
    requires IsRun(cfg, c, states, events) && k < |events|
    requires events[k].op.Claim? && Commits(ClaimPlan(c, states[k], events[k]), cfg, events[k].io)
    ensures var s, ev := states[k], events[k];
      && ev.op.ticketId in s.memory.tickets && ev.op.ticketId in s.ticketIds
      && ClaimPlan(c, s, ev).reply == s.memory.tickets[ev.op.ticketId].channel < s.nextChannel
      && Grant(ClaimPlan(c, s, ev).reply, ev.op.role) !in s.grants
      && Grant(ClaimPlan(c, s, ev).reply, ev.op.role) in states[k + 1].grants
  {
    hide ProvesClaim, FileAfter, Inv;
    assert Step(cfg, c, states[k], events[k], states[k + 1]);
    RunKeepsInv(cfg, c, states, events, k);
    ChannelsUsed(cfg, c, states[k]);
  }

  /** Two granted claims are given the same channel exactly when they are claims of one ticket
      with no restart between them, and then they have different roles: the broker of a channel
      pairs a host with a client of one ticket. After a restart the second claim of a ticket
      opens a new channel. */
  lemma ClaimsMeet(cfg: Config, c: Primitives, states: seq<System>, events: seq<Event>, i: nat, j: nat)
    requires IsRun(cfg, c, states, events) && i < j < |events|
    requires events[i].op.Claim? && Commits(ClaimPlan(c, states[i], events[i]), cfg, events[i].io)
    requires events[j].op.Claim? && Commits(ClaimPlan(c, states[j], events[j]), cfg, events[j].io)
    ensures ClaimPlan(c, states[i], events[i]).reply == ClaimPlan(c, states[j], events[j]).reply
       <==> events[i].op.ticketId == events[j].op.ticketId && !RestartBetween(events, i, j)
    ensures ClaimPlan(c, states[i], events[i]).reply == ClaimPlan(c, states[j], events[j]).reply ==>
              events[i].op.role != events[j].op.role
  {
    hide Step, Initial, ClaimPlan, Commits;
    assert |states| == |events| + 1;
    RunFollows(cfg, c, states, events, i, j);
    RunFollows(cfg, c, states, events, i + 1, j);
    ClaimGrants(cfg, c, states, events, i);
    ClaimGrants(cfg, c, states, events, j);
    ChannelsDiffer(cfg, c, states, events, i);
  }

  lemma ChannelsDiffer(cfg: Config, c: Primitives, states: seq<System>, events: seq<Event>, k: nat)
    requires IsRun(cfg, c, states, events) && k < |states|
    ensures forall a <- states[k].memory.tickets, b <- states[k].memory.tickets :: a != b ==>
              states[k].memory.tickets[a].channel != states[k].memory.tickets[b].channel
    ensures forall id <- states[k].memory.tickets, role ::
              Grant(states[k].memory.tickets[id].channel, role) in states[k].grants ==>
                Claimed(states[k].memory.tickets[id], role)
  {
    hide Inv, IsRun;
    RunKeepsInv(cfg, c, states, events, k);
    ChannelsUsed(cfg, c, states[k]);
  }

  /** The claim is signed by the key of its role in the evidence. */
  ghost predicate SignedClaim(c: Primitives, e: Evidence, ev: Event)
    requires ev.op.Claim?
  {
    ProvesRole(c, ev.op.role, e.hostKey, e.clientKey, ev.op.ticketId, ev.op.proof)
  }

  /** Whoever the broker pairs are the two parties of one signed request: two claims granted on
      one channel are a host's and a client's, each signed with the key that signed the HCT1
      transcript behind the ticket. */
  lemma PairedPartiesSignedOneRequest(cfg: Config, c: Primitives, states: seq<System>, events: seq<Event>, i: nat,
                                      j: nat)
    requires IsRun(cfg, c, states, events) && i < j < |events|
    requires events[i].op.Claim? && Commits(ClaimPlan(c, states[i], events[i]), cfg, events[i].io)
    requires events[j].op.Claim? && Commits(ClaimPlan(c, states[j], events[j]), cfg, events[j].io)
    requires ClaimPlan(c, states[i], events[i]).reply == ClaimPlan(c, states[j], events[j]).reply
    ensures events[i].op.role != events[j].op.role
    ensures exists e :: Genuine(c, e) && SignedClaim(c, e, events[i]) && SignedClaim(c, e, events[j])
  {
    hide Step, Initial, ProvesClaim, ClaimPlan, Inv, Genuine, SignedClaim;
    assert |states| == |events| + 1;
    ClaimsMeet(cfg, c, states, events, i, j);
    RunFollows(cfg, c, states, events, i, j);
    ClaimGrants(cfg, c, states, events, i);
    ClaimCommits(c, states[i], events[i]);
    ClaimCommits(c, states[j], events[j]);
    RunKeepsInv(cfg, c, states, events, i);
    var id := events[i].op.ticketId;
    var e := TicketEvidence(cfg, c, states[i], id);
    ProofIsSigned(c, e, states[i].memory.tickets[id], events[i]);
    ProofIsSigned(c, e, states[j].memory.tickets[id], events[j]);
  }

  lemma TicketEvidence(cfg: Config, c: Primitives, s: System, id: Str) returns (e: Evidence)
    requires Inv(cfg, c, s) && id in s.memory.tickets
    ensures Genuine(c, e) && e.hostKey == s.memory.tickets[id].hostKey && e.clientKey == s.memory.tickets[id].clientKey
  {
    hide BoxesInv, GrantsInv, FileInv, HomesInv, LinkInv, OnceInv, NonceInv, Genuine;
    assert TicketInv(id, s.memory.tickets[id], s.issued, s.nextChannel, s.grants);
    e := s.issued[id].evidence;
  }

  lemma ProofIsSigned(c: Primitives, e: Evidence, t: Ticket, ev: Event)
    requires ev.op.Claim? && ProvesClaim(c, t, ev.op.ticketId, ev.op.role, ev.op.proof)
    requires e.hostKey == t.hostKey && e.clientKey == t.clientKey
    ensures SignedClaim(c, e, ev)
  {
    ProofMeans(c, t, ev.op.ticketId, ev.op.role, ev.op.proof);
    hide ProvesRole, ProvesClaim;
  }

  /** After a restart a role is unmarked until it claims again. */
  lemma {:induction false} Unmarked(cfg: Config, c: Primitives, states: seq<System>, events: seq<Event>, k: nat, m: nat,
                                    id: Str, role: EndpointRole)
    requires IsRun(cfg, c, states, events) && k < m < |states| && events[k].op.Crash?
    requires forall l :: k < l < m ==> !Granted(cfg, c, states[l], events[l], id, role)
    requires id in states[m].memory.tickets
    ensures !Claimed(states[m].memory.tickets[id], role)
  {
    hide Inv, Step;
    RunKeepsInv(cfg, c, states, events, m - 1);
    assert Step(cfg, c, states[m - 1], events[m - 1], states[m]);
    StepFollows(cfg, c, states[m - 1], events[m - 1], states[m]);
    assert m - 1 > k ==> !Granted(cfg, c, states[m - 1], events[m - 1], id, role);
    if m - 1 > k && id in states[m - 1].memory.tickets {
      Unmarked(cfg, c, states, events, k, m - 1, id, role);
    }
  }

  /** The last granted claim of a ticket by a role, sent again while the ticket is held, is
      granted again exactly when there was a restart in between, since the file does not keep
      the marks. */
  lemma RepeatedClaimIffRestarted(cfg: Config, c: Primitives, states: seq<System>, events: seq<Event>, i: nat, j: nat)
    requires IsRun(cfg, c, states, events) && i < j < |events|
    requires events[i].op.Claim? && events[j].op == events[i].op
    requires Commits(ClaimPlan(c, states[i], events[i]), cfg, events[i].io)
    requires forall k :: i < k < j ==>
               !Granted(cfg, c, states[k], events[k], events[i].op.ticketId, events[i].op.role)
    requires events[j].op.ticketId in LiveTickets(states[j].memory.tickets, events[j].now)
    ensures ClaimPlan(c, states[j], events[j]).Commit? <==> RestartBetween(events, i, j)
  {
    hide Step, Initial, ProvesClaim, ClaimPlan;
    assert |states| == |events| + 1;
    var id, role := events[i].op.ticketId, events[i].op.role;
    RunFollows(cfg, c, states, events, i, j);
    RunFollows(cfg, c, states, events, i + 1, j);
    ClaimGrants(cfg, c, states, events, i);
    ChannelsDiffer(cfg, c, states, events, j);
    ClaimCommits(c, states[i], events[i]);
    ClaimCommits(c, states[j], events[j]);
    if RestartBetween(events, i, j) {
      var k :| i <= k < j && events[k].op.Crash?;
      Unmarked(cfg, c, states, events, k, j, id, role);
    }
    SameProof(c, states[i].memory.tickets[id], states[j].memory.tickets[id], id, role, events[i].op.proof);
  }

  lemma ClaimCommits(c: Primitives, s: System, ev: Event)
    requires ev.op.Claim?
    ensures var live := LiveTickets(s.memory.tickets, ev.now);
      ClaimPlan(c, s, ev).Commit? <==>
        && ev.op.ticketId in live && !Claimed(live[ev.op.ticketId], ev.op.role)
        && ProvesClaim(c, live[ev.op.ticketId], ev.op.ticketId, ev.op.role, ev.op.proof)
  {
    hide ProvesClaim;
  }

  lemma SameProof(c: Primitives, a: Ticket, b: Ticket, id: Str, role: EndpointRole, proof: Str)
    requires ToPersisted(a) == ToPersisted(b)
    ensures ProvesClaim(c, a, id, role, proof) == ProvesClaim(c, b, id, role, proof)
  {
  }
}
