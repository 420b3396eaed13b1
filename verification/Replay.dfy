/** When a signed ticket request can be used again. */
module Replay {
  import opened Prelude
  import opened Crypto
  import opened Protocol
  import opened Rules
  import opened Validation
  import opened State
  import opened Persistence
  import opened Transactions
  import opened Server
  import opened Runs
  import opened Invariants
  import opened Preservation
  import opened Theorems
  import opened Samples
  import Transcripts
  import Hex

  /** Two tickets rest on one signed request. */
  ghost predicate UsedTwice(c: Primitives, s: System, a: Str, b: Str) {
    && a != b && a in s.issued && b in s.issued
    && TranscriptOf(c, s.issued[a].evidence) == TranscriptOf(c, s.issued[b].evidence)
  }

  /** A valid ticket request stays valid, and says the same, until it expires. */
  lemma ValidUntilExpiry(c: Primitives, r: CreateTicketRequest, now: U64, later: U64)
    requires ValidateTicketRequest(c, r, now).Success? && now <= later < r.expires
    ensures ValidateTicketRequest(c, r, later).Success?
    ensures EvidenceOf(c, r, now) == EvidenceOf(c, r, later)
  {
    hide Hex.DecodeVec, IsFingerprint, Fingerprint;
  }

  // ---- Over a run ----

  /** The event issues a ticket. */
  predicate Issues(cfg: Config, c: Primitives, s: System, ev: Event) {
    || (ev.op.Complete? && Commits(CompletePlan(cfg, c, s, ev), cfg, ev.io))
    || (ev.op.CreateTicket? && Commits(CreatePlan(cfg, c, s, ev), cfg, ev.io))
  }

  /** What both parties signed to obtain it. */
  function EvidenceIn(cfg: Config, c: Primitives, s: System, ev: Event): Evidence
    requires Issues(cfg, c, s, ev)
  {
    if ev.op.Complete? then CompleteIssue(cfg, c, s, ev).evidence else CreateIssue(cfg, c, s, ev).evidence
  }

  lemma IssueNonces(cfg: Config, c: Primitives, s: System, ev: Event, s': System)
    requires Step(cfg, c, s, ev, s') && Issues(cfg, c, s, ev)
    ensures var e := EvidenceIn(cfg, c, s, ev);
      && e.expires > ev.now && e.nonce !in LiveNonces(s.memory.nonces, ev.now)
      && s'.memory.nonces == LiveNonces(s.memory.nonces, ev.now)[e.nonce := e.expires]
  {
    hide Gate, CheckCompletion, ValidateTicketRequest, EvidenceOf, PlanComplete, PlanCreateTicket, FileAfter,
      CompleteIssue, LiveNonces, Genuine, GenuineHandshake;
    match ev.op
    case Complete(mailboxId, token, requestId, h, ticketId) =>
      CompleteCommits(cfg, c, s.memory, ev.now, mailboxId, token, requestId, h, ticketId, s.nextChannel);
      CompletionEvidence(cfg, c, s, ev);
    case CreateTicket(admin, r, ticketId) =>
      CreateCommits(cfg, c, s.memory, ev.now, admin, r, ticketId, s.nextChannel);
      var e := EvidenceOf(c, r, ev.now);
  }

  lemma OtherWriteNonces(cfg: Config, c: Primitives, s: System, ev: Event, s': System)
    requires Step(cfg, c, s, ev, s') && Writes(cfg, c, s, ev) && !Issues(cfg, c, s, ev)
    ensures s'.memory.nonces == s.memory.nonces
  {
    hide Gate, CheckRegistration, ValidateClientSessionRequest, HoldsNonce, Upsert, Open, FileAfter, OtherClients,
      UnexpiredSessions, LiveMailboxes, LiveTickets, ProvesClaim, PlanComplete, PlanCreateTicket;
  }

  lemma CrashNonces(cfg: Config, c: Primitives, s: System, ev: Event, s': System)
    requires Step(cfg, c, s, ev, s') && ev.op.Crash? && FileInv(cfg, s.disk, s.memory, s.now)
    ensures s'.memory.nonces == if cfg.stateFile then LiveNonces(s.memory.nonces, ev.now) else map[]
    ensures !Issues(cfg, c, s, ev)
  {
    hide FileInv, LiveView, FreshTickets, RegisterStep, SubmitStep, CompleteStep, CreateStep, ClaimStep, ReadStep,
      Commits;
    if cfg.stateFile {
      CrashRestores(cfg, s, ev.now, s'.memory, s'.nextChannel);
    }
  }

  /** Where the nonces of the later state come from, and which of the earlier ones are lost. */
  lemma StepNonces(cfg: Config, c: Primitives, s: System, ev: Event, s': System)
    requires Inv(cfg, c, s) && Step(cfg, c, s, ev, s')
    ensures forall n <- s'.memory.nonces ::
              n in s.memory.nonces || (Issues(cfg, c, s, ev) && n == EvidenceIn(cfg, c, s, ev).nonce)
    ensures cfg.stateFile || !ev.op.Crash? ==> forall n <- s.memory.nonces :: s.memory.nonces[n] > ev.now ==>
              n in s'.memory.nonces && s'.memory.nonces[n] == s.memory.nonces[n]
    ensures !cfg.stateFile && ev.op.Crash? ==> s'.memory.nonces == map[]
    ensures s'.now == ev.now
  {
    hide BoxesInv, TicketsInv, GrantsInv, IssuedInv, LinkInv, HomesInv, OnceInv, NonceInv, HeldInv, FileInv, Step,
      Issues, Writes, EvidenceIn, LiveView;
    StepTime(cfg, c, s, ev, s');
    if ev.op.Crash? {
      CrashNonces(cfg, c, s, ev, s');
    } else if Issues(cfg, c, s, ev) {
      IssueNonces(cfg, c, s, ev, s');
    } else if Writes(cfg, c, s, ev) {
      OtherWriteNonces(cfg, c, s, ev, s');
    } else {
      NoWriteIsUneventful(cfg, c, s, ev, s');
    }
  }

  /** Without a file a restart forgets; otherwise a nonce is remembered as long as it was to be. */
  lemma {:induction false} RunRemembers(cfg: Config, c: Primitives, states: seq<System>, events: seq<Event>, i: nat,
                                        j: nat, nonce: Bytes32, until: U64)
    requires IsRun(cfg, c, states, events) && i <= j < |states|
    requires cfg.stateFile || !RestartBetween(events, i, j)
    requires Remembers(states[i].memory.nonces, nonce, until) && states[j].now < until
    ensures Remembers(states[j].memory.nonces, nonce, until)
  {
    hide Inv, Step;
    if i < j {
      RunKeepsInv(cfg, c, states, events, j - 1);
      assert Step(cfg, c, states[j - 1], events[j - 1], states[j]);
      StepTime(cfg, c, states[j - 1], events[j - 1], states[j]);
      RunRemembers(cfg, c, states, events, i, j - 1, nonce, until);
      StepNonces(cfg, c, states[j - 1], events[j - 1], states[j]);
    }
  }

  /** A nonce that is not remembered stays so until a ticket is issued with it. */
  lemma {:induction false} RunForgets(cfg: Config, c: Primitives, states: seq<System>, events: seq<Event>, i: nat,
                                      j: nat, nonce: Bytes32)
    requires IsRun(cfg, c, states, events) && i <= j < |states|
    requires nonce !in states[i].memory.nonces
    requires forall k :: i <= k < j && Issues(cfg, c, states[k], events[k]) ==>
               EvidenceIn(cfg, c, states[k], events[k]).nonce != nonce
    ensures nonce !in states[j].memory.nonces
  {
    hide Inv, Step;
    if i < j {
      RunKeepsInv(cfg, c, states, events, j - 1);
      assert Step(cfg, c, states[j - 1], events[j - 1], states[j]);
      RunForgets(cfg, c, states, events, i, j - 1, nonce);
      StepNonces(cfg, c, states[j - 1], events[j - 1], states[j]);
    }
  }

  /** The event has just issued a ticket: its nonce is remembered, unless a restart without a
      file comes before `j`. */
  lemma IssuedRemembered(cfg: Config, c: Primitives, states: seq<System>, events: seq<Event>, i: nat, j: nat)
    requires IsRun(cfg, c, states, events) && i < j < |states| && Issues(cfg, c, states[i], events[i])
    requires cfg.stateFile || !RestartBetween(events, i, j)
    ensures var e := EvidenceIn(cfg, c, states[i], events[i]);
      states[j].now < e.expires ==> Remembers(states[j].memory.nonces, e.nonce, e.expires)
  {
    hide Inv, Step, Issues, EvidenceIn;
    assert Step(cfg, c, states[i], events[i], states[i + 1]);
    IssueNonces(cfg, c, states[i], events[i], states[i + 1]);
    var e := EvidenceIn(cfg, c, states[i], events[i]);
    if states[j].now < e.expires {
      RunRemembers(cfg, c, states, events, i + 1, j, e.nonce, e.expires);
    }
  }

  lemma SameTranscript(c: Primitives, e: Evidence, f: Evidence)
    requires TranscriptOf(c, e) == TranscriptOf(c, f)
    ensures e.nonce == f.nonce && e.expires == f.expires
  {
    Transcripts.LayoutInjective(
      Transcripts.TicketRequest(e.session, e.expires, e.nonce, c.sha256(e.hostKey), c.sha256(e.clientKey)),
      Transcripts.TicketRequest(f.session, f.expires, f.nonce, c.sha256(f.hostKey), c.sha256(f.clientKey)));
  }

  /** Two tickets issued in a run on one HCT1 transcript have a restart between them, and the
      server has no state file: between restarts every signed request is single-use, by whichever
      of the two operations it is presented. */
  lemma SecondUseNeedsRestart(cfg: Config, c: Primitives, states: seq<System>, events: seq<Event>, i: nat, j: nat)
    requires IsRun(cfg, c, states, events) && i < j < |events|
    requires Issues(cfg, c, states[i], events[i]) && Issues(cfg, c, states[j], events[j])
    requires TranscriptOf(c, EvidenceIn(cfg, c, states[i], events[i]))
          == TranscriptOf(c, EvidenceIn(cfg, c, states[j], events[j]))
    ensures RestartBetween(events, i + 1, j) && !cfg.stateFile
  {
    hide Step, Issues, EvidenceIn, TranscriptOf, Initial;
    assert Step(cfg, c, states[j], events[j], states[j + 1]) && Step(cfg, c, states[i], events[i], states[i + 1]);
    var e, f := EvidenceIn(cfg, c, states[i], events[i]), EvidenceIn(cfg, c, states[j], events[j]);
    SameTranscript(c, e, f);
    IssueNonces(cfg, c, states[j], events[j], states[j + 1]);
    StepTime(cfg, c, states[j], events[j], states[j + 1]);
    IssuesNoCrash(cfg, c, states[i], events[i]);
    if cfg.stateFile || !RestartBetween(events, i, j) {
      IssuedRemembered(cfg, c, states, events, i, j);
    }
  }

  lemma IssuesNoCrash(cfg: Config, c: Primitives, s: System, ev: Event)
    requires Issues(cfg, c, s, ev)
    ensures !ev.op.Crash? && cfg.enabled
  {
    hide AuthorizeMailbox, CheckCompletion, ValidateTicketRequest;
  }

  /** No ticket is issued with the nonce in between. */
  ghost predicate UnusedBetween(cfg: Config, c: Primitives, states: seq<System>, events: seq<Event>, i: nat, j: nat,
                                nonce: Bytes32)
    requires |states| == |events| + 1 && j <= |events|
  {
    forall k :: i <= k < j && Issues(cfg, c, states[k], events[k]) ==>
      EvidenceIn(cfg, c, states[k], events[k]).nonce != nonce
  }

  /** The exact condition: as long as a signed request is valid, the nonce it was used with is
      free again, if not used since, exactly when the server has no state file and restarted. */
  lemma NonceFreeIffForgotten(cfg: Config, c: Primitives, states: seq<System>, events: seq<Event>, i: nat, j: nat)
    requires IsRun(cfg, c, states, events) && i < j < |events|
    requires Issues(cfg, c, states[i], events[i])
    requires events[j].now < EvidenceIn(cfg, c, states[i], events[i]).expires
    requires UnusedBetween(cfg, c, states, events, i + 1, j, EvidenceIn(cfg, c, states[i], events[i]).nonce)
    ensures EvidenceIn(cfg, c, states[i], events[i]).nonce !in LiveNonces(states[j].memory.nonces, events[j].now)
       <==> !cfg.stateFile && RestartBetween(events, i + 1, j)
  {
    hide Step, Inv, Issues, EvidenceIn, Initial;
    var e := EvidenceIn(cfg, c, states[i], events[i]);
    IssuesNoCrash(cfg, c, states[i], events[i]);
    assert Step(cfg, c, states[j], events[j], states[j + 1]);
    StepTime(cfg, c, states[j], events[j], states[j + 1]);
    if !cfg.stateFile && RestartBetween(events, i + 1, j) {
      var k :| i + 1 <= k < j && events[k].op.Crash?;
      RunKeepsInv(cfg, c, states, events, k);
      assert Step(cfg, c, states[k], events[k], states[k + 1]);
      StepNonces(cfg, c, states[k], events[k], states[k + 1]);
      RunForgets(cfg, c, states, events, k + 1, j, e.nonce);
    } else {
      IssuedRemembered(cfg, c, states, events, i, j);
    }
  }

  /** So a used request is accepted again from the administrator exactly then. */
  lemma AcceptedAgainIffForgotten(cfg: Config, c: Primitives, states: seq<System>, events: seq<Event>, i: nat, j: nat)
    requires IsRun(cfg, c, states, events) && i < j < |events|
    requires Issues(cfg, c, states[i], events[i])
    requires events[j].op.CreateTicket? && events[j].op.admin
    requires ValidateTicketRequest(c, events[j].op.ticketRequest, events[j].now).Success?
    requires TranscriptOf(c, EvidenceIn(cfg, c, states[i], events[i]))
          == TranscriptOf(c, EvidenceOf(c, events[j].op.ticketRequest, events[j].now))
    requires UnusedBetween(cfg, c, states, events, i + 1, j, EvidenceIn(cfg, c, states[i], events[i]).nonce)
    ensures CreatePlan(cfg, c, states[j], events[j]).Commit? <==> !cfg.stateFile && RestartBetween(events, i + 1, j)
  {
    hide IsRun, Issues, EvidenceIn, TranscriptOf, ValidateTicketRequest, PlanCreateTicket, EvidenceOf, UnusedBetween;
    assert |states| == |events| + 1 by { RunLength(cfg, c, states, events); }
    var r, now := events[j].op.ticketRequest, events[j].now;
    SameTranscript(c, EvidenceIn(cfg, c, states[i], events[i]), EvidenceOf(c, r, now));
    IssuesNoCrash(cfg, c, states[i], events[i]);
    CreateCommits(cfg, c, states[j].memory, now, true, r, events[j].op.ticketId, states[j].nextChannel);
    NonceFreeIffForgotten(cfg, c, states, events, i, j);
  }

  lemma RunLength(cfg: Config, c: Primitives, states: seq<System>, events: seq<Event>)
    requires IsRun(cfg, c, states, events)
    ensures |states| == |events| + 1
  {
  }

  /** And a stored request whose nonce was used is completed exactly then, if what the host
      supplies is genuine. */
  lemma CompletedAgainIffForgotten(cfg: Config, c: Primitives, states: seq<System>, events: seq<Event>, i: nat, j: nat)
    requires IsRun(cfg, c, states, events) && i < j < |events|
    requires Issues(cfg, c, states[i], events[i])
    requires events[j].now < EvidenceIn(cfg, c, states[i], events[i]).expires
    requires UnusedBetween(cfg, c, states, events, i + 1, j, EvidenceIn(cfg, c, states[i], events[i]).nonce)
    requires CompletesPending(cfg, c, states[j], events[j])
    requires var s, ev := states[j], events[j];
      Hex.Decode(s.memory.mailboxes[ev.op.mailboxId].sessions[ev.op.requestId].request.requestNonce, 32)
        == Some(EvidenceIn(cfg, c, states[i], events[i]).nonce)
    ensures CompletePlan(cfg, c, states[j], events[j]).Commit? <==>
              HostIsGenuine(c, states[j], events[j]) && !cfg.stateFile && RestartBetween(events, i + 1, j)
  {
    hide Step, Initial, Issues, EvidenceIn, CompletePlan, Gate, HostSigned, GenuineHandshake, UnusedBetween, Reachable;
    RunReaches(cfg, c, states, events, j);
    assert Step(cfg, c, states[j], events[j], states[j + 1]);
    StepTime(cfg, c, states[j], events[j], states[j + 1]);
    CompletionDependsOnTheHost(cfg, c, states[j], events[j]);
    NonceFreeIffForgotten(cfg, c, states, events, i, j);
  }

  lemma RunReaches(cfg: Config, c: Primitives, states: seq<System>, events: seq<Event>, j: nat)
    requires IsRun(cfg, c, states, events) && j < |states|
    ensures Reachable(cfg, c, states[j])
  {
    hide IsRun;
  }

  // ---- From any state ----

  /** Without a state file, whatever ticket request the server accepts, from any reachable state,
      it accepts again after one restart at any time before the request expires. */
  lemma ForgottenAfterRestart(cfg: Config, c: Primitives, s: System, ev: Event, later: U64, second: Str)
    returns (t: System)
    requires !cfg.stateFile && Reachable(cfg, c, s) && s.now <= ev.now
    requires ev.op.CreateTicket? && ev.op.ticketId !in s.ticketIds && Hex.Decode(ev.op.ticketId, 16).Some?
    requires CreatePlan(cfg, c, s, ev).Commit?
    requires ev.now <= later < ev.op.ticketRequest.expires
    requires second !in s.ticketIds && second != ev.op.ticketId && Hex.Decode(second, 16).Some?
    ensures Reachable(cfg, c, t) && !Durable(cfg, t) && UsedTwice(c, t, ev.op.ticketId, second)
  {
    hide Reachable, Step, PlanCreateTicket, ValidateTicketRequest, EvidenceOf, TranscriptOf, Hex.Decode;
    var r := ev.op.ticketRequest;
    var again := Event(CreateTicket(true, r, second), later, ev.io);
    CreateCommits(cfg, c, s.memory, ev.now, ev.op.admin, r, ev.op.ticketId, s.nextChannel);
    ValidUntilExpiry(c, r, ev.now, later);
    var used := CreateSteps(cfg, c, s, ev);
    ReachableStep(cfg, c, s, ev, used);
    var crashed := RestartWithoutFile(cfg, c, used, ev.now);
    ReachableStep(cfg, c, used, RestartEvent(ev.now), crashed);
    CreateCommits(cfg, c, EMPTY, later, true, r, second, crashed.nextChannel);
    t := CreateSteps(cfg, c, crashed, again);
    ReachableStep(cfg, c, crashed, again, t);
  }

  /** So single use is false of the code without a state file: here is a run from the start. */
  lemma SingleUseNeedsAFile(cfg: Config)
    requires cfg.enabled && !cfg.stateFile
    ensures exists s, a, b :: Reachable(cfg, Lenient(), s) && UsedTwice(Lenient(), s, a, b)
  {
    hide Reachable, ValidateTicketRequest, PlanCreateTicket, Lenient, UsedTwice, Genuine, RequestOf, EvidenceOf,
      Hex.Encode, Hex.Decode;
    var c, start := Lenient(), System(EMPTY, None, 0, 0, {}, {}, map[], [], map[], false);
    InitialReachable(cfg, c, start);
    SampleIsGenuine();
    SignedRequestIsAccepted(c, Sample(), 0);
    var r := RequestOf(c, Sample());
    var a, b := TwoIds();
    CreateCommits(cfg, c, EMPTY, 0, true, r, a, 0);
    var t := ForgottenAfterRestart(cfg, c, start, Event(CreateTicket(true, r, a), 0, Io(0, false)), 0, b);
  }

  /** An enabled server keeps signed requests single-use, whatever the primitives and the run,
      if and only if it is configured with a state file. */
  lemma SingleUseIffStateFile(cfg: Config)
    requires cfg.enabled
    ensures cfg.stateFile <==> forall c, s, a, b :: Reachable(cfg, c, s) ==> !UsedTwice(c, s, a, b)
  {
    hide Reachable;
    if cfg.stateFile {
      forall c, s, a, b | Reachable(cfg, c, s) ensures !UsedTwice(c, s, a, b) {
        if UsedTwice(c, s, a, b) {
          OneTicketPerSignedRequest(cfg, c, s, a, b);
        }
      }
    } else {
      SingleUseNeedsAFile(cfg);
    }
  }
}
