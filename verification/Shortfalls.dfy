/** Runs in which the server falls short of what one might expect of it. */
module Shortfalls {
  import opened Prelude
  import opened Crypto
  import opened Protocol
  import opened Rules
  import opened Validation
  import opened State
  import opened Persistence
  import opened Transactions
  import opened Server
  import opened Runs
  import opened Invariants
  import opened Preservation
  import opened Theorems
  import opened Meeting
  import opened Registry
  import opened Restarts
  import opened AccountListing
  import opened Samples
  import BigEndian
  import Transcripts
  import Hex

  function Begin(): System {
    System(EMPTY, None, 0, 0, {}, {}, map[], [], map[], false)
  }

  const WRITES := Io(0, true)
  const FAILS := Io(0, false)

  function CreateEvent(e: Evidence, id: Str, io: Io): Event {
    Event(CreateTicket(true, RequestOf(Lenient(), e), id), 0, io)
  }

  /** Genuine evidence with an unused nonce obtains a ticket. */
  lemma CreateEventCommits(cfg: Config, s: System, e: Evidence, id: Str, io: Io)
    requires cfg.enabled && Genuine(Lenient(), e) && e.expires == 1000 && e.nonce !in s.memory.nonces
    requires PersistResult(cfg, io).Success?
    ensures Commits(CreatePlan(cfg, Lenient(), s, CreateEvent(e, id, io)), cfg, io)
    ensures CreatePlan(cfg, Lenient(), s, CreateEvent(e, id, io)).next
         == s.memory.(nonces := LiveNonces(s.memory.nonces, 0)[e.nonce := 1000],
                      tickets := s.memory.tickets[id := NewTicket(cfg, e, 0, s.nextChannel)])
  {
    hide PlanCreateTicket, ValidateTicketRequest, Genuine, RequestOf, EvidenceOf, Lenient;
    SignedRequestIsAccepted(Lenient(), e, 0);
    CreateCommits(cfg, Lenient(), s.memory, 0, true, RequestOf(Lenient(), e), id, s.nextChannel);
    assert EvidenceOf(Lenient(), RequestOf(Lenient(), e), 0) == e;
  }

  lemma SnapshotWithinCaps(p: PersistedRelayState, m: Memory, now: nat)
    requires Snapshot(p, m, now)
    requires |m.mailboxes.Keys| <= MAX_PERSISTED_MAILBOXES && |m.tickets.Keys| <= MAX_PERSISTED_TICKETS
    requires |m.nonces.Keys| <= MAX_PERSISTED_NONCES
    ensures WithinCaps(p)
  {
    WithinSize(LiveMailboxes(m.mailboxes, now), m.mailboxes);
    WithinSize(LiveNonces(m.nonces, now), m.nonces);
    SubsetSize(OpenTickets(m.tickets, now).Keys, m.tickets.Keys);
  }

  // ---- A claim is granted twice ----

  function ClaimEvent(id: Str): Event {
    Event(Claim(id, Host, Hex.Encode(Zeros(64))), 0, WRITES)
  }

  lemma LenientProof(t: Ticket, id: Str)
    ensures ProvesClaim(Lenient(), t, id, Host, Hex.Encode(Zeros(64)))
  {
    Hex.DecodeEncode(Zeros(64), 64, 80);
    hide Hex.DecodeVec, Hex.Encode;
  }

  /** The host claims a ticket that nobody claimed. */
  lemma HostClaims(cfg: Config, s: System, id: Str)
    requires id in s.memory.tickets && s.memory.tickets[id].expires > 0
    requires !s.memory.tickets[id].hostClaimed && !s.memory.tickets[id].clientClaimed
    ensures Commits(ClaimPlan(Lenient(), s, ClaimEvent(id)), cfg, WRITES)
    ensures ClaimPlan(Lenient(), s, ClaimEvent(id)).next
         == s.memory.(tickets := LiveTickets(s.memory.tickets, 0)[id := s.memory.tickets[id].(hostClaimed := true)])
  {
    hide ProvesClaim, Lenient, Hex.Encode;
    LenientProof(s.memory.tickets[id], id);
  }

  lemma ClaimedOnce(cfg: Config, id: Str) returns (s1: System, s2: System)
    requires cfg.enabled && cfg.stateFile && cfg.ticketTtl > 0 && Hex.Decode(id, 16).Some?
    ensures Step(cfg, Lenient(), Begin(), CreateEvent(Sample(), id, WRITES), s1)
    ensures Step(cfg, Lenient(), s1, ClaimEvent(id), s2)
    ensures Commits(ClaimPlan(Lenient(), s1, ClaimEvent(id)), cfg, WRITES)
    ensures Reachable(cfg, Lenient(), s2) && s2.now == 0
    ensures s2.disk.Some? && WithinCaps(s2.disk.value.content)
    ensures id in s2.memory.tickets && s2.memory.tickets[id].expires > 0 && !s2.memory.tickets[id].clientClaimed
  {
    hide Step, CreatePlan, ClaimPlan, Lenient, Genuine, Hex.Encode, Hex.Decode, Reachable, Commits, WithinCaps,
      Snapshot, CreateIssue;
    var c, start, create, claim := Lenient(), Begin(), CreateEvent(Sample(), id, WRITES), ClaimEvent(id);
    SampleIsGenuine();
    CreateEventCommits(cfg, start, Sample(), id, WRITES);
    s1 := CreateSteps(cfg, c, start, create);
    HostClaims(cfg, s1, id);
    s2 := ClaimSteps(cfg, c, s1, claim);
    InitialReachable(cfg, c, start);
    ReachableStep(cfg, c, start, create, s1);
    ReachableStep(cfg, c, s1, claim, s2);
    WriteSnapshots(cfg, c, s1, claim, s2);
    assert s2.memory.tickets.Keys == {id} && s2.memory.mailboxes == map[];
    assert s2.memory.nonces.Keys == {Sample().nonce};
    SnapshotWithinCaps(s2.disk.value.content, s2.memory, 0);
  }

  /** With a state file too, a host may claim a ticket, and after a restart claim it again with
      the same proof. */
  lemma ClaimGrantedTwice(cfg: Config) returns (states: seq<System>, events: seq<Event>)
    requires cfg.enabled && cfg.stateFile && cfg.ticketTtl > 0
    ensures IsRun(cfg, Lenient(), states, events) && |events| == 4
    ensures events[1].op.Claim? && events[2].op.Crash? && events[3].op == events[1].op
    ensures Commits(ClaimPlan(Lenient(), states[1], events[1]), cfg, events[1].io)
    ensures Commits(ClaimPlan(Lenient(), states[3], events[3]), cfg, events[3].io)
  {
    hide Step, CreatePlan, ClaimPlan, Lenient, Genuine, Hex.Encode, Hex.Decode, Reachable, Commits, WithinCaps,
      Snapshot, CreateIssue, IsRun;
    var c, start, crash := Lenient(), Begin(), RestartEvent(0);
    var id, other := TwoIds();
    var create, claim := CreateEvent(Sample(), id, WRITES), ClaimEvent(id);
    var s1, s2 := ClaimedOnce(cfg, id);
    var s3 := RestartWithFile(cfg, c, s2, 0);
    assert id in OpenTickets(s2.memory.tickets, 0);
    HostClaims(cfg, s3, id);
    var s4 := ClaimSteps(cfg, c, s3, claim);
    states, events := [start, s1, s2, s3, s4], [create, claim, crash, claim];
    RunOfFour(cfg, c, states, events);
  }

  lemma RunOfFour(cfg: Config, c: Primitives, states: seq<System>, events: seq<Event>)
    requires |states| == 5 && |events| == 4 && Initial(states[0])
    requires Step(cfg, c, states[0], events[0], states[1]) && Step(cfg, c, states[1], events[1], states[2])
    requires Step(cfg, c, states[2], events[2], states[3]) && Step(cfg, c, states[3], events[3], states[4])
    ensures IsRun(cfg, c, states, events)
  {
    hide Step, Initial;
  }

  // ---- A failed registration is listed ----

  const OTHER_ACCOUNT: Str := Ascii("other")

  function Registration(account: Option<Str>): HostRegistrationRequest {
    HostRegistrationRequest(HOST_REGISTRATION_PROTOCOL, Hex.Encode(Zeros(32)), Fingerprint(Lenient(), Zeros(32)),
                            Hex.Encode(Zeros(32)), 1000, Hex.Encode(Zeros(64)), account)
  }

  function Token(): Str {
    Hex.Encode(Zeros(32))
  }

  function MailboxId(): Str {
    Transcripts.MailboxIdForToken(Lenient(), Zeros(32))
  }

  lemma RegistrationIsSigned(cfg: Config, account: Option<Str>)
    requires cfg.enabled
    ensures Authorized(cfg, Lenient(), MailboxId(), Token())
    ensures SignedRegistration(Lenient(), MailboxId(), Registration(account))
  {
    hide Hex.DecodeVec, Hex.Encode, Fingerprint, Transcripts.Layout, NamesKey;
    Hex.DecodeEncode(Zeros(32), 32, 32);
    Hex.DecodeEncode(Zeros(64), 64, 64);
    Hex.DecodeEncode(Lenient().sha256(Transcripts.MAILBOX_ID_MAGIC + Zeros(32)), 32, 32);
    FingerprintNames(Lenient(), Fingerprint(Lenient(), Zeros(32)), Zeros(32));
  }

  /** A live mailbox whose renewal under another account is refused for want of a write is listed
      under that account all the same, although its last successful registration was under the
      default one. */
  lemma FailedRegistrationListed(cfg: Config) returns (s: System, ev: Event, s': System)
    requires cfg.enabled && cfg.stateFile
    ensures Reachable(cfg, Lenient(), s) && ev.op.Register? && Step(cfg, Lenient(), s, ev, s')
    ensures ReplyOf(RegisterPlan(cfg, Lenient(), s, ev), cfg, ev.io) == Failure(Internal)
    ensures MailboxId() in s'.homes && s'.homes[MailboxId()] == DEFAULT_ACCOUNT != OTHER_ACCOUNT
    ensures LiveHosts(s.memory, OTHER_ACCOUNT, ev.now) == map[]
    ensures MailboxId() in LiveHosts(s'.memory, OTHER_ACCOUNT, ev.now)
  {
    hide Step, Reachable, Lenient, Hex.Encode, Hex.Decode, MailboxId, Token, Authorized, SignedRegistration,
      Fingerprint, LegalAccount, LiveHosts, RegisterPlan;
    var c, start, id := Lenient(), Begin(), MailboxId();
    var register := Event(Register(id, Token(), Registration(None)), 0, WRITES);
    ev := Event(Register(id, Token(), Registration(Some(OTHER_ACCOUNT))), 0, FAILS);
    LegalAccounts();
    RegistrationIsSigned(cfg, None);
    RegistrationIsSigned(cfg, Some(OTHER_ACCOUNT));
    RegistrationCommits(cfg, c, start, register);
    s := RegisterSteps(cfg, c, start, register);
    InitialReachable(cfg, c, start);
    ReachableStep(cfg, c, start, register, s);
    RegistrationEffect(cfg, c, start, register, s);
    RegistrationPlans(cfg, c, start, register);
    RegistrationCommits(cfg, c, s, ev);
    s' := RegisterSteps(cfg, c, s, ev);
    NotListed(s.memory, OTHER_ACCOUNT, 0);
    FailedRegistrationListing(cfg, c, s, ev, OTHER_ACCOUNT, 0);
  }

  /** The mailbox need not be live when the write fails: its later registration under the
      default account makes the failed one show. */
  lemma FailedRegistrationSurfaces(cfg: Config)
    returns (s: System, failed: Event, s1: System, registered: Event, s2: System)
    requires cfg.enabled && cfg.stateFile
    ensures Initial(s) && failed.op.Register? && registered.op.Register?
    ensures Step(cfg, Lenient(), s, failed, s1) && Step(cfg, Lenient(), s1, registered, s2)
    ensures ReplyOf(RegisterPlan(cfg, Lenient(), s, failed), cfg, failed.io) == Failure(Internal)
    ensures ReplyOf(RegisterPlan(cfg, Lenient(), s1, registered), cfg, registered.io) == Success(())
    ensures AccountName(failed.op.registration) == OTHER_ACCOUNT
    ensures MailboxId() !in LiveMailboxes(s.memory.mailboxes, failed.now)
    ensures MailboxId() in s2.homes && s2.homes[MailboxId()] == DEFAULT_ACCOUNT != OTHER_ACCOUNT
    ensures MailboxId() in LiveHosts(s2.memory, OTHER_ACCOUNT, s2.now)
  {
    hide Step, Reachable, Lenient, Hex.Encode, Hex.Decode, MailboxId, Token, Authorized, SignedRegistration,
      Fingerprint, LegalAccount, LiveHosts, RegisterPlan, Upsert;
    s := Begin();
    var c, id := Lenient(), MailboxId();
    registered := Event(Register(id, Token(), Registration(None)), 0, WRITES);
    failed, s1 := FailsFirst(cfg, s);
    LegalAccounts();
    RegistrationIsSigned(cfg, None);
    RegistrationCommits(cfg, c, s1, registered);
    s2 := RegisterSteps(cfg, c, s1, registered);
    var unit: () := RegisterPlan(cfg, c, s1, registered).reply;
    assert unit == ();
    RegistrationEffect(cfg, c, s1, registered, s2);
    RegistrationPlans(cfg, c, s1, registered);
    EntryIsListed(s2.memory, s.memory, id, Registration(None).hostFingerprint);
  }

  lemma FailsFirst(cfg: Config, s: System) returns (failed: Event, s1: System)
    requires cfg.enabled && cfg.stateFile && s == Begin()
    ensures failed == Event(Register(MailboxId(), Token(), Registration(Some(OTHER_ACCOUNT))), 0, FAILS)
    ensures Step(cfg, Lenient(), s, failed, s1) && Reachable(cfg, Lenient(), s1) && s1.now == 0
    ensures ReplyOf(RegisterPlan(cfg, Lenient(), s, failed), cfg, failed.io) == Failure(Internal)
    ensures s1.memory.mailboxes == map[]
    ensures s1.memory.accounts
         == Upsert(map[], OTHER_ACCOUNT, MailboxId(), failed.op.registration.hostFingerprint, 0)
  {
    hide Step, Reachable, Lenient, Hex.Encode, Hex.Decode, MailboxId, Token, Authorized, SignedRegistration,
      Fingerprint, LegalAccount, RegisterPlan, Upsert;
    var c := Lenient();
    failed := Event(Register(MailboxId(), Token(), Registration(Some(OTHER_ACCOUNT))), 0, FAILS);
    LegalAccounts();
    RegistrationIsSigned(cfg, Some(OTHER_ACCOUNT));
    RegistrationCommits(cfg, c, s, failed);
    s1 := RegisterSteps(cfg, c, s, failed);
    InitialReachable(cfg, c, s);
    ReachableStep(cfg, c, s, failed, s1);
    RegistrationPlans(cfg, c, s, failed);
  }

  lemma EntryIsListed(m: Memory, before: Memory, id: Str, fingerprint: Str)
    requires m.accounts == Upsert(Upsert(before.accounts, OTHER_ACCOUNT, id, fingerprint, 0), DEFAULT_ACCOUNT, id,
                                  fingerprint, 0)
    requires id in m.mailboxes && m.mailboxes[id].expires > 0 && DEFAULT_ACCOUNT != OTHER_ACCOUNT
    ensures id in LiveHosts(m, OTHER_ACCOUNT, 0)
  {
  }

  lemma NotListed(m: Memory, account: Str, now: nat)
    requires account !in m.accounts
    ensures LiveHosts(m, account, now) == map[]
  {
  }

  lemma LegalAccounts()
    ensures NormalizeAccount(None).Success? && NormalizeAccount(Some(OTHER_ACCOUNT)).Success?
    ensures NormalizeAccount(Some(DEFAULT_ACCOUNT)).Success?
    ensures LegalAccount(DEFAULT_ACCOUNT) && LegalAccount(OTHER_ACCOUNT)
    ensures DEFAULT_ACCOUNT != OTHER_ACCOUNT
  {
    assert DEFAULT_ACCOUNT == [100, 101, 102, 97, 117, 108, 116];
    assert OTHER_ACCOUNT == [111, 116, 104, 101, 114];
    AccountIsLegal(None);
    AccountIsLegal(Some(DEFAULT_ACCOUNT));
    AccountIsLegal(Some(OTHER_ACCOUNT));
  }

  // ---- A restart that shows ----

  /** Some mailbox is registered and can be brought back. */
  lemma RegisteredOnce(cfg: Config) returns (s: System)
    requires cfg.enabled && cfg.stateFile
    ensures Reachable(cfg, Lenient(), s) && s.now == 0
    ensures s.disk.Some? && WithinCaps(s.disk.value.content)
    ensures MailboxId() in s.memory.mailboxes && s.memory.mailboxes[MailboxId()].expires > 0
    ensures MailboxId() in LiveHosts(s.memory, DEFAULT_ACCOUNT, 0)
  {
    hide Reachable, Lenient, Hex.Encode, Hex.Decode, MailboxId, Token, Authorized, SignedRegistration, Fingerprint,
      LegalAccount, RegisterPlan, WithinCaps, Snapshot, Step, LiveHosts;
    var c, start, id := Lenient(), Begin(), MailboxId();
    var register := Event(Register(id, Token(), Registration(None)), 0, WRITES);
    LegalAccounts();
    RegistrationIsSigned(cfg, None);
    RegistrationCommits(cfg, c, start, register);
    s := RegisterSteps(cfg, c, start, register);
    InitialReachable(cfg, c, start);
    ReachableStep(cfg, c, start, register, s);
    RegistrationEffect(cfg, c, start, register, s);
    ListedUnderLastAccount(cfg, c, s, id);
    WriteSnapshots(cfg, c, start, register, s);
    RegistrationPlans(cfg, c, start, register);
    assert s.memory.mailboxes.Keys == {id} && s.memory.tickets == map[] && s.memory.nonces == map[];
    SnapshotWithinCaps(s.disk.value.content, s.memory, 0);
  }

  /** A live host is listed, and after a restart with its file it is not, though its mailbox is
      brought back. */
  lemma RestartEmptiesListing(cfg: Config) returns (s: System, s': System)
    requires cfg.enabled && cfg.stateFile
    ensures Reachable(cfg, Lenient(), s) && CrashStep(cfg, s, RestartEvent(0), s')
    ensures forall r :: Answers(cfg, Lenient(), s, ListEvent(), r) ==>
              r.Listed? && r.hosts.Success? && exists h <- r.hosts.value :: h.mailboxId == MailboxId()
    ensures forall r :: Answers(cfg, Lenient(), s', ListEvent(), r) ==> r == Listed(Success([]))
    ensures MailboxId() in s'.memory.mailboxes && s'.memory.mailboxes[MailboxId()].expires > 0
  {
    hide Reachable, Lenient, MailboxId, WithinCaps, Reloaded, LiveHosts, ListsHosts, PlanList;
    s := RegisteredOnce(cfg);
    s' := RestartWithFile(cfg, Lenient(), s, 0);
    RestartRebuilds(cfg, Lenient(), s, RestartEvent(0), s');
    LegalAccounts();
    forall r: Reply | r.Listed? && ListsHosts(PlanList(s.memory, 0, DEFAULT_ACCOUNT), r.hosts)
      ensures r.hosts.Success? && exists h <- r.hosts.value :: h.mailboxId == MailboxId()
    {
      ListingShows(s.memory, MailboxId(), r.hosts);
    }
    forall r: Reply | r.Listed? && ListsHosts(PlanList(s'.memory, 0, DEFAULT_ACCOUNT), r.hosts)
      ensures r.hosts == Success([])
    {
      ListingEmpty(s'.memory, r.hosts);
    }
  }

  function ListEvent(): Event {
    Event(ListHosts(DEFAULT_ACCOUNT), 0, FAILS)
  }

  lemma ListingShows(m: Memory, id: Str, r: Result<seq<AccountHost>, RelayError>)
    requires NormalizeAccount(Some(DEFAULT_ACCOUNT)).Success? && id in LiveHosts(m, DEFAULT_ACCOUNT, 0)
    requires ListsHosts(PlanList(m, 0, DEFAULT_ACCOUNT), r)
    ensures r.Success? && exists h <- r.value :: h.mailboxId == id
  {
    var entry := LiveHosts(m, DEFAULT_ACCOUNT, 0)[id];
    assert AccountHost(id, entry) in r.value;
  }

  lemma ListingEmpty(m: Memory, r: Result<seq<AccountHost>, RelayError>)
    requires NormalizeAccount(Some(DEFAULT_ACCOUNT)).Success? && m.accounts == map[]
    requires ListsHosts(PlanList(m, 0, DEFAULT_ACCOUNT), r)
    ensures r == Success([])
  {
    assert LiveHosts(m, DEFAULT_ACCOUNT, 0) == map[];
    assert r.value == [];
  }

  // ---- A file that cannot be read back ----

  lemma {:induction false} LimitGrows(n: nat)
    requires n >= 2
    ensures BigEndian.Limit(n) >= 0x1_0000
  {
    if n == 2 {
      assert BigEndian.Limit(1) == 256;
    } else {
      LimitGrows(n - 1);
    }
  }

  /** Evidence number k. */
  function Nth(k: nat): (e: Evidence)
    requires k < 0x1_0000
  {
    LimitGrows(32);
    Sample().(nonce := BigEndian.Of(k, 32))
  }

  function NthId(k: nat): (id: Str)
    requires k < 0x1_0000
  {
    LimitGrows(16);
    Hex.Encode(BigEndian.Of(k, 16))
  }

  lemma NthDiffer(j: nat, k: nat)
    requires j < 0x1_0000 && k < 0x1_0000 && j != k
    ensures Nth(j).nonce != Nth(k).nonce && NthId(j) != NthId(k)
  {
    hide BigEndian.Of, BigEndian.Value, Hex.Encode, BigEndian.Limit;
    LimitGrows(16);
    LimitGrows(32);
    BigEndian.ValueOf(j, 32);
    BigEndian.ValueOf(k, 32);
    BigEndian.ValueOf(j, 16);
    BigEndian.ValueOf(k, 16);
    if NthId(j) == NthId(k) {
      Hex.EncodeInjective(BigEndian.Of(j, 16), BigEndian.Of(k, 16));
    }
  }

  /** The server after the first k requests, all at time 0. */
  ghost predicate Filled(cfg: Config, s: System, k: nat)
    requires k <= 0x1_0000
  {
    && Reachable(cfg, Lenient(), s) && s.now == 0
    && First(s.memory.nonces, s.ticketIds, k)
  }

  lemma FillOne(cfg: Config, s: System, k: nat, io: Io) returns (ev: Event, s': System)
    requires cfg.enabled && k < 0x1_0000 && Filled(cfg, s, k) && PersistResult(cfg, io).Success?
    ensures ev.io == io
    ensures Step(cfg, Lenient(), s, ev, s') && Writes(cfg, Lenient(), s, ev) && ev.now == 0
    ensures Filled(cfg, s', k + 1)
  {
    hide Step, CreatePlan, Lenient, Genuine, Hex.Encode, Reachable, Commits, Nth, NthId, CreateIssue, First;
    var c, e, id := Lenient(), Nth(k), NthId(k);
    NthIsNew(s.memory.nonces, s.ticketIds, k);
    NthIsGenuine(k);
    ev := CreateEvent(e, id, io);
    CreateEventCommits(cfg, s, e, id, io);
    s' := CreateSteps(cfg, c, s, ev);
    ReachableStep(cfg, c, s, ev, s');
    assert s'.memory.nonces == s.memory.nonces[e.nonce := 1000] && s'.ticketIds == s.ticketIds + {id};
    OneMore(s.memory.nonces, s.ticketIds, k);
  }

  /** The nonces and ids of the first k requests. */
  ghost predicate First(nonces: Nonces, ids: set<Str>, k: nat)
    requires k <= 0x1_0000
  {
    && |nonces| == k
    && (forall n <- nonces :: nonces[n] == 1000 && exists i: nat :: i < k && n == Nth(i).nonce)
    && (forall id <- ids :: exists i: nat :: i < k && id == NthId(i))
  }

  lemma NthIsNew(nonces: Nonces, ids: set<Str>, k: nat)
    requires k < 0x1_0000 && First(nonces, ids, k)
    ensures Nth(k).nonce !in nonces && NthId(k) !in ids
    ensures LiveNonces(nonces, 0) == nonces
  {
    hide Nth, NthId;
    forall i: nat | i < k ensures Nth(i).nonce != Nth(k).nonce && NthId(i) != NthId(k) {
      NthDiffer(i, k);
    }
  }

  lemma OneMore(nonces: Nonces, ids: set<Str>, k: nat)
    requires k < 0x1_0000 && First(nonces, ids, k) && Nth(k).nonce !in nonces
    ensures First(nonces[Nth(k).nonce := 1000], ids + {NthId(k)}, k + 1)
  {
    hide Nth, NthId;
    var more, moreIds := nonces[Nth(k).nonce := 1000], ids + {NthId(k)};
    forall n <- more ensures more[n] == 1000 && exists i: nat :: i < k + 1 && n == Nth(i).nonce {
      if n in nonces {
        var i: nat :| i < k && n == Nth(i).nonce;
        assert i < k + 1;
      }
    }
    forall x <- moreIds ensures exists i: nat :: i < k + 1 && x == NthId(i) {
      if x in ids {
        var i: nat :| i < k && x == NthId(i);
        assert i < k + 1;
      }
    }
  }

  lemma NthIsGenuine(k: nat)
    requires k < 0x1_0000
    ensures Genuine(Lenient(), Nth(k)) && Nth(k).expires == 1000
    ensures Hex.Decode(NthId(k), 16).Some?
  {
    hide Hex.Encode, Hex.DecodeVec, Fingerprint, Transcripts.Layout, BigEndian.Of;
    SampleIsGenuine();
    LimitGrows(16);
    Hex.DecodeEncode(BigEndian.Of(k, 16), 16, 16);
  }

  lemma {:induction false} Fill(cfg: Config, k: nat, ios: nat -> Io) returns (s: System)
    requires cfg.enabled && k <= 0x1_0000
    requires forall i: nat :: i < k ==> PersistResult(cfg, ios(i)).Success?
    ensures Filled(cfg, s, k)
  {
    hide Step, Reachable;
    if k == 0 {
      s := Begin();
      InitialReachable(cfg, Lenient(), s);
    } else {
      var before := Fill(cfg, k - 1, ios);
      var ev, after := FillOne(cfg, before, k - 1, ios(k - 1));
      s := after;
    }
  }

  /** One more accepted request than the cap on nonces, and the server writes a file that it will
      not load again, at any later time. `ios` gives the length of each encoding: any that fits. */
  lemma WrittenFileTooLarge(cfg: Config, ios: nat -> Io) returns (s: System, ev: Event, s': System)
    requires cfg.enabled && cfg.stateFile
    requires forall i: nat :: i <= MAX_PERSISTED_NONCES ==> PersistResult(cfg, ios(i)).Success?
    ensures ev.io == ios(MAX_PERSISTED_NONCES)
    ensures Reachable(cfg, Lenient(), s) && Step(cfg, Lenient(), s, ev, s') && Writes(cfg, Lenient(), s, ev)
    ensures forall t: nat :: ev.now <= t ==> Restore(s'.disk, t) == Failure(TooManyEntries)
  {
    hide Step, Reachable, Writes, Restore, Lenient;
    s := Fill(cfg, MAX_PERSISTED_NONCES, ios);
    ev, s' := FillOne(cfg, s, MAX_PERSISTED_NONCES, ios(MAX_PERSISTED_NONCES));
    NthIsNew(s'.memory.nonces, s'.ticketIds, MAX_PERSISTED_NONCES + 1);
    forall t: nat | ev.now <= t ensures Restore(s'.disk, t) == Failure(TooManyEntries) {
      WrittenFileLoads(cfg, Lenient(), s, ev, s', t);
      CrashRefinement(cfg, Lenient(), s', t);
    }
  }
}
