/** Inputs and steps from which concrete runs are built. */
module Samples {
  import opened Prelude
  import opened Crypto
  import opened Protocol
  import opened Rules
  import opened Validation
  import opened State
  import opened Persistence
  import opened Transactions
  import opened Server
  import opened Runs
  import opened Invariants
  import opened Preservation
  import opened Theorems
  import Hex

  function Zeros(n: nat): (b: Bytes)
    ensures |b| == n
  {
    seq(n, _ => 0)
  }

  /** Signatures that always verify, and a digest that tells the two keys apart. */
  function Lenient(): Primitives {
    Primitives(b => if |b| == 32 then Zeros(32) else seq(32, _ => 1), (_, _, _) => true, (_, _, _) => true)
  }

  function Sample(): Evidence {
    Evidence(Zeros(16), 1000, Zeros(32), Zeros(32), Zeros(64), Zeros(64), Zeros(64))
  }

  lemma SampleIsGenuine()
    ensures Genuine(Lenient(), Sample())
  {
    hide Hex.Encode;
    var c, a, b := Lenient(), Zeros(32), Zeros(64);
    assert Fingerprint(c, a)[7..] == Hex.Encode(c.sha256(a)) && Fingerprint(c, b)[7..] == Hex.Encode(c.sha256(b));
    assert c.sha256(a)[0] == 0 && c.sha256(b)[0] == 1;
    if Fingerprint(c, a) == Fingerprint(c, b) {
      Hex.EncodeInjective(c.sha256(a), c.sha256(b));
    }
  }

  lemma TwoIds() returns (a: Str, b: Str)
    ensures a != b && Hex.Decode(a, 16).Some? && Hex.Decode(b, 16).Some?
  {
    var x, y := Zeros(16), seq(16, _ => 1);
    a, b := Hex.Encode(x), Hex.Encode(y);
    assert x[0] != y[0];
    Hex.DecodeEncode(x, 16, 16);
    Hex.DecodeEncode(y, 16, 16);
  }

  // ---- Steps that are always possible ----

  lemma InitialReachable(cfg: Config, c: Primitives, s: System)
    requires Initial(s)
    ensures Reachable(cfg, c, s)
  {
    assert IsRun(cfg, c, [s], []) && [s][0] == s;
  }

  lemma {:induction false} ListingExists(live: Nonces) returns (list: seq<PersistedNonce>)
    ensures ListsNonces(list, live)
    decreases live.Keys
  {
    hide ListsNonces;
    if live == map[] {
      list := [];
      EmptyListing(live);
    } else {
      var n :| n in live;
      var others := Remove(live, n);
      assert live == others[n := live[n]];
      var rest := ListingExists(others);
      list := rest + [PersistedNonce(Hex.Encode(n), live[n])];
      ListOneMore(rest, others, n, live[n]);
    }
  }

  lemma EmptyListing(live: Nonces)
    requires live == map[]
    ensures ListsNonces([], live)
  {
  }

  lemma ListOneMore(rest: seq<PersistedNonce>, others: Nonces, n: Bytes32, expires: nat)
    requires ListsNonces(rest, others) && n !in others
    ensures ListsNonces(rest + [PersistedNonce(Hex.Encode(n), expires)], others[n := expires])
  {
    hide Hex.Encode;
    var live := others[n := expires];
    forall e <- rest + [PersistedNonce(Hex.Encode(n), expires)] ensures EncodesOneOf(e, live) {
      if e in rest {
        assert EncodesOneOf(e, others);
        var k: Bytes32 :| k in others && e == PersistedNonce(Hex.Encode(k), others[k]);
        assert k in live && live[k] == others[k];
      } else {
        assert n in live && e == PersistedNonce(Hex.Encode(n), live[n]);
      }
    }
  }

  /** Every memory has a snapshot. */
  lemma FileFor(m: Memory, io: Io, now: nat) returns (f: File)
    ensures f.size == io.size && Snapshot(f.content, m, now)
  {
    hide LiveNonces, ListsNonces;
    var list := ListingExists(LiveNonces(m.nonces, now));
    f := File(PersistedRelayState(PERSISTED_STATE_VERSION, OpenTickets(m.tickets, now), list,
                                  LiveMailboxes(m.mailboxes, now)), io.size);
  }

  /** The file after an attempt to write `m`. */
  lemma DiskAfter(cfg: Config, io: Io, now: nat, m: Memory, before: Option<File>) returns (after: Option<File>)
    requires PersistResult(cfg, io).Success?
    ensures FileAfter(true, cfg, io, now, m, before, after)
  {
    if cfg.stateFile {
      var f := FileFor(m, io, now);
      after := Some(f);
    } else {
      after := before;
    }
  }

  lemma CreateSteps(cfg: Config, c: Primitives, s: System, ev: Event) returns (s': System)
    requires s.now <= ev.now && ev.op.CreateTicket?
    requires ev.op.ticketId !in s.ticketIds && Hex.Decode(ev.op.ticketId, 16).Some?
    requires Commits(CreatePlan(cfg, c, s, ev), cfg, ev.io)
    ensures Step(cfg, c, s, ev, s')
    ensures s' == s.(memory := CreatePlan(cfg, c, s, ev).next, disk := s'.disk, now := ev.now,
                     ticketIds := s.ticketIds + {ev.op.ticketId}, nextChannel := s.nextChannel + 1,
                     issued := s.issued[ev.op.ticketId := CreateIssue(cfg, c, s, ev)])
  {
    hide PlanCreateTicket, CreateIssue, Hex.Decode, FileAfter;
    var memory := CreatePlan(cfg, c, s, ev).next;
    var disk := DiskAfter(cfg, ev.io, ev.now, memory, s.disk);
    s' := s.(memory := memory, disk := disk, now := ev.now, ticketIds := s.ticketIds + {ev.op.ticketId},
             nextChannel := s.nextChannel + 1, issued := s.issued[ev.op.ticketId := CreateIssue(cfg, c, s, ev)]);
  }

  lemma ClaimSteps(cfg: Config, c: Primitives, s: System, ev: Event) returns (s': System)
    requires s.now <= ev.now && ev.op.Claim? && Commits(ClaimPlan(c, s, ev), cfg, ev.io)
    ensures Step(cfg, c, s, ev, s')
    ensures s' == s.(memory := ClaimPlan(c, s, ev).next, disk := s'.disk, now := ev.now,
                     grants := s.grants + [Grant(ClaimPlan(c, s, ev).reply, ev.op.role)])
  {
    hide PlanClaim, FileAfter;
    var memory := ClaimPlan(c, s, ev).next;
    var disk := DiskAfter(cfg, ev.io, ev.now, memory, s.disk);
    s' := s.(memory := memory, disk := disk, now := ev.now,
             grants := s.grants + [Grant(ClaimPlan(c, s, ev).reply, ev.op.role)]);
  }

  /** A registration step, whether its write succeeds or fails. */
  lemma RegisterSteps(cfg: Config, c: Primitives, s: System, ev: Event) returns (s': System)
    requires s.now <= ev.now && ev.op.Register? && RegisterPlan(cfg, c, s, ev).Commit?
    ensures Step(cfg, c, s, ev, s') && RegisterStep(cfg, c, s, ev, s') && s'.now == ev.now
    ensures s'.memory == MemoryAfter(RegisterPlan(cfg, c, s, ev), cfg, ev.io)
    ensures s'.homes
         == if PersistResult(cfg, ev.io).Success? then s.homes[ev.op.mailboxId := AccountName(ev.op.registration)]
            else s.homes
  {
    hide PlanRegister, FileAfter, AccountName;
    var plan := RegisterPlan(cfg, c, s, ev);
    var memory := MemoryAfter(plan, cfg, ev.io);
    var disk := s.disk;
    if PersistResult(cfg, ev.io).Success? {
      disk := DiskAfter(cfg, ev.io, ev.now, memory, s.disk);
    }
    FileKept(cfg, ev.io, ev.now, memory, s.disk);
    s' := s.(memory := memory, disk := disk, now := ev.now,
             homes := if Commits(plan, cfg, ev.io) then s.homes[ev.op.mailboxId := AccountName(ev.op.registration)]
                      else s.homes);
  }

  lemma FileKept(cfg: Config, io: Io, now: nat, m: Memory, before: Option<File>)
    ensures FileAfter(false, cfg, io, now, m, before, before)
  {
  }

  /** The tickets that a restart brings back, on new channels. */
  lemma {:induction false} OnNewChannels(open: map<Str, PersistedTicket>, from: nat) returns (tickets: Tickets, to: nat)
    ensures tickets.Keys == open.Keys && FreshTickets(tickets, from, to)
    ensures forall k <- open :: ToPersisted(tickets[k]) == open[k]
    decreases open.Keys
  {
    if open == map[] {
      tickets, to := map[], from;
    } else {
      var k :| k in open;
      var others := Remove(open, k);
      assert open.Keys == others.Keys + {k};
      var rest, next := OnNewChannels(others, from);
      tickets := rest[k := Ticket(open[k].hostKey, open[k].clientKey, open[k].expires, false, false, next)];
      to := next + 1;
    }
  }

  lemma NoneOnNewChannels(from: nat)
    ensures FreshTickets(map[], from, from)
  {
  }

  function RestartEvent(now: U64): Event {
    Event(Crash, now, Io(0, false))
  }

  lemma EmptyReload(cfg: Config, disk: Option<File>, now: U64, channel: nat)
    requires !cfg.stateFile
    ensures Reloaded(cfg, disk, now, channel, EMPTY, channel)
  {
    hide FreshTickets, Restore, LiveView;
    NoneOnNewChannels(channel);
    assert AllLive(EMPTY, now);
  }

  lemma RestartWithoutFile(cfg: Config, c: Primitives, s: System, now: U64) returns (s': System)
    requires !cfg.stateFile && s.now <= now
    ensures Step(cfg, c, s, RestartEvent(now), s')
    ensures s' == s.(memory := EMPTY, now := now, homes := map[], restarted := true)
  {
    hide Reloaded;
    EmptyReload(cfg, s.disk, now, s.nextChannel);
    s' := s.(memory := EMPTY, now := now, homes := map[], restarted := true);
  }

  /** A restart that finds no file, or a file within the caps, always succeeds, and brings back
      every open ticket without its marks. */
  lemma RestartWithFile(cfg: Config, c: Primitives, s: System, now: U64) returns (s': System)
    requires Reachable(cfg, c, s) && s.now <= now && cfg.stateFile
    requires s.disk.Some? ==> WithinCaps(s.disk.value.content)
    ensures Step(cfg, c, s, RestartEvent(now), s') && s'.now == now
    ensures s'.memory.tickets.Keys == OpenTickets(s.memory.tickets, now).Keys
    ensures forall id <- s'.memory.tickets ::
              && ToPersisted(s'.memory.tickets[id]) == ToPersisted(s.memory.tickets[id])
              && !s'.memory.tickets[id].hostClaimed && !s'.memory.tickets[id].clientClaimed
  {
    hide Reachable, Restore, FreshTickets, LiveView, AllLive;
    CrashRefinement(cfg, c, s, now);
    var open := OpenTickets(s.memory.tickets, now);
    var tickets, channel := OnNewChannels(open, s.nextChannel);
    var memory := Memory(tickets, LiveNonces(s.memory.nonces, now), RestoredBoxes(s.memory.mailboxes, now), map[]);
    FreshlyRestored(s.memory, now, tickets, s.nextChannel, channel);
    s' := s.(memory := memory, now := now, nextChannel := channel, homes := map[], restarted := true);
  }

  lemma FreshlyRestored(m: Memory, now: nat, tickets: Tickets, from: nat, to: nat)
    requires tickets.Keys == OpenTickets(m.tickets, now).Keys && FreshTickets(tickets, from, to)
    requires forall k <- tickets :: ToPersisted(tickets[k]) == OpenTickets(m.tickets, now)[k]
    ensures forall k <- tickets :: !tickets[k].hostClaimed && !tickets[k].clientClaimed
    ensures var m' := Memory(tickets, LiveNonces(m.nonces, now), RestoredBoxes(m.mailboxes, now), map[]);
      LiveView(m', now) == LiveView(m, now) && AllLive(m', now)
  {
    hide RestoredBoxes;
    BoxesAge(m.mailboxes, now, now);
    assert LiveNonces(LiveNonces(m.nonces, now), now) == LiveNonces(m.nonces, now);
    assert OpenTickets(tickets, now) == OpenTickets(m.tickets, now);
    assert LiveTickets(tickets, now) == tickets;
  }
}
