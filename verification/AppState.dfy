/** Listing an account's hosts in mailbox-id order. */
module AccountListing {
  import opened Prelude
  import opened Protocol
  import opened State
  import opened Transactions

  datatype AccountHost = AccountHost(mailboxId: Str, entry: AccountEntry)

  /** Byte-lexicographic order, as `str::cmp`. */
  predicate Less(a: Str, b: Str) {
    b != [] && (a == [] || a[0] < b[0] || (a[0] == b[0] && Less(a[1..], b[1..])))
  }

  lemma {:induction false} LessTransitive(a: Str, b: Str, c: Str)
    requires Less(a, b) && Less(b, c)
    ensures Less(a, c)
  {
    if a != [] && a[0] == b[0] == c[0] {
      LessTransitive(a[1..], b[1..], c[1..]);
    }
  }

  lemma {:induction false} LessTotal(a: Str, b: Str)
    ensures a == b || Less(a, b) || Less(b, a)
    ensures !(Less(a, b) && Less(b, a)) && !Less(a, a)
  {
    if a != [] && b != [] && a[0] == b[0] {
      LessTotal(a[1..], b[1..]);
      assert a == [a[0]] + a[1..] && b == [b[0]] + b[1..];
    }
    if a != [] {
      LessTotal(a[1..], a[1..]);
    }
  }

  /** Equal up to `k`, where `a` ends or is smaller. */
  ghost predicate Precedes(a: Str, b: Str, k: nat) {
    k <= |a| && k < |b| && a[..k] == b[..k] && (k == |a| || a[k] < b[k])
  }

  /** The first difference decides, and a prefix comes first. */
  lemma {:induction false} LessIsLexicographic(a: Str, b: Str)
    ensures Less(a, b) <==> exists k: nat :: Precedes(a, b, k)
  {
    if a != [] && b != [] && a[0] == b[0] {
      var x, y := a[1..], b[1..];
      assert a == [a[0]] + x && b == [b[0]] + y;
      LessIsLexicographic(x, y);
      forall k: nat ensures Precedes(a, b, k + 1) <==> Precedes(x, y, k) {
        if k <= |x| && k <= |y| {
          assert a[..k + 1] == [a[0]] + x[..k] && b[..k + 1] == [b[0]] + y[..k];
          assert a[..k + 1][1..] == x[..k] && b[..k + 1][1..] == y[..k];
        }
      }
      assert !Precedes(a, b, 0);
      forall k: nat | Precedes(a, b, k) ensures exists j: nat :: Precedes(x, y, j) {
        assert Precedes(x, y, k - 1);
      }
    } else if b != [] {
      assert Precedes(a, b, 0) <==> Less(a, b);
      forall k: nat | k > 0 && a != [] ensures !Precedes(a, b, k) {
        if k <= |a| && k <= |b| {
          assert a[..k][0] == a[0] && b[..k][0] == b[0];
        }
      }
    }
  }

  ghost predicate StrictlySorted(hosts: seq<AccountHost>) {
    forall i, j :: 0 <= i < j < |hosts| ==> Less(hosts[i].mailboxId, hosts[j].mailboxId)
  }

  /** `hosts` lists exactly the entries of `registry`, in strictly increasing mailbox id. */
  ghost predicate Lists(hosts: seq<AccountHost>, registry: map<Str, AccountEntry>) {
    && StrictlySorted(hosts)
    && |hosts| == |registry|
    && (forall h <- hosts :: h.mailboxId in registry && registry[h.mailboxId] == h.entry)
    && (forall id <- registry :: AccountHost(id, registry[id]) in hosts)
  }

  /** The reply to a listing. */
  ghost predicate ListsHosts(plan: Plan<map<Str, AccountEntry>>, r: Result<seq<AccountHost>, RelayError>) {
    match r
    case Failure(error) => plan.Refuse? && plan.error == error
    case Success(hosts) => plan.Answer? && Lists(hosts, plan.reply)
  }

  /** `sort_by` on mailbox ids. */
  function Insert(h: AccountHost, hosts: seq<AccountHost>): seq<AccountHost> {
    if hosts == [] || Less(h.mailboxId, hosts[0].mailboxId) then [h] + hosts
    else [hosts[0]] + Insert(h, hosts[1..])
  }

  lemma {:induction false} InsertKeepsOrder(h: AccountHost, hosts: seq<AccountHost>)
    requires StrictlySorted(hosts)
    requires forall x <- hosts :: x.mailboxId != h.mailboxId
    ensures StrictlySorted(Insert(h, hosts))
    ensures |Insert(h, hosts)| == |hosts| + 1
    ensures forall x :: x in Insert(h, hosts) <==> x == h || x in hosts
  {
    hide Less;
    if hosts != [] {
      var first, others := hosts[0], hosts[1..];
      assert hosts == [first] + others;
      LessTotal(h.mailboxId, first.mailboxId);
      if Less(h.mailboxId, first.mailboxId) {
        forall x <- hosts ensures Less(h.mailboxId, x.mailboxId) {
          if x != first {
            LessTransitive(h.mailboxId, first.mailboxId, x.mailboxId);
          }
        }
        Prepend(h, hosts);
      } else {
        InsertKeepsOrder(h, others);
        Prepend(first, Insert(h, others));
      }
    }
  }

  lemma Prepend(first: AccountHost, rest: seq<AccountHost>)
    requires StrictlySorted(rest) && forall x <- rest :: Less(first.mailboxId, x.mailboxId)
    ensures StrictlySorted([first] + rest)
  {
    hide Less;
    forall j | 0 <= j < |rest| ensures rest[j] in rest {}
  }

  function Sort(hosts: seq<AccountHost>): seq<AccountHost> {
    if hosts == [] then [] else Insert(hosts[0], Sort(hosts[1..]))
  }

  lemma {:induction false} SortSorts(hosts: seq<AccountHost>)
    requires forall i, j :: 0 <= i < j < |hosts| ==> hosts[i].mailboxId != hosts[j].mailboxId
    ensures StrictlySorted(Sort(hosts))
    ensures |Sort(hosts)| == |hosts|
    ensures forall x :: x in Sort(hosts) <==> x in hosts
  {
    if hosts != [] {
      SortSorts(hosts[1..]);
      assert hosts == [hosts[0]] + hosts[1..];
      InsertKeepsOrder(hosts[0], Sort(hosts[1..]));
    }
  }

  /** The listing of a registry is unique. */
  lemma {:induction false} ListingUnique(a: seq<AccountHost>, b: seq<AccountHost>)
    requires StrictlySorted(a) && StrictlySorted(b) && |a| == |b|
    requires forall x :: x in a <==> x in b
    ensures a == b
  {
    if a != [] {
      assert a[0] in a && b[0] in b;
      var i :| 0 <= i < |b| && b[i] == a[0];
      var j :| 0 <= j < |a| && a[j] == b[0];
      LessTotal(a[0].mailboxId, b[0].mailboxId);
      assert i == 0 && j == 0;
      LessTotal(a[0].mailboxId, a[0].mailboxId);
      assert a == [a[0]] + a[1..] && b == [b[0]] + b[1..];
      assert a[0] !in a[1..] && b[0] !in b[1..];
      forall x ensures x in a[1..] <==> x in b[1..] {
        assert x in a <==> x == a[0] || x in a[1..];
        assert x in b <==> x == b[0] || x in b[1..];
      }
      ListingUnique(a[1..], b[1..]);
    }
  }
}

/** The server's state and its operations, in the order the program performs them: drop expired
    entries, check, change the tables in place, persist, and undo by hand if that fails. */
module Server {
  import opened Prelude
  import opened Crypto
  import opened Protocol
  import opened Transcripts
  import opened Rules
  import opened Validation
  import opened State
  import opened Persistence
  import opened Transactions
  import opened AccountListing
  import Hex

  class AppState {
    const config: Config
    const c: Primitives
    var tickets: Tickets
    var usedRequestNonces: Nonces
    var hostMailboxes: Mailboxes
    var accountHosts: Accounts
    var nextChannel: nat
    var disk: Option<File>

    ghost function Mem(): Memory
      reads this
    {
      Memory(tickets, usedRequestNonces, hostMailboxes, accountHosts)
    }

    constructor (config: Config, c: Primitives, disk: Option<File>, nextChannel: nat)
      ensures this.config == config && this.c == c && this.disk == disk && this.nextChannel == nextChannel
      ensures Mem() == EMPTY
    {
      this.config := config;
      this.c := c;
      this.disk := disk;
      this.nextChannel := nextChannel;
      tickets, usedRequestNonces, hostMailboxes, accountHosts := map[], map[], map[], map[];
    }

    // ---- Persistence ----

    method PersistLocked(now: U64, io: Io) returns (r: Result<(), RelayError>)
      modifies this`disk
      ensures r == PersistResult(config, io)
      ensures FileAfter(r.Success?, config, io, now, Mem(), old(disk), disk)
    {
      if !config.stateFile {
        return Success(());
      }
      hide OpenTickets, LiveMailboxes, LiveNonces;
      var list := ListNonces(LiveNonces(usedRequestNonces, now));
      var persisted := PersistedRelayState(PERSISTED_STATE_VERSION, OpenTickets(tickets, now), list,
                                           LiveMailboxes(hostMailboxes, now));
      if io.size > MAX_PERSISTED_STATE_BYTES {
        return Failure(CapacityExceeded);
      }
      if !io.writes {
        return Failure(Internal);
      }
      disk := Some(File(persisted, io.size));
      return Success(());
    }

    /** The nonce list of the file, in whatever order the table is walked. */
    static method ListNonces(live: Nonces) returns (list: seq<PersistedNonce>)
      ensures ListsNonces(list, live)
    {
      list := [];
      var left := live.Keys;
      while left != {}
        invariant left <= live.Keys && |list| + |left| == |live|
        invariant forall e <- list :: EncodesOneOf(e, live)
        invariant forall n <- live :: n in left || PersistedNonce(Hex.Encode(n), live[n]) in list
        decreases |left|
      {
        var nonce :| nonce in left;
        list := list + [PersistedNonce(Hex.Encode(nonce), live[nonce])];
        left := left - {nonce};
      }
    }

    /** Start-up: rebuild the tables from the file, with fresh channels and no claim marks. */
    static method Load(config: Config, c: Primitives, disk: Option<File>, nextChannel: nat, now: U64)
      returns (r: Result<AppState, LoadError>)
      ensures r.Success? ==>
        && fresh(r.value)
        && r.value.config == config && r.value.c == c && r.value.disk == disk
        && Reloaded(config, disk, now, nextChannel, r.value.Mem(), r.value.nextChannel)
      ensures r.Success? <==> !config.stateFile || Restore(disk, now).Success?
      ensures r.Failure? ==> r.error == Restore(disk, now).error
    {
      var state := new AppState(config, c, disk, nextChannel);
      if !config.stateFile || disk.None? {
        assert LiveView(EMPTY, now) == View(map[], map[], map[]);
        return Success(state);
      }
      var File(persisted, size) := disk.value;
      if size > MAX_PERSISTED_STATE_BYTES {
        return Failure(TooLarge);
      }
      if persisted.version != PERSISTED_STATE_VERSION {
        return Failure(UnsupportedVersion);
      }
      if |persisted.mailboxes| > MAX_PERSISTED_MAILBOXES || |persisted.tickets| > MAX_PERSISTED_TICKETS
         || |persisted.nonces| > MAX_PERSISTED_NONCES
      {
        return Failure(TooManyEntries);
      }
      var nonces := LoadNonces(persisted.nonces, now);
      if nonces.None? {
        return Failure(InvalidNonce);
      }
      var boxes := LoadMailboxes(persisted.mailboxes, now);
      if boxes.None? {
        return Failure(InvalidMailbox);
      }
      state.usedRequestNonces := nonces.value;
      state.hostMailboxes := boxes.value;
      var restored, channel := LoadTickets(persisted.tickets, now, nextChannel);
      if restored.None? {
        return Failure(InvalidTicket);
      }
      state.tickets := restored.value;
      state.nextChannel := channel;
      RestoredIsLive(persisted, now, state.Mem());
      return Success(state);
    }

    static method LoadNonces(list: seq<PersistedNonce>, now: U64) returns (r: Option<Nonces>)
      ensures r.Some? <==> forall e <- list :: NonceOk(e)
      ensures r.Some? ==> r.value == RestoredNonces(list, now)
    {
      var nonces: Nonces := map[];
      for i := 0 to |list|
        invariant forall e <- list[..i] :: NonceOk(e)
        invariant nonces == RestoredNonces(list[..i], now)
      {
        var nonce := Hex.Decode(list[i].nonce, 32);
        if nonce.None? {
          assert !NonceOk(list[i]);
          return None;
        }
        assert list[..i + 1] == list[..i] + [list[i]];
        if list[i].expires > now {
          nonces := nonces[nonce.value := list[i].expires];
        }
      }
      assert list[..|list|] == list;
      return Some(nonces);
    }

    static method LoadMailboxes(persisted: Mailboxes, now: U64) returns (r: Option<Mailboxes>)
      ensures r.Some? <==> forall k <- persisted :: MailboxOk(k, persisted[k])
      ensures r.Some? ==> r.value == RestoredBoxes(persisted, now)
    {
      hide IsFingerprint, RestorableSessions, Hex.Decode;
      var boxes: Mailboxes := map[];
      var left := persisted.Keys;
      while left != {}
        invariant left <= persisted.Keys
        invariant forall k <- persisted :: k in left || MailboxOk(k, persisted[k])
        invariant boxes.Keys == set k | k in persisted && k !in left && persisted[k].expires > now
        invariant forall k <- boxes :: boxes[k] == Restored(persisted[k], now)
        decreases |left|
      {
        var id :| id in left;
        var mailbox := persisted[id];
        if Hex.Decode(id, 32).None? || |mailbox.hostKey| != 32 || !IsFingerprint(mailbox.hostFingerprint)
           || |mailbox.sessions| > MAX_PENDING_SESSIONS_PER_HOST
        {
          assert !MailboxOk(id, persisted[id]);
          return None;
        }
        mailbox := mailbox.(sessions := RestorableSessions(mailbox.sessions, now));
        if mailbox.expires > now {
          boxes := boxes[id := mailbox];
        }
        left := left - {id};
      }
      return Some(boxes);
    }

    static method LoadTickets(persisted: map<Str, PersistedTicket>, now: U64, nextChannel: nat)
      returns (r: Option<Tickets>, channel: nat)
      ensures r.Some? <==> forall k <- persisted :: persisted[k].expires > now ==> TicketOk(k, persisted[k])
      ensures r.Some? ==>
        && r.value.Keys == (set k | k in persisted && persisted[k].expires > now)
        && (forall k <- r.value :: ToPersisted(r.value[k]) == persisted[k])
        && FreshTickets(r.value, nextChannel, channel)
    {
      var tickets: Tickets := map[];
      channel := nextChannel;
      var left := persisted.Keys;
      while left != {}
        invariant left <= persisted.Keys
        invariant forall k <- persisted :: k in left || (persisted[k].expires > now ==> TicketOk(k, persisted[k]))
        invariant tickets.Keys == set k | k in persisted && k !in left && persisted[k].expires > now
        invariant forall k <- tickets :: ToPersisted(tickets[k]) == persisted[k]
        invariant FreshTickets(tickets, nextChannel, channel)
        decreases |left|
      {
        var id :| id in left;
        var ticket := persisted[id];
        left := left - {id};
        if ticket.expires > now {
          if Hex.Decode(id, 16).None? || |ticket.hostKey| != 32 || |ticket.clientKey| < 64 || |ticket.clientKey| > 256 {
            assert !TicketOk(id, persisted[id]);
            return None, channel;
          }
          tickets := tickets[id := Ticket(ticket.hostKey, ticket.clientKey, ticket.expires, false, false, channel)];
          channel := channel + 1;
        }
      }
      return Some(tickets), channel;
    }

    // ---- Hosts ----

    /** `register_host` up to its write; returns the mailbox the rollback needs. */
    method StageRegistration(mailboxId: Str, token: Str, request: HostRegistrationRequest, now: U64)
      returns (r: Result<Option<Mailbox>, RelayError>)
      modifies this`hostMailboxes, this`accountHosts
      ensures var plan := PlanRegister(config, c, old(Mem()), now, mailboxId, token, request);
        var live := LiveMailboxes(old(hostMailboxes), now);
        match r
        case Failure(error) => plan == Refuse(error, Mem())
        case Success(previous) =>
          && plan == Commit((), Mem(), Mem().(mailboxes := live))
          && previous == (if mailboxId in live then Some(live[mailboxId]) else None)
          && Remove(hostMailboxes, mailboxId) == Remove(live, mailboxId)
    {
      hide CheckRegistration;
      var checked := CheckRegistration(config, c, now, mailboxId, token, request);
      if checked.Failure? {
        return Failure(checked.error);
      }
      var (validated, account) := checked.value;
      hostMailboxes := LiveMailboxes(hostMailboxes, now);
      var previous := if mailboxId in hostMailboxes then Some(hostMailboxes[mailboxId]) else None;
      if mailboxId in hostMailboxes {
        var existing := hostMailboxes[mailboxId];
        if existing.tokenDigest != c.sha256(token) || existing.hostKey != validated.hostKey {
          return Failure(Unauthorized);
        }
        hostMailboxes := hostMailboxes[mailboxId := existing.(expires := now + validated.validFor)];
      } else {
        hostMailboxes := hostMailboxes[mailboxId :=
          Mailbox(c.sha256(token), validated.hostKey, request.hostFingerprint, now + validated.validFor, map[])];
      }
      UpsertAccount(account, mailboxId, request.hostFingerprint, now / 1000);
      return Success(previous);
    }

    method RegisterHost(mailboxId: Str, token: Str, request: HostRegistrationRequest, now: U64, io: Io)
      returns (r: Result<(), RelayError>)
      modifies this
      ensures nextChannel == old(nextChannel)
      ensures r == ReplyOf(PlanRegister(config, c, old(Mem()), now, mailboxId, token, request), config, io)
      ensures Transacts(PlanRegister(config, c, old(Mem()), now, mailboxId, token, request), config, io, now,
                        old(disk), Mem(), disk)
    {
      hide PlanRegister;
      ghost var live := LiveMailboxes(hostMailboxes, now);
      var staged := StageRegistration(mailboxId, token, request, now);
      if staged.Failure? {
        return Failure(staged.error);
      }
      var persisted := PersistLocked(now, io);
      if persisted.Failure? {
        match staged.value {
          case Some(mailbox) => hostMailboxes := hostMailboxes[mailboxId := mailbox];
          case None => hostMailboxes := Remove(hostMailboxes, mailboxId);
        }
        SameButOne(hostMailboxes, live, mailboxId);
        return Failure(persisted.error);
      }
      return Success(());
    }

    method UpsertAccount(account: Str, mailboxId: Str, fingerprint: Str, seconds: nat)
      modifies this`accountHosts
      ensures accountHosts == Upsert(old(accountHosts), account, mailboxId, fingerprint, seconds)
    {
      if account !in accountHosts {
        accountHosts := accountHosts[account := map[]];
      }
      var hosts := accountHosts[account];
      if mailboxId !in hosts {
        hosts := hosts[mailboxId := AccountEntry(fingerprint, seconds, seconds)];
      }
      var entry := hosts[mailboxId].(lastSeen := seconds);
      ghost var before := if account in old(accountHosts) then old(accountHosts)[account] else map[];
      assert hosts[mailboxId := entry] == before[mailboxId := entry];
      accountHosts := accountHosts[account := hosts[mailboxId := entry]];
      assert accountHosts == old(accountHosts)[account := hosts[mailboxId := entry]];
    }

    method ListAccountHosts(account: Str, now: U64) returns (r: Result<seq<AccountHost>, RelayError>)
      modifies this
      ensures disk == old(disk) && nextChannel == old(nextChannel)
      ensures Mem() == MemoryAfter(PlanList(old(Mem()), now, account), config, Io(0, false))
      ensures ListsHosts(PlanList(old(Mem()), now, account), r)
    {
      var name := NormalizeAccount(Some(account));
      if name.Failure? {
        return Failure(name.error);
      }
      hostMailboxes := LiveMailboxes(hostMailboxes, now);
      ghost var live := LiveHosts(old(Mem()), name.value, now);
      var expired: set<Str> := {};
      if name.value in accountHosts {
        expired := set id | id in accountHosts[name.value] && id !in hostMailboxes;
      }
      var hosts: seq<AccountHost> := [];
      if name.value in accountHosts {
        var registry := accountHosts[name.value] - expired;
        accountHosts := accountHosts[name.value := registry];
        assert registry == live;
        hosts := Collect(registry);
      }
      SortSorts(hosts);
      hosts := Sort(hosts);
      return Success(hosts);
    }

    static method Collect(registry: map<Str, AccountEntry>) returns (hosts: seq<AccountHost>)
      ensures |hosts| == |registry|
      ensures forall i, j :: 0 <= i < j < |hosts| ==> hosts[i].mailboxId != hosts[j].mailboxId
      ensures forall h <- hosts :: h.mailboxId in registry && registry[h.mailboxId] == h.entry
      ensures forall id <- registry :: AccountHost(id, registry[id]) in hosts
    {
      hosts := [];
      var left := registry.Keys;
      while left != {}
        invariant left <= registry.Keys && |hosts| + |left| == |registry|
        invariant forall i, j :: 0 <= i < j < |hosts| ==> hosts[i].mailboxId != hosts[j].mailboxId
        invariant forall h <- hosts ::
                    h.mailboxId in registry && registry[h.mailboxId] == h.entry && h.mailboxId !in left
        invariant forall id <- registry :: id in left || AccountHost(id, registry[id]) in hosts
        decreases |left|
      {
        var id :| id in left;
        hosts := hosts + [AccountHost(id, registry[id])];
        left := left - {id};
      }
    }

    // ---- Sessions ----

    /** The lookup shared by the mailbox operations, after expired mailboxes are dropped. */
    method OpenMailbox(mailboxId: Str, token: Str, now: U64) returns (r: Result<Mailbox, RelayError>)
      modifies this`hostMailboxes
      ensures hostMailboxes == LiveMailboxes(old(hostMailboxes), now)
      ensures r == Open(c, hostMailboxes, mailboxId, token)
    {
      hostMailboxes := LiveMailboxes(hostMailboxes, now);
      if mailboxId !in hostMailboxes {
        return Failure(NotFound);
      }
      if hostMailboxes[mailboxId].tokenDigest != c.sha256(token) {
        return Failure(Unauthorized);
      }
      return Success(hostMailboxes[mailboxId]);
    }

    method StoreSessions(mailboxId: Str, sessions: Sessions)
      requires mailboxId in hostMailboxes
      modifies this`hostMailboxes
      ensures hostMailboxes == old(hostMailboxes)[mailboxId := old(hostMailboxes)[mailboxId].(sessions := sessions)]
    {
      hostMailboxes := hostMailboxes[mailboxId := hostMailboxes[mailboxId].(sessions := sessions)];
    }

    /** `submit_session_request` up to its write; returns the rollback snapshot. */
    method StageSession(mailboxId: Str, token: Str, request: ClientSessionRequest, freshId: Str, now: U64)
      returns (r: Result<Mailbox, RelayError>)
      modifies this`hostMailboxes
      ensures var plan := PlanSubmit(config, c, old(Mem()), now, mailboxId, token, request, freshId);
        var live := LiveMailboxes(old(hostMailboxes), now);
        match r
        case Failure(error) => plan == Refuse(error, Mem())
        case Success(previous) =>
          && plan == Commit(freshId, Mem(), Mem().(mailboxes := live))
          && mailboxId in live && previous == live[mailboxId]
          && Remove(hostMailboxes, mailboxId) == Remove(live, mailboxId)
    {
      hide ValidateClientSessionRequest, Gate, HoldsNonce, LiveMailboxes, UnexpiredSessions, OtherClients;
      var gate := Gate(config, c, mailboxId, token);
      if gate.Failure? {
        return Failure(gate.error);
      }
      var found := OpenMailbox(mailboxId, token, now);
      if found.Failure? {
        return Failure(found.error);
      }
      ghost var live := hostMailboxes;
      var previousMailbox := found.value;
      var valid := ValidateClientSessionRequest(c, request, previousMailbox.hostKey, previousMailbox.hostFingerprint,
                                                now);
      if valid.Failure? {
        return Failure(valid.error);
      }
      StoreSessions(mailboxId, UnexpiredSessions(hostMailboxes[mailboxId].sessions, now));
      if HoldsNonce(hostMailboxes[mailboxId].sessions, request.requestNonce) {
        return Failure(AlreadyClaimed);
      }
      StoreSessions(mailboxId, OtherClients(hostMailboxes[mailboxId].sessions, request.clientFingerprint));
      assert hostMailboxes == live[mailboxId := hostMailboxes[mailboxId]];
      if |hostMailboxes[mailboxId].sessions| >= MAX_PENDING_SESSIONS_PER_HOST {
        return Failure(CapacityExceeded);
      }
      StoreSessions(mailboxId, hostMailboxes[mailboxId].sessions[freshId := StoredSession(request, None)]);
      assert hostMailboxes == live[mailboxId := hostMailboxes[mailboxId]];
      return Success(previousMailbox);
    }

    method SubmitSessionRequest(mailboxId: Str, token: Str, request: ClientSessionRequest, freshId: Str, now: U64,
                                io: Io)
      returns (r: Result<Str, RelayError>)
      modifies this
      ensures nextChannel == old(nextChannel)
      ensures r == ReplyOf(PlanSubmit(config, c, old(Mem()), now, mailboxId, token, request, freshId), config, io)
      ensures Transacts(PlanSubmit(config, c, old(Mem()), now, mailboxId, token, request, freshId), config, io, now,
                        old(disk), Mem(), disk)
    {
      hide PlanSubmit;
      ghost var live := LiveMailboxes(hostMailboxes, now);
      var staged := StageSession(mailboxId, token, request, freshId, now);
      if staged.Failure? {
        return Failure(staged.error);
      }
      var persisted := PersistLocked(now, io);
      if persisted.Failure? {
        hostMailboxes := hostMailboxes[mailboxId := staged.value];
        SameButOne(hostMailboxes, live, mailboxId);
        return Failure(persisted.error);
      }
      return Success(freshId);
    }

    method NextSessionRequest(mailboxId: Str, token: Str, now: U64)
      returns (r: Result<Option<PendingSession>, RelayError>)
      modifies this
      ensures disk == old(disk) && nextChannel == old(nextChannel)
      ensures Mem() == MemoryAfter(PlanNext(config, c, old(Mem()), now, mailboxId, token), config, Io(0, false))
      ensures Polls(PlanNext(config, c, old(Mem()), now, mailboxId, token), old(hostMailboxes), mailboxId, r)
    {
      var gate := Gate(config, c, mailboxId, token);
      if gate.Failure? {
        return Failure(gate.error);
      }
      var found := OpenMailbox(mailboxId, token, now);
      if found.Failure? {
        return Failure(found.error);
      }
      StoreSessions(mailboxId, UnexpiredSessions(hostMailboxes[mailboxId].sessions, now));
      var pending := PendingSessions(hostMailboxes[mailboxId].sessions);
      if pending == map[] {
        return Success(None);
      }
      assert pending.Keys != {};
      var id :| id in pending;
      return Success(Some(Offer(id, hostMailboxes[mailboxId], pending[id].request)));
    }

    method SessionStatus(mailboxId: Str, token: Str, requestId: Str, now: U64)
      returns (r: Result<Option<SessionReady>, RelayError>)
      modifies this
      ensures disk == old(disk) && nextChannel == old(nextChannel)
      ensures r == ReplyOf(PlanStatus(config, c, old(Mem()), now, mailboxId, token, requestId), config, Io(0, false))
      ensures Mem() == MemoryAfter(PlanStatus(config, c, old(Mem()), now, mailboxId, token, requestId), config,
                                   Io(0, false))
    {
      var gate := Gate(config, c, mailboxId, token);
      if gate.Failure? {
        return Failure(gate.error);
      }
      var found := OpenMailbox(mailboxId, token, now);
      if found.Failure? {
        return Failure(found.error);
      }
      if requestId !in found.value.sessions {
        return Failure(NotFound);
      }
      var stored := found.value.sessions[requestId];
      if stored.request.expires <= now {
        return Failure(Expired);
      }
      return Success(stored.ready);
    }

    /** The table work of `ice_configuration`. */
    method IceConfiguration(mailboxId: Str, token: Str, now: U64) returns (r: Result<(), RelayError>)
      modifies this
      ensures disk == old(disk) && nextChannel == old(nextChannel)
      ensures r == ReplyOf(PlanIce(config, c, old(Mem()), now, mailboxId, token), config, Io(0, false))
      ensures Mem() == MemoryAfter(PlanIce(config, c, old(Mem()), now, mailboxId, token), config, Io(0, false))
    {
      var gate := Gate(config, c, mailboxId, token);
      if gate.Failure? {
        return Failure(gate.error);
      }
      var found := OpenMailbox(mailboxId, token, now);
      if found.Failure? {
        return Failure(found.error);
      }
      return Success(());
    }

    /** `use_request_nonce_locked`. */
    method UseRequestNonce(nonce: Bytes32, validFor: nat, now: U64) returns (ok: bool)
      modifies this`usedRequestNonces
      ensures ok <==> nonce !in LiveNonces(old(usedRequestNonces), now)
      ensures usedRequestNonces == if ok then LiveNonces(old(usedRequestNonces), now)[nonce := now + validFor]
                                   else LiveNonces(old(usedRequestNonces), now)
    {
      usedRequestNonces := LiveNonces(usedRequestNonces, now);
      if nonce in usedRequestNonces {
        return false;
      }
      usedRequestNonces := usedRequestNonces[nonce := now + validFor];
      return true;
    }

    /** `issue_ticket_locked`. */
    method IssueTicketLocked(v: ValidatedTicketRequest, ticketId: Str, now: U64)
      returns (r: Result<TicketResponse, RelayError>)
      modifies this`usedRequestNonces, this`tickets, this`nextChannel
      ensures r.Success? <==> v.nonce !in LiveNonces(old(usedRequestNonces), now)
      ensures r.Failure? ==>
        && r.error == AlreadyClaimed
        && Mem() == old(Mem()).(nonces := LiveNonces(old(usedRequestNonces), now))
      ensures r.Success? ==>
        && r.value == IssuedReply(config, now, v, ticketId)
        && Mem() == Issued(config, old(Mem()).(nonces := LiveNonces(old(usedRequestNonces), now)), now, v, ticketId,
                           old(nextChannel))
      ensures nextChannel == old(nextChannel) + if r.Success? then 1 else 0
    {
      var first := UseRequestNonce(v.nonce, v.validFor, now);
      if !first {
        return Failure(AlreadyClaimed);
      }
      var channel := nextChannel;
      nextChannel := nextChannel + 1;
      var ttl := Min(config.ticketTtl, v.validFor);
      tickets := tickets[ticketId := Ticket(v.hostKey, v.clientKey, now + ttl, false, false, channel)];
      return Success(TicketResponse(ticketId, config.publicRelayUrl, now + ttl));
    }

    /** Undoes one issue: a fresh ticket and a nonce that was not in the table. */
    method UnissueTicket(ticketId: Str, nonce: Bytes32)
      modifies this`usedRequestNonces, this`tickets
      ensures tickets == Remove(old(tickets), ticketId)
      ensures usedRequestNonces == Remove(old(usedRequestNonces), nonce)
    {
      tickets := Remove(tickets, ticketId);
      usedRequestNonces := Remove(usedRequestNonces, nonce);
    }

    /** `complete_session_request` up to its write. `Success(None)` is the early answer of a
        session that is ready already; otherwise the ticket request is returned. */
    method StageCompletion(mailboxId: Str, token: Str, requestId: Str, completion: HostSessionCompletion,
                           ticketId: Str, now: U64)
      returns (r: Result<SessionReady, RelayError>, issued: Option<ValidatedTicketRequest>)
      modifies this`hostMailboxes, this`usedRequestNonces, this`tickets, this`nextChannel
      ensures var plan := PlanComplete(config, c, old(Mem()), now, mailboxId, token, requestId, completion, ticketId,
                                       old(nextChannel));
        var boxes, nonces := LiveMailboxes(old(hostMailboxes), now), LiveNonces(old(usedRequestNonces), now);
        && nextChannel == old(nextChannel) + (if plan.Commit? then 1 else 0)
        && match (r, issued)
           case (Failure(error), _) => plan == Refuse(error, Mem())
           case (Success(ready), None) => plan == Answer(ready, Mem())
           case (Success(ready), Some(v)) =>
             && plan == Commit(ready, Mem(), old(Mem()).(mailboxes := boxes, nonces := nonces))
             && v.nonce !in nonces
             && Remove(usedRequestNonces, v.nonce) == Remove(nonces, v.nonce)
             && Remove(tickets, ticketId) == Remove(old(tickets), ticketId)
             && mailboxId in boxes && requestId in boxes[mailboxId].sessions
             && boxes[mailboxId].sessions[requestId].ready == None
             && hostMailboxes == boxes[mailboxId := Completed(boxes[mailboxId], requestId, Some(ready))]
    {
      hide CheckCompletion, Gate;
      issued := None;
      var gate := Gate(config, c, mailboxId, token);
      if gate.Failure? {
        return Failure(gate.error), None;
      }
      if completion.protocol != SESSION_COMPLETION_PROTOCOL {
        return Failure(InvalidTicketRequest), None;
      }
      var found := OpenMailbox(mailboxId, token, now);
      if found.Failure? {
        return Failure(found.error), None;
      }
      var mailbox := found.value;
      if requestId !in mailbox.sessions {
        return Failure(NotFound), None;
      }
      var request := mailbox.sessions[requestId].request;
      if mailbox.sessions[requestId].ready.Some? {
        return Success(mailbox.sessions[requestId].ready.value), None;
      }
      var checked := CheckCompletion(c, completion, request, mailbox.hostKey, mailbox.hostFingerprint, now);
      if checked.Failure? {
        return Failure(checked.error), None;
      }
      var (handshake, validated) := checked.value;
      var ticket := IssueTicketLocked(validated, ticketId, now);
      if ticket.Failure? {
        return Failure(ticket.error), None;
      }
      var ready := SessionReady(ticket.value, handshake);
      SetReady(mailboxId, requestId, Some(ready));
      return Success(ready), Some(validated);
    }

    method SetReady(mailboxId: Str, requestId: Str, ready: Option<SessionReady>)
      requires mailboxId in hostMailboxes && requestId in hostMailboxes[mailboxId].sessions
      modifies this`hostMailboxes
      ensures hostMailboxes
           == old(hostMailboxes)[mailboxId := Completed(old(hostMailboxes)[mailboxId], requestId, ready)]
    {
      var sessions := hostMailboxes[mailboxId].sessions;
      StoreSessions(mailboxId, sessions[requestId := sessions[requestId].(ready := ready)]);
    }

    method CompleteSessionRequest(mailboxId: Str, token: Str, requestId: Str, completion: HostSessionCompletion,
                                  ticketId: Str, now: U64, io: Io)
      returns (r: Result<SessionReady, RelayError>)
      requires ticketId !in tickets
      modifies this
      ensures var plan := PlanComplete(config, c, old(Mem()), now, mailboxId, token, requestId, completion, ticketId,
                                       old(nextChannel));
        && r == ReplyOf(plan, config, io)
        && Transacts(plan, config, io, now, old(disk), Mem(), disk)
        && nextChannel == old(nextChannel) + (if plan.Commit? then 1 else 0)
    {
      hide PlanComplete, Snapshot, LiveMailboxes, LiveNonces, Completed;
      ghost var before := Mem().(mailboxes := LiveMailboxes(hostMailboxes, now),
                                 nonces := LiveNonces(usedRequestNonces, now));
      var staged, issued := StageCompletion(mailboxId, token, requestId, completion, ticketId, now);
      if staged.Failure? || issued.None? {
        return staged;
      }
      var persisted := PersistLocked(now, io);
      if persisted.Failure? {
        UndoCompletion(mailboxId, requestId, ticketId, issued.value.nonce, staged.value, before);
        return Failure(persisted.error);
      }
      return staged;
    }

    /** The rollback of a completion, one table at a time. */
    method UndoCompletion(mailboxId: Str, requestId: Str, ticketId: Str, nonce: Bytes32, ghost ready: SessionReady,
                          ghost before: Memory)
      requires mailboxId in before.mailboxes && requestId in before.mailboxes[mailboxId].sessions
      requires before.mailboxes[mailboxId].sessions[requestId].ready.None?
      requires hostMailboxes
            == before.mailboxes[mailboxId := Completed(before.mailboxes[mailboxId], requestId, Some(ready))]
      requires nonce !in before.nonces && Remove(usedRequestNonces, nonce) == Remove(before.nonces, nonce)
      requires ticketId !in before.tickets && Remove(tickets, ticketId) == Remove(before.tickets, ticketId)
      requires accountHosts == before.accounts
      modifies this`hostMailboxes, this`usedRequestNonces, this`tickets
      ensures Mem() == before
    {
      if mailboxId in hostMailboxes && requestId in hostMailboxes[mailboxId].sessions {
        SetReady(mailboxId, requestId, None);
      }
      UnissueTicket(ticketId, nonce);
      CompletedUndone(before.mailboxes[mailboxId], requestId, Some(ready));
      SameButOne(hostMailboxes, before.mailboxes, mailboxId);
      AbsentRemoved(usedRequestNonces, before.nonces, nonce);
      AbsentRemoved(tickets, before.tickets, ticketId);
    }

    // ---- Tickets ----

    /** `create_ticket` and `issue_ticket`; `admin` is the outcome of the admin authorization. */
    method CreateTicket(admin: bool, request: CreateTicketRequest, ticketId: Str, now: U64, io: Io)
      returns (r: Result<TicketResponse, RelayError>)
      requires ticketId !in tickets
      modifies this
      ensures var plan := PlanCreateTicket(config, c, old(Mem()), now, admin, request, ticketId, old(nextChannel));
        && r == ReplyOf(plan, config, io)
        && Transacts(plan, config, io, now, old(disk), Mem(), disk)
        && nextChannel == old(nextChannel) + if plan.Commit? then 1 else 0
    {
      hide ValidateTicketRequest;
      if !config.enabled {
        return Failure(Disabled);
      }
      if !admin {
        return Failure(Unauthorized);
      }
      var validated := ValidateTicketRequest(c, request, now);
      if validated.Failure? {
        return Failure(validated.error);
      }
      var ticket := IssueTicketLocked(validated.value, ticketId, now);
      if ticket.Failure? {
        return Failure(ticket.error);
      }
      var persisted := PersistLocked(now, io);
      if persisted.Failure? {
        UnissueTicket(ticketId, validated.value.nonce);
        AbsentRemoved(usedRequestNonces, LiveNonces(old(usedRequestNonces), now), validated.value.nonce);
        AbsentRemoved(tickets, old(tickets), ticketId);
        return Failure(persisted.error);
      }
      return Success(ticket.value);
    }

    /** `claim` up to its write: the marked ticket. */
    method StageClaim(ticketId: Str, role: EndpointRole, proof: Str, now: U64)
      returns (r: Result<Ticket, RelayError>)
      modifies this`tickets
      ensures var plan := PlanClaim(c, old(Mem()), now, ticketId, role, proof);
        var live := LiveTickets(old(tickets), now);
        match r
        case Failure(error) => plan == Refuse(error, Mem())
        case Success(marked) =>
          && ticketId in live && !Claimed(live[ticketId], role) && marked == SetClaimed(live[ticketId], role, true)
          && tickets == live[ticketId := marked]
          && plan == Commit(marked.channel,
                            Mem().(tickets := if marked.BothClaimed() then Remove(live, ticketId) else tickets),
                            Mem().(tickets := live))
    {
      tickets := LiveTickets(tickets, now);
      if ticketId !in tickets {
        return Failure(NotFound);
      }
      var ticket := tickets[ticketId];
      var signature := Hex.DecodeVec(proof, 64, 80);
      if signature.None? {
        return Failure(Unauthorized);
      }
      var message := EndpointClaimMessage(ticketId, role);
      if !VerifyEndpoint(c, role, KeyOf(ticket, role), message, signature.value) {
        return Failure(Unauthorized);
      }
      if Claimed(ticket, role) {
        return Failure(AlreadyClaimed);
      }
      tickets := tickets[ticketId := SetClaimed(ticket, role, true)];
      return Success(tickets[ticketId]);
    }

    method Claim(ticketId: Str, role: EndpointRole, proof: Str, now: U64, io: Io)
      returns (r: Result<nat, RelayError>)
      modifies this
      ensures nextChannel == old(nextChannel)
      ensures r == ReplyOf(PlanClaim(c, old(Mem()), now, ticketId, role, proof), config, io)
      ensures Transacts(PlanClaim(c, old(Mem()), now, ticketId, role, proof), config, io, now, old(disk), Mem(), disk)
    {
      hide PlanClaim, Snapshot, LiveTickets;
      ghost var live := LiveTickets(tickets, now);
      var staged := StageClaim(ticketId, role, proof, now);
      if staged.Failure? {
        return Failure(staged.error);
      }
      var persisted := PersistLocked(now, io);
      if persisted.Failure? {
        if ticketId in tickets {
          tickets := tickets[ticketId := SetClaimed(tickets[ticketId], role, false)];
        }
        SameButOne(tickets, live, ticketId);
        return Failure(persisted.error);
      }
      if staged.value.BothClaimed() {
        ghost var marked := Mem();
        tickets := Remove(tickets, ticketId);
        AbsentRemoved(tickets, Remove(live, ticketId), ticketId);
        if config.stateFile {
          SnapshotOmitsClaimed(disk.value.content, marked, ticketId, now);
        }
      }
      return Success(staged.value.channel);
    }
  }

  function Completed(box: Mailbox, requestId: Str, ready: Option<SessionReady>): Mailbox
    requires requestId in box.sessions
  {
    box.(sessions := box.sessions[requestId := box.sessions[requestId].(ready := ready)])
  }

  lemma CompletedUndone(box: Mailbox, requestId: Str, ready: Option<SessionReady>)
    requires requestId in box.sessions && box.sessions[requestId].ready.None?
    ensures Completed(Completed(box, requestId, ready), requestId, None) == box
  {
    assert Completed(Completed(box, requestId, ready), requestId, None).sessions == box.sessions;
  }

  /** A ticket with both marks is not written, so removing it changes no snapshot. */
  lemma SnapshotOmitsClaimed(p: PersistedRelayState, m: Memory, id: Str, now: U64)
    requires Snapshot(p, m, now) && id in m.tickets && m.tickets[id].BothClaimed()
    ensures Snapshot(p, m.(tickets := Remove(m.tickets, id)), now)
  {
    hide ListsNonces, LiveNonces, LiveMailboxes;
    assert OpenTickets(Remove(m.tickets, id), now) == OpenTickets(m.tickets, now);
  }

  lemma SameButOne<K, V>(a: map<K, V>, b: map<K, V>, k: K)
    requires (k in a && k in b && a[k] == b[k]) || (k !in a && k !in b)
    requires Remove(a, k) == Remove(b, k)
    ensures a == b
  {
    forall x | x in a ensures x in b && a[x] == b[x] {
      assert x == k || x in Remove(a, k);
    }
    forall x | x in b ensures x in a {
      assert x == k || x in Remove(b, k);
    }
  }

  lemma AbsentRemoved<K, V>(a: map<K, V>, b: map<K, V>, k: K)
    requires k !in a && k !in b
    requires Remove(a, k) == Remove(b, k)
    ensures a == b
  {
    SameButOne(a, b, k);
  }

  /** Restored tickets carry no claim marks and hold channels of their own. */
  ghost predicate FreshTickets(tickets: Tickets, from: nat, to: nat) {
    && from <= to
    && (forall k <- tickets :: !tickets[k].hostClaimed && !tickets[k].clientClaimed && from <= tickets[k].channel < to)
    && (forall j <- tickets, k <- tickets :: j != k ==> tickets[j].channel != tickets[k].channel)
  }

  /** `memory` is what a restart at `now` builds: no accounts, no claim marks, fresh channels,
      and the view that the file restores. */
  ghost predicate Reloaded(cfg: Config, disk: Option<File>, now: U64, channel: nat, memory: Memory, channel': nat) {
    && memory.accounts == map[]
    && FreshTickets(memory.tickets, channel, channel')
    && (cfg.stateFile ==> Restore(disk, now) == Success(LiveView(memory, now)))
    && (!cfg.stateFile ==> memory == EMPTY)
    && AllLive(memory, now)
  }

  /** Nothing expired is held. */
  ghost predicate AllLive(m: Memory, now: nat) {
    && m.tickets == LiveTickets(m.tickets, now)
    && m.nonces == LiveNonces(m.nonces, now)
    && m.mailboxes == RestoredBoxes(m.mailboxes, now)
  }

  lemma RestoredIsLive(p: PersistedRelayState, now: U64, m: Memory)
    requires forall e <- p.nonces :: NonceOk(e)
    requires m.nonces == RestoredNonces(p.nonces, now)
    requires m.mailboxes == RestoredBoxes(p.mailboxes, now)
    requires m.tickets.Keys == (set k | k in p.tickets && p.tickets[k].expires > now)
    requires forall k <- m.tickets :: ToPersisted(m.tickets[k]) == p.tickets[k] && !m.tickets[k].BothClaimed()
    ensures LiveView(m, now) == RestoredView(p, now)
    ensures AllLive(m, now)
  {
    RestoredNoncesLive(p.nonces, now);
    assert LiveNonces(m.nonces, now) == m.nonces;
    forall k <- m.mailboxes ensures Restored(m.mailboxes[k], now) == m.mailboxes[k] {
      RestoredTwice(p.mailboxes[k], now, now);
    }
    assert RestoredBoxes(m.mailboxes, now) == m.mailboxes;
    assert OpenTickets(m.tickets, now) == RestoredView(p, now).tickets;
    assert LiveTickets(m.tickets, now) == m.tickets;
  }

  lemma {:induction false} RestoredNoncesLive(list: seq<PersistedNonce>, now: nat)
    requires forall e <- list :: NonceOk(e)
    ensures forall n <- RestoredNonces(list, now) :: RestoredNonces(list, now)[n] > now
  {
    if list != [] {
      assert forall e <- list[..|list| - 1] :: e in list;
      assert NonceOk(list[|list| - 1]);
      RestoredNoncesLive(list[..|list| - 1], now);
    }
  }
}
