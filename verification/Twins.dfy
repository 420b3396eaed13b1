/** Two servers, one of which restarted, under the same calls. */
module Twins {
  import opened Prelude
  import opened Crypto
  import opened Protocol
  import opened Rules
  import opened Validation
  import opened State
  import opened Persistence
  import opened Transactions
  import opened Server
  import opened AccountListing
  import opened Runs
  import opened Invariants
  import opened Preservation
  import opened Theorems
  import opened Meeting
  import opened Restarts
  import Hex

  // ---- What the two have in common ----

  /** `b` lacks at most sessions that a restart at `t` does not bring back. */
  ghost predicate SimilarSessions(a: Sessions, b: Sessions, t: nat) {
    Within(b, a) && forall r <- a :: r !in b ==> !Restorable(a[r], t)
  }

  ghost predicate SimilarBox(a: Mailbox, b: Mailbox, t: nat) {
    b == a.(sessions := b.sessions) && SimilarSessions(a.sessions, b.sessions, t)
  }

  ghost predicate SimilarBoxes(a: Mailboxes, b: Mailboxes, t: nat, now: nat) {
    && (forall k <- a :: a[k].expires > now ==> k in b && SimilarBox(a[k], b[k], t))
    && (forall k <- b :: b[k].expires > now ==> k in a && a[k].expires > now)
  }

  ghost predicate SimilarTicket(a: Ticket, b: Ticket, marked: bool) {
    ToPersisted(a) == ToPersisted(b) && (!marked ==> b == a.(channel := b.channel))
  }

  /** The same live tickets, with the same marks unless they were marked at the restart. */
  ghost predicate SimilarTickets(a: Tickets, b: Tickets, marked: set<Str>, now: nat) {
    && (forall k <- a :: a[k].expires > now ==> k in b && SimilarTicket(a[k], b[k], k in marked))
    && (forall k <- b :: b[k].expires > now ==> k in a && a[k].expires > now)
  }

  /** `b` lists nothing that `a` does not. */
  ghost predicate SimilarAccounts(a: Accounts, b: Accounts) {
    forall name <- b, id <- b[name] :: name in a && id in a[name]
  }

  ghost predicate Similar(a: Memory, b: Memory, t: nat, marked: set<Str>, now: nat) {
    && LiveNonces(a.nonces, now) == LiveNonces(b.nonces, now)
    && SimilarBoxes(a.mailboxes, b.mailboxes, t, now)
    && SimilarTickets(a.tickets, b.tickets, marked, now)
    && SimilarAccounts(a.accounts, b.accounts)
  }

  /** The tickets with a claim mark. */
  function Marked(m: Memory): set<Str> {
    set id | id in m.tickets && (m.tickets[id].hostClaimed || m.tickets[id].clientClaimed)
  }

  lemma RebuiltIsSimilar(m: Memory, m': Memory, t: nat)
    requires Rebuilt(m, m', t)
    ensures Similar(m, m', t, Marked(m), t)
  {
    assert LiveNonces(m'.nonces, t) == LiveNonces(m.nonces, t);
    forall k <- m.mailboxes | m.mailboxes[k].expires > t
      ensures k in m'.mailboxes && SimilarBox(m.mailboxes[k], m'.mailboxes[k], t)
    {
      assert m'.mailboxes[k] == Restored(m.mailboxes[k], t);
    }
    forall k <- m'.tickets ensures k in LiveTickets(m.tickets, t) {}
    forall k <- m.tickets | m.tickets[k].expires > t ensures k in m'.tickets {
      assert k in LiveTickets(m.tickets, t);
    }
  }

  // ---- Tables ----

  lemma BoxesTwin(a: Mailboxes, b: Mailboxes, t: nat, now: nat, later: nat)
    requires SimilarBoxes(a, b, t, now) && now <= later
    ensures SimilarBoxes(a, b, t, later)
    ensures SimilarBoxes(LiveMailboxes(a, later), LiveMailboxes(b, later), t, later)
  {
    forall k <- a | a[k].expires > now ensures k in b && a[k].expires == b[k].expires {
      SameLease(a[k], b[k], t);
    }
    hide SimilarBox;
  }

  lemma SameLease(a: Mailbox, b: Mailbox, t: nat)
    requires SimilarBox(a, b, t)
    ensures a.expires == b.expires && a.tokenDigest == b.tokenDigest && a.hostKey == b.hostKey
    ensures a.hostFingerprint == b.hostFingerprint
  {
  }

  lemma BoxTwin(a: Mailboxes, b: Mailboxes, t: nat, now: nat, id: Str, x: Mailbox, y: Mailbox)
    requires SimilarBoxes(a, b, t, now) && SimilarBox(x, y, t)
    ensures SimilarBoxes(a[id := x], b[id := y], t, now)
  {
    SameLease(x, y, t);
    hide SimilarBox;
  }

  lemma TicketsTwin(a: Tickets, b: Tickets, marked: set<Str>, now: nat, later: nat)
    requires SimilarTickets(a, b, marked, now) && now <= later
    ensures SimilarTickets(a, b, marked, later)
    ensures SimilarTickets(LiveTickets(a, later), LiveTickets(b, later), marked, later)
  {
  }

  lemma TicketTwin(a: Tickets, b: Tickets, marked: set<Str>, now: nat, id: Str, x: Ticket, y: Ticket)
    requires SimilarTickets(a, b, marked, now) && SimilarTicket(x, y, false)
    ensures SimilarTickets(a[id := x], b[id := y], marked, now)
    ensures SimilarTickets(Remove(a, id), Remove(b, id), marked, now)
  {
  }

  lemma NoncesTwin(a: Nonces, b: Nonces, now: nat, later: nat)
    requires LiveNonces(a, now) == LiveNonces(b, now) && now <= later
    ensures LiveNonces(a, later) == LiveNonces(b, later)
    ensures LiveNonces(LiveNonces(a, later), later) == LiveNonces(a, later)
  {
    forall k ensures k in LiveNonces(a, later) ==> k in LiveNonces(b, later) && a[k] == b[k] {
      assert k in LiveNonces(a, later) ==> k in LiveNonces(a, now);
    }
    forall k ensures k in LiveNonces(b, later) ==> k in LiveNonces(a, later) {
      assert k in LiveNonces(b, later) ==> k in LiveNonces(b, now);
    }
  }

  lemma SimilarLater(a: Memory, b: Memory, t: nat, marked: set<Str>, now: nat, later: nat)
    requires Similar(a, b, t, marked, now) && now <= later
    ensures Similar(a, b, t, marked, later)
  {
    hide SimilarBoxes, SimilarTickets, SimilarAccounts, LiveNonces;
    BoxesTwin(a.mailboxes, b.mailboxes, t, now, later);
    TicketsTwin(a.tickets, b.tickets, marked, now, later);
    NoncesTwin(a.nonces, b.nonces, now, later);
  }

  lemma PrunedSimilar(a: Memory, b: Memory, t: nat, marked: set<Str>, now: nat)
    requires Similar(a, b, t, marked, now)
    ensures Similar(a.(mailboxes := LiveMailboxes(a.mailboxes, now)), b.(mailboxes := LiveMailboxes(b.mailboxes, now)),
                    t, marked, now)
    ensures Similar(a.(tickets := LiveTickets(a.tickets, now)), b.(tickets := LiveTickets(b.tickets, now)), t, marked,
                    now)
    ensures Similar(a.(nonces := LiveNonces(a.nonces, now)), b.(nonces := LiveNonces(b.nonces, now)), t, marked, now)
  {
    hide SimilarBoxes, SimilarTickets, SimilarAccounts, LiveNonces;
    BoxesTwin(a.mailboxes, b.mailboxes, t, now, now);
    TicketsTwin(a.tickets, b.tickets, marked, now, now);
    NoncesTwin(a.nonces, b.nonces, now, now);
    NoncesTwin(b.nonces, a.nonces, now, now);
  }

  lemma OpenTwin(c: Primitives, a: Mailboxes, b: Mailboxes, t: nat, now: nat, id: Str, token: Str)
    requires SimilarBoxes(a, b, t, now)
    ensures var x, y := Open(c, LiveMailboxes(a, now), id, token), Open(c, LiveMailboxes(b, now), id, token);
      match x
      case Failure(error) => y == Failure(error)
      case Success(box) =>
        && y.Success? && SimilarBox(box, y.value, t)
        && id in a && id in b && box == a[id] && y.value == b[id]
  {
    if id in LiveMailboxes(a, now) {
      SameLease(a[id], b[id], t);
    }
    assert id in LiveMailboxes(a, now) <==> id in LiveMailboxes(b, now) by {
      BoxesTwin(a, b, t, now, now);
    }
    hide SimilarBox;
  }

  lemma StoreTwin(a: Memory, b: Memory, t: nat, marked: set<Str>, now: nat, id: Str, x: Sessions, y: Sessions)
    requires Similar(a, b, t, marked, now) && id in LiveMailboxes(a.mailboxes, now)
    requires id in LiveMailboxes(b.mailboxes, now) && SimilarSessions(x, y, t)
    ensures Similar(WithSessions(a, id, x), WithSessions(b, id, y), t, marked, now)
  {
    hide SimilarTickets, SimilarAccounts, LiveNonces, SimilarSessions;
    BoxTwin(a.mailboxes, b.mailboxes, t, now, id, a.mailboxes[id].(sessions := x), b.mailboxes[id].(sessions := y));
  }

  lemma UnexpiredTwin(a: Sessions, b: Sessions, t: nat, now: nat, client: Str)
    requires SimilarSessions(a, b, t) && t <= now
    ensures SimilarSessions(UnexpiredSessions(a, now), UnexpiredSessions(b, now), t)
    ensures PendingSessions(UnexpiredSessions(a, now)) == PendingSessions(UnexpiredSessions(b, now))
    ensures SimilarSessions(OtherClients(UnexpiredSessions(a, now), client),
                            OtherClients(UnexpiredSessions(b, now), client), t)
  {
  }

  // ---- Operation by operation ----

  /** The plans decide alike and leave similar memories, whatever becomes of the write. */
  ghost predicate Alike<R>(p: Plan<R>, q: Plan<R>, t: nat, marked: set<Str>, now: nat) {
    match (p, q)
    case (Refuse(e, a), Refuse(f, b)) => e == f && Similar(a, b, t, marked, now)
    case (Answer(x, a), Answer(y, b)) => x == y && Similar(a, b, t, marked, now)
    case (Commit(x, a, u), Commit(y, b, v)) =>
      x == y && Similar(a, b, t, marked, now) && Similar(u, v, t, marked, now)
    case _ => false
  }

  ghost predicate Twin<R>(p: Plan<R>, q: Plan<R>, cfg: Config, io: Io, t: nat, marked: set<Str>, now: nat) {
    && ReplyOf(p, cfg, io) == ReplyOf(q, cfg, io)
    && Similar(MemoryAfter(p, cfg, io), MemoryAfter(q, cfg, io), t, marked, now)
  }

  lemma AlikeIsTwin<R>(p: Plan<R>, q: Plan<R>, cfg: Config, io: Io, t: nat, marked: set<Str>, now: nat)
    requires Alike(p, q, t, marked, now)
    ensures Twin(p, q, cfg, io, t, marked, now)
  {
    hide Similar;
  }

  lemma AccountsTwin(a: Accounts, b: Accounts, name: Str, id: Str, fingerprint: Str, seconds: nat)
    requires SimilarAccounts(a, b)
    ensures SimilarAccounts(Upsert(a, name, id, fingerprint, seconds), Upsert(b, name, id, fingerprint, seconds))
  {
  }

  lemma PutTwin(a: Memory, b: Memory, t: nat, marked: set<Str>, now: nat, id: Str, x: Mailbox, y: Mailbox,
                f: Accounts, g: Accounts)
    requires Similar(a, b, t, marked, now) && SimilarBox(x, y, t) && SimilarAccounts(f, g)
    ensures Similar(a.(accounts := f), b.(accounts := g), t, marked, now)
    ensures Similar(a.(accounts := f, mailboxes := a.mailboxes[id := x]),
                    b.(accounts := g, mailboxes := b.mailboxes[id := y]), t, marked, now)
  {
    hide SimilarBoxes, SimilarTickets, SimilarAccounts, LiveNonces, SimilarBox;
    BoxTwin(a.mailboxes, b.mailboxes, t, now, id, x, y);
  }

  /** Both hold the mailbox or neither does. */
  lemma KnownTwin(a: Memory, b: Memory, t: nat, marked: set<Str>, now: nat, id: Str)
    requires Similar(a, b, t, marked, now)
    ensures var x, y := LiveMailboxes(a.mailboxes, now), LiveMailboxes(b.mailboxes, now);
      && (id in x <==> id in y)
      && (id in x ==>
            && x[id].tokenDigest == y[id].tokenDigest && x[id].hostKey == y[id].hostKey
            && SimilarBox(x[id], y[id], t))
  {
    hide SimilarTickets, SimilarAccounts, LiveNonces;
    if id in LiveMailboxes(a.mailboxes, now) {
      SameLease(a.mailboxes[id], b.mailboxes[id], t);
    }
    BoxesTwin(a.mailboxes, b.mailboxes, t, now, now);
  }

  lemma LeaseTwin(x: Mailbox, y: Mailbox, t: nat, lease: nat)
    requires SimilarBox(x, y, t)
    ensures SimilarBox(x.(expires := lease), y.(expires := lease), t)
  {
  }

  /** What a registration that commits stores. */
  lemma RegisterStores(cfg: Config, c: Primitives, m: Memory, now: U64, id: Str, token: Str, r: HostRegistrationRequest)
    requires PlanRegister(cfg, c, m, now, id, token, r).Commit?
    ensures CheckRegistration(cfg, c, now, id, token, r).Success?
    ensures var plan, (v, account) := PlanRegister(cfg, c, m, now, id, token, r),
                                      CheckRegistration(cfg, c, now, id, token, r).value;
      var live := LiveMailboxes(m.mailboxes, now);
      var accounts := Upsert(m.accounts, account, id, r.hostFingerprint, now / 1000);
      && plan.undone == m.(mailboxes := live, accounts := accounts)
      && plan.next == m.(accounts := accounts, mailboxes := live[id :=
           if id in live then live[id].(expires := now + v.validFor)
           else Mailbox(c.sha256(token), v.hostKey, r.hostFingerprint, now + v.validFor, map[])])
  {
    hide CheckRegistration, Upsert, LiveMailboxes;
  }

  lemma RegisterCommitTwin(cfg: Config, c: Primitives, a: Memory, b: Memory, t: nat, marked: set<Str>, now: U64,
                           id: Str, token: Str, r: HostRegistrationRequest)
    requires Similar(a, b, t, marked, now)
    requires PlanRegister(cfg, c, a, now, id, token, r).Commit? && PlanRegister(cfg, c, b, now, id, token, r).Commit?
    ensures Alike(PlanRegister(cfg, c, a, now, id, token, r), PlanRegister(cfg, c, b, now, id, token, r), t, marked,
                  now)
  {
    hide CheckRegistration, Upsert, SimilarBox, PlanRegister, LiveMailboxes, SimilarBoxes, SimilarTickets,
      SimilarAccounts, LiveNonces;
    PrunedSimilar(a, b, t, marked, now);
    KnownTwin(a, b, t, marked, now, id);
    RegisterPlans(cfg, c, a, now, id, token, r);
    RegisterPlans(cfg, c, b, now, id, token, r);
    RegisterStores(cfg, c, a, now, id, token, r);
    RegisterStores(cfg, c, b, now, id, token, r);
    var (v, account) := CheckRegistration(cfg, c, now, id, token, r).value;
    var f := Upsert(a.accounts, account, id, r.hostFingerprint, now / 1000);
    var g := Upsert(b.accounts, account, id, r.hostFingerprint, now / 1000);
    AccountsTwin(a.accounts, b.accounts, account, id, r.hostFingerprint, now / 1000);
    var pa, pb := a.(mailboxes := LiveMailboxes(a.mailboxes, now)), b.(mailboxes := LiveMailboxes(b.mailboxes, now));
    hide Similar;
    var lease := now + v.validFor;
    var newBox := Mailbox(c.sha256(token), v.hostKey, r.hostFingerprint, lease, map[]);
    if id in pa.mailboxes {
      LeaseTwin(pa.mailboxes[id], pb.mailboxes[id], t, lease);
      PutTwin(pa, pb, t, marked, now, id, pa.mailboxes[id].(expires := lease), pb.mailboxes[id].(expires := lease), f,
              g);
    } else {
      SelfSimilar(newBox, t);
      PutTwin(pa, pb, t, marked, now, id, newBox, newBox, f, g);
    }
  }

  lemma RegisterRefuses(cfg: Config, c: Primitives, m: Memory, now: U64, id: Str, token: Str,
                        r: HostRegistrationRequest)
    ensures var plan := PlanRegister(cfg, c, m, now, id, token, r);
      plan.Refuse? ==> plan.kept == if CheckRegistration(cfg, c, now, id, token, r).Failure? then m
                                    else m.(mailboxes := LiveMailboxes(m.mailboxes, now))
  {
    hide CheckRegistration, Upsert, LiveMailboxes;
  }

  lemma RegisterTwin(cfg: Config, c: Primitives, a: Memory, b: Memory, t: nat, marked: set<Str>, now: U64, id: Str,
                     token: Str, r: HostRegistrationRequest)
    requires Similar(a, b, t, marked, now)
    ensures Alike(PlanRegister(cfg, c, a, now, id, token, r), PlanRegister(cfg, c, b, now, id, token, r), t, marked,
                  now)
  {
    hide CheckRegistration, PlanRegister, LiveMailboxes, Similar, SimilarBox;
    RegisterPlans(cfg, c, a, now, id, token, r);
    RegisterPlans(cfg, c, b, now, id, token, r);
    KnownTwin(a, b, t, marked, now, id);
    if PlanRegister(cfg, c, a, now, id, token, r).Commit? {
      RegisterCommitTwin(cfg, c, a, b, t, marked, now, id, token, r);
    } else {
      RegisterRefuses(cfg, c, a, now, id, token, r);
      RegisterRefuses(cfg, c, b, now, id, token, r);
      PrunedSimilar(a, b, t, marked, now);
    }
  }

  lemma SelfSimilar(box: Mailbox, t: nat)
    ensures SimilarBox(box, box, t)
  {
  }

  /** A nonce is held in both tables or in neither, and they leave the same room, unless the
      submission hinges on a session that was not brought back. */
  lemma VerdictTwin(cfg: Config, io: Io, a: Sessions, b: Sessions, t: nat, now: U64, r: ClientSessionRequest)
    requires SimilarSessions(a, b, t) && t <= now && |a| <= MAX_PENDING_SESSIONS_PER_HOST
    requires !HingesOnDropped(cfg, io, a, t, now, r)
    ensures Outcome(cfg, io, Verdict(a, now, r)) == Outcome(cfg, io, Verdict(b, now, r))
    ensures Verdict(a, now, r).Failure? && Verdict(b, now, r).Success? ==>
              && Verdict(a, now, r).error == CapacityExceeded
              && OtherClients(UnexpiredSessions(a, now), r.clientFingerprint) == a
    ensures Verdict(a, now, r).Success? ==> Verdict(b, now, r).Success?
    ensures Verdict(a, now, r).Failure? && Verdict(b, now, r).Failure? ==> Verdict(a, now, r) == Verdict(b, now, r)
  {
    hide UnexpiredSessions, OtherClients, Restorable, SimilarSessions, HoldsNonce, ClientHoldsSession,
      PendingSessions;
    var x, y := UnexpiredSessions(a, now), UnexpiredSessions(b, now);
    UnexpiredTwin(a, b, t, now, r.clientFingerprint);
    FullTable(a, r.clientFingerprint, now);
    NonceTwin(x, y, t, r.requestNonce);
    RoomTwin(x, y, t, r.clientFingerprint);
  }

  lemma NonceTwin(a: Sessions, b: Sessions, t: nat, nonce: Str)
    requires SimilarSessions(a, b, t)
    ensures HoldsNonce(b, nonce) ==> HoldsNonce(a, nonce)
    ensures HoldsNonce(a, nonce) && !HoldsNonce(b, nonce) ==>
              exists k <- a :: !Restorable(a[k], t) && a[k].request.requestNonce == nonce
  {
    if HoldsNonce(a, nonce) && !HoldsNonce(b, nonce) {
      var k :| k in a && a[k].request.requestNonce == nonce;
      assert k !in b;
    }
  }

  lemma RoomTwin(a: Sessions, b: Sessions, t: nat, client: Str)
    requires SimilarSessions(a, b, t)
    ensures |OtherClients(b, client)| <= |OtherClients(a, client)|
    ensures (exists k <- a :: !Restorable(a[k], t)) || a == b
  {
    WithinSize(OtherClients(b, client), OtherClients(a, client));
  }

  function Pruned(m: Memory, now: nat): Memory {
    m.(mailboxes := LiveMailboxes(m.mailboxes, now))
  }

  /** What a submission leaves in memory. */
  lemma SubmitStores(cfg: Config, c: Primitives, m: Memory, now: U64, id: Str, token: Str, r: ClientSessionRequest,
                     freshId: Str)
    ensures var plan, pruned := PlanSubmit(cfg, c, m, now, id, token, r, freshId), Pruned(m, now);
      var box := Open(c, pruned.mailboxes, id, token);
      if Gate(cfg, c, id, token).Failure? then plan.Refuse? && plan.kept == m
      else if box.Failure?
              || ValidateClientSessionRequest(c, r, box.value.hostKey, box.value.hostFingerprint, now).Failure?
      then plan.Refuse? && plan.kept == pruned
      else
        var live := UnexpiredSessions(box.value.sessions, now);
        var others := OtherClients(live, r.clientFingerprint);
        match Verdict(box.value.sessions, now, r)
        case Failure(e) =>
          plan.Refuse? && plan.kept == WithSessions(pruned, id, if e == AlreadyClaimed then live else others)
        case Success(_) =>
          && plan.Commit? && plan.undone == pruned
          && plan.next == WithSessions(pruned, id, others[freshId := StoredSession(r, None)])
  {
    hide Gate, ValidateClientSessionRequest, HoldsNonce, OtherClients, UnexpiredSessions, LiveMailboxes;
  }

  lemma AddTwin(a: Sessions, b: Sessions, t: nat, freshId: Str, stored: StoredSession)
    requires SimilarSessions(a, b, t)
    ensures SimilarSessions(a[freshId := stored], b[freshId := stored], t)
  {
  }

  lemma SubmitServedTwin(cfg: Config, c: Primitives, a: Memory, b: Memory, t: nat, marked: set<Str>, now: U64, io: Io,
                         id: Str, token: Str, r: ClientSessionRequest, freshId: Str)
    requires Similar(a, b, t, marked, now) && t <= now && TableSound(a, id)
    requires Gate(cfg, c, id, token).Success? && Open(c, Pruned(a, now).mailboxes, id, token).Success?
    requires var box := Open(c, Pruned(a, now).mailboxes, id, token).value;
      && ValidateClientSessionRequest(c, r, box.hostKey, box.hostFingerprint, now).Success?
      && !HingesOnDropped(cfg, io, box.sessions, t, now, r)
    ensures Twin(PlanSubmit(cfg, c, a, now, id, token, r, freshId), PlanSubmit(cfg, c, b, now, id, token, r, freshId),
                 cfg, io, t, marked, now)
  {
    hide Gate, ValidateClientSessionRequest, Verdict, HingesOnDropped, PlanSubmit, Open, LiveMailboxes, SimilarBoxes,
      SimilarTickets, SimilarAccounts, LiveNonces, UnexpiredSessions, OtherClients, WithSessions, DistinctSessions,
      SimilarSessions, PendingSessions;
    SubmitPlans(cfg, c, a, now, id, token, r, freshId);
    SubmitPlans(cfg, c, b, now, id, token, r, freshId);
    SubmitStores(cfg, c, a, now, id, token, r, freshId);
    SubmitStores(cfg, c, b, now, id, token, r, freshId);
    OpenTwin(c, a.mailboxes, b.mailboxes, t, now, id, token);
    OpenFinds(c, a, now, id, token);
    OpenFinds(c, b, now, id, token);
    PrunedSimilar(a, b, t, marked, now);
    var x, y := a.mailboxes[id].sessions, b.mailboxes[id].sessions;
    var client := r.clientFingerprint;
    VerdictTwin(cfg, io, x, y, t, now, r);
    UnexpiredTwin(x, y, t, now, client);
    var u, v := OtherClients(UnexpiredSessions(x, now), client), OtherClients(UnexpiredSessions(y, now), client);
    AddTwin(u, v, t, freshId, StoredSession(r, None));
    hide Similar;
    StoreServed(c, a, b, t, marked, now, id, token, UnexpiredSessions(x, now), UnexpiredSessions(y, now));
    StoreServed(c, a, b, t, marked, now, id, token, u, v);
    StoreServed(c, a, b, t, marked, now, id, token, u[freshId := StoredSession(r, None)],
                v[freshId := StoredSession(r, None)]);
    StoreSame(c, a, now, id, token);
  }

  lemma StoreServed(c: Primitives, a: Memory, b: Memory, t: nat, marked: set<Str>, now: U64, id: Str, token: Str,
                    x: Sessions, y: Sessions)
    requires Similar(a, b, t, marked, now) && SimilarSessions(x, y, t)
    requires Open(c, Pruned(a, now).mailboxes, id, token).Success?
    requires Open(c, Pruned(b, now).mailboxes, id, token).Success?
    ensures Similar(WithSessions(Pruned(a, now), id, x), WithSessions(Pruned(b, now), id, y), t, marked, now)
  {
    hide Similar, SimilarSessions;
    PrunedSimilar(a, b, t, marked, now);
    assert LiveMailboxes(Pruned(a, now).mailboxes, now) == Pruned(a, now).mailboxes;
    assert LiveMailboxes(Pruned(b, now).mailboxes, now) == Pruned(b, now).mailboxes;
    StoreTwin(Pruned(a, now), Pruned(b, now), t, marked, now, id, x, y);
  }

  lemma StoreSame(c: Primitives, m: Memory, now: U64, id: Str, token: Str)
    requires Open(c, Pruned(m, now).mailboxes, id, token).Success?
    ensures id in m.mailboxes && id in Pruned(m, now).mailboxes
    ensures WithSessions(Pruned(m, now), id, m.mailboxes[id].sessions) == Pruned(m, now)
  {
    var pruned := Pruned(m, now);
    assert pruned.mailboxes[id := pruned.mailboxes[id].(sessions := m.mailboxes[id].sessions)] == pruned.mailboxes;
  }

  lemma SubmitTwin(cfg: Config, c: Primitives, a: Memory, b: Memory, t: nat, marked: set<Str>, now: U64, io: Io,
                   id: Str, token: Str, r: ClientSessionRequest, freshId: Str)
    requires Similar(a, b, t, marked, now) && t <= now && TableSound(a, id)
    requires Gate(cfg, c, id, token).Success? && Open(c, Pruned(a, now).mailboxes, id, token).Success? ==>
      var box := Open(c, Pruned(a, now).mailboxes, id, token).value;
      !(ValidateClientSessionRequest(c, r, box.hostKey, box.hostFingerprint, now).Success?
        && HingesOnDropped(cfg, io, box.sessions, t, now, r))
    ensures Twin(PlanSubmit(cfg, c, a, now, id, token, r, freshId), PlanSubmit(cfg, c, b, now, id, token, r, freshId),
                 cfg, io, t, marked, now)
  {
    hide Gate, ValidateClientSessionRequest, Verdict, HingesOnDropped, PlanSubmit, Open, LiveMailboxes, SimilarBoxes,
      SimilarTickets, SimilarAccounts, LiveNonces, UnexpiredSessions, OtherClients, WithSessions, DistinctSessions,
      SimilarSessions, TableSound;
    var box := Open(c, Pruned(a, now).mailboxes, id, token);
    if Gate(cfg, c, id, token).Success? && box.Success?
       && ValidateClientSessionRequest(c, r, box.value.hostKey, box.value.hostFingerprint, now).Success?
    {
      SubmitServedTwin(cfg, c, a, b, t, marked, now, io, id, token, r, freshId);
    } else {
      SubmitPlans(cfg, c, a, now, id, token, r, freshId);
      SubmitPlans(cfg, c, b, now, id, token, r, freshId);
      SubmitStores(cfg, c, a, now, id, token, r, freshId);
      SubmitStores(cfg, c, b, now, id, token, r, freshId);
      OpenTwin(c, a.mailboxes, b.mailboxes, t, now, id, token);
      PrunedSimilar(a, b, t, marked, now);
      hide Similar;
    }
  }

  lemma NextStores(cfg: Config, c: Primitives, m: Memory, now: U64, id: Str, token: Str)
    ensures var plan, box := PlanNext(cfg, c, m, now, id, token), Open(c, Pruned(m, now).mailboxes, id, token);
      if Gate(cfg, c, id, token).Failure? then plan.Refuse? && plan.kept == m
      else if box.Failure? then plan.Refuse? && plan.kept == Pruned(m, now)
      else plan.Answer? && plan.kept == WithSessions(Pruned(m, now), id, UnexpiredSessions(box.value.sessions, now))
  {
    hide Gate, Open, PendingSessions, UnexpiredSessions, LiveMailboxes;
  }

  lemma NextTwin(cfg: Config, c: Primitives, a: Memory, b: Memory, t: nat, marked: set<Str>, now: U64, id: Str,
                 token: Str)
    requires Similar(a, b, t, marked, now) && t <= now
    ensures Alike(PlanNext(cfg, c, a, now, id, token), PlanNext(cfg, c, b, now, id, token), t, marked, now)
  {
    hide Gate, PlanNext, Open, LiveMailboxes, SimilarBoxes, SimilarTickets, SimilarAccounts, LiveNonces,
      UnexpiredSessions, PendingSessions, WithSessions, SimilarSessions;
    NextPlans(cfg, c, a, now, id, token);
    NextPlans(cfg, c, b, now, id, token);
    NextStores(cfg, c, a, now, id, token);
    NextStores(cfg, c, b, now, id, token);
    OpenTwin(c, a.mailboxes, b.mailboxes, t, now, id, token);
    PrunedSimilar(a, b, t, marked, now);
    if Open(c, LiveMailboxes(a.mailboxes, now), id, token).Success? {
      var x, y := a.mailboxes[id].sessions, b.mailboxes[id].sessions;
      UnexpiredTwin(x, y, t, now, []);
      StoreServed(c, a, b, t, marked, now, id, token, UnexpiredSessions(x, now), UnexpiredSessions(y, now));
    }
    hide Similar;
  }

  /** A session that a restart would bring back is in both. */
  lemma SessionTwin(a: Sessions, b: Sessions, t: nat, requestId: Str)
    requires SimilarSessions(a, b, t)
    requires requestId in a ==> Restorable(a[requestId], t)
    ensures requestId in a <==> requestId in b
    ensures requestId in a ==> a[requestId] == b[requestId]
  {
  }

  lemma StatusTwin(cfg: Config, c: Primitives, a: Memory, b: Memory, t: nat, marked: set<Str>, now: U64, id: Str,
                   token: Str, requestId: Str)
    requires Similar(a, b, t, marked, now)
    requires Gate(cfg, c, id, token).Success? && Open(c, Pruned(a, now).mailboxes, id, token).Success? ==>
      var sessions := Open(c, Pruned(a, now).mailboxes, id, token).value.sessions;
      requestId in sessions ==> Restorable(sessions[requestId], t)
    ensures Alike(PlanStatus(cfg, c, a, now, id, token, requestId), PlanStatus(cfg, c, b, now, id, token, requestId), t,
                  marked, now)
  {
    hide Gate, Open, LiveMailboxes, SimilarBoxes, SimilarTickets, SimilarAccounts, LiveNonces, SimilarSessions,
      Restorable;
    OpenTwin(c, a.mailboxes, b.mailboxes, t, now, id, token);
    PrunedSimilar(a, b, t, marked, now);
    if Gate(cfg, c, id, token).Success? && Open(c, Pruned(a, now).mailboxes, id, token).Success? {
      SessionTwin(a.mailboxes[id].sessions, b.mailboxes[id].sessions, t, requestId);
    }
    hide Similar;
  }

  lemma IceTwin(cfg: Config, c: Primitives, a: Memory, b: Memory, t: nat, marked: set<Str>, now: U64, id: Str,
                token: Str)
    requires Similar(a, b, t, marked, now)
    ensures Alike(PlanIce(cfg, c, a, now, id, token), PlanIce(cfg, c, b, now, id, token), t, marked, now)
  {
    hide Gate, Open, LiveMailboxes, SimilarBoxes, SimilarTickets, SimilarAccounts, LiveNonces, SimilarSessions;
    OpenTwin(c, a.mailboxes, b.mailboxes, t, now, id, token);
    PrunedSimilar(a, b, t, marked, now);
    hide Similar;
  }

  /** A new ticket is the same in both, but for its channel. */
  lemma IssuedTwin(cfg: Config, a: Memory, b: Memory, t: nat, marked: set<Str>, now: U64, v: ValidatedTicketRequest,
                   ticketId: Str, x: nat, y: nat)
    requires Similar(a, b, t, marked, now) && a.nonces == b.nonces
    ensures Similar(Issued(cfg, a, now, v, ticketId, x), Issued(cfg, b, now, v, ticketId, y), t, marked, now)
  {
    hide SimilarBoxes, SimilarTickets, SimilarAccounts, LiveNonces;
    var expires := now + Min(cfg.ticketTtl, v.validFor);
    TicketTwin(a.tickets, b.tickets, marked, now, ticketId, Ticket(v.hostKey, v.clientKey, expires, false, false, x),
               Ticket(v.hostKey, v.clientKey, expires, false, false, y));
  }

  function Fresh(m: Memory, now: nat): Memory {
    m.(nonces := LiveNonces(m.nonces, now))
  }

  lemma FreshSimilar(a: Memory, b: Memory, t: nat, marked: set<Str>, now: nat)
    requires Similar(a, b, t, marked, now)
    ensures Similar(Fresh(a, now), Fresh(b, now), t, marked, now) && Fresh(a, now).nonces == Fresh(b, now).nonces
    ensures Similar(Fresh(Pruned(a, now), now), Fresh(Pruned(b, now), now), t, marked, now)
  {
    PrunedSimilar(a, b, t, marked, now);
    PrunedSimilar(Pruned(a, now), Pruned(b, now), t, marked, now);
    hide SimilarBoxes, SimilarTickets, SimilarAccounts, LiveNonces, LiveMailboxes;
  }

  lemma CreateTwin(cfg: Config, c: Primitives, a: Memory, b: Memory, t: nat, marked: set<Str>, now: U64, admin: bool,
                   r: CreateTicketRequest, ticketId: Str, x: nat, y: nat)
    requires Similar(a, b, t, marked, now)
    ensures Alike(PlanCreateTicket(cfg, c, a, now, admin, r, ticketId, x),
                  PlanCreateTicket(cfg, c, b, now, admin, r, ticketId, y), t, marked, now)
  {
    hide ValidateTicketRequest, LiveNonces, Similar, Issued;
    FreshSimilar(a, b, t, marked, now);
    if ValidateTicketRequest(c, r, now).Success? {
      IssuedTwin(cfg, Fresh(a, now), Fresh(b, now), t, marked, now, ValidateTicketRequest(c, r, now).value, ticketId,
                 x, y);
    }
  }

  lemma CompleteStoreTwin(cfg: Config, c: Primitives, a: Memory, b: Memory, t: nat, marked: set<Str>, now: U64, id: Str,
                          token: Str, requestId: Str, stored: StoredSession, v: ValidatedTicketRequest, ticketId: Str,
                          x: nat, y: nat)
    requires Similar(a, b, t, marked, now)
    requires Open(c, Pruned(a, now).mailboxes, id, token).Success?
    requires Open(c, Pruned(b, now).mailboxes, id, token).Success?
    requires id in a.mailboxes && id in b.mailboxes
    requires SimilarSessions(a.mailboxes[id].sessions, b.mailboxes[id].sessions, t)
    ensures id in Pruned(a, now).mailboxes && id in Pruned(b, now).mailboxes
    ensures Similar(WithSessions(Issued(cfg, Fresh(Pruned(a, now), now), now, v, ticketId, x), id,
                                 a.mailboxes[id].sessions[requestId := stored]),
                    WithSessions(Issued(cfg, Fresh(Pruned(b, now), now), now, v, ticketId, y), id,
                                 b.mailboxes[id].sessions[requestId := stored]), t, marked, now)
  {
    FreshSimilar(a, b, t, marked, now);
    var na, nb := Fresh(Pruned(a, now), now), Fresh(Pruned(b, now), now);
    IssuedTwin(cfg, na, nb, t, marked, now, v, ticketId, x, y);
    AddTwin(a.mailboxes[id].sessions, b.mailboxes[id].sessions, t, requestId, stored);
    hide Similar, SimilarSessions;
    assert LiveMailboxes(na.mailboxes, now) == na.mailboxes && LiveMailboxes(nb.mailboxes, now) == nb.mailboxes;
    StoreTwin(Issued(cfg, na, now, v, ticketId, x), Issued(cfg, nb, now, v, ticketId, y), t, marked, now, id,
              a.mailboxes[id].sessions[requestId := stored], b.mailboxes[id].sessions[requestId := stored]);
  }

  lemma CompleteTwin(cfg: Config, c: Primitives, a: Memory, b: Memory, t: nat, marked: set<Str>, now: U64, id: Str,
                     token: Str, requestId: Str, h: HostSessionCompletion, ticketId: Str, x: nat, y: nat)
    requires Similar(a, b, t, marked, now)
    requires Gate(cfg, c, id, token).Success? && h.protocol == SESSION_COMPLETION_PROTOCOL
             && Open(c, Pruned(a, now).mailboxes, id, token).Success? ==>
      var sessions := Open(c, Pruned(a, now).mailboxes, id, token).value.sessions;
      requestId in sessions ==> Restorable(sessions[requestId], t)
    ensures Alike(PlanComplete(cfg, c, a, now, id, token, requestId, h, ticketId, x),
                  PlanComplete(cfg, c, b, now, id, token, requestId, h, ticketId, y), t, marked, now)
  {
    hide Gate, Open, LiveMailboxes, SimilarBoxes, SimilarTickets, SimilarAccounts, LiveNonces, SimilarSessions,
      Restorable, CheckCompletion, Issued, IssuedReply, WithSessions;
    OpenTwin(c, a.mailboxes, b.mailboxes, t, now, id, token);
    PrunedSimilar(a, b, t, marked, now);
    FreshSimilar(a, b, t, marked, now);
    hide Similar;
    if Gate(cfg, c, id, token).Success? && h.protocol == SESSION_COMPLETION_PROTOCOL
       && Open(c, Pruned(a, now).mailboxes, id, token).Success?
    {
      var box := a.mailboxes[id];
      SessionTwin(box.sessions, b.mailboxes[id].sessions, t, requestId);
      if requestId in box.sessions && box.sessions[requestId].ready.None? {
        var checked := CheckCompletion(c, h, box.sessions[requestId].request, box.hostKey, box.hostFingerprint, now);
        if checked.Success? {
          var (handshake, v) := checked.value;
          var ready := SessionReady(IssuedReply(cfg, now, v, ticketId), handshake);
          CompleteStoreTwin(cfg, c, a, b, t, marked, now, id, token, requestId,
                            box.sessions[requestId].(ready := Some(ready)), v, ticketId, x, y);
        }
      }
    }
  }

  lemma NoneListedTwin(a: Memory, b: Memory, t: nat, marked: set<Str>, now: U64, name: Str)
    requires Similar(a, b, t, marked, now)
    ensures LiveHosts(b, name, now).Keys <= LiveHosts(a, name, now).Keys
  {
    hide SimilarBox, SimilarTickets, LiveNonces;
  }

  lemma ListTwin(a: Memory, b: Memory, t: nat, marked: set<Str>, now: U64, account: Str)
    requires Similar(a, b, t, marked, now)
    requires NormalizeAccount(Some(account)).Success? ==> LiveHosts(a, account, now) == map[]
    ensures Alike(PlanList(a, now, account), PlanList(b, now, account), t, marked, now)
  {
    hide SimilarBoxes, SimilarTickets, LiveNonces, LiveMailboxes, LiveHosts, NormalizeAccount;
    NormalizedIsItself(account);
    PrunedSimilar(a, b, t, marked, now);
    NoneListedTwin(a, b, t, marked, now, account);
    if NormalizeAccount(Some(account)).Success? {
      assert LiveHosts(b, account, now).Keys == {};
    }
  }

  /** The claim is of a ticket that was marked at the restart, and properly signed. */
  ghost predicate ClaimsMarked(c: Primitives, s: System, marked: set<Str>, ev: Event)
    requires ev.op.Claim?
  {
    var id, live := ev.op.ticketId, LiveTickets(s.memory.tickets, ev.now);
    id in marked && id in live && ProvesClaim(c, live[id], id, ev.op.role, ev.op.proof)
  }

  ghost predicate ClaimAlike(p: Plan<nat>, q: Plan<nat>, t: nat, marked: set<Str>, now: nat) {
    match (p, q)
    case (Refuse(e, a), Refuse(f, b)) => e == f && Similar(a, b, t, marked, now)
    case (Commit(_, a, u), Commit(_, b, v)) => Similar(a, b, t, marked, now) && Similar(u, v, t, marked, now)
    case _ => false
  }

  lemma ClaimStores(c: Primitives, s: System, ev: Event)
    requires ev.op.Claim?
    ensures var plan, m, id := ClaimPlan(c, s, ev), s.memory, ev.op.ticketId;
      var live := LiveTickets(m.tickets, ev.now);
      var pruned := m.(tickets := live);
      if id !in live then plan == Refuse(NotFound, pruned)
      else if !ProvesClaim(c, live[id], id, ev.op.role, ev.op.proof) then plan == Refuse(Unauthorized, pruned)
      else if Claimed(live[id], ev.op.role) then plan == Refuse(AlreadyClaimed, pruned)
      else
        var marked := SetClaimed(live[id], ev.op.role, true);
        && plan.Commit? && plan.undone == pruned
        && plan.next == m.(tickets := if marked.BothClaimed() then Remove(live, id) else live[id := marked])
  {
    hide ProvesClaim, LiveTickets;
  }

  /** A ticket that was not marked at the restart is the same in both but for its channel. */
  lemma TicketHeldTwin(a: Tickets, b: Tickets, marked: set<Str>, now: nat, id: Str, role: EndpointRole)
    requires SimilarTickets(a, b, marked, now)
    ensures var x, y := LiveTickets(a, now), LiveTickets(b, now);
      && (id in x <==> id in y)
      && (id in x ==> ToPersisted(x[id]) == ToPersisted(y[id]))
      && (id in x && id !in marked ==>
            && Claimed(x[id], role) == Claimed(y[id], role)
            && SetClaimed(x[id], role, true).BothClaimed() == SetClaimed(y[id], role, true).BothClaimed()
            && SimilarTicket(SetClaimed(x[id], role, true), SetClaimed(y[id], role, true), false))
  {
  }

  lemma TableTwin(a: Memory, b: Memory, t: nat, marked: set<Str>, now: nat, id: Str, x: Ticket, y: Ticket)
    requires Similar(a, b, t, marked, now) && SimilarTicket(x, y, false)
    ensures var u, v := LiveTickets(a.tickets, now), LiveTickets(b.tickets, now);
      && Similar(a.(tickets := u[id := x]), b.(tickets := v[id := y]), t, marked, now)
      && Similar(a.(tickets := Remove(u, id)), b.(tickets := Remove(v, id)), t, marked, now)
  {
    hide SimilarBoxes, SimilarTickets, SimilarAccounts, LiveNonces, LiveTickets, SimilarTicket;
    TicketsTwin(a.tickets, b.tickets, marked, now, now);
    TicketTwin(LiveTickets(a.tickets, now), LiveTickets(b.tickets, now), marked, now, id, x, y);
  }

  lemma ClaimTwin(c: Primitives, s: System, s': System, t: nat, marked: set<Str>, ev: Event)
    requires ev.op.Claim? && !ClaimsMarked(c, s, marked, ev)
    requires Similar(s.memory, s'.memory, t, marked, ev.now)
    ensures ClaimAlike(ClaimPlan(c, s, ev), ClaimPlan(c, s', ev), t, marked, ev.now)
  {
    hide SimilarBoxes, SimilarTickets, SimilarAccounts, LiveNonces, LiveTickets, ProvesClaim, ClaimPlan, ToPersisted,
      SimilarTicket, SetClaimed;
    var a, b, now, id, role := s.memory, s'.memory, ev.now, ev.op.ticketId, ev.op.role;
    PrunedSimilar(a, b, t, marked, now);
    ClaimStores(c, s, ev);
    ClaimStores(c, s', ev);
    TicketHeldTwin(a.tickets, b.tickets, marked, now, id, role);
    var x, y := LiveTickets(a.tickets, now), LiveTickets(b.tickets, now);
    if id in x {
      SameProof(c, x[id], y[id], id, role, ev.op.proof);
      if id !in marked {
        TableTwin(a, b, t, marked, now, id, SetClaimed(x[id], role, true), SetClaimed(y[id], role, true));
      }
    }
    hide Similar;
  }

  // ---- Step by step ----

  /** A call after which the two servers may reply differently, to it or to a later one. */
  ghost predicate Tells(cfg: Config, c: Primitives, s: System, t: nat, marked: set<Str>, ev: Event) {
    if ev.op.Claim? then ClaimsMarked(c, s, marked, ev) else CanTell(cfg, c, s, t, ev)
  }

  ghost predicate RepliesAgree(cfg: Config, c: Primitives, s: System, s': System, ev: Event)
    requires !ev.op.Crash?
  {
    && (!ev.op.Claim? ==> forall r :: Answers(cfg, c, s, ev, r) <==> Answers(cfg, c, s', ev, r))
    && (forall a, b :: ev.op.Claim? && Answers(cfg, c, s, ev, a) && Answers(cfg, c, s', ev, b) ==> Agree(a, b))
  }

  lemma PollsTwin(cfg: Config, c: Primitives, a: Memory, b: Memory, t: nat, marked: set<Str>, now: U64, id: Str,
                  token: Str, r: Result<Option<PendingSession>, RelayError>)
    requires Similar(a, b, t, marked, now) && t <= now
    ensures Polls(PlanNext(cfg, c, a, now, id, token), a.mailboxes, id, r)
       <==> Polls(PlanNext(cfg, c, b, now, id, token), b.mailboxes, id, r)
  {
    hide Gate, PlanNext, Open, LiveMailboxes, SimilarBoxes, SimilarTickets, SimilarAccounts, LiveNonces,
      UnexpiredSessions, PendingSessions, Hex.Encode;
    NextTwin(cfg, c, a, b, t, marked, now, id, token);
    NextPlans(cfg, c, a, now, id, token);
    NextPlans(cfg, c, b, now, id, token);
    OpenTwin(c, a.mailboxes, b.mailboxes, t, now, id, token);
    hide Similar;
  }

  /** The premises of one common step. */
  ghost predicate InStep(cfg: Config, c: Primitives, s: System, s': System, t: nat, marked: set<Str>, ev: Event) {
    && Similar(s.memory, s'.memory, t, marked, ev.now) && t <= ev.now
    && !ev.op.Crash? && !Tells(cfg, c, s, t, marked, ev)
    && (NamesMailbox(ev.op) ==> TableSound(s.memory, ev.op.mailboxId))
  }

  lemma WriteStepTwin(cfg: Config, c: Primitives, s: System, s': System, t: nat, marked: set<Str>, ev: Event,
                      s1: System, s1': System)
    requires InStep(cfg, c, s, s', t, marked, ev)
    requires ev.op.Register? || ev.op.Submit? || ev.op.Complete? || ev.op.CreateTicket?
    requires Step(cfg, c, s, ev, s1) && Step(cfg, c, s', ev, s1')
    ensures Similar(s1.memory, s1'.memory, t, marked, ev.now) && RepliesAgree(cfg, c, s, s', ev)
  {
    hide Similar, Gate, HoldsToken, Open, HingesOnDropped, ValidateClientSessionRequest, Restorable, TableSound,
      Alike, Authorized, SignedRequest, InTicketTime, PlanRegister, PlanSubmit, PlanComplete, PlanCreateTicket,
      ReplyOf, MemoryAfter, FileAfter, CompleteIssue, CreateIssue, AccountName;
    var a, b, now := s.memory, s'.memory, ev.now;
    match ev.op
    case Register(id, token, r) =>
      RegisterTwin(cfg, c, a, b, t, marked, now, id, token, r);
      AlikeIsTwin(RegisterPlan(cfg, c, s, ev), RegisterPlan(cfg, c, s', ev), cfg, ev.io, t, marked, now);
    case Submit(id, token, r, freshId) =>
      TokenOpens(c, s, ev);
      AdmittedAsValidated(cfg, c, s, ev);
      HolderFinds(c, a, now, id, token);
      SubmitTwin(cfg, c, a, b, t, marked, now, ev.io, id, token, r, freshId);
    case Complete(id, token, requestId, h, ticketId) =>
      TokenOpens(c, s, ev);
      AdmittedAsValidated(cfg, c, s, ev);
      HolderFinds(c, a, now, id, token);
      CompleteTwin(cfg, c, a, b, t, marked, now, id, token, requestId, h, ticketId, s.nextChannel, s'.nextChannel);
      AlikeIsTwin(CompletePlan(cfg, c, s, ev), CompletePlan(cfg, c, s', ev), cfg, ev.io, t, marked, now);
    case CreateTicket(admin, r, ticketId) =>
      CreateTwin(cfg, c, a, b, t, marked, now, admin, r, ticketId, s.nextChannel, s'.nextChannel);
      AlikeIsTwin(CreatePlan(cfg, c, s, ev), CreatePlan(cfg, c, s', ev), cfg, ev.io, t, marked, now);
  }

  lemma HolderFinds(c: Primitives, m: Memory, now: nat, id: Str, token: Str)
    ensures Open(c, LiveMailboxes(m.mailboxes, now), id, token).Success? ==>
      id in m.mailboxes && Open(c, LiveMailboxes(m.mailboxes, now), id, token).value == m.mailboxes[id]
  {
  }

  lemma ReadStepTwin(cfg: Config, c: Primitives, s: System, s': System, t: nat, marked: set<Str>, ev: Event,
                     s1: System, s1': System)
    requires InStep(cfg, c, s, s', t, marked, ev) && (ev.op.Next? || ev.op.Status? || ev.op.Ice? || ev.op.ListHosts?)
    requires Step(cfg, c, s, ev, s1) && Step(cfg, c, s', ev, s1')
    ensures Similar(s1.memory, s1'.memory, t, marked, ev.now) && RepliesAgree(cfg, c, s, s', ev)
  {
    hide Similar, Gate, Authorized, HoldsToken, Open, Restorable, TableSound, PlanNext, PlanStatus, PlanIce, PlanList,
      ReplyOf, MemoryAfter, Polls, Lists, LiveHosts, NormalizeAccount;
    var a, b, now := s.memory, s'.memory, ev.now;
    match ev.op
    case Next(id, token) =>
      NextTwin(cfg, c, a, b, t, marked, now, id, token);
      AlikeIsTwin(PlanNext(cfg, c, a, now, id, token), PlanNext(cfg, c, b, now, id, token), cfg, ev.io, t, marked, now);
      forall r ensures Answers(cfg, c, s, ev, r) <==> Answers(cfg, c, s', ev, r) {
        if r.Polled? {
          PollsTwin(cfg, c, a, b, t, marked, now, id, token, r.offer);
        }
      }
    case Status(id, token, requestId) =>
      TokenOpens(c, s, ev);
      AdmittedAsValidated(cfg, c, s, ev);
      HolderFinds(c, a, now, id, token);
      StatusTwin(cfg, c, a, b, t, marked, now, id, token, requestId);
      AlikeIsTwin(PlanStatus(cfg, c, a, now, id, token, requestId), PlanStatus(cfg, c, b, now, id, token, requestId),
                  cfg, ev.io, t, marked, now);
    case Ice(id, token) =>
      IceTwin(cfg, c, a, b, t, marked, now, id, token);
      AlikeIsTwin(PlanIce(cfg, c, a, now, id, token), PlanIce(cfg, c, b, now, id, token), cfg, ev.io, t, marked, now);
    case ListHosts(account) =>
      ListTwin(a, b, t, marked, now, account);
      AlikeIsTwin(PlanList(a, now, account), PlanList(b, now, account), cfg, ev.io, t, marked, now);
  }

  lemma ClaimStepTwin(cfg: Config, c: Primitives, s: System, s': System, t: nat, marked: set<Str>, ev: Event,
                      s1: System, s1': System)
    requires InStep(cfg, c, s, s', t, marked, ev) && ev.op.Claim?
    requires Step(cfg, c, s, ev, s1) && Step(cfg, c, s', ev, s1')
    ensures Similar(s1.memory, s1'.memory, t, marked, ev.now) && RepliesAgree(cfg, c, s, s', ev)
  {
    hide Similar, ClaimPlan, ClaimsMarked, FileAfter;
    ClaimTwin(c, s, s', t, marked, ev);
  }

  lemma StepTwin(cfg: Config, c: Primitives, s: System, s': System, t: nat, marked: set<Str>, ev: Event, s1: System,
                 s1': System)
    requires InStep(cfg, c, s, s', t, marked, ev)
    requires Step(cfg, c, s, ev, s1) && Step(cfg, c, s', ev, s1')
    ensures Similar(s1.memory, s1'.memory, t, marked, ev.now) && RepliesAgree(cfg, c, s, s', ev)
  {
    assert !ev.op.Crash?;
    hide InStep, Step, Similar, RepliesAgree;
    if ev.op.Claim? {
      ClaimStepTwin(cfg, c, s, s', t, marked, ev, s1, s1');
    } else if ev.op.Register? || ev.op.Submit? || ev.op.Complete? || ev.op.CreateTicket? {
      WriteStepTwin(cfg, c, s, s', t, marked, ev, s1, s1');
    } else {
      ReadStepTwin(cfg, c, s, s', t, marked, ev, s1, s1');
    }
  }

  // ---- Run by run ----

  /** A run from any state. */
  ghost predicate Continues(cfg: Config, c: Primitives, states: seq<System>, events: seq<Event>) {
    && |states| == |events| + 1
    && (forall i {:trigger events[i]} :: 0 <= i < |events| ==> Step(cfg, c, states[i], events[i], states[i + 1]))
  }

  /** The same calls to a server and to the same server after a restart, none of which tells. */
  ghost predicate SideBySide(cfg: Config, c: Primitives, crash: Event, states: seq<System>, states': seq<System>,
                             events: seq<Event>)
  {
    && Continues(cfg, c, states, events) && Continues(cfg, c, states', events)
    && Reachable(cfg, c, states[0]) && cfg.stateFile
    && states[0].now <= crash.now && CrashStep(cfg, states[0], crash, states'[0])
    && (forall i {:trigger events[i]} :: 0 <= i < |events| ==>
          && !events[i].op.Crash? && crash.now <= events[i].now
          && !Tells(cfg, c, states[i], crash.now, Marked(states[0].memory), events[i]))
  }

  lemma {:induction false} StaySimilar(cfg: Config, c: Primitives, crash: Event, states: seq<System>,
                                       states': seq<System>, events: seq<Event>, k: nat)
    requires SideBySide(cfg, c, crash, states, states', events) && k < |states|
    ensures Reachable(cfg, c, states[k])
    ensures Similar(states[k].memory, states'[k].memory, crash.now, Marked(states[0].memory),
                    Max(crash.now, states[k].now))
  {
    hide Similar, Step, Reachable, CrashStep, Tells, Marked;
    if k == 0 {
      RestartRebuilds(cfg, c, states[0], crash, states'[0]);
      RebuiltIsSimilar(states[0].memory, states'[0].memory, crash.now);
    } else {
      StaySimilar(cfg, c, crash, states, states', events, k - 1);
      var ev := events[k - 1];
      CommonStep(cfg, c, crash, states, states', events, k - 1);
      StepTwin(cfg, c, states[k - 1], states'[k - 1], crash.now, Marked(states[0].memory), ev, states[k], states'[k]);
      StepTime(cfg, c, states[k - 1], ev, states[k]);
      ReachableStep(cfg, c, states[k - 1], ev, states[k]);
    }
  }

  lemma CommonStep(cfg: Config, c: Primitives, crash: Event, states: seq<System>, states': seq<System>,
                   events: seq<Event>, k: nat)
    requires SideBySide(cfg, c, crash, states, states', events) && k < |events|
    requires Reachable(cfg, c, states[k])
    requires Similar(states[k].memory, states'[k].memory, crash.now, Marked(states[0].memory),
                     Max(crash.now, states[k].now))
    ensures InStep(cfg, c, states[k], states'[k], crash.now, Marked(states[0].memory), events[k])
    ensures Step(cfg, c, states[k], events[k], states[k + 1]) && Step(cfg, c, states'[k], events[k], states'[k + 1])
  {
    hide Similar, Step, Reachable, CrashStep, Tells, Marked, TableSound;
    assert Step(cfg, c, states[k], events[k], states[k + 1]);
    StepTime(cfg, c, states[k], events[k], states[k + 1]);
    SimilarLater(states[k].memory, states'[k].memory, crash.now, Marked(states[0].memory),
                 Max(crash.now, states[k].now), events[k].now);
    if NamesMailbox(events[k].op) {
      TableIsSound(cfg, c, states[k], events[k].op.mailboxId);
    }
  }

  /** A restart goes unnoticed by every run of calls none of which tells: they all get the
      replies that they would have got without it, up to the channels of claims. */
  lemma RestartUnnoticed(cfg: Config, c: Primitives, crash: Event, states: seq<System>, states': seq<System>,
                         events: seq<Event>, k: nat)
    requires SideBySide(cfg, c, crash, states, states', events) && k < |events|
    ensures !events[k].op.Crash? && RepliesAgree(cfg, c, states[k], states'[k], events[k])
  {
    hide Similar, Step, Reachable, CrashStep, Tells, Marked, InStep, RepliesAgree;
    StaySimilar(cfg, c, crash, states, states', events, k);
    CommonStep(cfg, c, crash, states, states', events, k);
    StepTwin(cfg, c, states[k], states'[k], crash.now, Marked(states[0].memory), events[k], states[k + 1],
             states'[k + 1]);
  }
}
