/** The tables behind the server's lock. */
module State {
  import opened Prelude
  import opened Protocol

  datatype StoredSession = StoredSession(request: ClientSessionRequest, ready: Option<SessionReady>)

  datatype Mailbox = Mailbox(
    tokenDigest: Bytes32,
    hostKey: Bytes,
    hostFingerprint: Str,
    expires: nat,
    sessions: map<Str, StoredSession>)

  /** `channel` names the arrival channel whose sender the ticket holds. */
  datatype Ticket = Ticket(
    hostKey: Bytes,
    clientKey: Bytes,
    expires: nat,
    hostClaimed: bool,
    clientClaimed: bool,
    channel: nat)
  {
    predicate BothClaimed() { hostClaimed && clientClaimed }
  }

  datatype AccountEntry = AccountEntry(hostFingerprint: Str, registeredAt: nat, lastSeen: nat)

  type Tickets = map<Str, Ticket>
  type Nonces = map<Bytes32, nat>
  type Mailboxes = map<Str, Mailbox>
  type Sessions = map<Str, StoredSession>
  type Accounts = map<Str, map<Str, AccountEntry>>

  datatype Memory = Memory(tickets: Tickets, nonces: Nonces, mailboxes: Mailboxes, accounts: Accounts)

  const EMPTY := Memory(map[], map[], map[], map[])

  function LiveTickets(m: Tickets, now: nat): Tickets {
    map k | k in m && m[k].expires > now :: m[k]
  }

  function LiveNonces(m: Nonces, now: nat): Nonces {
    map k | k in m && m[k] > now :: m[k]
  }

  function LiveMailboxes(m: Mailboxes, now: nat): Mailboxes {
    map k | k in m && m[k].expires > now :: m[k]
  }

  /** Sessions whose signed request has not expired. */
  function UnexpiredSessions(m: Sessions, now: nat): Sessions {
    map k | k in m && m[k].request.expires > now :: m[k]
  }

  predicate Restorable(s: StoredSession, now: nat) {
    s.request.expires > now && (s.ready.Some? ==> s.ready.value.ticket.expires > now)
  }

  /** Sessions that a restart would bring back. */
  function RestorableSessions(m: Sessions, now: nat): Sessions {
    map k | k in m && Restorable(m[k], now) :: m[k]
  }

  /** What survives a restart at a given time. */
  datatype View = View(tickets: map<Str, PersistedTicket>, nonces: Nonces, mailboxes: Mailboxes)

  datatype PersistedTicket = PersistedTicket(hostKey: Bytes, clientKey: Bytes, expires: nat)

  function ToPersisted(t: Ticket): PersistedTicket {
    PersistedTicket(t.hostKey, t.clientKey, t.expires)
  }

  /** Tickets that a restart would bring back; claim marks are lost. */
  function OpenTickets(m: Tickets, now: nat): map<Str, PersistedTicket> {
    map k | k in m && m[k].expires > now && !m[k].BothClaimed() :: ToPersisted(m[k])
  }

  function Restored(box: Mailbox, now: nat): Mailbox {
    box.(sessions := RestorableSessions(box.sessions, now))
  }

  function RestoredBoxes(m: Mailboxes, now: nat): Mailboxes {
    map k | k in m && m[k].expires > now :: Restored(m[k], now)
  }

  function LiveView(m: Memory, now: nat): View {
    View(OpenTickets(m.tickets, now), LiveNonces(m.nonces, now), RestoredBoxes(m.mailboxes, now))
  }

  /** The mailbox, nonce and ticket tables of `after` are those of `before` with nothing but
      expired entries dropped. */
  ghost predicate OnlyExpiredDropped(before: Memory, after: Memory, now: nat) {
    && Within(after.tickets, before.tickets)
    && (forall k <- before.tickets :: before.tickets[k].expires > now ==> k in after.tickets)
    && Within(after.nonces, before.nonces)
    && (forall k <- before.nonces :: before.nonces[k] > now ==> k in after.nonces)
    && (forall k <- after.mailboxes ::
          k in before.mailboxes && SessionsOnlyExpired(before.mailboxes[k], after.mailboxes[k], now))
    && (forall k <- before.mailboxes :: before.mailboxes[k].expires > now ==> k in after.mailboxes)
  }

  ghost predicate SessionsOnlyExpired(before: Mailbox, after: Mailbox, now: nat) {
    && after == before.(sessions := after.sessions)
    && Within(after.sessions, before.sessions)
    && (forall r <- before.sessions :: before.sessions[r].request.expires > now ==> r in after.sessions)
  }

  lemma SessionsDroppedKeepsBox(before: Mailbox, after: Mailbox, now: nat, t: nat)
    requires SessionsOnlyExpired(before, after, now) && now <= t
    ensures Restored(after, t) == Restored(before, t)
  {
    assert RestorableSessions(after.sessions, t) == RestorableSessions(before.sessions, t);
  }

  lemma ExpiredDroppedKeepsView(before: Memory, after: Memory, now: nat, t: nat)
    requires OnlyExpiredDropped(before, after, now) && now <= t
    ensures LiveView(after, t) == LiveView(before, t)
  {
    assert OpenTickets(after.tickets, t) == OpenTickets(before.tickets, t);
    assert LiveNonces(after.nonces, t) == LiveNonces(before.nonces, t);
    forall k <- after.mailboxes ensures Restored(after.mailboxes[k], t) == Restored(before.mailboxes[k], t) {
      SessionsDroppedKeepsBox(before.mailboxes[k], after.mailboxes[k], now, t);
    }
    assert RestoredBoxes(after.mailboxes, t) == RestoredBoxes(before.mailboxes, t);
  }

  /** What is left of a view at a later time. */
  function Age(v: View, t: nat): View {
    View(map k | k in v.tickets && v.tickets[k].expires > t :: v.tickets[k],
         LiveNonces(v.nonces, t),
         RestoredBoxes(v.mailboxes, t))
  }

  lemma RestoredTwice(box: Mailbox, now: nat, t: nat)
    requires now <= t
    ensures Restored(Restored(box, now), t) == Restored(box, t)
    ensures Restored(box, now).expires == box.expires
  {
    assert RestorableSessions(RestorableSessions(box.sessions, now), t) == RestorableSessions(box.sessions, t);
  }

  lemma BoxesAge(m: Mailboxes, now: nat, t: nat)
    requires now <= t
    ensures RestoredBoxes(RestoredBoxes(m, now), t) == RestoredBoxes(m, t)
  {
    hide Restored;
    var v := RestoredBoxes(m, now);
    forall k <- v
      ensures v[k] == Restored(m[k], now) && v[k].expires == m[k].expires && Restored(v[k], t) == Restored(m[k], t)
    {
      RestoredTwice(m[k], now, t);
    }
    assert RestoredBoxes(v, t).Keys == RestoredBoxes(m, t).Keys;
  }

  lemma LiveViewAges(m: Memory, now: nat, t: nat)
    requires now <= t
    ensures LiveView(m, t) == Age(LiveView(m, now), t)
  {
    hide RestoredBoxes;
    BoxesAge(m.mailboxes, now, t);
    assert LiveNonces(LiveNonces(m.nonces, now), t) == LiveNonces(m.nonces, t);
    assert OpenTickets(m.tickets, t) == Age(LiveView(m, now), t).tickets;
  }
}

/** The state file: what `persist_locked` writes and what `load` accepts and rebuilds. */
module Persistence {
  import opened Prelude
  import opened Protocol
  import opened State
  import opened Rules
  import opened Validation
  import Hex

  datatype PersistedNonce = PersistedNonce(nonce: Str, expires: nat)

  datatype PersistedRelayState = PersistedRelayState(
    version: int,
    tickets: map<Str, PersistedTicket>,
    nonces: seq<PersistedNonce>,
    mailboxes: Mailboxes)

  /** A file's decoded content together with its length in bytes. */
  datatype File = File(content: PersistedRelayState, size: nat)

  /** The file system's part in one attempt to persist: the length of the encoding, and whether
      writing, syncing and renaming the temporary file succeed. */
  datatype Io = Io(size: nat, writes: bool)

  datatype LoadError = TooLarge | UnsupportedVersion | TooManyEntries | InvalidNonce | InvalidMailbox | InvalidTicket

  ghost predicate EncodesOneOf(e: PersistedNonce, live: Nonces) {
    exists n: Bytes32 :: n in live && e == PersistedNonce(Hex.Encode(n), live[n])
  }

  ghost predicate ListsNonces(list: seq<PersistedNonce>, live: Nonces) {
    && |list| == |live|
    && (forall e <- list :: EncodesOneOf(e, live))
    && (forall n <- live :: PersistedNonce(Hex.Encode(n), live[n]) in list)
  }

  /** `p` is what `persist_locked` writes at `now`; the order of the nonce list is open. */
  ghost predicate Snapshot(p: PersistedRelayState, m: Memory, now: nat) {
    && p.version == PERSISTED_STATE_VERSION
    && p.tickets == OpenTickets(m.tickets, now)
    && ListsNonces(p.nonces, LiveNonces(m.nonces, now))
    && p.mailboxes == LiveMailboxes(m.mailboxes, now)
  }

  predicate NonceOk(e: PersistedNonce) {
    Hex.Decode(e.nonce, 32).Some?
  }

  predicate MailboxOk(id: Str, m: Mailbox) {
    && Hex.Decode(id, 32).Some?
    && |m.hostKey| == 32
    && IsFingerprint(m.hostFingerprint)
    && |m.sessions| <= MAX_PENDING_SESSIONS_PER_HOST
  }

  predicate TicketOk(id: Str, t: PersistedTicket) {
    && Hex.Decode(id, 16).Some?
    && |t.hostKey| == 32
    && 64 <= |t.clientKey| <= 256
  }

  /** The three entry caps, which `load` tests and `persist_locked` does not. */
  predicate WithinCaps(p: PersistedRelayState) {
    && |p.mailboxes| <= MAX_PERSISTED_MAILBOXES
    && |p.tickets| <= MAX_PERSISTED_TICKETS
    && |p.nonces| <= MAX_PERSISTED_NONCES
  }

  function RestoredNonces(list: seq<PersistedNonce>, now: nat): Nonces
    requires forall e <- list :: NonceOk(e)
  {
    if list == [] then map[]
    else
      var e := list[|list| - 1];
      assert NonceOk(e);
      var rest := RestoredNonces(list[..|list| - 1], now);
      if e.expires > now then rest[Hex.Decode(e.nonce, 32).value := e.expires] else rest
  }

  function RestoredView(p: PersistedRelayState, now: nat): View
    requires forall e <- p.nonces :: NonceOk(e)
  {
    View(map k | k in p.tickets && p.tickets[k].expires > now :: p.tickets[k],
         RestoredNonces(p.nonces, now),
         RestoredBoxes(p.mailboxes, now))
  }

  /** What `load` makes of a state file at `now`; a missing file is an empty state. */
  function Restore(file: Option<File>, now: nat): Result<View, LoadError> {
    match file
    case None => Success(View(map[], map[], map[]))
    case Some(f) =>
      var p := f.content;
      if f.size > MAX_PERSISTED_STATE_BYTES then Failure(TooLarge)
      else if p.version != PERSISTED_STATE_VERSION then Failure(UnsupportedVersion)
      else if !WithinCaps(p) then Failure(TooManyEntries)
      else if !(forall e <- p.nonces :: NonceOk(e)) then Failure(InvalidNonce)
      else if !(forall k <- p.mailboxes :: MailboxOk(k, p.mailboxes[k])) then Failure(InvalidMailbox)
      else if !(forall k <- p.tickets :: p.tickets[k].expires > now ==> TicketOk(k, p.tickets[k]))
      then Failure(InvalidTicket)
      else Success(RestoredView(p, now))
  }

  /** Which files `load` accepts, and the first thing wrong with those it does not. */
  lemma LoadRules(f: File, t: nat)
    ensures var p := f.content;
      Restore(Some(f), t)
        == if f.size > 16777216 then Failure(TooLarge)
           else if p.version != 1 then Failure(UnsupportedVersion)
           else if |p.mailboxes| > 4096 || |p.tickets| > 4096 || |p.nonces| > 16384 then Failure(TooManyEntries)
           else if exists e <- p.nonces :: Hex.Decode(e.nonce, 32).None? then Failure(InvalidNonce)
           else if exists k <- p.mailboxes :: !LegalMailbox(k, p.mailboxes[k]) then Failure(InvalidMailbox)
           else if exists k <- p.tickets :: p.tickets[k].expires > t && !LegalTicket(k, p.tickets[k])
           then Failure(InvalidTicket)
           else Success(View(map k | k in p.tickets && p.tickets[k].expires > t :: p.tickets[k],
                             RestoredNonces(p.nonces, t), RestoredBoxes(p.mailboxes, t)))
  {
    forall k <- f.content.mailboxes
      ensures LegalMailbox(k, f.content.mailboxes[k]) <==> MailboxOk(k, f.content.mailboxes[k])
    {
      FingerprintFormat(f.content.mailboxes[k].hostFingerprint);
    }
    hide LegalMailbox, MailboxOk, Hex.Decode, RestoredNonces, RestoredBoxes;
  }

  predicate LegalMailbox(id: Str, m: Mailbox) {
    && Hex.Decode(id, 32).Some? && |m.hostKey| == 32
    && |m.hostFingerprint| == 71 && m.hostFingerprint[..7] == Ascii("sha256:")
    && Hex.Decode(m.hostFingerprint[7..], 32).Some?
    && |m.sessions| <= 8
  }

  predicate LegalTicket(id: Str, t: PersistedTicket) {
    Hex.Decode(id, 16).Some? && |t.hostKey| == 32 && 64 <= |t.clientKey| <= 256
  }

  lemma {:induction false} RestoredNoncesExactly(list: seq<PersistedNonce>, live: Nonces, t: nat)
    requires forall e <- list :: NonceOk(e)
    requires forall e <- list :: EncodesOneOf(e, live)
    ensures forall n <- RestoredNonces(list, t) ::
              n in live && live[n] == RestoredNonces(list, t)[n] && live[n] > t
    ensures forall n <- live ::
              live[n] > t && PersistedNonce(Hex.Encode(n), live[n]) in list ==> n in RestoredNonces(list, t)
  {
    if list != [] {
      var e, front := list[|list| - 1], list[..|list| - 1];
      assert list == front + [e];
      assert forall x <- front :: x in list;
      assert e in list;
      RestoredNoncesExactly(front, live, t);
      var n :| n in live && e == PersistedNonce(Hex.Encode(n), live[n]);
      Hex.DecodeEncode(n, 32, 32);
      forall k <- live | live[k] > t && PersistedNonce(Hex.Encode(k), live[k]) in list
        ensures k in RestoredNonces(list, t)
      {
        if PersistedNonce(Hex.Encode(k), live[k]) !in front {
          Hex.EncodeInjective(k, n);
        }
      }
    }
  }

  lemma ListedNoncesOk(list: seq<PersistedNonce>, live: Nonces)
    requires ListsNonces(list, live)
    ensures forall e <- list :: NonceOk(e)
  {
    forall e <- list ensures NonceOk(e) {
      var n :| n in live && e == PersistedNonce(Hex.Encode(n), live[n]);
      Hex.DecodeEncode(n, 32, 32);
    }
  }

  lemma SnapshotNonces(p: PersistedRelayState, m: Memory, now: nat, t: nat)
    requires Snapshot(p, m, now) && now <= t
    ensures forall e <- p.nonces :: NonceOk(e)
    ensures RestoredNonces(p.nonces, t) == LiveNonces(m.nonces, t)
  {
    var live := LiveNonces(m.nonces, now);
    ListedNoncesOk(p.nonces, live);
    RestoredNoncesExactly(p.nonces, live, t);
    forall n <- LiveNonces(m.nonces, t) ensures n in RestoredNonces(p.nonces, t) {
      assert n in live;
    }
  }

  lemma SnapshotTickets(p: PersistedRelayState, m: Memory, now: nat, t: nat)
    requires p.tickets == OpenTickets(m.tickets, now) && now <= t
    ensures (map k | k in p.tickets && p.tickets[k].expires > t :: p.tickets[k]) == OpenTickets(m.tickets, t)
  {
  }

  /** Rebuilding a snapshot at any later time gives exactly the live view of memory at that time. */
  lemma SnapshotRestoresView(p: PersistedRelayState, m: Memory, now: nat, t: nat)
    requires Snapshot(p, m, now) && now <= t
    ensures forall e <- p.nonces :: NonceOk(e)
    ensures RestoredView(p, t) == LiveView(m, t)
  {
    hide RestoredNonces, LiveNonces, Restored, ListsNonces, NonceOk, ToPersisted;
    SnapshotNonces(p, m, now, t);
    var a, b := RestoredView(p, t), LiveView(m, t);
    SnapshotTickets(p, m, now, t);
    assert a.mailboxes == b.mailboxes;
  }
}
