/** The account registry, the one table that a failed write does not restore. */
module Registry {
  import opened Prelude
  import opened Crypto
  import opened Protocol
  import opened Rules
  import opened Validation
  import opened State
  import opened Persistence
  import opened Transactions
  import opened Server
  import opened Runs
  import opened Preservation
  import opened Theorems

  /** The registry entry that a registration leaves. */
  function EntryAfter(m: Memory, account: Str, id: Str, fingerprint: Str, seconds: nat): AccountEntry {
    if account in m.accounts && id in m.accounts[account] then m.accounts[account][id].(lastSeen := seconds)
    else AccountEntry(fingerprint, seconds, seconds)
  }

  lemma RegistrationPlans(cfg: Config, c: Primitives, s: System, ev: Event)
    requires ev.op.Register? && RegisterPlan(cfg, c, s, ev).Commit?
    ensures var plan, r := RegisterPlan(cfg, c, s, ev), ev.op.registration;
      var accounts := Upsert(s.memory.accounts, AccountName(r), ev.op.mailboxId, r.hostFingerprint, ev.now / 1000);
      && plan.next == s.memory.(mailboxes := plan.next.mailboxes, accounts := accounts)
      && plan.undone == s.memory.(mailboxes := LiveMailboxes(s.memory.mailboxes, ev.now), accounts := accounts)
  {
    hide CheckRegistration, Upsert;
    CheckedRegistration(cfg, c, ev.now, ev.op.mailboxId, ev.op.token, ev.op.registration);
  }

  lemma PrunedListing(m: Memory, now: nat, account: Str, t: nat)
    requires now <= t
    ensures LiveHosts(m.(mailboxes := LiveMailboxes(m.mailboxes, now)), account, t) == LiveHosts(m, account, t)
  {
    var pruned := m.(mailboxes := LiveMailboxes(m.mailboxes, now));
    assert LiveHosts(pruned, account, t).Keys == LiveHosts(m, account, t).Keys;
  }

  lemma UpsertListing(m: Memory, name: Str, id: Str, fingerprint: Str, seconds: nat, account: Str, t: nat)
    ensures LiveHosts(m.(accounts := Upsert(m.accounts, name, id, fingerprint, seconds)), account, t)
         == if account == name && id in m.mailboxes && m.mailboxes[id].expires > t
            then LiveHosts(m, account, t)[id := EntryAfter(m, name, id, fingerprint, seconds)]
            else LiveHosts(m, account, t)
  {
    var listed := LiveHosts(m.(accounts := Upsert(m.accounts, name, id, fingerprint, seconds)), account, t);
    if account == name && id in m.mailboxes && m.mailboxes[id].expires > t {
      assert listed.Keys == LiveHosts(m, account, t).Keys + {id};
    } else {
      assert listed.Keys == LiveHosts(m, account, t).Keys;
    }
  }

  /** A registration whose write fails is undone but for its registry entry, which the account
      it named lists from then on, as long as nothing else happens and an earlier lease of the
      mailbox lasts. */
  lemma FailedRegistrationListing(cfg: Config, c: Primitives, s: System, ev: Event, account: Str, t: nat)
    requires ev.op.Register? && RegisterPlan(cfg, c, s, ev).Commit? && ev.now <= t
    ensures var plan, id, r := RegisterPlan(cfg, c, s, ev), ev.op.mailboxId, ev.op.registration;
      var entry := EntryAfter(s.memory, AccountName(r), id, r.hostFingerprint, ev.now / 1000);
      LiveHosts(plan.undone, account, t)
        == if account == AccountName(r) && id in LiveMailboxes(s.memory.mailboxes, t)
           then LiveHosts(s.memory, account, t)[id := entry] else LiveHosts(s.memory, account, t)
  {
    hide RegisterPlan, Upsert, LiveHosts;
    var m, r := s.memory, ev.op.registration;
    RegistrationPlans(cfg, c, s, ev);
    PrunedListing(m, ev.now, account, t);
    UpsertListing(m.(mailboxes := LiveMailboxes(m.mailboxes, ev.now)), AccountName(r), ev.op.mailboxId,
                  r.hostFingerprint, ev.now / 1000, account, t);
  }

  /** The account names the mailbox already, with an entry of the same second. */
  predicate JustRegistered(m: Memory, account: Str, id: Str, seconds: nat) {
    account in m.accounts && id in m.accounts[account] && m.accounts[account][id].lastSeen == seconds
  }

  /** As long as nothing else happens, no listing shows it exactly when the mailbox was not live,
      or was registered under that account within the same second. */
  lemma FailedRegistrationTraceless(cfg: Config, c: Primitives, s: System, ev: Event)
    requires ev.op.Register? && RegisterPlan(cfg, c, s, ev).Commit?
    ensures (forall account, t: nat :: ev.now <= t ==>
               LiveHosts(RegisterPlan(cfg, c, s, ev).undone, account, t) == LiveHosts(s.memory, account, t))
       <==> (ev.op.mailboxId !in LiveMailboxes(s.memory.mailboxes, ev.now)
             || JustRegistered(s.memory, AccountName(ev.op.registration), ev.op.mailboxId, ev.now / 1000))
  {
    hide RegisterPlan;
    var m, id, name := s.memory, ev.op.mailboxId, AccountName(ev.op.registration);
    var undone := RegisterPlan(cfg, c, s, ev).undone;
    if id !in LiveMailboxes(m.mailboxes, ev.now) || JustRegistered(m, name, id, ev.now / 1000) {
      forall account, t: nat | ev.now <= t ensures LiveHosts(undone, account, t) == LiveHosts(m, account, t) {
        FailedRegistrationListing(cfg, c, s, ev, account, t);
      }
    } else {
      FailedRegistrationListing(cfg, c, s, ev, name, ev.now);
      assert LiveHosts(undone, name, ev.now)[id].lastSeen == ev.now / 1000;
      assert LiveHosts(undone, name, ev.now) != LiveHosts(m, name, ev.now);
    }
  }

  /** It is undone exactly when the mailbox was registered under that account within the same
      second; nothing that happens later can then tell. */
  lemma FailedRegistrationUndone(cfg: Config, c: Primitives, s: System, ev: Event)
    requires ev.op.Register? && RegisterPlan(cfg, c, s, ev).Commit?
    ensures RegisterPlan(cfg, c, s, ev).undone == s.memory.(mailboxes := LiveMailboxes(s.memory.mailboxes, ev.now))
       <==> JustRegistered(s.memory, AccountName(ev.op.registration), ev.op.mailboxId, ev.now / 1000)
  {
    hide RegisterPlan, LiveMailboxes;
    var m, id, name, seconds := s.memory, ev.op.mailboxId, AccountName(ev.op.registration), ev.now / 1000;
    RegistrationPlans(cfg, c, s, ev);
    var after: Accounts := RegisterPlan(cfg, c, s, ev).undone.accounts;
    assert name in after && id in after[name] && after[name][id].lastSeen == seconds;
    if JustRegistered(m, name, id, seconds) {
      assert after[name] == m.accounts[name];
      assert after == m.accounts;
    }
  }

  /** The same signed registration, naming another account: the signature does not cover it. */
  function Elsewhere(ev: Event, other: Option<Str>): Event
    requires ev.op.Register?
  {
    ev.(op := ev.op.(registration := ev.op.registration.(account := other)))
  }

  lemma ElsewhereCommits(cfg: Config, c: Primitives, s: System, ev: Event, other: Option<Str>, m: Memory)
    requires ev.op.Register? && RegisterPlan(cfg, c, s, ev).Commit? && NormalizeAccount(other).Success?
    requires m.mailboxes == LiveMailboxes(s.memory.mailboxes, ev.now)
    ensures RegisterPlan(cfg, c, s.(memory := m), Elsewhere(ev, other)).Commit?
  {
    hide RegisterPlan, Authorized, NormalizeAccount, InLease, LegalAccount;
    AccountIsLegal(other);
    RegistrationCommits(cfg, c, s, ev);
    RegistrationCommits(cfg, c, s.(memory := m), Elsewhere(ev, other));
    assert LiveMailboxes(m.mailboxes, ev.now) == m.mailboxes;
    SignatureIgnoresAccount(c, ev.op.mailboxId, ev.op.registration, other);
    hide SignedRegistration;
  }

  lemma SignatureIgnoresAccount(c: Primitives, id: Str, r: HostRegistrationRequest, other: Option<Str>)
    ensures SignedRegistration(c, id, r.(account := other)) == SignedRegistration(c, id, r)
  {
  }

  /** Otherwise any other legal account brings it to light: when the same signed registration is
      made there, both from the undone memory and from the one that it should be, the account of
      the failed one lists the mailbox differently until the lease ends. */
  lemma FailedRegistrationRevealed(cfg: Config, c: Primitives, s: System, ev: Event, other: Option<Str>, t: nat)
    requires ev.op.Register? && RegisterPlan(cfg, c, s, ev).Commit?
    requires NormalizeAccount(other).Success? && NormalizeAccount(other) != Success(AccountName(ev.op.registration))
    requires t < ev.op.registration.expires
    ensures var m := s.memory.(mailboxes := LiveMailboxes(s.memory.mailboxes, ev.now));
      var undone := RegisterPlan(cfg, c, s, ev).undone;
      var a := RegisterPlan(cfg, c, s.(memory := undone), Elsewhere(ev, other));
      var b := RegisterPlan(cfg, c, s.(memory := m), Elsewhere(ev, other));
      var name := AccountName(ev.op.registration);
      && a.Commit? && b.Commit?
      && (LiveHosts(a.next, name, t) == LiveHosts(b.next, name, t) <==>
            JustRegistered(s.memory, name, ev.op.mailboxId, ev.now / 1000))
  {
    hide RegisterPlan, LiveMailboxes, NormalizeAccount, Upsert;
    var m := s.memory.(mailboxes := LiveMailboxes(s.memory.mailboxes, ev.now));
    var undone := RegisterPlan(cfg, c, s, ev).undone;
    RegistrationPlans(cfg, c, s, ev);
    ElsewhereCommits(cfg, c, s, ev, other, undone);
    ElsewhereCommits(cfg, c, s, ev, other, m);
    ElsewhereLists(cfg, c, s.(memory := undone), ev, other, t);
    ElsewhereLists(cfg, c, s.(memory := m), ev, other, t);
    SameMailboxes(cfg, c, s, ev, other, undone, m);
    var after := m.(mailboxes := RegisterPlan(cfg, c, s.(memory := m), Elsewhere(ev, other)).next.mailboxes);
    var r := ev.op.registration;
    UpsertListing(after, AccountName(r), ev.op.mailboxId, r.hostFingerprint, ev.now / 1000, AccountName(r), t);
    var accounts := Upsert(after.accounts, AccountName(r), ev.op.mailboxId, r.hostFingerprint, ev.now / 1000);
    assert undone.(mailboxes := after.mailboxes) == after.(accounts := accounts);
    EntryShows(after, AccountName(r), ev.op.mailboxId, r.hostFingerprint, ev.now / 1000, t);
  }

  /** A commit elsewhere changes no other account's registry, and leaves the mailbox live. */
  lemma ElsewhereLists(cfg: Config, c: Primitives, s: System, ev: Event, other: Option<Str>, t: nat)
    requires ev.op.Register? && RegisterPlan(cfg, c, s, Elsewhere(ev, other)).Commit?
    requires NormalizeAccount(other) != Success(AccountName(ev.op.registration))
    requires t < ev.op.registration.expires
    ensures var next, name := RegisterPlan(cfg, c, s, Elsewhere(ev, other)).next, AccountName(ev.op.registration);
      && LiveHosts(next, name, t) == LiveHosts(s.memory.(mailboxes := next.mailboxes), name, t)
      && ev.op.mailboxId in next.mailboxes && next.mailboxes[ev.op.mailboxId].expires > t
  {
    hide Gate, Upsert, LiveMailboxes, NormalizeAccount, ValidateHostRegistration;
    var again, name := Elsewhere(ev, other), AccountName(ev.op.registration);
    var next := RegisterPlan(cfg, c, s, again).next;
    RegistrationPlans(cfg, c, s, again);
    CheckedRegistration(cfg, c, ev.now, again.op.mailboxId, again.op.token, again.op.registration);
    hide RegisterPlan;
    var m := s.memory.(mailboxes := next.mailboxes);
    UpsertListing(m, AccountName(again.op.registration), ev.op.mailboxId, ev.op.registration.hostFingerprint,
                  ev.now / 1000, name, t);
  }

  lemma SameMailboxes(cfg: Config, c: Primitives, s: System, ev: Event, other: Option<Str>, a: Memory, b: Memory)
    requires ev.op.Register? && a.mailboxes == b.mailboxes
    requires RegisterPlan(cfg, c, s.(memory := a), Elsewhere(ev, other)).Commit?
    requires RegisterPlan(cfg, c, s.(memory := b), Elsewhere(ev, other)).Commit?
    ensures RegisterPlan(cfg, c, s.(memory := a), Elsewhere(ev, other)).next.mailboxes
         == RegisterPlan(cfg, c, s.(memory := b), Elsewhere(ev, other)).next.mailboxes
  {
    hide CheckRegistration, Upsert, LiveMailboxes;
  }

  lemma EntryShows(m: Memory, name: Str, id: Str, fingerprint: Str, seconds: nat, t: nat)
    requires id in m.mailboxes && m.mailboxes[id].expires > t
    ensures LiveHosts(m, name, t)[id := EntryAfter(m, name, id, fingerprint, seconds)] == LiveHosts(m, name, t)
       <==> JustRegistered(m, name, id, seconds)
  {
    var entry, listed := EntryAfter(m, name, id, fingerprint, seconds), LiveHosts(m, name, t);
    assert listed[id := entry] == listed <==> id in listed && listed[id] == entry;
  }
}
