# The Hypercast rendezvous server, modelled and verified in Dafny

This project models the rendezvous and relay server (`server/src/lib.rs`), the signed
transcripts it checks (`protocol-kit/src/transcripts.rs`), and two algorithms of the fixture
generator (`protocol-kit/tools/gen_fixtures.py`), and proves what they promise. To check every
statement, run `dafny verify dfyconfig.toml` with Dafny 4.11.

## How it is organised

The server keeps four tables behind one lock: host mailboxes with their sessions, tickets, used
nonces, and an account registry. Most operations drop expired entries, check, change the tables
in place, write a filtered copy to a file, and undo their own change by hand when the write
fails. A restart rebuilds the tables from the file.

- `Prelude`, `Hex`, `Transcripts`, `Protocol`: bytes, the two hexadecimal codings, the signed
  byte layouts with an independent reader, and the validators. A Rust string is its UTF-8 bytes.
  SHA-256, Ed25519 and P-256 are arbitrary functions (`Crypto.Primitives`), so every theorem
  holds whatever they compute.
- `Rules`: what the server demands of its callers, in plain conjunctions over fields, digests and
  signatures, with the error that each fault is refused with. The validators are proved to agree.
- `State`, `Transactions`: the tables, the file, and for each operation a *plan*: the whole
  operation as one atomic transaction, with what it refuses, what it answers, what it would
  commit, and what is left if the write fails. No rollback appears here.
- `AppState`: the server's object with mutable tables. Its methods follow the program: they
  prune, mutate, persist, and undo step by step. Each is proved to have exactly the effect of its
  plan on memory and file, for every answer of the file system.
- `Runs`, `Preservation`: a transition system over all operations and restarts, at any times of a
  monotone clock and with any answers of the file system, and the invariant that every step
  keeps.
- `Theorems`, `Meeting`, `Replay`, `Registry`, `Restarts`, `Twins`, `Promises`: what holds in every
  reachable state and over every run.
- `Replies`: case by case, what every caller is told and what a committed operation leaves, in
  terms of the rules and the tables alone.
- `Samples`, `Shortfalls`: steps that are always possible, and concrete runs from the start in
  which the server falls short.
- `Driver`: the object of `AppState` takes exactly the steps of that transition system, request
  by request and restart by restart, and gives its replies, so the theorems apply to it.
- `Relay`: the ticket broker and the forwarding loop, alone and as two interleaved, cancellable
  directions. `TurnCache`: the cached TURN credential. `Fixtures`: HKDF and scalar
  multiplication on the curve P-256.

Modelling choices. Each operation reads the clock once. Random ids are arguments, required to be
new (`Driver.FreshIds`, `Runs.SubmitStep` and its neighbours). `Persistence.Io` is the file
system's answer to one attempt to persist: the length of the encoding and whether the write goes
through; a write replaces the file or leaves it alone. The order in which a hash map is walked is
left open. The history components of `Runs.System` (ids drawn, tickets issued, claims granted,
last account of a mailbox) exist for the theorems and never influence a step.

## Where the code falls short of a rule

Each of these comes with its exact condition and a run, or a family of runs, in which it happens.

- Nonces are forgotten at a restart when no state file is configured. A used request is accepted
  again if and only if there is no file and a restart came in between
  (`Replay.AcceptedAgainIffForgotten`); between restarts, and always with a file, requests are
  single-use (`Replay.SecondUseNeedsRestart`). `Replay.ForgottenAfterRestart` shows the second use
  from any reachable state.
- `persist_locked` does not test the three entry caps that `load` tests. `load` accepts what was
  written if and only if the live tables are within the caps (`Theorems.WrittenFileLoads`).
  `Shortfalls.WrittenFileTooLarge` leads the server to write a file that it never loads again.
- Claim marks are not written, so with a file too a role can claim its ticket again with the same
  proof after a restart, and only then (`Meeting.RepeatedClaimIffRestarted`,
  `Shortfalls.ClaimGrantedTwice`). The two claims of a ticket are given one channel if and only if
  no restart came between them (`Meeting.ClaimsMeet`).
- A failed registration write leaves its registry entry behind. It is undone if and only if the
  mailbox was registered under that account within the same second
  (`Registry.FailedRegistrationUndone`). Otherwise any other legal account can bring it to light
  with the same signed registration (`Registry.FailedRegistrationRevealed`), whether the mailbox
  was live when the write failed (`Shortfalls.FailedRegistrationListed`) or not
  (`Shortfalls.FailedRegistrationSurfaces`): a live mailbox is then listed under an account whose
  only registration of it failed.
- A restart is not invisible to every caller. `Restarts.CanTell` names exactly the calls that get
  another reply (`Restarts.RestartKeepsReplies`, `Restarts.RestartShows`):
  `Shortfalls.RestartEmptiesListing` is a run for listings, `Shortfalls.ClaimGrantedTwice` one for
  claims. Every run of calls none of which tells gets the replies of a server that did not restart
  (`Twins.RestartUnnoticed`).

## Model

| member | source | states |
|---|---|---|
| Theorems.CrashRefinement | server/src/lib.rs:568-660 | In every reachable state and for every later time, `load` accepts the file exactly when it is within the entry caps, and then rebuilds precisely the live view of memory at that time |
| Theorems.RestartKeepsView | server/src/lib.rs:593-657 | After a restart the live view equals that of the server that had gone on running, at every later time |
| Restarts.RestartKeepsReplies | server/src/lib.rs:593-657 | With a state file, every call that `CanTell` does not name gets from the restarted server exactly the replies that the server would have given without the restart, up to the channel of a claim |
| Restarts.RestartShows | server/src/lib.rs:593-657 | Every call that it names gets another reply: listings of live hosts, claims of a marked role, status or completion of a session not brought back, and valid submissions whose refusal hinges on such a session |
| Restarts.VerdictSame | server/src/lib.rs:959-977 | The nonce test and the capacity test of a submission come out as without the restart if and only if they do not hinge on a session that is not brought back |
| Twins.RestartUnnoticed | server/src/lib.rs:593-657 | Over every run of calls none of which tells, all replies agree with those of a server that did not restart |
| Twins.StepTwin | server/src/lib.rs:558-1291 | Such a call leaves the two servers similar: the same nonces, live tickets and mailboxes but for marks, channels and sessions that are not brought back |
| Shortfalls.RestartEmptiesListing | server/src/lib.rs:621-625 | A run in which a live host is listed, and after a restart with its file is not, though its mailbox is brought back |
| Theorems.WrittenFileLoads | server/src/lib.rs:667-706 | A file left by a successful write loads if and only if the live mailboxes, tickets and nonces are within the three caps |
| Shortfalls.WrittenFileTooLarge | server/src/lib.rs:586-591 | For any encoded lengths that fit, a reachable state in which a committed write leaves a file that `load` rejects for its entry caps at every later time |
| Theorems.FailedWriteRollsBack | server/src/lib.rs:776-784 | Every operation that refuses, answers or fails to persist leaves the file alone and the mailbox, nonce and ticket tables as before, less expired entries |
| Theorems.StatusShowsPhase | server/src/lib.rs:1126-1163 | At any later time `session_status` shows a token holder exactly the phase of the session then: pending, ready with its value, expired if the session is held past its request, and not found otherwise |
| Theorems.NextOffersPending | server/src/lib.rs:998-1042 | At any later time the host is offered a session exactly when it is pending |
| Theorems.OfferIsTheRequest | server/src/lib.rs:1017-1040 | The offer holds exactly the stored request, the mailbox's own key and the fingerprint that names it, and every signature of the client in it verifies |
| Theorems.SubmissionEffect | server/src/lib.rs:959-996 | A committed submission makes its session pending, ends the same client's earlier session in that mailbox, and changes the phase of no other session anywhere |
| Theorems.RegistrationCommits | server/src/lib.rs:824-861 | A registration is committed if and only if the server is enabled, the mailbox id is the digest of the prefixed token, the host key signed the registration, it ends within ten minutes, the account name is legal, and a live mailbox has the same owner |
| Theorems.RegistrationEffect | server/src/lib.rs:834-861 | It holds the mailbox until the signed expiry, for the signing key and the presented token, with the sessions it had; every other live mailbox is unchanged and every expired one is gone |
| Registry.FailedRegistrationUndone | server/src/lib.rs:863-884 | A registration whose write failed leaves memory as it was, less expired mailboxes, if and only if the mailbox was registered under that account in the same second |
| Registry.FailedRegistrationRevealed | server/src/lib.rs:863-918 | The same signed registration under any other legal account then commits either way, and leaves the account of the failed one the same listing until the lease ends under exactly that condition, whether or not the mailbox was live |
| Registry.FailedRegistrationListing | server/src/lib.rs:863-884 | What every account lists after such a failure, at any later time with no other operation in between |
| Registry.FailedRegistrationTraceless | server/src/lib.rs:863-884 | As long as no other operation intervenes, those listings are as before if and only if the mailbox was not live or was registered under that account in the same second |
| Shortfalls.FailedRegistrationSurfaces | server/src/lib.rs:863-918 | A run from the start in which a failed registration of a mailbox that is not live shows after it is registered under another account |
| Shortfalls.FailedRegistrationListed | server/src/lib.rs:863-884 | A run in which a live mailbox is listed at once under an account whose only registration failed |
| Theorems.ServedExactlyToTokenHolders | server/src/lib.rs:2267-2280 | An operation on a mailbox is served only by an enabled server to the holder of the token that the id is the digest of and that the live mailbox was registered with; polling and the ICE configuration are never refused to that holder |
| Theorems.StrangersChangeNothing | server/src/lib.rs:2276-2280 | A call with another token changes nothing in memory but expired entries, and nothing in the file |
| Theorems.MailboxKeepsOwner | server/src/lib.rs:842-849 | While its lease lasts, no step, and no restart of a server with a state file, changes a mailbox's token, host key or fingerprint, or removes it |
| Theorems.StepAdvances | server/src/lib.rs:1146-1162 | In one step of any operation or a restart a session only moves forward: unborn, pending, ready with one value, gone |
| Theorems.SessionLifecycle | server/src/lib.rs:1063-1123 | Over every run with restarts a session never leaves gone, never returns from ready to pending, and its ready value never changes |
| Theorems.RepeatedCompletionAgrees | server/src/lib.rs:1070-1072 | Two completions of one session that reply, whatever happened in between, reply with the same value |
| Theorems.OneTicketPerSession | server/src/lib.rs:1097-1106 | At most one ticket is ever issued for a session; a session that has one is ready with that ticket, or gone |
| Theorems.OneTicketPerSignedRequest | server/src/lib.rs:806-822 | In every state reached with a state file, or without a restart, no two issued tickets rest on the same HCT1 transcript |
| Replay.SecondUseNeedsRestart | server/src/lib.rs:806-822 | In every run, two tickets issued on one HCT1 transcript, by completion or by direct request, have a restart between them and the server has no state file |
| Replay.AcceptedAgainIffForgotten | server/src/lib.rs:806-822 | A used request whose nonce was not used since is accepted again from the administrator, while valid, if and only if there is no state file and a restart came in between |
| Replay.CompletedAgainIffForgotten | server/src/lib.rs:1063-1106 | A stored request whose nonce was used is completed if and only if the host's part is genuine and, again, there is no state file and a restart came in between |
| Replay.NonceFreeIffForgotten | server/src/lib.rs:806-822 | While the request it was used with is valid, and unless used since, a nonce is free again if and only if there is no state file and a restart came in between |
| Theorems.LiveTicketNonceRemembered | server/src/lib.rs:1255-1290 | In every reachable state, with or without a file and whatever restarts, the nonce of every held ticket is remembered until its signed request expires, which is not before the ticket does |
| Replay.ForgottenAfterRestart | server/src/lib.rs:570-572 | Without a state file, whatever ticket request is accepted in any reachable state is accepted again, for a second ticket, after one restart at any time before it expires |
| Replay.SingleUseIffStateFile | server/src/lib.rs:806-822 | An enabled server keeps signed requests single-use in every run if and only if it is configured with a state file |
| Replay.SingleUseNeedsAFile | server/src/lib.rs:570-572 | A concrete run from the start in which one signed request yields two tickets |
| Theorems.GrantsPerChannel | server/src/lib.rs:745-788 | In every interleaving of claims, failed writes and restarts, at most two claims are granted on one channel, one for each role |
| Theorems.ClaimCommitsExactly | server/src/lib.rs:734-789 | A claim is granted if and only if the ticket is live, its role is unmarked, and the proof decodes to 64 to 80 bytes that verify, by Ed25519 under the host key or P-256 under the client key, on the message that reads as that role and ticket |
| Theorems.ProofMeans | server/src/lib.rs:2232-2244 | The server's proof test is exactly that rule |
| Theorems.ClaimIsAuthenticated | server/src/lib.rs:751-766 | A granted claim satisfies that rule for the keys that both signed the ticket's request |
| Meeting.ClaimsMeet | server/src/lib.rs:637-650 | Two granted claims are given the same channel if and only if they are of one ticket with no restart between them, and then have different roles |
| Meeting.PairedPartiesSignedOneRequest | server/src/lib.rs:745-788 | Two claims granted on one channel are a host's and a client's, each signed with the key that signed the one HCT1 transcript behind the ticket |
| Meeting.RepeatedClaimIffRestarted | server/src/lib.rs:637-650 | The last granted claim of a ticket by a role, repeated while the ticket is held, is granted again if and only if a restart came in between |
| Shortfalls.ClaimGrantedTwice | server/src/lib.rs:637-650 | A run, with a state file and any positive ticket lifetime, in which one claim with one proof is granted before and after a restart |
| Meeting.StepFollows | server/src/lib.rs:745-788 | A step never revives or alters a ticket whose id was drawn before; its channel changes only at a restart, to one never used; a claim mark comes from a granted claim and is lost only at a restart |
| Theorems.CompletionDependsOnTheHost | server/src/lib.rs:1082-1096 | Completing a stored unexpired request commits if and only if the host's handshake, answer and signature are genuine and the nonce is unused: no client-side check can fail |
| Replies.StatusReplies | server/src/lib.rs:1126-1163 | The reply to a status call in every case: disabled, not the owner of the id, no live mailbox, another token, no such session, expired, pending, ready |
| Replies.NextReplies | server/src/lib.rs:998-1042 | The same for a poll, which offers exactly the unexpired pending sessions |
| Replies.ListReplies | server/src/lib.rs:890-921 | A listing is refused exactly for an illegal name, and otherwise holds exactly the account's entries whose mailbox is live |
| Replies.RegisterReplies | server/src/lib.rs:824-861 | When a registration is refused, and with which error, in every case |
| Replies.SubmitReplies | server/src/lib.rs:923-985 | When a submission is refused, and with which error, in every case: caller, faults of the request, a used nonce, eight other clients |
| Replies.CompleteReplies | server/src/lib.rs:1044-1106 | When a completion is refused, answered or committed, and with which error or value, in every case |
| Replies.CreateReplies | server/src/lib.rs:1633-1645 | When a ticket request is refused, and with which error, in every case |
| Replies.ClaimRepliesExactly | server/src/lib.rs:734-789 | When a claim is refused, and with which error, in every case, and the channel that a granted one is given |
| Replies.WriteReplies | server/src/lib.rs:704-731 | What becomes of a reply when the file would be over 16 MiB or the write fails |
| Replies.TicketEffect | server/src/lib.rs:1255-1290 | A committed ticket request replies with the drawn id, the configured relay and the expiry of the ticket that it stores, which is the shorter of the configured lifetime and the request's; the nonce is remembered until the request expires |
| Replies.CompletionEffect | server/src/lib.rs:1097-1106 | A committed completion does the same for the stored request, makes its session ready with that reply and the host's handshake, and changes nothing else of any live mailbox |
| Replies.ClaimEffect | server/src/lib.rs:745-788 | A granted claim marks its role, ends the ticket if both are marked, and touches no other |
| Replies.RestartKeepsExactly | server/src/lib.rs:593-657 | What a restart with a file brings back, entry by entry: unexpired nonces, unmarked unexpired tickets, live mailboxes with the sessions whose request and ticket are unexpired |
| Promises.ReadyTellsTicketExpiry | server/src/lib.rs:1264-1282 | In every reachable state a ready session names the configured relay, and its expiry is that of the ticket it names as long as that ticket is held |
| Theorems.TicketProvenance | server/src/lib.rs:2199-2212 | In every reachable state, after restarts too, both keys of each ticket verified one common HCT1 transcript that outlives it |
| Theorems.SessionProvenance | server/src/lib.rs:2085-2106 | Each stored request has every field, fingerprint and signature in order for its mailbox, and each ready handshake verifies under the mailbox's host key on the transcript rebuilt from it |
| Theorems.SessionTableBounded | server/src/lib.rs:959-985 | Each reachable mailbox holds at most 8 sessions, with pairwise distinct nonces and client fingerprints |
| Theorems.FullTable | server/src/lib.rs:971-977 | The table is full after superseding exactly when eight unexpired sessions of other clients fill it; then superseding removed nothing |
| Theorems.FullTableRefusal | server/src/lib.rs:959-977 | A valid submission gets `CapacityExceeded` exactly when eight unexpired sessions of other clients fill the table and none has its nonce, and the refusal keeps every session |
| Theorems.ListedUnderLastAccount | server/src/lib.rs:862-873 | Between restarts each live mailbox is listed under the account of its last successful registration |
| Theorems.ListingKeepsLiveHosts | server/src/lib.rs:893-910 | Lazy pruning during a listing loses no live host of any account, at any later time |
| AccountListing.SortSorts | server/src/lib.rs:919-919 | Sorting lists exactly the same hosts in strictly increasing mailbox id |
| AccountListing.LessIsLexicographic | server/src/lib.rs:919-919 | The order is the byte order: the first difference decides and a prefix comes first |
| AccountListing.ListingUnique | server/src/lib.rs:890-921 | There is only one such listing of a registry |
| Driver.Dispatch | server/src/lib.rs:558-1291 | Each request served by the imperative object is one step of the transition system, from a reachable state to a reachable state, with a reply that the state allows |
| Driver.Restart | server/src/lib.rs:568-660 | Start-up from the file is the crash step, and succeeds if and only if there is nothing to load or the file is within the caps |
| Server.AppState.RegisterHost | server/src/lib.rs:824-886 | In-place registration with its rollback has exactly the effect of one atomic transaction, for every outcome of the write |
| Server.AppState.ListAccountHosts | server/src/lib.rs:890-921 | Returns, strictly sorted by mailbox id, exactly the account's entries whose lease is live, and prunes only the others |
| Server.AppState.SubmitSessionRequest | server/src/lib.rs:923-996 | In-place submission with its snapshot rollback has exactly the effect of one atomic transaction |
| Server.AppState.NextSessionRequest | server/src/lib.rs:998-1042 | Returns the offer of some pending unexpired session, with the mailbox's key and fingerprint, or none when there is none; drops only expired sessions |
| Server.AppState.CompleteSessionRequest | server/src/lib.rs:1044-1124 | Nonce, ticket and session change together with the file or not at all, though they are changed and undone one by one |
| Server.AppState.StageCompletion | server/src/lib.rs:1056-1106 | Up to its write a completion changes exactly one session, one nonce and one ticket, which the rollback removes |
| Server.AppState.SessionStatus | server/src/lib.rs:1126-1163 | Replies with the session's state and drops only expired mailboxes |
| Server.AppState.IceConfiguration | server/src/lib.rs:1165-1182 | Serves only the token holder of a live mailbox and drops only expired mailboxes |
| Server.AppState.UseRequestNonce | server/src/lib.rs:806-822 | Succeeds if and only if the nonce is not remembered, and remembers it until the request expires |
| Server.AppState.IssueTicketLocked | server/src/lib.rs:1255-1290 | Issues a ticket on a new channel if and only if the nonce is unused |
| Server.AppState.CreateTicket | server/src/lib.rs:1229-1253 | Direct issue, with its rollback, has exactly the effect of one atomic transaction |
| Server.AppState.Claim | server/src/lib.rs:734-789 | Marks, writes, unmarks or removes so that the whole is one atomic transaction, although the file is written before the removal |
| Server.AppState.PersistLocked | server/src/lib.rs:662-732 | Replaces the file by a snapshot of the live tables, or leaves it as it was and says why |
| Server.AppState.ListNonces | server/src/lib.rs:687-695 | The nonce list holds exactly the live nonces, each once, in any order of walking the table |
| Server.AppState.Load | server/src/lib.rs:568-660 | Accepts exactly the files that pass every check, reports the first failing one, and builds their view with fresh channels and no claim marks |
| Persistence.LoadRules | server/src/lib.rs:579-636 | Which files `load` accepts, and the first thing wrong with those it does not, in terms of sizes, lengths and formats |
| Server.AppState.LoadNonces | server/src/lib.rs:593-600 | Rejects if and only if some listed nonce is malformed, even an expired one |
| Server.AppState.LoadMailboxes | server/src/lib.rs:601-619 | Rejects if and only if some mailbox is malformed, even an expired one; keeps the restorable sessions |
| Server.AppState.LoadTickets | server/src/lib.rs:626-650 | Rejects if and only if some unexpired ticket is malformed; the others get distinct new channels |
| Server.SnapshotOmitsClaimed | server/src/lib.rs:669-675 | Removing a ticket with both marks changes no snapshot, so writing before the removal is sound |
| Persistence.SnapshotRestoresView | server/src/lib.rs:667-699 | Rebuilding a snapshot at any later time gives exactly the live view of memory at that time |
| Persistence.RestoredNoncesExactly | server/src/lib.rs:593-600 | A nonce list read back in order holds exactly the listed unexpired nonces, through the hexadecimal round trip |
| State.ExpiredDroppedKeepsView | server/src/lib.rs:747-749 | Dropping expired entries at one time changes no live view at that time or later |
| State.LiveViewAges | server/src/lib.rs:610-618 | The live view at a later time is determined by the live view now |
| Rollback.RegisterQuiet | server/src/lib.rs:874-884 | A refused or undone registration drops only expired entries |
| Rollback.SubmitQuiet | server/src/lib.rs:959-991 | So does a refused or undone submission, although expired and superseded sessions are removed before the capacity check |
| Rollback.CompleteQuiet | server/src/lib.rs:1107-1116 | So does a refused, repeated or undone completion |
| Rollback.CreateQuiet | server/src/lib.rs:1235-1239 | So does a refused or undone ticket request |
| Rollback.ClaimQuiet | server/src/lib.rs:776-784 | So does a refused or undone claim |
| Preservation.NoWriteIsUneventful | server/src/lib.rs:776-784 | A step that commits no write changes nothing but expired entries and the ids drawn |
| Preservation.StepKeepsInv | server/src/lib.rs:558-1291 | Every operation and every restart keeps the invariant on mailboxes, tickets, nonces, claims, provenance, file and accounts |
| Preservation.RunKeepsInv | server/src/lib.rs:558-1291 | The invariant holds at every point of every run |
| Validation.ValidateHostRegistration | server/src/lib.rs:1867-1909 | Acceptance yields a well-formed mailbox id, a 32-byte key with the declared fingerprint and a lease inside the limit |
| Validation.RegistrationRefusedForFaults | server/src/lib.rs:1867-1909 | A registration is refused exactly for its faults, each with its error: `InvalidRegistration` for its fields or its lease, `Unauthorized` for its signature; the kit's decoding of the mailbox id cannot fail there |
| Validation.RequestRefusedForFaults | server/src/lib.rs:1911-2064 | A session request is refused exactly for its faults, in the order of the checks and each with its error: fields and window, the two signatures, the form of the offer, the signature of the offer |
| Validation.TicketRequestRefusedForFaults | server/src/lib.rs:2167-2219 | A ticket request is refused exactly for its faults: `InvalidTicketRequest` for its fields or its window, `Unauthorized` for either signature |
| Validation.CompletionRefusedForFaults | server/src/lib.rs:2066-2154 | The completion of a sound stored request is refused exactly for the faults of the host or the clock, in the order of the checks and each with its error |
| Validation.ClockTestSplits | server/src/lib.rs:1911-2034 | A session request is valid if and only if it is signed throughout and expires within five minutes |
| Validation.AuthorizedOwnsId | server/src/lib.rs:2267-2274 | A caller is authorized if and only if the mailbox id is the digest of the prefix and the token |
| Validation.AccountIsLegal | server/src/lib.rs:537-549 | A name registers and lists if and only if it has 1 to 64 letters, digits, hyphens and underscores; no name stands for "default" |
| Validation.SdpIsLegal | server/src/lib.rs:2156-2165 | An SDP is accepted if and only if it begins with "v=0" and a line end, holds no zero byte, and has at most 65536 bytes |
| Validation.FingerprintNames | server/src/lib.rs:2309-2322 | A key's fingerprint is the only string that names it: "sha256:" and the lower-case digest |
| Validation.CompletionAcceptedIffGenuine | server/src/lib.rs:2066-2154 | A completion is accepted if and only if its handshake verifies and a signed answer is present exactly when an offer was; it is returned unchanged |
| Validation.StoredRequestRevalidates | server/src/lib.rs:2167-2219 | For a sound stored request, the ticket validation reduces to the window and the host's signature, with the error for each |
| Validation.ValidIffEncodesEvidence | server/src/lib.rs:2167-2219 | A ticket request is valid if and only if it is the canonical encoding of evidence that both keys signed, in its window; that evidence is unique |
| Validation.EvidenceOf | server/src/lib.rs:2167-2219 | A valid ticket request carries two signatures by different keys over one transcript, in the window |
| Transcripts.LayoutIsUnambiguous | protocol-kit/src/transcripts.rs:24-143 | A byte string is the layout of a message if and only if the independent reader reads that message from it, over all six transcripts and the claim message |
| Transcripts.LayoutInjective | server/src/lib.rs:2221-2230 | No two different messages, of one kind or of two, have the same bytes |
| Transcripts.FixedLengths | protocol-kit/src/transcripts.rs:24-143 | The lengths are 124, 108, 180, 212, 148 and 148, and each kind begins with its own four letters |
| Transcripts.TicketRequestTranscript | protocol-kit/src/transcripts.rs:25-40 | The reader recovers every field from the built bytes, keys up to their digest |
| Transcripts.HostRegistrationTranscript | protocol-kit/src/transcripts.rs:44-58 | Likewise, whenever the kit's decoder accepts the mailbox id |
| Transcripts.HandshakeOfferTranscript | protocol-kit/src/transcripts.rs:62-79 | Likewise |
| Transcripts.SessionHandshakeTranscript | protocol-kit/src/transcripts.rs:83-106 | Likewise, with the four digests appended in a loop |
| Transcripts.P2pOfferTranscript | protocol-kit/src/transcripts.rs:110-125 | Likewise |
| Transcripts.P2pAnswerTranscript | protocol-kit/src/transcripts.rs:129-143 | Likewise |
| Transcripts.EndpointClaimMessage | server/src/lib.rs:2221-2230 | The reader recovers role and ticket from the built bytes |
| Hex.DecodesExactlyItsEncoding | server/src/lib.rs:2324-2348 | Decoding within a length window and encoding are inverse on exactly the accepted strings |
| Hex.StringEqualityIsByteEquality | server/src/lib.rs:962-966 | Comparing two accepted nonce strings compares the nonces |
| KitHex.EncodeHex | protocol-kit/src/transcripts.rs:159-167 | The kit's encoder agrees with the server's on all bytes |
| KitHex.DecodeHex | protocol-kit/src/transcripts.rs:171-182 | The kit's in-place decoder accepts exactly the mixed-case strings whose lower-cased form the server accepts, with the same bytes |
| KitHex.AgreesWithServer | protocol-kit/src/transcripts.rs:50-50 | Wherever the server decodes, the kit decodes to the same bytes |
| KitHex.ReencodesToLowerCase | protocol-kit/src/transcripts.rs:159-182 | The kit accepts a string for given bytes if and only if its lower-cased form encodes them |
| Broker.RunTicketBroker | server/src/lib.rs:1694-1734 | Pairs exactly two arrivals of different roles, the host always in the host position whichever came first; the exact conditions of the two refusals |
| Broker.ArrivalsHaveDifferentRoles | server/src/lib.rs:1707-1711 | Two arrivals on one channel never have the same role, so that branch is never taken |
| Broker.ChannelNeverOverflows | server/src/lib.rs:637-637 | At most two arrivals are ever sent on a channel of capacity two |
| Relay.ForwardOpaque | server/src/lib.rs:1799-1841 | Delivers a prefix of the forwardable frames; ends early only when its sink fails; otherwise returns what the stream calls for; the statistics summarise what was delivered; the loop takes the steps of a direction |
| Relay.RelayForwardStats.Record | server/src/lib.rs:1754-1760 | Keeps the totals equal to the capped true counts |
| Relay.RelayForwardsAPrefix | server/src/lib.rs:1736-1744 | Under any interleaving and cancellation each peer receives, in order and unchanged, a prefix of what the other may forward, all of 77 to 8388736 bytes and beginning with "HCE1" and version 1; the statistics miss at most one frame in flight |
| Relay.EndingIsFaithful | server/src/lib.rs:1808-1841 | A direction that ends by itself is complete, or its sink failed while sending or flushing |
| Relay.EndedDirectionsAreComplete | server/src/lib.rs:1736-1744 | In every run a direction that reports success, or an invalid envelope, has delivered and recorded exactly what it may forward and reports what its source calls for |
| Relay.ForwardableAreEnvelopes | server/src/lib.rs:1848-1853 | Only frames that the source sent may be forwarded, of 77 to 8388736 bytes and beginning with "HCE1" and version 1 |
| Relay.HonestStreamDelivered | server/src/lib.rs:1799-1841 | A source of such frames, pings and pongs that ends or closes is delivered whole, with success, when no send fails |
| Relay.DeliveredFramesAreSealed | server/src/lib.rs:1799-1841 | Every delivered frame is such a frame |
| TurnCache.CfTurnCache.Get | server/src/lib.rs:254-266 | A hit returns the cached credential and is younger than the lifetime less 300 s; otherwise the provider's answer is returned and cached if it is one |
| TurnCache.FetchesAreSpaced | server/src/lib.rs:254-266 | Over any sequence of calls, successful fetches are at least the lifetime less 300 s apart |
| TurnCache.FetchesAreFew | server/src/lib.rs:254-266 | A run of length T makes at most T / (TTL - 300 s) + 1 successful fetches |
| Hkdf.HkdfSha256 | protocol-kit/tools/gen_fixtures.py:43-50 | For every length up to 255 blocks the loop returns the output of section 2.3 of RFC 5869; beyond, the counter byte raises |
| Hkdf.ShorterIsPrefix | protocol-kit/tools/gen_fixtures.py:43-50 | A shorter output is a prefix of a longer one |
| Hkdf.OutputChains | protocol-kit/tools/gen_fixtures.py:43-50 | Every block of an output, the last one cut off, is the HMAC of the previous block, `info` and the block's number from 1, with no block before the first |
| P256.Mul | protocol-kit/tools/gen_fixtures.py:93-101 | Double-and-add returns the k-fold sum for exactly the scalars 0 < k < N, wherever addition is associative |
| P256.SumReflects | protocol-kit/tools/gen_fixtures.py:75-90 | Over any field, `_add` of two points of a curve is a point of the curve: none exactly when they are opposite, and otherwise the reflection of the third point on their chord, or on the tangent when they are equal |
| P256.TimesOnCurve | protocol-kit/tools/gen_fixtures.py:63-101 | With P-256's constants, every k-fold sum of a point of the curve is a reduced point of the curve |
| P256.TimesSum | protocol-kit/tools/gen_fixtures.py:75-90 | The sum of a-fold and b-fold is (a+b)-fold |
| P256.TimesDouble | protocol-kit/tools/gen_fixtures.py:75-90 | 2k-fold of a point is k-fold of its double |

## Left out

- Clock: the program reads it several times in one operation (before the lock, inside a `retain`, in `validate_*`, in `persist_locked`, through `unix_ms_after`); the model reads it once per operation, and operations see non-decreasing times.
- Random ids: they never repeat and their generator never fails; a failing `random_hex` at `server/src/lib.rs:978` or `1262` would leave a change that is not persisted.
- Theorems.OneTicketPerSignedRequest: holds under `Invariants.Durable`; for a server without a file that has restarted, Replay.SecondUseNeedsRestart says what holds and Replay.AcceptedAgainIffForgotten what does not.
- Theorems.ListedUnderLastAccount: says nothing of older accounts; a mailbox may stay listed under an earlier account and `or_insert_with` keeps an old fingerprint, so no uniqueness is claimed of the registry.
- Cancellation: every operation runs to its end. A handler that is dropped at an await inside `persist_locked`, for instance when its client disconnects, would leave a staged change (such as the claim mark of `server/src/lib.rs:767-775`) that is neither undone nor answered.
- Twins.RestartUnnoticed: `Tells` is exact for the first call only; in a run it names properly signed claims of a ticket that either role had marked at the restart, and every listing of live hosts, although the same hosts may have registered with both servers since.
- P256.Mul: associativity of `_add` is a hypothesis; closure on the curve is P256.TimesOnCurve.
- P256.TimesOnCurve: that P is prime, and so that `_inv` inverts, is the hypothesis `P256.Field`.
- Server.AppState.IceConfiguration: covers the mailbox check only; the list of STUN and TURN servers and the TURN user names are left out.
- Broker.RunTicketBroker: the deadline is an event of the input, and no claim is made about how long it waits; that each granted claim sends once on its channel is the hypothesis `Broker.SentByGrants`.
- Relay.ForwardOpaque: one run without cancellation, and a frame that the sink took but failed to flush counts as not delivered; both are in the step relation of the two directions.
- Cryptography: digests and signatures are arbitrary functions, so nothing is said about collisions or forgery; constant-time comparison is equality.
- JSON: the file's content is a value with an abstract length; the temporary file, sync and rename are one step that succeeds or leaves the old file.
- Administrator authorization and HTTP routing, headers, CORS, WebSocket upgrade, health, speed test, metrics, telemetry, trace ids and environment parsing.
- The Cloudflare HTTP fetch and its response parsing, and the fixture generator's frame encoders, which have no decoder to be inverse to.
