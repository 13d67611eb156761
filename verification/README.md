# Verification model of the identity, gateway and email services

This project models the parts of the repository in which correctness depends on
whole runs, on concurrency, or on code that is split over services, and proves
what those parts promise. `dafny verify dfyconfig.toml` checks all of it.

## How it is built

* **Step systems.** The outbox publisher, the email consumer group, the shared
  gRPC channel, the account handlers and the start-up of the signing key are step
  systems: a state, actions that carry every choice of the environment (faults,
  crashes, lost replies, late appends, batches with ties broken either way), and
  runs as sequences of actions. Properties hold over all runs.
* **Code under interference.** The Rust code that works step by step is written
  again as classes (`PublisherLoop.Replica`, `Channel.IdentityChannel`,
  `AccountsCode.Database`, `Keys.KeyService`, `Sessions.SessionStore`,
  `Consumer.Handler`). Between two of its statements `Others` lets everybody else
  act; each statement that touches shared state is one action of the step system,
  so that what the code does is a run and inherits what is proved of runs. Faults are
  choices of the environment; `calm` excludes them, so that the contracts say when the
  code succeeds as well as what a success means.
* **One system in the end.** `Accounts` says which events exist, `Publisher` and
  `Consumer` what becomes of them; `Services` runs all three together, so that an
  email is followed back to the request that committed its event.
* **Text and keys.** base64url, hex, JWT, JWK and cookies are functions on text,
  with exact round trips.

| file | what it covers |
|---|---|
| `Outbox.dfy`, `Publisher.dfy` | outbox table, routing, the publisher step system |
| `PublisherSafety.dfy`, `PublisherOrder.dfy`, `PublisherDuplicates.dfy`, `Drain.dfy` | its invariant, the order of first deliveries, duplicates, and how fast it drains |
| `PublisherLoop.dfy` | the `run` loop as code |
| `Consumer.dfy`, `Pipeline.dfy` | the email service, and the whole way from commit to email |
| `Channel.dfy` | the channel rebuilt after an SVID rotation |
| `Accounts.dfy`, `AccountsSafety.dfy`, `RateLimit.dfy`, `AccountsCode.dfy` | accounts, tokens, events, the sliding-window limit, and the handlers as code |
| `Base64Url.dfy`, `Text.dfy`, `Libraries.dfy`, `Jwt.dfy`, `Auth.dfy`, `Keys.dfy`, `Kek.dfy` | tokens, keys and their text forms |
| `Acceptance.dfy` | what an accepted token is, for every text |
| `Cookies.dfy`, `Sessions.dfy` | the session cookie and the store behind it |
| `GatewayLogin.dfy` | from a login over both services to the requests its session serves |
| `Liveness.dfy` | from every reachable state the pipeline can be brought to an end |
| `Services.dfy` | handlers, publisher and email service as one system |

## What the proofs found

Each point is a lemma with the exact condition or a concrete run.

* A poll is sure to publish something exactly if fewer than `batch_size`
  unroutable rows are as old as the oldest routable row; otherwise the publisher
  may be stuck for ever (`Drain.ProgressExactlyWhen`).
* In every run the records of an event are at most one plus the faults charged for
  it, and the loss of a lock session between fetch and mark is such a fault
  (`PublisherDuplicates.BoundedDuplicates`): it alone makes overlapping leaders
  publish an event twice (`PublisherDuplicates.DropMidPollDuplicates`). The replica
  that lost its session fetches no more (`PublisherSafety.DroppedReplicaFetchesNoMore`).
* As the consumer group reads from the end of the log while it has no committed
  offset, a restart before the first commit skips what was not settled
  (`Pipeline.SkippingRun`, `Pipeline.RejoinSkips`); no record is ever skipped exactly
  in the runs whose joins find a committed offset or nothing left to settle
  (`Pipeline.NothingSkippedExactlyWhen`).
* Calls get a fresh channel in all runs exactly if no rotation fell between the
  handshake in `new` and its reading of the sequence number, which it reads after
  connecting (`Channel.FreshExactlyWhen`).
* The limit of three verification mails an hour is `2 + k` when `k` requests are
  between count and insert, and that bound is attained (`RateLimit.RateLimited`,
  `RateLimit.RateLimitIsTight`).
* An access token of second `t` is accepted exactly from `t - 30` to `t + 930`
  precisely when `t + 960` fits in a u64: `now + leeway` wraps around for larger
  `t` (`Keys.WindowExactlyWhen`). A debug build would panic there. No login makes such
  a `t`: its seconds are an i64, and not negative since 1970
  (services/identity/src/services/login.rs:107-117).
* A session lasts seven days, and the access token in it 930 seconds from the login:
  in between the gateway still finds the session, and the identity service refuses
  every request made with it (`GatewayLogin.LoginServes`).
* Nothing is stuck for ever as long as fewer unroutable rows than the batch size wait
  and every record decodes (`Liveness.EverythingResolved`, `Services.EventsReachInbox`);
  behind a record that does not decode no consumer ever gets (`Liveness.CorruptBlocks`).
* A sealed empty private key does not load again: the length test asks for at
  least one byte of ciphertext (`Keys.StoredKeyLoads`).
* `update_password` does not look at the number of rows its update reached, so an
  account deleted in between leads to a mail about a change that did not happen
  (`AccountsSafety.MailWithoutChange`, `AccountsSafety.PasswordStoredExactlyWhen`).
* A cookie whose name only starts with `__Host-sid`, in front of the session
  cookie, makes the request unauthorized (`Cookies.LongerNameHides`).

## Assumptions

* PostgreSQL: committed transactions are atomic; a conditional UPDATE waits for
  the row's writer and then tests its condition again; session advisory locks end
  with the session; unique indexes hold.
* The broker appends a produce request at most once, and only the publisher puts
  mails on the topic; other producers may add empty or undecodable records.
* Resend sends at most one email an idempotency key, and remembers keys for ever.
* One monotone clock; the SVID sequence number does not go down.
* Random bytes drawn for tokens differ from all drawn before; of session tokens only
  `Sessions.CookieReachesSession` and `GatewayLogin.LoginServes` need that. SHA-256 is injective (a constructor).
* ECDSA, AES-256-GCM, JSON and UUID text are functions with the laws in
  `Libraries.Lawful` and `Libraries.SealBinds`: reading undoes writing for every value
  of the JSON library that is not nested too deeply, and fails for deeper ones;
  verifying accepts what the same pair signed; opening undoes sealing, opens nothing
  else, and nothing is sealed alike under two keys or key ids. A generated private key
  is not empty.
* Nobody but `verify_email` changes an account's status; whoever deletes accounts
  sets `deleted_at` only.
* Consumers commit offsets they have reached; a consumer that lost its partition may
  still do so.
* base64url decoding is that of the base64ct library: strict about trailing bits.

## Model

| member | source | states |
|---|---|---|
| PublisherSafety.InvKept | services/identity/src/outbox/publisher.rs:139-292 | every action of replicas, broker, database and handlers keeps the invariant that the claims about reachable states rest on: rows in the partition are committed rows, a published row is in it, older rows of one fetch precede |
| PublisherSafety.InvHolds | services/identity/src/outbox/publisher.rs:139-292 | the invariant holds after every run |
| PublisherSafety.NothingLost | services/identity/src/outbox/publisher.rs:266-288 | a committed routable event is unpublished, so still fetchable, or its own row is in the partition; an event without topic is never marked |
| PublisherOrder.FirstDeliveryOrder | services/identity/src/outbox/publisher.rs:183-289 | over every run with overlapping leaders and any faults: an event created strictly earlier than a record's event, and committed before the fetch that record comes from, has a record before it |
| PublisherOrder.OriginOf | services/identity/src/outbox/publisher.rs:169-269 | every published record comes from one fetch, one send and one append, and what it has seen is exactly what was committed at that fetch |
| PublisherOrder.OriginUnique | services/identity/src/outbox/publisher.rs:169-269 | the fetch, the send and the append of a record are determined by the run |
| PublisherOrder.OrderWhenUntouched | services/identity/src/outbox/db.rs:85-91 | in particular, an event committed while nobody deals with a later one yet comes before every record of it |
| PublisherSafety.DroppedReplicaFetchesNoMore | services/identity/src/outbox/publisher.rs:131-166 | a replica whose lock session dropped fetches no more batches for the rest of its life |
| PublisherSafety.OnlyCommitAddsRows | services/identity/src/outbox/db.rs:32-51 | only a committed insert adds events to the table |
| PublisherDuplicates.OneReplicaPolls | services/identity/src/outbox/publisher.rs:133-166 | while no session drops during a poll, at most one replica is inside a batch |
| PublisherDuplicates.BoundedDuplicates | services/identity/src/outbox/publisher.rs:258-288 | in every run an event's records are at most one plus its ambiguous produces, failed marks, crashes between produce and mark, and session losses while its replica fetches or still has it |
| PublisherDuplicates.DropMidPollDuplicates | services/identity/src/outbox/db.rs:53-71 | a run without any failing produce, mark or process in which one session loss gives two records: the bound is attained |
| Drain.FaultFreeRound | services/identity/src/outbox/publisher.rs:168-289 | a poll without faults is a run that appends exactly the routable rows of its batch, in order, and marks them |
| Drain.DrainRound | services/identity/src/outbox/db.rs:78-94 | such a poll publishes at least min(routable, limit - unroutable) rows and leaves the unroutable ones alone |
| Drain.BacklogDrains | services/identity/src/outbox/publisher.rs:168-195 | on tables: k fault-free polls empty a backlog of up to k * (limit - unroutable) rows, whichever batches the database returns |
| Drain.DrainsOverRun | services/identity/src/outbox/publisher.rs:139-292 | the same over a run of the publisher: exactly the moves of k fault-free polls, with any batches the database may return, are a run that leaves no backlog, appends published records only, and has one for every row it marks |
| Drain.SomeRounds | services/identity/src/outbox/db.rs:78-110 | the query always has a batch to return, so that there are such polls of any number |
| Drain.ProgressExactlyWhen | services/identity/src/outbox/publisher.rs:184-195 | every possible batch makes progress exactly if fewer than limit unroutable rows are as old as the oldest routable one |
| PublisherLoop.World.TryAcquireLeaderLock | services/identity/src/outbox/db.rs:62-71 | the lock test under interference: held, refused because another session holds it, or an error that may still have taken the lock |
| PublisherLoop.World.FetchUnpublished | services/identity/src/outbox/db.rs:78-110 | at most `batch_size` rows, any answer the query may give, and there always is one; or a database error that ends the poll |
| PublisherLoop.World.Produce | services/identity/src/outbox/publisher.rs:258-280 | success means that the record is in the partition, failure means nothing |
| PublisherLoop.World.MarkPublished | services/identity/src/outbox/db.rs:115-125 | the mark succeeds, or fails with or without having been applied |
| PublisherLoop.Replica.PublishRow | services/identity/src/outbox/publisher.rs:184-288 | one row: skipped exactly if its type is not `auth_email`; else sent exactly if the client of `email.auth` is there, cached or new, and the batch ended for want of it otherwise; the loop goes on after a skip or a failed mark and ends after a failed produce |
| PublisherLoop.Replica.ProduceAndMark | services/identity/src/outbox/publisher.rs:258-288 | a failed produce ends the batch with the row unmarked, a failed mark does not |
| PublisherLoop.Replica.PassOver | services/identity/src/outbox/publisher.rs:183-289 | the batch loop makes one step a row, in order, up to the end or the first stop; with the client cached it stops early only at a failed produce |
| PublisherLoop.Replica.Poll | services/identity/src/outbox/publisher.rs:145-290 | one poll under all interference is a lock test, a fetch and a pass; leadership is tested once, at its start |
| PublisherLoop.Replica.Run | services/identity/src/outbox/publisher.rs:139-292 | the replica's own moves are complete polls, one after the other, and then the shutdown, under all interference; once a row was sent, no later poll stops for want of a client |
| PublisherLoop.Replica.PartitionClient | services/identity/src/outbox/publisher.rs:233-256 | a cached client is used again, a new one is cached, a refused one is not |
| Consumer.Handler.TrySend | services/email/src/consumer/handler.ts:66-115 | a message Resend accepted counts as sent; a failure one of the five listed texts occurs in counts as failed; any other failure is thrown, with its very text, and not counted here |
| Consumer.Handler.HandleAuthEmailMessage | services/email/src/consumer/handler.ts:56-132 | one call counts exactly one of sent and failed; it throws, with the error of the message, exactly if Resend did not accept it and none of the five listed texts occurs in the error |
| Consumer.DeliverExactly | services/email/src/consumer/index.ts:47-94 | one delivery, whole: the consumer moves on exactly if the handler returns, a message given up on is recorded with the text of its error, Resend takes a message at most once a key, nothing else changes |
| Consumer.RoutedHere | services/identity/src/outbox/publisher.rs:22-30 | the one event type that is routed goes to the topic the email service reads |
| Consumer.InvKept | services/email/src/consumer/index.ts:47-94 | every delivery, commit, join and leave keeps: all records from where a consumer started up to where it is, or was committed, are settled, and each key was mailed once |
| Consumer.DeliverSettles | services/email/src/consumer/index.ts:48-93 | a worker moves past a record only when it was empty, accepted, or given up on with a non-retryable error |
| Consumer.TakesDelivered | services/email/src/sender/resend.ts:28-41 | Resend's side changes only by the message a worker is at |
| Consumer.CompleteExactlyWhen | services/email/src/consumer/index.ts:42-45 | a step keeps all records since the group's first start settled exactly if it is not a join without committed offset that leaves unsettled ones behind |
| Pipeline.PipelineRefines | services/email/src/sender/resend.ts:28-41 | over every run of publishers and consumers each step is nothing, one commit, or one email for a committed event not mailed before |
| Pipeline.EmailsAreCommittedEvents | services/identity/src/services/sign_up.rs:107-122 | no two emails of one event, and every email is the message of a committed routable event |
| Pipeline.ConsumerAccounting | services/email/src/consumer/index.ts:47-94 | between the start of the consumer whose offset is committed and that offset each record was empty, mailed, or given up on with a non-retryable error |
| Pipeline.StartOf | services/email/src/consumer/index.ts:42-45 | each consumer's start is the end of the log at a join that found no committed offset |
| Pipeline.CleanAccounting | services/email/src/consumer/index.ts:42-94 | with clean joins the accounting goes back to where the group first started |
| Pipeline.NothingSkippedExactlyWhen | services/email/src/consumer/index.ts:42-45 | no record is ever skipped exactly in the runs in which every join finds a committed offset or nothing left to settle |
| Pipeline.RejoinSkips | services/email/src/consumer/index.ts:42-92 | from any state before the first commit, a retryable failure, a restart and a commit leave a mail behind the committed offset, neither sent nor given up on |
| Pipeline.SkippingRun | services/email/src/consumer/index.ts:42-92 | a whole run that skips the first mail |
| Pipeline.EndToEnd | services/identity/src/outbox/publisher.rs:266-288 | a published event has a record, and once a consumer that started before it has committed an offset behind it, the email was sent exactly once or given up on |
| Liveness.EverythingResolved | services/email/src/consumer/index.ts:47-94 | from every reachable state with fewer unroutable rows than the limit, an idle replica that can lead and a consumer in front of which all records decode: enough fault-free polls, whichever batches they get, and then accepted deliveries to the end of the log are a run after which every committed routable event that waits, or has a record behind the consumer's start, was mailed exactly once or given up on |
| Liveness.CorruptBlocks | services/email/src/consumer/index.ts:48-93 | in no run does a consumer get behind a record that does not decode unless it started there |
| Channel.InvKept | services/gateway/src/pool.rs:85-109 | every interleaved step of calls, rotations, failed and cancelled connects keeps the channel invariant, the write lock's exclusiveness included |
| Channel.FreshExactlyWhen | services/gateway/src/pool.rs:63-109 | all clients returned in all runs use a channel at least as new as the number their call read, exactly if no rotation fell inside `new` |
| Channel.StaleRun | services/gateway/src/pool.rs:63-64 | otherwise the first call gets the old channel |
| Channel.RebuildBound | services/gateway/src/pool.rs:85-105 | after rotation stops with k calls holding an old number there are at most 2k + 1 rebuilds |
| Channel.RebuildBoundIsTight | services/gateway/src/pool.rs:85-105 | for every k a schedule reaches 2k + 1 |
| Channel.CreatedSeqGoesDown | services/gateway/src/pool.rs:93-102 | a call with an old number overwrites a newer stored one |
| Channel.IdentityChannel.constructor | services/gateway/src/pool.rs:51-74 | `new` reads the sequence after connecting; without rotation in between the invariant holds |
| Channel.IdentityChannel.Connect | services/gateway/src/pool.rs:111-122 | a connect may fail before or after the handshake and leaves the shared channel alone |
| Channel.IdentityChannel.RebuildIfStale | services/gateway/src/pool.rs:92-104 | under the write lock: recheck, rebuild, store, return; an error installs nothing |
| Channel.IdentityChannel.Client | services/gateway/src/pool.rs:85-109 | `client` under all interference returns a channel at least as new as the number it read first, or the error of its own connect |
| AccountsSafety.InvKept | services/identity/src/services/verify_email.rs:40-133 | every action of concurrent requests keeps locks exclusive, tokens distinct, statuses, events, history and names consistent |
| AccountsSafety.VerificationMachine | services/identity/src/services/verify_email.rs:98-133 | over every run: verified iff active iff some token consumed; each token consumed by exactly one committed call; every login after a committed verification of that user |
| AccountsSafety.ConsumedInTime | services/identity/src/services/verify_email.rs:40-58 | over every run: a consumed token passed an expiry test at a moment when it had not expired |
| AccountsSafety.LockedRowsStay | services/identity/src/services/verify_email.rs:98-133 | while a call holds a token's row, or a user's, nobody else changes it |
| AccountsSafety.EventConservation | services/identity/src/services/sign_up.rs:125-156 | over every run: events are tokens plus committed password changes; each token has exactly one event with its user and code, and each verification event a token |
| AccountsSafety.TokenLivesAnHour | services/identity/src/services/sign_up.rs:97-100 | over every run: a token's 32 bytes were drawn by exactly one action, not after its row was created, and it expires 3600 seconds after that draw |
| AccountsSafety.CodeUsable | services/identity/src/services/verify_email.rs:42-64 | the code in an event finds its own token, exactly while unconsumed, up to 3600 seconds after its draw, and redeeming it runs exactly if the user is not deleted |
| AccountsSafety.PasswordStoredExactlyWhen | services/identity/src/services/update_password.rs:96-120 | every committed password change adds an event; the hash is stored exactly if the account is not deleted |
| AccountsSafety.MailWithoutChange | services/identity/src/services/update_password.rs:50-120 | from any state, a deletion in between gives the event without the change |
| AccountsSafety.NamesKept | services/identity/src/services/update_profile.rs:45-68 | user names and addresses of accounts not deleted stay different, letter case aside, under sign-ups and renames |
| AccountsSafety.SameNameExactly | services/identity/src/services/mod.rs:432-455 | two names are one to the indexes exactly if they differ in the case of letters at most |
| AccountsSafety.TakenExactly | services/identity/src/services/sign_up.rs:162-200 | the unique indexes refuse a name or an address exactly if an account not deleted has it, letter case aside |
| AccountsSafety.AddressesKept | services/identity/src/services/resend_verification.rs:81-88 | every event goes to the address of the account it is for |
| AccountsSafety.FindToken | services/identity/src/services/verify_email.rs:77-95 | a row found has the hash and is unconsumed; none found means that all rows with the hash are consumed |
| AccountsSafety.RedeemableToken | services/identity/src/services/verify_email.rs:40-58 | a token to go on with is unconsumed and not expired |
| RateLimit.RateLimited | services/identity/src/services/resend_verification.rs:64-120 | with at most k requests between count and commit, every one-hour window holds at most 2 + k of a user's tokens, sign-up's included |
| RateLimit.RateLimitIsTight | services/identity/src/services/resend_verification.rs:64-120 | for every k from one on a run reaches 2 + k |
| RateLimit.BoundedKept | services/identity/src/services/resend_verification.rs:101-141 | every action keeps: tokens in a window plus requests that may still add to it are at most 2 + k |
| RateLimit.WindowInRecent | services/identity/src/services/resend_verification.rs:128-141 | the count covers every window that is still open |
| RateLimit.RecentTokensExactly | services/identity/src/services/resend_verification.rs:128-141 | the count is the number of the user's tokens younger than 3600 seconds |
| Services.EmailsTraceBack | services/identity/src/services/sign_up.rs:99-156 | over every run of all services: each email is one event that a handler committed, says what the event says, goes to the address of its user and is the only one of its event; the code read in it finds a token of that user exactly while it is unconsumed, up to 3600 seconds after the handler drew it |
| Services.BodyReads | services/identity/src/services/sign_up.rs:107-122 | the payload of every event can be read back from its mail |
| Services.EventsReachInbox | services/identity/src/outbox/publisher.rs:139-292 | from every such state of all services, the same moves alone mail every event a handler has committed, exactly once, to its user's address and with its payload, a verification with the code of a token of that user, or give it up, unless its records lie in front of the consumer's start |
| Services.CommitEnabled | services/identity/src/outbox/db.rs:32-51 | whatever a handler may commit the publisher's table can take: the joint system loses no behaviour of the handlers |
| AccountsCode.FindByEmail | services/identity/src/services/mod.rs:432-455 | a found account is not deleted and has the address, letter case aside; none found means that the address is free |
| AccountsCode.EmailIsUnique | services/identity/src/services/mod.rs:432-455 | the address leads to no other account, so the query never meets two rows |
| AccountsCode.ValidUsernameExactly | services/identity/src/services/validation.rs:2-13 | a user name is valid exactly if it has 1 to 64 characters, all of them ASCII letters, digits, `_` or `-` |
| AccountsCode.ByteLengthExactly | services/identity/src/services/validation.rs:16-32 | the lengths of passwords and addresses are counted in bytes of UTF-8 |
| AccountsCode.RunGrows | services/identity/src/services/verify_email.rs:98-133 | over any run rows stay, addresses too; only user name, password, status, deletion and consumption change, and an active account stays active |
| AccountsCode.Database.GenerateVerificationToken | services/identity/src/crypto/token.rs:16-25 | 32 fresh bytes; the text decodes to the bytes that were hashed |
| AccountsCode.Database.CheckInput | services/identity/src/services/sign_up.rs:74-85 | the first complaint there is about name, address and password, in characters and bytes of UTF-8, or none |
| AccountsCode.Database.SignUp | services/identity/src/services/sign_up.rs:65-160 | under interference: input errors in their order and without effect, taken names, or account, token and event committed together, in two moves of its own, the token good for 3600 seconds from its draw; it fails only when something around it does |
| AccountsCode.Database.InsertAccount | services/identity/src/services/sign_up.rs:124-200 | the unique indexes decide at the commit, user names before addresses |
| AccountsCode.Database.CountRecentTokens | services/identity/src/services/resend_verification.rs:63-67 | unless the query fails, allowed exactly if fewer than three tokens are younger than an hour at the count |
| AccountsCode.Database.ResendVerification | services/identity/src/services/resend_verification.rs:45-124 | unknown or not pending: answered like success and without effect; refused at three recent tokens; otherwise exactly one token, good for 3600 seconds from its draw, and its event, committed together by exactly four moves of its own; in a run without faults a silent answer means unknown or not pending |
| AccountsCode.Database.CountAndReissue | services/identity/src/services/resend_verification.rs:63-124 | a refusal means three or more recent tokens at the count, an issue fewer; a success has issued; nothing is committed otherwise |
| AccountsCode.Database.ConsumeToken | services/identity/src/services/verify_email.rs:98-114 | the conditional update gets the row only if nobody consumed it in the meantime, and gives up only on a row that is locked |
| AccountsCode.Database.MarkEmailVerified | services/identity/src/services/verify_email.rs:117-133 | no row reached means that the user is deleted, and the token stays unconsumed |
| AccountsCode.Database.RedeemToken | services/identity/src/services/verify_email.rs:60-64 | after the lookup: exactly consume, mark and commit, or nothing verified and the reason |
| AccountsCode.Database.LookUpUnexpired | services/identity/src/services/verify_email.rs:40-58 | the clock is read after the query, with others acting in between: a token that passes was redeemable at the query; one that is refused was not found then, or has expired by now |
| AccountsCode.Database.VerifyEmail | services/identity/src/services/verify_email.rs:40-68 | success: exactly lookup, expiry test, consume, mark and commit; this call and no other consumed the token the code leads to, and the user is active; every other answer says why and verified nothing; without faults it fails only on a locked row |
| AccountsCode.Database.StorePassword | services/identity/src/services/update_password.rs:95-120 | a commit adds the event and stores the hash unless the account is deleted, in one move |
| AccountsCode.Database.UpdatePassword | services/identity/src/services/update_password.rs:44-124 | success: the event is committed, and the hash is stored unless the account was deleted; each refusal leaves everything as it was; without faults it fails only on a locked row |
| AccountsCode.Database.Login | services/identity/src/services/login.rs:71-102 | only a known password of an active account passes, and such an account was verified before; without faults, and with a signing key, every such login passes |
| Base64Url.DecodeEncode | services/identity/src/crypto/token.rs:20 | decoding gives back the encoded bytes |
| Base64Url.EncodeDecode | services/gateway/src/session.rs:79 | a text that decodes is the encoding of what it decodes to |
| Base64Url.DecodesExactly | services/gateway/src/session.rs:78-82 | a text decodes to some bytes exactly when it is their encoding |
| Base64Url.EncodesValue | services/identity/src/crypto/token.rs:20 | the characters are the digits, in the order of the alphabet, of the number that the bytes are, with zero bits up to a whole digit |
| Jwt.ClaimsRoundTrip | services/identity/src/crypto/jwt.rs:40-81 | claims survive writing and reading exactly if no custom claim takes a registered name |
| Jwt.FieldTypes | services/identity/src/crypto/jwt.rs:40-81 | which names are registered, and which values each takes |
| Jwt.ReadIsProper | services/identity/src/crypto/jwt.rs:210-211 | whatever is read is well typed, with registered names kept out of the custom claims |
| Jwt.HeaderRoundTrip | services/identity/src/crypto/jwt.rs:120-126 | the header survives writing and reading |
| Jwt.PointRejoins | services/identity/src/crypto/jwk.rs:166-195 | the point split for the JWK is joined to the same point by the verifier |
| Jwt.JwkDescribes | services/identity/src/crypto/jwk.rs:166-195 | the JWK names its type, use, algorithm and curve, and its coordinates have the curve's size |
| Jwt.TokenSplits | services/identity/src/crypto/jwt.rs:129-142 | a token splits at its dots into exactly its three segments |
| Jwt.SignedIsGenuine | services/identity/src/crypto/jwt.rs:114-205 | a signed token passes every test of the verifier up to its claims, and these are read back exactly if custom names avoid the registered ones and no custom value is nested too deeply |
| Jwt.IssueToVerify | services/identity/src/crypto/jwt.rs:114-244 | for all claims made of values of the JSON library: verifying a signed token gives them back exactly if the algorithm is allowed, custom names avoid the registered ones, no custom value is nested too deeply, and the claims are in force: exp, nbf, iss and aud, as conditions on the claims themselves |
| Acceptance.VerifyExactly | services/identity/src/crypto/jwt.rs:158-244 | for every text: verification gives certain claims exactly if the text is three segments, the header names the key and an allowed algorithm, the second segment holds the claims, which are in force, and the third is a signature over both that verifies under the point of the JWK |
| Acceptance.AuthenticateExactly | services/identity/src/services/auth.rs:12-54 | for every header and every list of keys: a user comes out exactly if the header carries a token that the first listed key of its key id signed for claims of that user, by the issuer and for the audience, in time up to 30 seconds |
| Acceptance.ReadExactly | services/identity/src/crypto/jwt.rs:40-81 | an object is read as claims exactly if every registered name stands at most once, with null or a value of its type; the claims are then the last values of all names, nulls left out |
| Acceptance.HeaderExactly | services/identity/src/crypto/jwt.rs:169-177 | a header is read exactly if alg, typ and kid stand in it once each as text, or as an array of three texts |
| Acceptance.DecodeSubExactly | services/gateway/src/session.rs:288-306 | the gateway gets a user exactly if the second of at least two segments is an object whose last `sub` is that user's id |
| Auth.TwoParsersAgree | services/gateway/src/session.rs:288-306 | whenever the identity service accepts a token, the gateway's unchecked reading gives the same user |
| Auth.ReadIsLast | services/gateway/src/session.rs:297-302 | a claim that was read is the last value of its name in the object |
| Auth.PickedKeyMatches | services/identity/src/services/auth.rs:15-27 | with the key picked by the header, the key id test of the verifier cannot fail |
| Auth.FoundKey | services/identity/src/services/auth.rs:24-27 | a found key is listed under the id; none found means that no listed key has it |
| Keys.StoredKeyLoads | services/identity/src/crypto/encryption.rs:29-129 | a stored key loads again exactly if it was not empty |
| Keys.LoadsExactly | services/identity/src/crypto/encryption.rs:29-129 | for all data: a private key loads exactly if the data is a nonce and that key, not empty, sealed under this KEK for this key id |
| Keys.SealedIsBound | services/identity/src/crypto/encryption.rs:53-83 | a sealed key loads under no other KEK and for no other key id |
| Keys.TableKept | services/identity/src/services/mod.rs:509-548 | every row holds a key that loads under its own id with the JWK of the same pair, and rows keep their key |
| Keys.StartUp | services/identity/src/services/mod.rs:509-548 | after any interleaving of start-ups, once one has returned an active key exists unless keys were revoked |
| Keys.KeyService.CheckActive | services/identity/src/services/mod.rs:512-523 | the count finds an active key exactly if there is one at that moment |
| Keys.KeyService.InsertKey | services/identity/src/services/mod.rs:525-546 | a generated key whose id is free is inserted as active unless the query fails; otherwise no row changes |
| Keys.KeyService.EnsureSigningKey | services/identity/src/services/mod.rs:509-548 | a return without error means that an active key exists, and all rows load |
| Keys.WindowExactlyWhen | services/identity/src/crypto/jwt.rs:213-225 | the clocks that accept a token of second t are t - 30 to t + 930 exactly if t + 960 fits in a u64 |
| Keys.AccessClaimsFit | services/identity/src/services/login.rs:117-127 | the access token's claims carry the issuer, audience, user and times the check looks at, its own id and the second of the login |
| Keys.LoginAccepted | services/identity/src/services/auth.rs:12-54 | a login's token is accepted for the same user exactly from t - 30 to t + 930, under any later table that kept the key |
| Keys.RevokedRejected | services/identity/src/services/get_jwks.rs:28-43 | once the key is revoked no clock makes the token acceptable |
| Kek.DecodesExactlyWhen | services/identity/src/crypto/kek.rs:86-109 | hex decodes exactly if the trimmed text has an even number of digits and nothing else, and the bytes encode back to it, letter case aside |
| Kek.HexDigitExactly | services/identity/src/crypto/kek.rs:102-109 | a hex digit's value is its place among the sixteen digits, in either case |
| Kek.DecodeInverts | services/identity/src/crypto/kek.rs:86-109 | decoding inverts the lower-case and the upper-case encoder on all bytes |
| Kek.KekExactlyWhen | services/identity/src/crypto/kek.rs:30-35 | hex text gives a key exactly if it has 64 digits, and the key is what they say |
| Text.TrimLeaves | services/identity/src/crypto/kek.rs:86-88 | trimming takes white space off both ends, and all of it |
| Text.SplitJoins | services/identity/src/crypto/jwt.rs:163-167 | the parts of a split text, none of which has the separator, are the text when joined |
| Cookies.ExtractSessionCookie | services/gateway/src/routes/session.rs:47-64 | the loop over the header's pairs gives the token of `Cookies.SessionToken`, characterised by the next row |
| Cookies.CookieFoundExactlyWhen | services/gateway/src/routes/session.rs:47-64 | among any cookies the token is found exactly if its cookie is there and none before it starts with the name |
| Cookies.CookieAmongOthers | services/gateway/src/routes/session.rs:54-61 | cookies in front that start otherwise, and any cookies behind, do not matter |
| Cookies.LongerNameHides | services/gateway/src/routes/session.rs:57-60 | a cookie with a longer name in front makes the request unauthorized |
| Cookies.CookieOfToken | services/gateway/src/routes/session.rs:68-72 | what a browser keeps of the cookie that is set is a proper cookie with the token |
| Cookies.CookieAttributes | services/gateway/src/routes/session.rs:66-72 | the cookie is set HttpOnly, Secure, for the path `/` and no domain, as its name demands, and for the 604800 seconds a session lives |
| Sessions.ByToken | services/gateway/src/session.rs:231-265 | the meaning of the table: a token is in the map exactly if its hash leads to a live row, and stands for that row |
| Sessions.StepRefines | services/gateway/src/routes/session.rs:30-43 | each request does to the table and answers what it does on a plain map from tokens to sessions |
| Sessions.SessionsRefine | services/gateway/src/session.rs:196-278 | over every run of logins, lookups, logouts and passing time all answers are those of the plain map |
| Sessions.CookieReachesSession | services/gateway/src/routes/auth.rs:150-167 | the cookie of a login, sent back among others, gives the session until its time is over and nothing after, whatever other requests come in between, a logout with that cookie aside |
| Sessions.SessionStore.GenerateSessionToken | services/gateway/src/session.rs:63-71 | the text hashes to the hash that is stored |
| Sessions.SessionStore.CreateSession | services/gateway/src/session.rs:196-224 | the new token stands for the new session, nothing else changes |
| Sessions.SessionStore.GetSession | services/gateway/src/session.rs:231-265 | the live row under the hash, if any |
| Sessions.SessionStore.DeleteSession | services/gateway/src/session.rs:272-278 | exactly that token's session goes |
| Sessions.SessionStore.AuthSession | services/gateway/src/routes/session.rs:30-43 | the extractor gives the session of the cookie's token, or unauthorized |
| Sessions.SessionStore.LogOut | services/gateway/src/routes/auth.rs:170-184 | a logout removes the session of its own cookie and no other, and refuses without one |
| GatewayLogin.LogIn | services/gateway/src/routes/auth.rs:118-168 | the user is read from the access token; a token without one, or a missing expiry, is an error that leaves no session; otherwise exactly the new session is added and its cookie set |
| GatewayLogin.IssuedNamesUser | services/gateway/src/session.rs:288-306 | the gateway reads the right user out of every token the identity service issues, at any clock |
| GatewayLogin.HeaderIsVisible | services/gateway/src/routes/session.rs:80-95 | the header made from an issued token is visible ASCII, so `with_auth` does not panic |
| GatewayLogin.LoginServes | services/gateway/src/routes/auth.rs:132-160 | over both services: after a login of a user, with any other requests in between, the cookie gets a request accepted for that user exactly while the session lives and the clock is in the token's window; after the window the session is found and its token refused, after its life there is no session |

## Left out

* Trace context, spans, metrics, logging, the Kafka key and headers, and the protobuf form of messages: no effect on what is proved.
* The cryptography itself, Argon2 and the random generator: functions with laws, or nondeterministic choices.
* Servers, TLS set-up, configuration, `load_kek` from base64 or a file, connection pools beyond the failures they cause.
* `user_info`, and all of `update_profile` but the user name: given and family names, and with them the recipient's name, are not in the model.
* The verification link, which is the web address followed by the code.
* Failing ScyllaDB queries: the request then ends with an error; a failed insert may have stored a session whose cookie nobody got.
* Refresh tokens, and the ID token: signed like the access token with more claims.
* The authorization header as bytes: the model starts from its text, so a header that is not visible ASCII is not in it.
* `LOWER` beyond ASCII letters.
* Limits of waiting: a statement that waits for a row lock is given up in the model when the lock is still held at the moment it is looked at; the call then fails and is rolled back, as a statement timeout would do.
* Several partitions: the publisher produces to partition 0 only, so there is one.
* The comment in services/identity/migrations about `FOR UPDATE SKIP LOCKED`: the query has no such clause, and the model follows the query.
* `extract_session_cookie` sees the first Cookie header only, as the code does; several headers are not modelled.
