# LedgerX: a verified model of the ledger core

LedgerX is a double-entry ledger. Its guarantees come from several parts together: service code
that writes inside one database transaction, schema constraints that back it up, and background
workers that read the same tables on their own schedule. This project models those parts as
labelled step systems, gives the operations as methods that run those steps, and proves what holds
over every run, with any interleaving of clients, crashes, lost replies and retries.

`dafny verify dfyconfig.toml` checks everything.

## How the model is laid out

- **Ledger write protocol.** `Ledger` is the step system: committed tables, any number of open DB
  transactions with staged writes, one SQL statement per step, unique keys that make a second
  claimant wait, failing statements, crashes at any point, and commits whose acknowledgement or
  reply is lost. Go's `int64` wraps (`Int64`); SQL sums are exact (`Postings`). `LedgerInvariant`,
  `LedgerSteps` and `LedgerCommit` prove the invariant statement by statement; `LedgerTheorems`,
  `LedgerBooks`, `LedgerClock`, `LedgerReplies` and `LedgerRefusals` state what follows. `TransactionService` is the service as a class
  whose `Call` issues its statements while other clients run in between.
- **Balances.** `Balance` interleaves writers, snapshot jobs and two-step balance reads;
  `LedgerBalance` shows that every protocol step is a write of that reader's store, and `LateCreate`
  is a run that goes wrong.
- **Outbox.** `Outbox` has any number of workers, publish failures, lost acknowledgements, crashes;
  `LedgerOutbox` runs them beside the protocol.
- **Derived views.** `Summary` (monthly summaries and export), `SummaryCache` (the Redis cache,
  interleaved), `SummaryMonths` and `SummaryService` (the same cache, call by call, with the labels
  each call invalidates), `Keyset`, `Cursor`, `Calendar`, `Base64`, `Text` and `Paging` (listing an
  account's entries), `LedgerPaging` (paging while the protocol runs), `RateLimiter` (the token
  bucket).
- **Migration 12.** `Migration12` is the backfill into balanced pairs, and its undoing.

Times are integers in nanoseconds (seconds in the rate limiter). The request hash is taken as
injective and the JSON of a cached response as an identity, so a hash is the payload itself and a
stored response is the response.

## Where code and documentation differ

The model follows the code.

- The documentation promises a 409 "still in flight" answer. No reachable state gives it
  (`LedgerTheorems.NeverInFlight`): the claim commits together with its result, and a second
  claimant waits for the first.
- The documentation speaks of exactly one external account per user; the index gives at most one
  (`LedgerBooks.OneExternalPerUser`). A create makes it when it is missing.
- The documentation says transfers are between two normal accounts; the code also accepts the
  external account as a leg of a transfer or a create, and so does the model.
- `created_at` is called insertion time, but it defaults to the start of the DB transaction, so a
  posting can become visible after a later-starting one. Balances are exact only if a day's
  snapshot is taken when no transaction begun by the end of that day is still open
  (`Balance.SnapshotExactIffQuiesced`); `LateCreate.LateCreateIsLost` is a run of the protocol that
  loses money otherwise.
- The comment on the first-page cursor says every row sorts before it; rows after
  9999-01-01T00:00Z do not and are never listed (`Paging.WalkComplete`,
  `Paging.AfterSentinelUnlisted`). A full page that ends on an entry before year 0 gives a cursor
  that is then refused, and a limit of 0 makes the handler panic (`Paging.WalkEndsIff`,
  `Paging.NextRequest`, and inputs in `Paging.BeforeYearZeroRefused` and `Paging.LimitZeroPanics`).
- Cache invalidation uses the month of `occurred_at` in the caller's own offset; the query uses the
  month in the database session's zone, for the entry and for the label's first midnight in UTC.
  `SummaryService.RequestNeverStaleIff` and `SummaryService.ReversalNeverStaleIff` are the exact
  conditions under which no entry goes stale; `SummaryService.OwnOffsetGoesStale`,
  `SummaryService.WestSessionGoesStale` and `SummaryService.EastReversalGoesStale` are inputs that
  fail. Only reversals in a UTC session never fail.
- An error reply does not mean that nothing was written: when the acknowledgement of COMMIT is lost
  the call returns an error, skips the invalidations (`SummaryService.UnacknowledgedGoesStale`), and
  its transaction stands. A retry under the same key gets it (`LedgerTheorems.LaterCallsReplay`).

## Model

| member | source | states |
|---|---|---|
| `LedgerCommit.StepKeeps` | internal/service/transactions.go:174-315 | every step of the protocol, by any session or the environment, keeps the invariant over tables, open sessions, history and replies |
| `LedgerCommit.CommitKeeps` | migrations/000012_double_entry.up.sql:34-55 | COMMIT with the deferred zero-sum trigger: the merged tables satisfy all table invariants and every other open session stays valid |
| `LedgerCommit.ReachableInv` | internal/service/transactions.go:174-475 | every state any run can reach from an empty ledger satisfies the invariant |
| `LedgerSteps.ClaimKeyKeeps` | internal/service/transactions.go:320-330 | claiming a key keeps claims exclusive across all open sessions |
| `LedgerSteps.CreateExternalKeeps` | internal/service/transactions.go:206-221 | lazily creating the external account keeps it unique per user across committed and staged accounts |
| `LedgerSteps.CheckLegKeeps` | internal/service/transactions.go:225-245 | each checked leg is owned, and in the transaction's currency unless external |
| `LedgerSteps.InsertHeaderKeeps` | internal/service/transactions.go:399-413 | inserting a header keeps transaction ids and `reversal_of` exclusive, also against staged reversals |
| `LedgerTheorems.OnlyCommitWrites` | internal/service/transactions.go:174-305 | no step other than a commit changes any ledger table, so pre-commit errors and replays leave them unchanged; the accounts table otherwise changes only when an account is opened or deactivated |
| `LedgerTheorems.ExactlyOnce` | internal/service/transactions.go:320-349 | in every reachable state each (user, key) has at most one committed transaction, and every committed key record is succeeded with that transaction's response and payload |
| `LedgerTheorems.RepliesAgree` | internal/service/transactions.go:339-346 | over a whole run all successful replies under one key are equal, for equal payloads, and are the committed transaction |
| `LedgerTheorems.LaterCallsReplay` | internal/service/transactions.go:186-196 | once a key is committed, whatever runs next, every call under it that was still open or begins later is told the stored response for the same payload and a conflict for any other, unless one of its own statements fails, and writes nothing |
| `LedgerTheorems.NeverInFlight` | internal/service/transactions.go:348-349 | no call of any run is answered "in flight" |
| `LedgerTheorems.WriterRepliesItsTransaction` | internal/service/transactions.go:293-315 | a call that committed a transaction committed no other, and is told that one or an internal error |
| `LedgerTheorems.OthersWroteNothing` | internal/service/transactions.go:186-307 | a call that returned an error other than an internal one, or replayed a response, committed nothing |
| `LedgerTheorems.ErrorsWroteNothing` | internal/service/transactions.go:305-307 | over every run a call that returned any error, a failed statement or a refused trigger included, wrote nothing, unless the acknowledgement of its own commit was lost |
| `LedgerTheorems.AcknowledgedWriterIsTold` | internal/service/transactions.go:305-314 | over every run a call that wrote a transaction and whose commit was acknowledged is told exactly that transaction |
| `LedgerReplies.SamePayloadIff` | internal/service/transactions.go:160-172 | the request hash compares exactly kind, user, legs, currency, time and note |
| `LedgerReplies.SuccessIsOwn` | internal/service/transactions.go:286-314 | every success is a committed transaction of the caller's own request: without a key the one this very call committed, with a key one committed under it for the same content |
| `LedgerReplies.ResponseFields` | internal/service/transactions.go:256-273 | a response has the user, currency, times, note and reversal link of the stored header, and posting by posting the stored id, account and amount |
| `LedgerReplies.EventFields` | internal/service/transactions.go:276-282 | an event has the same fields, and is announced as a reversal exactly if it is one |
| `LedgerReplies.SuccessAnswersRequest` | internal/service/transactions.go:92-136 | every success, first answer or replay, shows the request's own account and amount and its opposite on the external account (create), its two legs (transfer), or the opposite of each leg of the original (reversal) |
| `LedgerRefusals.PrecheckIff` | internal/service/transactions.go:93-118 | refused before the database are exactly creates of zero, transfers of nothing or less, and transfers to the same account |
| `LedgerRefusals.RefusalReason` | internal/service/transactions.go:225-245 | whenever a statement ends its call in an error, that error's reason holds then and there, for each kind of error |
| `LedgerRefusals.ErrorsJustified` | internal/service/transactions.go:338-348 | over every run a conflict means the key is committed for another payload, "already reversed" that a reversal is committed, and so on; an overlapping duplicate is never told of a conflict |
| `LedgerRefusals.CommittedLegsWereActive` | internal/service/transactions.go:236-238 | every account a committed create or transfer posts to was active at some earlier point of the run |
| `TransactionService.WrapSumExact` | internal/service/transactions.go:144-151 | the wrapping leg sum is zero exactly when 2^64 divides the true sum |
| `TransactionService.ValidateLegs` | internal/service/transactions.go:144-156 | the loop rejects exactly a zero leg, then exactly a sum not divisible by 2^64 without an external leg |
| `TransactionService.FateKept` | internal/service/transactions.go:174-475 | a statement of a call that runs alone is never blocked and never changes the outcome the call is heading for |
| `TransactionService.TransactionService.Call` | internal/service/transactions.go:92-475 | with any interleaving, failing statements and lost acknowledgements, a success is the committed transaction the request asks for, field by field, stored under its key, and without a key a new one written by this very call; an error wrote nothing unless the acknowledgement was lost; a retry of a committed key without failing statements returns the stored response or a conflict whatever the others do; a call alone and without faults returns exactly its verdict |
| `TransactionService.NoDeadlock` | migrations/000004_transactions_and_idempotency.up.sql:25 | in every reachable state with an open session some session's next statement can run, although unique keys make sessions wait |
| `LedgerBooks.ExactZeroSum` | internal/service/transactions.go:199-223 | every committed transaction is two postings x and -x over the integers, none is -2^63, negating them never wraps, and they and the header (time to the microsecond) are what the request asked for |
| `LedgerBooks.SmallestAmountNeverCommits` | migrations/000012_double_entry.up.sql:44-47 | a create of -2^63 wraps in the service and is refused by the exact trigger sum |
| `LedgerBooks.Conservation` | internal/service/transactions.go:225-245 | for each user and currency the total on normal accounts is minus the external account's total in that currency, reversals included |
| `LedgerBooks.OwnedPostings` | internal/service/transactions.go:424-432 | every posting is on an account of its transaction's user, in that account's currency unless external, also for reversals, which re-check nothing |
| `LedgerBooks.OneExternalPerUser` | migrations/000012_double_entry.up.sql:10-11 | a user has at most one external account |
| `LedgerBooks.ReversalStructure` | internal/service/transactions.go:377-432 | `reversal_of` is injective, never points at a reversal, links same user and currency, and the pair nets to zero on every account |
| `LedgerClock.ReversalsOccurWhenMade` | internal/service/transactions.go:399-407 | a reversal occurs between the start of its own call (to the microsecond) and now, and postings carry the start of their transaction |
| `LedgerBooks.LedgerAndOutboxAgree` | internal/service/transactions.go:265-283 | transactions and outbox events correspond one to one, each event made from the stored transaction |
| `Balance.SnapshotExactIffQuiesced` | internal/worker/snapshot_worker.go:85-100 | a snapshot is the closing sum for ever, whatever is written later, if and only if its day is over and no transaction begun by then is open |
| `Balance.SplitAtCutoff` | internal/repo/queries/balance_snapshots.sql:22-25 | snapshot part plus delta part is the plain sum, for any cutoff |
| `Balance.CutoffIsEndOfDay` | internal/worker/snapshot_worker.go:85-87 | a snapshot of a UTC day holds exactly the postings created up to that day, the delta exactly the later ones |
| `Balance.StepKeeps` | internal/service/balance.go:23-48 | every write, snapshot step and read step keeps each snapshot, job and half-done read equal to a sum that can no longer change |
| `Balance.BalanceIsFullSum` | internal/service/balance.go:23-48 | in every well-timed run every returned balance is the exact sum at its second read whenever that fits 64 bits, with or without a snapshot |
| `LateCreate.LateCreateIsLost` | internal/worker/scheduler.go:23-24 | without the timing hypothesis a run of the protocol, in which a create is open over midnight, returns balance 0 where the sum is 5 |
| `LedgerBalance.StepWrites` | migrations/000012_double_entry.up.sql:27 | each step of the write protocol is a write of the reader's store, or invisible to it |
| `LedgerBalance.LedgerBalanceIsFullSum` | internal/service/balance.go:35-46 | balances read beside the running write protocol are exact sums |
| `Outbox.StepKeeps` | internal/worker/outbox.go:40-102 | every append, claim, publish, commit and crash keeps batches disjoint and every publication accounted for |
| `Outbox.OutboxSafety` | internal/worker/outbox.go:36-102 | over every run open batches are disjoint, processed implies published, and an event went out at most once more than its uncommitted batches and lost acknowledgements |
| `Outbox.NoEventLost` | internal/worker/outbox.go:82-98 | rows survive every step, and become processed exactly when a batch that published them commits |
| `Outbox.BatchDrains` | internal/worker/outbox.go:48-55 | a lone worker's batch holds min(50, n) rows and marking it leaves exactly the others |
| `Outbox.Drain` | internal/worker/outbox.go:48-99 | over the run of a lone worker that claims, publishes with acknowledgement and commits batch after batch, n events are drained after ceil(n/50) batches and not before |
| `Outbox.DrainEmpties` | internal/worker/outbox.go:48-99 | such a run exists from every state without open batches, and leaves the outbox empty |
| `Outbox.FirstInFirstOut` | internal/worker/outbox.go:48-55 | an event with k waiting others not younger is processed within k / 50 + 1 batches of a lone worker |
| `Outbox.AckedAt` | internal/worker/outbox.go:82-91 | exactly the rows whose publication was acknowledged are to be marked |
| `Outbox.OutboxWorker.ProcessBatch` | internal/worker/outbox.go:40-102 | whatever the other workers and the ledger do between its steps, afterwards exactly the acknowledged rows of the batch are processed, or none when it does not commit; alone it changes nothing else |
| `LedgerOutbox.CommittedEventsPublished` | internal/service/transactions.go:286-305 | beside the running protocol every committed transaction has its event, dated as the transaction, processed only after it went out and within the bound; nothing goes out but events of committed transactions |
| `LedgerOutbox.EventsStay` | internal/worker/outbox.go:36-39 | no step of protocol or workers loses an event or takes back that it was processed |
| `RateLimiter.RateLimiter.constructor` | internal/transport/http/ratelimit.go:21-32 | capacity and rate are normalised to at least 1, a missing capacity to the rate |
| `RateLimiter.TightestStep` | internal/transport/http/ratelimit.go:98-103 | the capped refill is the tightest of all windows at the next call |
| `RateLimiter.NextTake` | internal/transport/http/ratelimit.go:95-112 | for any clock reading the script keeps tokens in 0..capacity, `last_refill` the running maximum, and its decision exact |
| `RateLimiter.RateLimiter.Allow` | internal/transport/http/ratelimit.go:85-116 | a call is allowed exactly when every window of calls that ends at it stays within capacity + rate * clock growth; other buckets are untouched |
| `RateLimiter.WindowsBounded` | internal/transport/http/ratelimit.go:105-109 | exact decisions keep every window within capacity + rate * clock growth |
| `RateLimiter.BucketAdmitsMost` | internal/transport/http/ratelimit.go:95-112 | no limiter that respects the windows ever admits more calls in any prefix |
| `RateLimiter.ExactDetermines` | internal/transport/http/ratelimit.go:95-112 | the clock readings and the window law leave no freedom: any two exact histories are equal |
| `Calendar.DateOfDay` | internal/transport/http/transactions.go:216 | day numbers and Gregorian dates correspond one to one |
| `Calendar.DaysToYearClosed` | internal/transport/http/transactions.go:216 | years are counted with the Gregorian leap rule, in closed form |
| `Calendar.FormatExample` | internal/transport/http/transactions.go:210 | a time with a short fraction, in full |
| `Calendar.InstantRoundTrip` | internal/transport/http/transactions.go:210 | RFC3339Nano text of an instant in years 0 to 9999 parses back to it |
| `Calendar.OtherYearsUnreadable` | internal/transport/http/transactions.go:226-229 | text of an instant in any other year is refused by the parser |
| `Text.ParseDecimal` | internal/transport/http/transactions.go:230-233 | every int64 in decimal parses back |
| `Base64.RoundTrip` | internal/transport/http/transactions.go:218-221 | every byte string survives unpadded base64url |
| `Base64.TestVectors` | internal/transport/http/transactions.go:210 | the test vectors of RFC 4648 without padding, and the two URL-safe letters |
| `Cursor.RoundTrip` | internal/transport/http/transactions.go:209-235 | decoding an encoded pair returns it exactly when its year is in 0 to 9999, for every id, and is refused otherwise |
| `Cursor.BelowSentinelIff` | internal/transport/http/transactions.go:214-217 | below the first-page sentinel are exactly the entries before 9999-01-01T00:00Z, and at that instant the ids below the largest |
| `Cursor.NoBarRefused` | internal/transport/http/transactions.go:222-225 | text without a separator is refused |
| `Cursor.NotBase64Refused` | internal/transport/http/transactions.go:218-221 | text that starts with a character outside base64url is refused |
| `Keyset.QueryIsPage` | internal/repo/queries/transactions.sql:26-39 | the query returns the newest rows below the cursor, in strictly descending order |
| `Keyset.ChainComplete` | internal/repo/queries/transactions.sql:36-39 | pages that continue below the last key, over a growing table, never repeat and skip nothing below the start |
| `Paging.ListAccountEntries` | internal/transport/http/transactions.go:146-205 | refused exactly on a malformed cursor, panics exactly on limit 0, else the newest entries below the cursor, with a next cursor exactly when the page is full; a first page without a next cursor has every entry of a year before 9999 |
| `Paging.Limit` | internal/transport/http/users.go:41-51 | malformed and negative parameters give 20, others their value clamped to 100, and zero stays zero |
| `Paging.CursorLawful` | internal/transport/http/transactions.go:209-235 | the real cursor codec has the one law the walk theorems need |
| `Paging.WalkComplete` | internal/transport/http/transactions.go:162-205 | following the cursors yields strictly descending entries and, once ended, exactly those of the first table below the sentinel, all of years before 9999 among them, despite inserts |
| `Paging.FixedLedger` | internal/transport/http/transactions.go:162-205 | on an unchanged ledger a walk has at most n + 1 pages, and an ended one is the full sorted listing |
| `Paging.WalkEndsIff` | internal/transport/http/transactions.go:162-205 | on an unchanged ledger there is a walk that ends with the full listing if and only if every entry that ends a full page is of year 0 or later |
| `Paging.RecentLedgersEnd` | internal/transport/http/transactions.go:162-205 | for entries of year 0 and later, and any limit but 0, the walk ends with the full sorted listing, every entry of a year before 9999 in it |
| `Paging.NextRequest` | internal/transport/http/transactions.go:199-203 | the next request of a walk is refused exactly if the last entry is before year 0, and panics exactly on limit 0 |
| `Paging.LimitZeroPanics` | internal/transport/http/transactions.go:199-201 | limit=0 panics on every ledger |
| `Paging.BeforeYearZeroRefused` | internal/transport/http/transactions.go:202 | a page that ends on 0000-01-01T00:00:00+01:00 gives a cursor that is refused |
| `Paging.AfterSentinelUnlisted` | internal/transport/http/transactions.go:214-217 | an entry one second into year 9999 is on no page |
| `LedgerPaging.PostingIdsUnique` | migrations/000012_double_entry.up.sql:23 | posting ids are unique and below the sequence in every reachable state |
| `LedgerPaging.TableGrows` | internal/repo/queries/transactions.sql:26-36 | an account's joined listing only grows |
| `LedgerPaging.LedgerWalk` | internal/transport/http/transactions.go:162-205 | while the write protocol takes any steps between the pages, an ended walk never repeats and shows every posting of the account committed at the first page, with its own amount and its transaction's currency, time and note, exactly if it is below the sentinel, so always before 9999 |
| `Summary.NetIsDifference` | internal/repo/queries/summary.sql:3-5 | net is inflow minus outflow |
| `Summary.SummaryExact` | internal/repo/queries/summary.sql:2-9 | inflow is the sum of the positive postings of the account and month, outflow minus the sum of the negative ones, net the sum of all |
| `Summary.TwoPartitionsOneTotal` | internal/repo/queries/summary.sql:2-9 | the nets of all months add up to the balance, which is also the sum of both sides of any created_at cutoff; each month's inflow, outflow and net are exact |
| `Summary.ExportAgreesByAccount` | internal/repo/queries/exports.sql:17-31 | exported rows of an account total its net for the month; no other accounts appear |
| `Summary.ExportAgreesByCurrency` | internal/repo/queries/exports.sql:17-31 | per currency the export total is minus the external account's postings of the month |
| `Summary.ExportOrder` | internal/repo/queries/exports.sql:31 | exported rows are ordered by their transaction's time, then by id |
| `SummaryCache.BoundedStaleness` | internal/service/summary.go:29-65 | in every interleaving each returned summary was the exact inflow, outflow and net of the database at some step at most five minutes plus its filler's read-to-store gap ago |
| `SummaryService.CommitAdds` | internal/service/transactions.go:305-313 | a commit of the protocol that passes, acknowledged or not, adds exactly one transaction to what the summary query reads |
| `SummaryService.ViewChangesIff` | internal/repo/queries/summary.sql:2-9 | a commit changes a key's fresh summary if and only if the key is for a leg's account and its query covers the session month |
| `SummaryService.CoherentIff` | internal/service/summary.go:61-65 | after a commit and the deletion of any labels for its accounts the cache is coherent if and only if every cached key that covers the transaction has a deleted label |
| `SummaryService.MislabelledGoesStale` | internal/service/summary.go:61-65 | a covering label that is not deleted leaves its entry stale |
| `SummaryMonths.QueriedMonth` | internal/repo/queries/summary.sql:9 | a session in or east of UTC reads label m as month m, one west of UTC as the month before |
| `SummaryMonths.StoredMonth` | internal/service/transactions.go:310 | storing an instant to the microsecond does not change its month in any offset |
| `SummaryService.CallNeverStaleIff` | internal/service/transactions.go:309-313 | with the labels a call computes, no coherent cache goes stale if and only if they include the one label whose query covers the transaction |
| `SummaryService.RequestNeverStaleIff` | internal/service/transactions.go:310 | for a create or transfer that is: its month in the caller's offset is its month in the session's zone (UTC or east), or the month after that (west) |
| `SummaryService.ReversalNeverStaleIff` | internal/service/transactions.go:467-473 | for a reversal that is: the covering label is the UTC month of now or the month of the original as read back; in a UTC session always so |
| `SummaryService.OwnOffsetGoesStale` | internal/service/transactions.go:310 | 1969-12-31T19:00:00-05:00 in a UTC session invalidates December and leaves January stale |
| `SummaryService.WestSessionGoesStale` | internal/service/transactions.go:310 | caller and session at -05:00 on 1970-01-11 agree on January, and still an entry goes stale |
| `SummaryService.EastReversalGoesStale` | internal/service/transactions.go:467-473 | a reversal at 1969-12-31T23:00Z in a session at +05:00 leaves January stale |
| `SummaryService.UnacknowledgedGoesStale` | internal/service/transactions.go:305-307 | a commit whose acknowledgement is lost skips the invalidations, so some entry can go stale |
| `SummaryService.CoherentRun` | internal/service/transactions.go:309-313 | beside the running protocol, in a session of any offset below a day, after any sequence of reads, creates, transfers and reversals every cached entry equals a fresh query, if every commit is acknowledged and its call's labels include the covering one |
| `SummaryService.CoherentRunInUtc` | internal/service/transactions.go:467-473 | in a UTC session it suffices that each create's or transfer's own month is its UTC month; reversals need nothing |
| `SummaryService.SummaryService.GetMonthlySummary` | internal/service/summary.go:29-59 | an entry younger than five minutes is returned; else a fresh query, stored with its time; coherence is kept and gives the exact inflow, outflow and net |
| `SummaryService.SummaryService.Committed` | internal/service/transactions.go:309-313 | the nested loops delete exactly each leg's account under each label the call computes; coherence holds exactly if they cover what was cached |
| `Migration12.UpPreservesSums` | migrations/000012_double_entry.up.sql:57-69 | for every period of creation time legacy accounts keep their sums, external accounts hold the negated user totals, and every transaction nets to zero |
| `Migration12.UpHeaders` | migrations/000012_double_entry.up.sql:71-74 | transactions keep everything but account, amount and category |
| `Migration12.UpNumbers` | migrations/000012_double_entry.up.sql:60-69 | the backfilled postings are numbered from 1 without gaps |
| `Migration12.DownUndoesUp` | migrations/000012_double_entry.down.sql:8-17 | down after up restores accounts, and account and amount of every nonzero row, and drops exactly the zero-amount rows (and all categories) |
| `Migration12.NameStillFree` | migrations/000012_double_entry.up.sql:13-19 | the inserts for earlier users never take a later user's account name |
| `Migration12.Database.Up` | migrations/000012_double_entry.up.sql:8-74 | the script, deferred trigger included, succeeds exactly if no account is named 'External' and no amount is -2^63, and otherwise changes nothing |
| `Migration12.Database.Down` | migrations/000012_double_entry.down.sql:4-27 | the script yields the single-leg tables for whatever normal posting the UPDATE picks |

## Left out

- HTTP routing, authentication, status codes, JSON decoding, storage backends, CSV text, export job status, observability and the user interface: no property of depth.
- SHA-256 and JSON: the request hash is an injective value and a cached response is the response itself.
- Times below a microsecond: `occurred_at` is cut to microseconds when it is stored, `created_at` and the clock are not.
- Daylight saving: the zone of the database session has one fixed offset of less than a day.
- Wall clocks: one clock serves the database, the services and the workers; only the rate limiter's callers bring clocks of their own.
- Account names and the users table of the write protocol: an external account is refused only by its own index, not by a name that is already taken.
- Serialization of sequences: ids are unbounded integers, and only the listing assumes that they fit in 64 bits.
- The asynchronous task queue: a snapshot job is a step that may happen any number of times, in any order, or never.
- Which accounts get a snapshot (`handleSnapshotAll`): the theorems hold for any choice.
- Redis eviction and expiry of rate-limiter keys, and Lua's floating-point numbers: keys stay and numbers are exact.
- Redis errors of the rate limiter: the middleware refuses the request and no bucket changes.
- Ownership check of the listed account: the table given to `ListAccountEntries` is one account's.
- `down` on a ledger that has seen transfers: it keeps one of the two normal legs, whichever the UPDATE picks; nothing is promised about the other.
- Dropping balance snapshots in migration 12, and other migrations: plain table definitions.
