# A model of the security gateway's shared integration layer

The gateway runs security scans as jobs, stores their findings, correlates them and authenticates the
callers. This project states what its persistent parts promise and proves it for every input, every
interleaving and every history.

- **Scan jobs.** `Jobs` holds the transactions of the job store as functions on a row and its event log, and
  what replaying a log means. `JobRepository` is the store itself, a class over one row table and one event
  table; `JobCalls` what any sequence of its calls adds up to. `Protocol` is the transition system in which a
  creator, any number of executors (delivered at least once) and any number of cancellers share one job: each
  repository call is one atomic step, and scan results, error kinds and late errors of a cancelled scan are
  choices of the environment. `ProtocolRuns` proves what holds of whole runs, `ProtocolResults` what a job
  ends with. `Creation` is the race of idempotent creates, `EventStream` the server-sent event loop over the
  log.
- **Findings.** `Findings` and `FindingStore` define identity, merging and the three writes of a store;
  `FindingRace` interleaves any number of stores, with the conflict and recovery path and triage.
  `Cursor` and `Paging` cover the printed cursor and following it through a changing table.
  `Correlations` is the correlation rule and the storing loop.
- **Access.** `RateLimiter` is the bounded sliding-window limiter against one that remembers everything;
  `Identity` the tenants, memberships, clients and sessions over whole histories, and `IdentityCalls` the same
  histories in terms of their calls alone.
- **Migration.** `Migration` and `MigrationRun` import a legacy database, table by table in one transaction;
  `MigrationAccepts` says exactly which files go through.

Operations that change state are methods of classes (`JobRepository.Repository`, `FindingStore.FindingTable`,
`RateLimiter.ExchangeRateLimiter`, `Identity.Repository`, `MigrationRun.Database`) or loops, each proved
against a function; the lemmas are about those functions. The concurrent parts are transition systems whose
steps are labelled with the environment's choices.

Where the code does less than one might assume, the exact condition is proved:

- A cancel that commits between a retry's read and its claim makes `execute` return on a running job
  (`ClaimerReturn`, `CancelBeforeRetryClaim`, `UnfinishedReturnHappens`).
- The conflict path of a finding store leaves severity, confidence, description, `first_seen` and `job_id`
  alone: `RecoveryLeavesColumns` reaches such a row for any two sightings of one fingerprint, and
  `ColumnsExactly` says of each of the five columns of every reachable row when it is what the ordinary path
  would have left.
- The conflict path takes any integrity error for a lost fingerprint race, so a store can raise and lose its
  finding. `NoStoreFailsIff`: no interleaving of given stores does if and only if the tenant exists beforehand
  and no two of them bring one id under different fingerprints, or it does not exist, its id is no other
  tenant's slug, nothing else inserts tenants and they all have one fingerprint. One store alone raises if the
  slug is taken, with no race at all, or if another part of the system inserts its tenant in between
  (`LoneStoreFails`).
- Creating a job takes any integrity error for a lost key race. `NoCreationRaisesIff`: no interleaving of given
  calls raises if and only if all are for tenants that exist beforehand, or nothing else inserts tenants, the id
  of each tenant that does not exist is no other tenant's slug, and the calls for it are a single one or share
  one idempotency key. One call alone raises if the slug is taken (`SlugRaises`), or if another part of the
  system inserts its tenant in between (`FoundRaises`).
- The event stream reads events and status separately: it can end without the final event
  (`EndedStream`, `FinalEventMissed`).
- `retry_after` drops the fraction of a second: waiting just that long may not be enough
  (`RetrySuffices`, `RetryAloneMayFail`).
- `transition` has no guard: it keeps the replay agreement for every status but `running`
  (`TransitionAgrees`).
- `append_event` takes any kind of event: it keeps the replay agreement exactly if the event does not
  contradict the row (`AppendEventAgrees`).

## Model

| member | source | states |
|---|---|---|
| Jobs.AppendReads | src/shared_integration/sql_jobs.py:370-393 | an appended event gets the next sequence number; how each reading of the log (last status, last error, attempts, findings, cancellation) changes by it |
| Jobs.CreateAgrees | src/shared_integration/sql_jobs.py:90-121 | a new job's one-event log replays to its row |
| Jobs.MarkRunningAgrees | src/shared_integration/sql_jobs.py:177-213 | a successful claim keeps the replay agreement |
| Jobs.TransitionAgrees | src/shared_integration/sql_jobs.py:215-247 | the unguarded write keeps the agreement if and only if the status written is not `running` |
| Jobs.AppendEventAgrees | src/shared_integration/sql_jobs.py:249-262 | appending any kind of event keeps the agreement if and only if it does not contradict the row: no status or cancel event other than one repeating what the row has |
| Jobs.RequestCancelAgrees | src/shared_integration/sql_jobs.py:293-319 | a cancel request keeps the agreement, queued, running or terminal |
| JobRepository.EventsAfterIs | src/shared_integration/sql_jobs.py:264-283 | a page of events holds exactly the next sequences after the given one, all of them unless the limit cuts it |
| JobRepository.SelectEvents | src/shared_integration/sql_jobs.py:264-283 | scanning the shared event table gives that page of one job's log |
| JobRepository.Repository.NextSequence | src/shared_integration/sql_jobs.py:370-393 | one more than the greatest sequence of that job's events in the shared table |
| JobRepository.Repository.FindByIdempotencyKey | src/shared_integration/sql_jobs.py:165-175 | finds the tenant's job with the key exactly if there is one |
| JobRepository.Repository.CreateJob | src/shared_integration/sql_jobs.py:74-132 | creates exactly when no job of the tenant has the key, else returns that job and writes nothing; either way row `id` has the tenant and key given; the new row and its one event are given column by column; every other job is untouched |
| JobRepository.Repository.Claim | src/shared_integration/sql_jobs.py:177-213 | succeeds exactly under the status and cancel guard; the row becomes running with one more attempt and no error, with its event; all others stay, every log still replays |
| JobRepository.Repository.SetStatus | src/shared_integration/sql_jobs.py:215-247 | raises exactly for a job that is not there; writes status, result count and error columns whatever the status was, and an event with that status, carrying code and message unless the code is empty; all logs still replay if and only if the status is not `running` |
| JobRepository.Repository.AddEvent | src/shared_integration/sql_jobs.py:249-262 | appends an event of any kind with the next sequence number to this job's log only; all logs still replay if and only if the event does not contradict the row |
| JobRepository.Repository.ListEvents | src/shared_integration/sql_jobs.py:264-283 | the events after a sequence, empty for a job of another tenant |
| JobRepository.Repository.Cancel | src/shared_integration/sql_jobs.py:293-319 | raises exactly for a job that is not there; nothing on a terminal job, a queued one ends cancelled, a running one is flagged, each with its event; all logs still replay |
| JobCalls.CreatedIff | src/shared_integration/sql_jobs.py:74-132 | over any sequence of create, claim, status, event and cancel calls, a create makes a job if and only if it gives no key or no earlier call gave that key for the tenant |
| JobCalls.SecondCreateSame | src/shared_integration/sql_jobs.py:82-101 | whatever calls come in between, a second create with the same tenant and key is answered with the first one's job and `created` false |
| JobCalls.Origin | src/shared_integration/sql_jobs.py:90-121 | every job after a sequence of calls was created by one of them and still has its tenant, source, payload and key |
| JobCalls.CreateSeen | src/shared_integration/sql_jobs.py:74-132 | the tables and answer that `CreateJob` promises are those of a create call in these sequences |
| JobCalls.ClaimSeen | src/shared_integration/sql_jobs.py:177-213 | the same for `Claim` |
| JobCalls.SetSeen | src/shared_integration/sql_jobs.py:215-247 | the same for `SetStatus` |
| JobCalls.EventSeen | src/shared_integration/sql_jobs.py:249-262 | the same for `AddEvent` |
| JobCalls.CancelSeen | src/shared_integration/sql_jobs.py:293-319 | the same for `Cancel` |
| Protocol.StepInv | src/shared_integration/execution.py:48-209 | every step of every participant keeps the protocol invariant |
| ProtocolRuns.ReplayAgreement | src/shared_integration/sql_jobs.py:186-247 | in every state of every run the log replays to the row, and a succeeded job counts exactly its finding events, which are the stored findings |
| ProtocolRuns.StatusOrder | src/shared_integration/execution.py:48-137 | status only moves queued, running, terminal; a terminal status is replaced by another only on a job with a cancel request |
| ProtocolRuns.SingleScanner | src/shared_integration/execution.py:63-80 | all adapter scans of a job are started by one executor, in every interleaving |
| ProtocolRuns.AttemptsCounted | src/shared_integration/execution.py:63-76 | `attempt` counts the scans started and never exceeds the scanning executor's limit |
| ProtocolRuns.CancelBeforePollWins | src/shared_integration/execution.py:139-174 | a cancel committed before a poll of the claiming executor, on any attempt, means no finding is ever stored or emitted and the job never ends succeeded |
| ProtocolRuns.ClaimerReturn | src/shared_integration/execution.py:63-135 | when the claiming `execute` returns the job is terminal, except exactly at a retry's failed claim on a running job; then a cancel committed since that retry's own read, the executor's last before the claim |
| ProtocolRuns.CancelBeforeRetryClaim | src/shared_integration/execution.py:63-76 | conversely a cancel between the read and the claim makes `execute` return and leaves the job as it is |
| ProtocolRuns.UnfinishedReturnHappens | src/shared_integration/execution.py:63-76 | a concrete run in which that happens |
| ProtocolRuns.AwaitGranularReturn | src/shared_integration/dispatch.py:29-43 | if steps interleave only at an `await`, as with the inline dispatcher, the returning claimer's job is always terminal |
| ProtocolResults.UncancelledResult | src/shared_integration/execution.py:77-135 | once the claimer of a job never cancelled has returned: if its last scan found findings, the job succeeded with all of them stored, emitted and counted, unless the run has a step in which storing them raised, and then it failed with INTERNAL_ERROR and that message and a prefix of them stored; a scan error gave its own status, code and message with nothing stored, a retryable one only after the last attempt |
| ProtocolResults.ResultHappens | src/shared_integration/execution.py:63-135 | for every attempt limit, every list of retryable errors within it and every last outcome, there is a run that ends with that outcome's result after as many attempts |
| ProtocolResults.EveryFindingsStored | src/shared_integration/execution.py:77-89 | for any findings there is a run that stores them all, succeeds and counts them |
| ProtocolResults.FlaggedPollDecides | src/shared_integration/execution.py:90-174 | a poll that sees the cancel request while the scan holds no error, or one that would be retried, makes the job end cancelled without an error; any other error is the job's result, unless a second delivery that finishes in between cancels it |
| ProtocolResults.FlaggedReadDecides | src/shared_integration/execution.py:63-68 | a read at the head of a later attempt that sees the cancel request makes the job end cancelled |
| ProtocolResults.RetryRecorded | src/shared_integration/execution.py:100-113 | a retry event has the code of the retryable error the attempt ended with and the numbers of that attempt and the next, and comes before the last allowed attempt only |
| ProtocolResults.DispatchFailureStays | src/shared_integration/api_v1.py:324-354 | a job whose dispatch failed stays failed with DISPATCH_FAILED and the reason, and nobody executes it |
| ProtocolResults.UnknownSourceFails | src/shared_integration/execution.py:52-61 | without an adapter a job is never claimed and, once an executor has returned, is failed with UNKNOWN_SOURCE, or cancelled on request |
| ProtocolResults.TerminalSkipped | src/shared_integration/execution.py:48-51 | an executor delivered to a terminal job does nothing but return |
| ProtocolResults.NeverStuck | src/shared_integration/execution.py:48-137 | in every state of every run an executor that has not returned has a next step |
| Creation.SameJob | src/shared_integration/sql_jobs.py:74-132 | all callers that return for one tenant and key get the same job, inserted by exactly one of them, and no two see `created` |
| Creation.SubmittedOnce | src/shared_integration/api_v1.py:324-354 | the dispatcher gets a job at most once, from the caller that created it |
| Creation.SubmittedIff | src/shared_integration/api_v1.py:324-354 | the dispatcher has a job if and only if it accepted the submit of the caller that inserted it |
| Creation.OwnJob | src/shared_integration/sql_jobs.py:74-132 | a caller without a key, or whose key no other caller has, is answered with a job of its own and `created`, if it is answered at all |
| Creation.CreatorGoesOn | src/shared_integration/sql_jobs.py:74-132 | a call that is neither answered nor failed has a next step, and at most four |
| Creation.KnownTenantNeverRaises | src/shared_integration/sql_jobs.py:74-132 | creations for a tenant that existed beforehand never raise, in any run |
| Creation.FirstCreationsCollide | src/shared_integration/sql_jobs.py:339-352 | any two calls for a tenant that did not exist and whose slug was free, under different keys or the second without one, have a run in which the second raises |
| Creation.SlugRaises | src/shared_integration/sql_jobs.py:339-352 | any single call for a tenant that did not exist, whose id is another tenant's slug, raises without any race |
| Creation.FoundRaises | src/shared_integration/sql_jobs.py:339-352 | any single call for a tenant that did not exist raises in a run where another part of the system inserts that tenant in between |
| Creation.NoCreationRaisesIff | src/shared_integration/sql_jobs.py:74-132 | for any tenants and slugs, with or without other writers, and any calls: no interleaving raises if and only if every call is for an existing tenant, or (without other writers) no missing tenant's id is a taken slug and no two calls collide on a missing tenant |
| EventStream.Stream | src/shared_integration/api_v1.py:432-450 | after any number of passes it has sent a contiguous block of the log right after `Last-Event-ID`, in order, without repeat or gap, with a heartbeat exactly where `BeatsIff` says; it ends at the first pass that finds the job gone, or terminal with nothing new |
| EventStream.Pass | src/shared_integration/api_v1.py:435-449 | one turn of the loop sends the next block, a heartbeat exactly if one is due, and ends exactly if the job is gone, or terminal with nothing new |
| EventStream.BeatsIff | src/shared_integration/api_v1.py:443-449 | a heartbeat follows a pass if and only if the pass does not end the stream and closes a full number of sixty passes without events since the last one that had any, or the start |
| EventStream.EndedStream | src/shared_integration/api_v1.py:436-445 | an ended stream is complete if and only if nothing was appended between the two reads of its last pass, or the client had it all |
| EventStream.FinalEventMissed | src/shared_integration/api_v1.py:436-445 | the job can succeed between the two reads, and the final status event is never sent |
| Findings.MergeKeepsFingerprint | src/shared_integration/finding_lifecycle.py:386-438 | a merged payload has the fingerprint of the incoming finding |
| Findings.FingerprintSame | src/shared_integration/finding_lifecycle.py:386-417 | two findings share a fingerprint if and only if their sources are equal, their titles, hosts and CVEs are equal up to letter case and surrounding blanks, a missing one being empty, and each of the seven locators is in both with one value or in neither |
| Findings.DedupIs | src/shared_integration/finding_lifecycle.py:435-436 | deduplication keeps the same members, each once, in order of first occurrence |
| Findings.DedupTwice | src/shared_integration/finding_lifecycle.py:419-438 | deduplicating step by step equals deduplicating the whole concatenation |
| FindingStore.FindingTable.StoreFirst | src/shared_integration/finding_lifecycle.py:316-363 | merges into the locked row, or inserts a row given column by column, or fails on a taken id; no other row changes |
| FindingStore.FindingTable.StoreRecovered | src/shared_integration/finding_lifecycle.py:364-383 | updates occurrences, `last_seen` and payload of the winner's row only, or raises when there is none |
| FindingStore.FindingTable.UpdateLifecycle | src/shared_integration/finding_lifecycle.py:257-304 | the one row with the finding id gets exactly the status and assignee given, each only if given, and keeps every other column; nothing changes when there is none |
| FindingStore.FoldIs | src/shared_integration/finding_lifecycle.py:419-438 | merging a history gives maxima of severity and confidence, the union of tags, the first id, and the first-occurrence deduplication of all evidence and of all related findings |
| FindingStore.RowIs | src/shared_integration/finding_lifecycle.py:310-383 | whatever paths its stores took, a row counts them all, its payload is their merge, its identity that of the first |
| FindingStore.RowFixed | src/shared_integration/finding_lifecycle.py:323-354 | source, asset, CVE and title columns stay those of the sighting that inserted the row |
| FindingStore.FoldLatest | src/shared_integration/finding_lifecycle.py:419-438 | a merged payload has source, title, description, host, CVE, time and metadata of the last sighting |
| FindingStore.RowTimes | src/shared_integration/finding_lifecycle.py:345-380 | `last_seen` is the latest time of all stores, `first_seen` the earliest over those that did not recover |
| FindingStore.RowJob | src/shared_integration/finding_lifecycle.py:352-354 | the row's job is that of the last ordinary store naming one, else the inserting store's |
| FindingStore.ColumnsExact | src/shared_integration/finding_lifecycle.py:345-380 | against the row the ordinary path alone would have left: severity and confidence are equal if and only if no recovered store since the last ordinary one exceeds them, the description if and only if the last store repeats it, `first_seen` if and only if no recovered store was earlier, the job if and only if no recovered store was the last to name another; all else always |
| FindingRace.InvAt | src/shared_integration/finding_lifecycle.py:310-383 | in every interleaving each row is what its history of completed stores leaves behind, triage aside, and each returned finding is the merge of all sightings committed up to it |
| FindingRace.StoresAccumulate | src/shared_integration/finding_lifecycle.py:310-383 | in every reachable state a fingerprint has its one row exactly if a store of it returned; `occurrences` is their number, severity, confidence and `last_seen` their maxima, tags, evidence and related findings their unions; ids are distinct |
| FindingRace.ListsInCommitOrder | src/shared_integration/finding_lifecycle.py:419-438 | from two stores on, evidence and related findings are first-occurrence deduplications in commit order |
| FindingRace.ColumnsExactly | src/shared_integration/finding_lifecycle.py:345-380 | the exact conditions of `ColumnsExact` for every row of every reachable table, over the stores that completed |
| FindingRace.FixedColumns | src/shared_integration/finding_lifecycle.py:323-438 | both of these for every row of every reachable table |
| FindingRace.RecoveryLeavesColumns | src/shared_integration/finding_lifecycle.py:364-383 | for any two sightings of one fingerprint a reachable row merges both in its payload and keeps the first one's severity, confidence, description, `first_seen` and job in its columns |
| FindingRace.RowsConsistent | src/shared_integration/finding_lifecycle.py:327-438 | on every reachable row the payload re-fingerprints to the row's fingerprint and carries its id, the columns never exceed the payload, `first_seen <= last_seen` |
| FindingRace.OrderIrrelevant | src/shared_integration/finding_lifecycle.py:310-438 | two runs in which the same stores returned agree on everything accumulated but the order of evidence and related findings |
| FindingRace.NoStoreFailsIff | src/shared_integration/finding_lifecycle.py:316-383 | for a tenant known or not, its slug free or not, with or without other writers, and any arrivals: no interleaving fails a store if and only if the tenant is known and no two arrivals share an id under different fingerprints, or it is not, its slug is free, nobody else inserts tenants and all have one fingerprint, or there are none |
| FindingRace.ClashFails | src/shared_integration/finding_lifecycle.py:364-374 | any two arrivals with one id and different fingerprints have a run in which the second raises and is in no row |
| FindingRace.LoneStoreFails | src/shared_integration/finding_lifecycle.py:459-472 | any single store of an unknown tenant raises if the tenant's id is another tenant's slug, or in a run where another part of the system inserts the tenant in between |
| FindingRace.FirstStoresCollide | src/shared_integration/finding_lifecycle.py:316-374 | any two first stores of a tenant with different fingerprints have a run in which the second raises and is in no row |
| FindingRace.RowKept | src/shared_integration/finding_lifecycle.py:344-383 | no store removes a row or changes its ids, source or status |
| Cursor.BytesRoundTrip | src/shared_integration/identity.py:1056-1061 | decoding undoes encoding for every byte string, with the stripped padding recomputed from the length |
| Cursor.SymbolIs | src/shared_integration/identity.py:1056-1057 | each six bits are written as the character at that position of the RFC 4648 base64url alphabet |
| Cursor.EncodeSpells | src/shared_integration/identity.py:1056-1057 | every three bytes become the four characters of their 24 bits in their place, a last one or two bytes two or three characters filled up with zero bits, without padding |
| Cursor.CursorRoundTrip | src/shared_integration/finding_lifecycle.py:475-487 | a printed cursor reads back as its row id if and only if the id is at least one; zero is refused |
| Cursor.DecodeCursor | src/shared_integration/finding_lifecycle.py:479-487 | whatever the text, an accepted cursor is at least one |
| Cursor.DecimalParses | src/shared_integration/finding_lifecycle.py:475-487 | parsing undoes printing of decimal numbers |
| Cursor.DecimalIs | src/shared_integration/finding_lifecycle.py:475-476 | a printed number is its decimal digits without leading zeros |
| Cursor.CursorInjective | src/shared_integration/finding_lifecycle.py:475-476 | different rows have different cursors |
| Paging.PageIs | src/shared_integration/finding_lifecycle.py:226-255 | a page shows the largest admitted ids below the cursor, descending; without a next cursor it shows all of them, with one it is full, the cursor is its last id and the rest lies below |
| Paging.NoneTwice | src/shared_integration/finding_lifecycle.py:226-255 | over a whole walk ids strictly descend, so none repeats, and each was a row with the source, severity and status asked for when read |
| Paging.EveryRowOnce | src/shared_integration/finding_lifecycle.py:226-255 | a walk followed to the end returns every row that stayed there with the columns asked for exactly once, whatever is added meanwhile |
| Paging.FollowingEnds | src/shared_integration/finding_lifecycle.py:248-255 | the first page's ids bound the number of pages, so following the cursor ends |
| Paging.LimitZeroShowsNothing | src/shared_integration/finding_lifecycle.py:248-255 | a limit of zero, which the HTTP interface refuses, ends a walk at once with nothing shown |
| Paging.ReachableTable | src/shared_integration/finding_lifecycle.py:323-345 | every table the stores can reach has one row per id, counted from one |
| Correlations.StoreResults | src/shared_integration/execution.py:176-209 | the storing loop emits each finding followed by its correlations with everything before it |
| Correlations.EachPairOnce | src/shared_integration/correlations.py:34-70 | a batch finding and an earlier one are head and tail member of exactly one correlation if they share a non-empty host, differ in source and lie in the window, else of none; later findings are never in the tail; by id, for ids that are all distinct |
| Correlations.EachPositionOnce | src/shared_integration/correlations.py:34-70 | whatever ids the registry holds, also ids the batch brings again: each batch finding heads exactly one correlation if some earlier position holds a related finding with another id, else none; its tail names each such position once, in order, its severity is the worst of them, and rule id and narrative name the host and the sources in that order |
| Correlations.WorstSeverity | src/shared_integration/correlations.py:57-75 | each correlation's severity is the maximum over the findings it names |
| Correlations.FindingsEmitted | src/shared_integration/execution.py:182-197 | every finding of the batch is emitted once, in order |
| RateLimiter.NewLimiter | src/shared_integration/auth.py:47-62 | limits are refused exactly when one is not positive or the table has no room for a client beside the shared bucket |
| RateLimiter.ExchangeRateLimiter.Evict | src/shared_integration/auth.py:69-77 | removes exactly the idle buckets other than the shared one |
| RateLimiter.ExchangeRateLimiter.Attempt | src/shared_integration/auth.py:64-87 | the in-place check has the table, answer and `retry_after` of the function the results below are about; `retry_after` is zero exactly if it is allowed |
| RateLimiter.PopExpired | src/shared_integration/auth.py:81-82 | popping from the left leaves exactly the attempts after the cutoff |
| RateLimiter.CheckBounded | src/shared_integration/auth.py:67-80 | the limiter never holds more than `max_keys` buckets and never loses the shared one |
| RateLimiter.AgreesWithReference | src/shared_integration/auth.py:64-87 | for every call sequence with a non-decreasing clock each answer is that of a limiter that keeps every admission forever |
| RateLimiter.OverflowOnlyWhenFull | src/shared_integration/auth.py:68-79 | the shared bucket serves another key only if at least `max_keys - 1` further keys each have an admission inside the window |
| RateLimiter.AtMostTwice | src/shared_integration/auth.py:64-87 | a client key gets at most twice `max_attempts` admissions in any window |
| RateLimiter.RetrySuffices | src/shared_integration/auth.py:83-85 | `retry_after` is the whole seconds left of the oldest live attempt's window, at least one, and lies in 1..window; a later attempt on the untouched bucket is admitted if and only if the oldest live attempt has left the window, which one second more than `retry_after` reaches |
| RateLimiter.RetryAloneMayFail | src/shared_integration/auth.py:84 | a case where waiting exactly `retry_after` is refused again |
| Identity.NormalizeIssuers | src/shared_integration/identity.py:873-887 | the loop raises exactly if some issuer is blank or too long or there are none or more than sixteen, else gives the stripped issuers once each in order |
| Identity.Repository.SetTenantStatus | src/shared_integration/identity.py:218-245 | raises exactly for a status outside the allowed ones or an unknown tenant, else the tenant has that status, no other changes, and the previous one is returned |
| Identity.Repository.SetMembership | src/shared_integration/identity.py:310-348 | raises exactly on an unknown role, tenant or user; stores the role, and the status the membership had or active |
| Identity.Repository.SetMembershipStatus | src/shared_integration/identity.py:350-381 | raises exactly for a status outside the allowed ones or an unknown membership, else keeps its role |
| Identity.Repository.IssueClient | src/shared_integration/identity.py:548-566 | raises exactly for an unusable name or issuer list, else adds one live client with them cleaned |
| Identity.Repository.RotateClient | src/shared_integration/identity.py:578-594 | succeeds exactly for a live client; afterwards predecessor and successor are both live, with the same name and issuers |
| Identity.Repository.RevokeClient | src/shared_integration/identity.py:632-642 | marks the client revoked for good, true exactly if it exists |
| Identity.Repository.IssueSession | src/shared_integration/identity.py:644-711 | raises exactly as the order of checks says, else stores a session that expires within the maximum |
| Identity.Repository.Authenticate | src/shared_integration/identity.py:713-754 | answers the principal of the state before the call and touches `last_seen` only |
| Identity.Repository.RevokeSession | src/shared_integration/identity.py:756-787 | revokes the one session with that tenant and id, true exactly if there is one |
| Identity.Repository.Cleanup | src/shared_integration/identity.py:789-801 | deletes exactly the sessions expired at the cutoff and counts them |
| Identity.IdsStayUnique | src/shared_integration/identity.py:659-668 | after any history no two sessions share an id |
| Identity.SessionFollowed | src/shared_integration/identity.py:644-801 | from its issue on a session is stored until a cleanup past its expiry, with the columns it was issued with, and marked revoked exactly if it was revoked |
| Identity.ClientFollowed | src/shared_integration/identity.py:548-642 | a client stays live exactly until it is revoked, through every other call |
| Identity.AuthenticatesIff | src/shared_integration/identity.py:713-754 | after any history a token authenticates if and only if a call issued it and since then there was no revocation of session or client, no cleanup past its expiry, no expiry, and tenant and membership are active now |
| Identity.AuthenticatedSoundly | src/shared_integration/identity.py:644-754 | an authenticated session was issued less than 900 seconds before by a client not revoked since, was never revoked, and has its membership's present role |
| Identity.RevokedSessionStaysOut | src/shared_integration/identity.py:756-787 | no continuation of the history authenticates a revoked session |
| Identity.RevokedClientStaysOut | src/shared_integration/identity.py:632-642 | no continuation authenticates any session of a revoked client |
| Identity.CleanupOnlyExpired | src/shared_integration/identity.py:789-801 | cleaning up never changes who authenticates from the cutoff on |
| IdentityCalls.TenantFollowed | src/shared_integration/identity.py:218-245 | after any history a tenant exists exactly if it was added, with the status last given to it by a call with an allowed status, else active |
| IdentityCalls.MemberFollowed | src/shared_integration/identity.py:310-381 | after any history a membership exists exactly if an allowed role was given to an existing user in an existing tenant, with the role last given and the status last given, else active; a new role keeps the status |
| IdentityCalls.ClientIff | src/shared_integration/identity.py:548-642 | after any history a client is live exactly if it was issued under a usable name and issuers, or rotated from a client live then, and not revoked since |
| IdentityCalls.AuthenticatesByCalls | src/shared_integration/identity.py:644-801 | the condition of `AuthenticatesIff` in terms of the calls of the history alone: who was issued the session and under which earlier calls, and which calls came since |
| IdentityCalls.RoleByCalls | src/shared_integration/identity.py:713-754 | the role an authenticated session acts in is the one last given to its user in its tenant |
| IdentityCalls.NameKept | src/shared_integration/identity.py:866-870 | a client name is kept without surrounding blanks and refused unless 1 to 255 characters are left |
| IdentityCalls.IssuersKept | src/shared_integration/identity.py:873-887 | issuers are refused unless each has 1 to 512 characters without surrounding blanks and 1 to 16 of them differ; they are kept once each |
| Migration.TenantLoop | src/shared_integration/migration_tools.py:102-118 | the loop adds each missing tenant under its slug, counts the others and refuses a slug that another tenant has |
| Migration.TenantsImported | src/shared_integration/migration_tools.py:102-118 | afterwards exactly the old tenants with their slugs and the source's with legacy slugs are there, each source tenant counted once |
| Migration.JobLoop | src/shared_integration/migration_tools.py:222-261 | the loop with its early raises equals the function the results are about |
| Migration.JobsImported | src/shared_integration/migration_tools.py:222-261 | every source job is in the target under its tenant, old ones are unchanged, and each row is counted once |
| Migration.JobsArrive | src/shared_integration/migration_tools.py:222-261 | each added job has the id, tenant, source, payload, key, dispatch id, status, attempt, cancel flag, result count and error of a source row, the queue of its source, and is finished if it succeeded |
| Migration.EventLoop | src/shared_integration/migration_tools.py:264-295 | the same for job events, with the lookup and the foreign key that can refuse one |
| Migration.EventsImported | src/shared_integration/migration_tools.py:264-295 | every source event key is in the target, each added entry comes from a source row, old ones are unchanged |
| Migration.FindingLoop | src/shared_integration/migration_tools.py:298-357 | the loop that deduplicates findings and fills the id table equals its function |
| Migration.FindingsImported | src/shared_integration/migration_tools.py:298-357 | every source fingerprint has its row, old rows are unchanged, each source row is counted once |
| Migration.FindingsArrive | src/shared_integration/migration_tools.py:328-355 | each added row is a first sighting of a source finding, all its columns and both times given |
| Migration.FindingsStayUnique | src/shared_integration/migration_tools.py:318-327 | the id collision check keeps finding ids unique per tenant |
| Migration.IdsImported | src/shared_integration/migration_tools.py:314-317 | a source id maps to the id of the row with the fingerprint of the last source finding of that id |
| Migration.CorrelationLoop | src/shared_integration/migration_tools.py:360-403 | the loop equals its function |
| Migration.CorrelationsImported | src/shared_integration/migration_tools.py:360-403 | every source correlation is in the target, each added one with its mapped, deduplicated links |
| Migration.CorrelationsCopied | src/shared_integration/migration_tools.py:360-403 | each added correlation has the rule, severity and narrative of its payload |
| MigrationRun.Database.Run | src/shared_integration/migration_tools.py:83-149 | a refusal or a dry run leaves the database as it was; an apply commits all tables, reports all counts |
| MigrationRun.Conserved | src/shared_integration/migration_tools.py:83-149 | imported plus skipped equals the source in all five counts, for every source and target |
| MigrationRun.ImportedIsAdded | src/shared_integration/migration_tools.py:96-149 | in each of the five counts, imported is the number of rows the target gained |
| MigrationRun.TargetKept | src/shared_integration/migration_tools.py:98-143 | no row the target had is lost or changed |
| MigrationRun.SecondRunChangesNothing | src/shared_integration/migration_tools.py:83-149 | a second apply imports nothing, skips everything and leaves every table, audits included, as it was |
| MigrationRun.LinksFollowFindings | src/shared_integration/migration_tools.py:368-403 | an imported correlation's links are distinct and are exactly what its names become: the row with the fingerprint of the last source finding of that id, or the name itself if the source has none |
| MigrationRun.KnownFindingsLinked | src/shared_integration/migration_tools.py:368-403 | where the source holds each id once, as the legacy schema demands, every finding a correlation names is linked to the target row with that finding's fingerprint |
| MigrationRun.ReplayCarriesOver | src/shared_integration/migration_tools.py:222-295 | a job new to the target arrives with every column and the whole log it had; so if its legacy columns say what the log says of status, attempts, error and cancellation, the target job's log replays to its row |
| MigrationAccepts.MigrateOkIff | src/shared_integration/migration_tools.py:96-403 | a run over a file that keeps the legacy schema's unique constraints goes through if and only if no new tenant takes another's slug and every job, event, finding and correlation is acceptable, each condition stated on file and target beforehand |
| MigrationAccepts.KeysStayUnique | src/shared_integration/migration_tools.py:222-261 | the import never gives two jobs of a tenant one idempotency key |
| MigrationAccepts.SlugsStayUnique | src/shared_integration/migration_tools.py:102-118 | nor two tenants one slug |
| MigrationAccepts.SourceTenantsAre | src/shared_integration/migration_tools.py:212-219 | the tenants imported and counted are those that some row of some table names, each once |
| MigrationAccepts.RunAudited | src/shared_integration/migration_tools.py:134-143 | a run leaves one audit entry per source file and tenant with its counts; one already there keeps its own |

## Left out

- External cancellation of an executor task, process crashes and repository faults: the protocol assumes neither; a job row is never deleted while it runs.
- One job per protocol run: jobs share no row, and `JobRepository` proves that each call leaves the other jobs alone.
- `set_dispatch_id`, `list_jobs` and audit rows of the job store: they touch nothing the results read. A `submit` that raises is taken to have delivered nothing.
- The deadline and subprocess handling of adapters: a scan is an arbitrary outcome.
- Timestamps of jobs and events, and the clock's float rounding in the limiter; times there are reals, elsewhere integers.
- The limiter's clock is read before its lock is taken: calls that swap between the two would break the non-decreasing order that `AgreesWithReference` asks for.
- SHA-256, scrypt and generated ids: a digest is represented by what it digests, a drawn value by a parameter that is never drawn twice.
- Unicode case folding and stripping beyond ASCII in fingerprints, and `default=str` for locators that are not strings.
- Cursor.DecodeCursor: refuses bytes outside ASCII, where `int` would also read other scripts' digits; its own contract bounds what is accepted and does not list which other texts are, since only printed cursors are ever promised to be read.
- JobRepository.Repository.CreateJob: is the create no other creator interferes with; the tenant row and the conflict path are in `Creation`.
- Row-lock semantics are PostgreSQL's; SQLite ignores `FOR UPDATE`, so the finding store is not modelled there.
- FindingRace starts from an empty table; other parts of the system may insert the tenant at any time.
- Parsing `Last-Event-ID`, which becomes a natural number before the stream starts.
- `query`, `subscribe` and the in-process queues of the finding registry, and `src/shared_integration/persistence.py`.
- Paging models the select of a page as one read of the table; `list_page` writes nothing.
- Comparing times with and without a zone, which raises in the correlation rule, and rules other than the shipped one.
- Reads of the identity tables are not locked against a concurrent revocation: each identity call is one atomic step here.
- API keys, scopes, users' profiles, and the secrets, authentication and issuer check of identity clients.
- Tenant names of the migrator, and values its JSON conversion coerces; a row that does not parse is one refusal. Its slug is a digest, represented by the tenant id it digests.
- Values that do not fit their columns or that the database cannot store: only integrity errors make a create or a store raise here.
- Which exception a refused migration raises: every refusal is one value, since all of them roll back alike.
- HTTP wiring, tracing, command line and configuration.
