# Elodea: verified models of its durable state machines

Elodea is an inline policy proxy for tool calls. A request is evaluated by policy,
written to an append-only ledger, and then forwarded, denied or held. A held action
waits for a reviewer; once approved it is replayed by background workers. This
project models the parts of Elodea whose correctness depends on interleavings,
crashes and encodings, and proves what they promise.

| files | what they model |
|---|---|
| `Quarantine`, `Replay` | the quarantine table's guarded updates, and the replay protocol as a transition system: any number of worker replicas, proxy requests and reviewers, with crashes, cancellations and calls that are applied, lost, or applied with the acknowledgement lost |
| `ReplayOwnership`, `ReplaySteps`, `ReplayHistory`, `ReplayBudget`, `ReplayAudit`, `ReplayOnce`, `ReplayDrain`, `ReplaySettle`, `ReplayStatus`, `ReplayAbandon`, `ReplayRecords` | what holds of every run of that protocol |
| `ReplayLedger` | the protocol and the ledger's append transactions running together |
| `ReplayWorker` | the worker, proxy and reviewer code statement by statement, each statement an action of the protocol and every other actor free to act in between |
| `Encoding`, `Ledger`, `LedgerChain`, `LedgerAppend`, `LedgerPages` | the hash-chained ledger: canonical encoding, verification and tamper evidence, concurrent appends, cursor pagination |
| `Json`, `Headers`, `Ingress` | the ingress parser, and the recheck that must see at replay time what ingress saw |
| `Outbox` | the notification outbox |
| `Session` | console session idle tracking |

A run is a sequence of actions and `After` is the state it leads to; a statement
about every run is therefore one about every reachable state and every
interleaving. Code that changes state is a class holding that state together with
a ghost record of the run so far; between two of its statements the class lets the
other actors do anything they could do, and the method is verified against all of
it. The digest, Base64, JSON lexing, policy verdicts and clocks are parameters, so
each result holds whatever they answer.

Assumptions taken from the source: ledger and policy recheck are configured
(`backend/cmd/server/main.go:537-540`); the advisory lock is held as long as its
pass is alive; the upstream deduplicates on the idempotency key and answers 2xx
only for a key it has carried out.

Where code and documentation differ, the model follows the code:

- The outbox is documented never to send one notification twice concurrently
  (`backend/internal/notify/notify.go:6-7`). That holds while claims finish within
  their lease and fails otherwise: `NoOverlapWithinLease`, `OverlapExactly`,
  `OutlivedLeaseOverlaps`.
- Its eight attempts are documented as about 2.5 hours of backoff
  (`backend/internal/notify/notify.go:194`); the waits add up to 1905 seconds:
  `TotalBackoff`.
- The replay pass is documented to recover its abandoned claims before the lock is
  released (`backend/internal/quarantine/store.go:99-100`). It does so exactly when
  its batch is worked off and no settle was lost; otherwise the next pass does:
  `ClaimIsAbandoned`, `AbandonsExactly`, `NothingAbandoned`.
- The documented status diagram (`backend/internal/quarantine/store.go:51-55`) leaves
  out the step from parked to denied, which the update allows
  (`backend/sql/quarantine.sql:22-24`), and the one from replaying back to approved:
  `EdgesAreExact`.
- Captured header values are documented as preserved byte for byte
  (`backend/internal/mcp/headers.go:13-14`). They pass through JSON, which replaces
  bytes that are not UTF-8, so that holds exactly when there are none:
  `PreservedExactly`, `BadByteIsReplaced`. No mirrored header that ingress accepts
  is affected: `LookupRestored`.
- Ingress looks headers up by case folding and capture filters them by lower case.
  The two disagree on one letter (U+017F), so recheck parity has an exact
  condition, which every name made of HTTP token characters meets: `RecheckParity`,
  `TokenNamesArePlain`, `LongSIsNotPlain`.

## Model

| member | source | states |
|---|---|---|
| ReplayOwnership.SingleOwnership | backend/internal/quarantine/store.go:102-119 | In every reachable state an entry some live pass has yet to settle is 'replaying', equals its claimed snapshot in every column, and is in no other replica's batch nor twice in one |
| ReplayOwnership.OwnershipAlways | backend/internal/quarantine/worker.go:124-160 | Every run keeps: only the lock holder is in a pass, its batch is held unchanged in the table, and an entry past the limit is only ever parked |
| ReplayOwnership.ReviewerSpares | backend/sql/quarantine.sql:11-24 | A reviewer's update never touches a claimed row, the lock or any pass |
| ReplayOwnership.ProxySpares | backend/sql/quarantine.sql:1-3 | Storing a held request never touches a claimed row, the lock or any pass |
| ReplaySteps.StepChanges | backend/sql/quarantine.sql:11-53 | Every action of the protocol changes table and history in one of eight ways, each with the guard of its update |
| ReplayHistory.Conservation | backend/sql/quarantine.sql:11-53 | In every reachable state an entry's status determines its numbers of approvals, denials, parkings and completions |
| ReplayHistory.OneVerdictPerRound | backend/internal/quarantine/store.go:160-182 | Between two verdicts on an entry lies a parking, and no verdict follows a denial: of racing reviewers exactly one decides a round |
| ReplayHistory.ReplaysAreAuthorised | backend/internal/quarantine/worker.go:168-234 | Every upstream replay precedes any denial and any recorded completion of its entry and names the reviewer of its most recent approval |
| ReplayHistory.SentWhileReplaying | backend/internal/quarantine/worker.go:176-201 | At the moment a replay is sent its row is 'replaying' and within the attempt limit |
| ReplayHistory.RecordedAlways | backend/internal/quarantine/store.go:238-261 | Every run keeps the counts balanced, rows attributed to their last approver, and every recorded event justified by its past |
| ReplayBudget.ReplayBound | backend/internal/quarantine/worker.go:221-233 | In any stretch of any run without a new approval of an entry at most maxAttempts + 1 calls are made for it |
| ReplayBudget.BudgetAlways | backend/sql/quarantine.sql:44-53 | Every path back to a claimable state has raised the attempt count past the calls already made |
| ReplayAudit.NothingRunsUnaudited | backend/internal/quarantine/worker.go:187-201 | There is an injection from upstream calls to earlier ledger entries, 'allow' for forwards and 'replay_started' of the same entry for replays, with the digest of the payload sent |
| ReplayAudit.AuditedAlways | backend/internal/proxy/proxy.go:452-488 | Every run keeps each write-ahead entry unspent until its one call |
| HeldActions.PlaySound | backend/internal/quarantine/worker.go:288-329 | The abstract machine carries each held action out at most once, with its payload, only once approved, and finishes only what was carried out |
| ReplayOnce.RunRefines | backend/internal/quarantine/worker.go:288-329 | Every run of the protocol is, action for action, a run of that machine |
| ReplayOnce.AtMostOnce | backend/internal/quarantine/worker.go:307-311 | Over every run no idempotency key is carried out twice, each effect is an approved entry's held payload, and 'replayed' implies carried out |
| ReplayOnce.KeyRoundTrip | backend/internal/quarantine/worker.go:311 | The idempotency key determines the entry |
| ReplayOnce.CallsAreGenuine | backend/internal/quarantine/worker.go:288-311 | Every call for an entry carries its held payload and the fixed key made of its id |
| ReplayOnce.StepRefines | backend/sql/quarantine.sql:44-53 | Each single action corresponds to one move of the abstract machine or to none |
| ReplayDrain.PassDrains | backend/internal/quarantine/worker.go:146-160 | From the claim of a batch to its end the work left in the table falls by at least the size of the batch, whatever upstream, policy and ledger answer and whoever else acts |
| ReplayDrain.SettlesAreBounded | backend/internal/quarantine/worker.go:146-234 | Without new approvals the work present at one point bounds all later settles by any replicas, over crashes and cancellations |
| ReplayDrain.EmptyClaimMeansDrained | backend/sql/quarantine.sql:29-42 | After recovery a claim comes back empty only if no entry is approved or replaying |
| ReplayDrain.NoWorkNoLiveRow | backend/sql/quarantine.sql:29-53 | No work is left exactly when no row is approved or replaying |
| ReplayDrain.ChangeWork | backend/sql/quarantine.sql:44-53 | Only an approval adds work; every settle removes some |
| ReplayDrain.DecidedStays | backend/sql/quarantine.sql:11-53 | A decided entry never vanishes and never becomes pending again |
| ReplayDrain.RoundLowers | backend/internal/quarantine/worker.go:124-160 | A worked-off pass by any replica lowers the work left, or there was none when it claimed |
| ReplayDrain.DrainTerminates | backend/internal/quarantine/worker.go:107-160 | With any number of replicas and without new approvals or failing settles, once as many passes were worked off as there was work, every approved or replaying entry is replayed or parked (or denied since) |
| ReplaySettle.SettledRow | backend/internal/quarantine/worker.go:168-234 | Over every run an applied settle turns exactly the claimed row into the one its story calls for: replayed if confirmed, parked if past the limit, blocked or failed at the limit, otherwise approved again, with the attempt counted unless parked |
| ReplaySettle.RetriedExactly | backend/internal/quarantine/worker.go:221-233 | When all its calls fail and every settle is applied, an approved entry is retried until exactly maxAttempts + 1 calls were made and parked at that one |
| ReplaySettle.FitsAlways | backend/internal/quarantine/worker.go:168-234 | In every reachable state the phase of a pass agrees with what its own steps say happened to the entry |
| ReplaySettle.ExactAlways | backend/sql/quarantine.sql:44-53 | As long as nothing but failed calls happens to it, an entry's attempt count is the number of calls made under its approval |
| ReplayStatus.OnlyEdges | backend/sql/quarantine.sql:11-53 | No action changes a status along anything but the nine edges of the guarded updates |
| ReplayStatus.RowChanges | backend/sql/quarantine.sql:1-53 | What one action does to a row, column by column, with the event it records; what is held never changes, and a new row carries the request's fields |
| ReplayStatus.VerdictRow | backend/sql/quarantine.sql:11-24 | Over every run, directly after an approval the row is approved under that reviewer with attempts 0, directly after a denial denied with attempts kept, the held columns unchanged |
| ReplayStatus.EdgesAreExact | backend/internal/quarantine/store.go:51-63 | Over all runs one action changes an entry's status exactly along these edges, each taken by some run; the documented diagram lacks two of them and has no other |
| ReplayAbandon.ExplainedAlways | backend/internal/quarantine/worker.go:146-160 | While a pass works, the replaying rows are exactly its unsettled entries and those whose settle was lost |
| ReplayAbandon.AbandonsExactly | backend/internal/quarantine/store.go:96-119 | However a pass ends the lock is free, and the rows it leaves replaying are exactly its unsettled and lost entries, or what an unacknowledged claim took, or what a lost recovery never reached |
| ReplayAbandon.NothingAbandoned | backend/internal/quarantine/store.go:99-101 | A returning pass has recovered its claims if and only if its batch is worked off and no settle was lost |
| ReplayAbandon.ClaimIsAbandoned | backend/internal/quarantine/worker.go:146-160 | A run in which a cancelled pass releases the lock with its claim still replaying |
| ReplayRecords.ProxyTells | backend/internal/proxy/proxy.go:438-468 | The ledger entry about an evaluated request: allow, deny or quarantine, with its agent, payload digest and request id; a failed hold is told as such |
| ReplayRecords.WorkerTells | backend/internal/quarantine/worker.go:168-234 | The ledger entries about a claimed entry, word for word, in the approving reviewer's name |
| ReplayRecords.ReviewerTells | backend/internal/quarantine/handler.go:158-183 | The ledger entry about a verdict says approved or denied, names the reviewer and the entry, has the digest of what is held, and follows that very verdict |
| ReplayRecords.NothingElseIsTold | backend/internal/quarantine/handler.go:242-258 | No other action writes to the ledger |
| ReplayLedger.AppendEndsInOneOfThree | backend/internal/ledger/ledger.go:77-142 | Every returned append has written nothing, or exactly one entry with the caller's fields, acknowledged or not |
| ReplayLedger.EndIsFinal | backend/internal/ledger/ledger.go:107-142 | How a returned append ended never changes afterwards |
| ReplayLedger.AppendsExactly | backend/internal/quarantine/worker.go:334-354 | An action adds a ledger entry to the history exactly when its append was not lost, and then that entry |
| ReplayLedger.NothingRunsOffTheChain | backend/internal/quarantine/worker.go:187-201 | With protocol and append transactions interleaved at will, every upstream call has its own entry in a chain that verifies, with decision, reviewer and payload digest |
| ReplayWorker.SelectApproved | backend/sql/quarantine.sql:29-42 | Claims approved rows only, each once, the oldest first, as many as the limit allows and all of them when they fit |
| ReplayWorker.ScriptIsSafe | backend/internal/quarantine/worker.go:168-234 | An entry is sent exactly when within its limit, not blocked, audited and built, directly after its acknowledged write-ahead entry, and is settled exactly once |
| ReplayWorker.World.ProcessClaimed | backend/internal/quarantine/worker.go:168-234 | The steps taken are exactly the script of the answers received, the settle turns the claimed row into the one those answers call for, and without store failures the work left strictly falls |
| ReplayWorker.World.DoReplay | backend/internal/quarantine/worker.go:288-329 | A call is reported successful only if the upstream has carried out its key |
| ReplayWorker.World.DrainOnce | backend/internal/quarantine/worker.go:146-160 | The steps taken are the scripts of the entries processed, in claim order, and the rest of the batch stays claimed; without failures the whole batch is processed and the work left falls by its size |
| ReplayWorker.World.ProcessOnce | backend/internal/quarantine/worker.go:124-144 | A pass is skipped only because another replica holds the lock; otherwise, without new approvals or failing updates, it lowers the work or finds none, whatever the other replicas do |
| ReplayWorker.World.Run | backend/internal/quarantine/worker.go:107-120 | The polling loop: a tick without a pass means contention, and once it has passed as often as there was work every approved or replaying entry is replayed or parked, with other replicas running |
| ReplayWorker.World.TryLock | backend/internal/quarantine/store.go:102-119 | The lock is acquired exactly when nobody holds it, and a failed attempt changes nothing |
| ReplayWorker.World.Unlock | backend/internal/quarantine/store.go:102-119 | Leaving the pass frees the lock and changes no row |
| ReplayWorker.World.RecoverStuckReplays | backend/internal/quarantine/store.go:234-236 | Success means every replaying row is approved again with one more attempt counted; failure leaves the table so or unchanged |
| ReplayWorker.World.ClaimApproved | backend/internal/quarantine/store.go:195-205 | Claims the oldest approved rows and returns them as they now stand; an empty claim without failures means no work is left |
| ReplayWorker.World.ServeHTTP | backend/internal/proxy/proxy.go:452-533 | The audit entry comes first; once it is acknowledged an allowed request is forwarded, a denied one refused and a held one stored or its failure noted; without it no further step is taken |
| ReplayWorker.World.HoldRequest | backend/internal/proxy/proxy.go:501-528 | A held request is never forwarded; 'quarantined' is answered only with its payload stored for review, and a failed store is noted in the ledger |
| ReplayWorker.World.Resolve | backend/internal/quarantine/handler.go:158-183 | A verdict reported as made was applied by this very call to a pending or parked row, leaving it under the reviewer's name with attempts 0 if approved, and is reported audited exactly when its ledger entry was acknowledged; a conflict means the row was already decided; a failing read changes nothing and only an unknown id is not found |
| ReplayWorker.OthersLeaveMe | backend/internal/quarantine/store.go:96-119 | Whatever other actors do, a replica's pass stays as it left it |
| Encoding.FieldsRoundTrip | backend/internal/ledger/ledger.go:27-52 | A decoder undoes the length-prefixed encoding of any list of any fields |
| Encoding.FieldsInjective | backend/internal/ledger/ledger.go:27-52 | Different field lists have different encodings |
| Encoding.DecHasNoLeadingZero | backend/internal/ledger/ledger.go:46-48 | The length of a field is written as its one decimal numeral |
| Encoding.BundleRoundTrip | backend/internal/opaengine/engine.go:162-175 | A decoder undoes the encoding of any list of policy files |
| Encoding.BundlePreimageIsExact | backend/internal/opaengine/engine.go:140-176 | Two bundles feed the digest the same bytes exactly when they hold the same files with the same content |
| Encoding.ListingIsUnique | backend/internal/opaengine/engine.go:154-162 | A bundle has one sorted listing |
| Encoding.BeforeIsLexicographic | backend/internal/opaengine/engine.go:162 | The order of the listing is the byte order of its paths |
| Encoding.BundlePreimage | backend/internal/opaengine/engine.go:162-175 | The loop over the sorted paths feeds exactly the bundle encoding |
| Ledger.TimeInjective | backend/internal/ledger/ledger.go:23-25 | Two times that format alike agree to the microsecond |
| Ledger.TimeIsShown | backend/internal/ledger/ledger.go:32 | Where year, month, day, hour, minute, second and microsecond stand in the formatted time, digit for digit |
| Ledger.PreimageLayout | backend/internal/ledger/ledger.go:27-52 | Decoded again, the hashed bytes are the nine columns in the source's order and the policy version as a tenth exactly when set |
| Ledger.FieldBytes | backend/internal/ledger/ledger.go:46-48 | The literal bytes of example field lists |
| Ledger.PreimageIsExact | backend/internal/ledger/ledger.go:27-52 | Two entries share a preimage exactly when they agree on every hashed field, with or without a policy version |
| LedgerChain.VerifyChain | backend/internal/ledger/ledger.go:199-234 | Valid exactly when every link and hash holds and any anchor is present with its hash; otherwise the first offending entry and its first failed check, or the missing anchor, is reported |
| LedgerChain.TruncationNeedsAnAnchor | backend/internal/ledger/ledger.go:144-150 | Every strict prefix of a valid chain passes without an anchor and fails against the old head |
| LedgerChain.FindConflict | backend/internal/ledger/ledger.go:197-234 | Two verified chains with one head hash have the same content, or two entries of equal hash and different content are found |
| LedgerChain.FindCollision | backend/internal/ledger/ledger.go:27-52 | Two verified chains with one head hash have equal length and agree on every hashed field, or a collision of the digest is computed from them |
| LedgerChain.AnchorFixesHistory | backend/internal/ledger/ledger.go:144-150 | A chain verified against an anchor starts with exactly the anchored chain's content, or a collision is computed |
| LedgerAppend.AppendsKeepTheChain | backend/internal/ledger/ledger.go:107-142 | For every interleaving of appends, failures and retries the chain is numbered 1 to n and verifies, and every head read earlier still verifies as an anchor |
| LedgerAppend.AppendAddsAtMostOne | backend/internal/ledger/ledger.go:77-100 | Each append adds at most one entry, exactly one when it reports success, carrying the caller's fields |
| LedgerAppend.SealIgnoresHash | backend/internal/ledger/ledger.go:27-52 | The entry hash does not depend on the hash column |
| LedgerAppend.ExtendWellFormed | backend/internal/ledger/ledger.go:107-142 | Appending to the current tip keeps numbering, links and hashes |
| LedgerAppend.CommitAdds | backend/internal/ledger/ledger.go:124-142 | A commit adds one entry with the number after the tip, its hash as link, the caller's fields, and the given or current time cut to the microsecond |
| LedgerAppend.Store.AppendOnce | backend/internal/ledger/ledger.go:107-142 | The steps are those of one transaction as far as it came, ended by an acknowledged commit, a serialization failure, or another error (an unacknowledged commit included) |
| LedgerAppend.Store.Attempts | backend/internal/ledger/ledger.go:77-100 | The steps of a call are at most eight transactions, each but the last lost to a serialization failure and retried; it ends by success, another error, exhaustion after eight, or cancellation |
| LedgerAppend.Store.Append | backend/internal/ledger/ledger.go:67-100 | Success means exactly one entry with the caller's fields is in a chain that verifies; failure never means two |
| LedgerPages.PaginationIsExact | backend/internal/ledger/handler.go:56-97 | Following the cursor to its end returns the filtered ledger as of the first page, newest first, without gap or repeat, for any page size and any appends in between |
| LedgerPages.PagesOfARun | backend/internal/ledger/ledger.go:263-279 | The same over the snapshots of any run of concurrent appends that stays below MaxInt64 entries |
| LedgerPages.FollowContinues | backend/sql/ledger.sql:27-36 | Every later page continues exactly where the first snapshot left off |
| LedgerPages.CursorDecreases | backend/internal/ledger/handler.go:56-97 | The cursor falls with every page, so following it terminates |
| LedgerPages.FirstBoundIsExact | backend/internal/ledger/ledger.go:263-279 | The first page's bound hides a matching row exactly when one is numbered MaxInt64 or more |
| LedgerPages.NewestMeans | backend/sql/ledger.sql:27-36 | The walk returns a row exactly if it passes every filter that is set |
| LedgerPages.NewestDescends | backend/sql/ledger.sql:27-36 | Newest first, no number twice |
| LedgerPages.RefusedExactly | backend/internal/ledger/handler.go:63-79 | A query is refused exactly for a limit outside 1 to 1000, a cursor below 1, or either not a number |
| LedgerPages.PageMeans | backend/internal/ledger/handler.go:56-97 | A page holds the newest wanted rows below the cursor up to the limit, 100 by default, and a next cursor exactly when full |
| Json.DecodeValue | backend/internal/mcp/json.go:36-78 | Succeeds exactly when no object in the value repeats a name; then it consumes that value and nothing more and returns what a last-wins reader sees |
| Json.DecodeObjectBody | backend/internal/mcp/json.go:42-62 | The same of the members of an object, up to its closing brace |
| Json.DecodeArrayBody | backend/internal/mcp/json.go:63-74 | The same of the items of an array, up to its closing bracket |
| Json.DecodeObject | backend/internal/mcp/json.go:17-32 | Succeeds exactly on an object that repeats no name at any depth; first-wins and last-wins readers agree with its result |
| Json.ReadersAgree | backend/internal/mcp/json.go:10-16 | Without repeated names first-wins and last-wins readers see the same value at every depth |
| Json.ItemsInPlace | backend/internal/mcp/json.go:63-74 | The value read for an array has the reading of each item in its place |
| Json.LastWinsAt | backend/internal/mcp/json.go:42-62 | The last-wins reader takes the last member of a name |
| Json.FirstWinsAt | backend/internal/mcp/json.go:42-62 | The first-wins reader takes the first member of a name |
| Json.TokensUnambiguous | backend/internal/mcp/json.go:36-78 | A token stream spells one value in one way and leaves one remainder |
| Headers.SingleHeader | backend/internal/proxy/proxy.go:331-356 | Whatever order the map is walked in, finds the one good value under all names that fold to the header, or says absent or invalid |
| Headers.CheckValue | backend/internal/proxy/proxy.go:344-354 | A value is accepted exactly if it is not empty, not padded, and all visible characters or tabs |
| Headers.CaptureReplayHeaders | backend/internal/mcp/headers.go:15-31 | The result is a capture of the allowed headers in some iteration order |
| Headers.CapturedAreAllowed | backend/internal/mcp/headers.go:15-31 | Nothing outside the allowlist is captured, and no name without a value |
| Headers.CapturedAt | backend/internal/mcp/headers.go:15-31 | A captured key holds exactly the values of the allowed keys that canonicalise to it |
| Headers.AllowedExactly | backend/internal/mcp/headers.go:18-26 | For names HTTP allows, the allowlist is Accept, three mirrored names and the Mcp-Param- family, in any casing |
| Headers.CredentialsAreNeverCaptured | backend/internal/mcp/headers.go:10-14 | No captured header is a credential, a cookie, a connection header or an idempotency key |
| Headers.AllowedIsCaptured | backend/internal/mcp/headers.go:15-31 | An allowed header under its one canonical name is captured with its values |
| Headers.AcceptIsAllowed | backend/internal/mcp/headers.go:18-20 | Accept is an allowed canonical name, so the one above applies to it |
| Headers.LookupRestored | backend/internal/mcp/headers.go:36-46 | A mirrored header that ingress accepted is found with the same value after capture, storage and a second capture exactly when it is plainly named |
| Headers.RecaptureKeeps | backend/internal/mcp/headers.go:15-31 | Capturing a capture again changes nothing |
| Headers.PreservedExactly | backend/internal/mcp/headers.go:10-46 | The captured headers come back unchanged if and only if no captured name or value holds an undecodable byte |
| Headers.BadByteIsReplaced | backend/internal/mcp/headers.go:13-14 | A parameter header with an undecodable byte comes back with a replacement character instead |
| Ingress.ParseRequest | backend/internal/proxy/adapter.go:81-102 | Decode, validate and compare the mirrored headers: accepts exactly the well-formed requests whose headers do not contradict the body, with the error code of the first failure |
| Ingress.RequestMeans | backend/internal/proxy/adapter.go:81-102 | A request that a body describes is a mismatch exactly when a mirrored header contradicts it; otherwise accepted with the method, name, tool, arguments and id its members give, and policy sees tool, arguments, method and version |
| Ingress.InvalidExactly | backend/internal/proxy/proxy.go:218-292 | A body without repeated names is invalid exactly when its members describe no request; a usable id is echoed |
| Ingress.DescribedIsAccepted | backend/internal/proxy/proxy.go:218-292 | A body whose members describe a request is accepted as exactly that request |
| Ingress.AcceptedIsDescribed | backend/internal/proxy/proxy.go:218-292 | Every accepted body describes the request it is accepted as |
| Ingress.UnreadableIsInvalid | backend/internal/proxy/proxy.go:218-222 | Anything but one object without repeated names is invalid, with no id echoed |
| Ingress.HeaderNameMeans | backend/internal/proxy/proxy.go:360-372 | A name in the sentinel form stands for its decoded text, any other for itself |
| Ingress.StoredRequestParses | backend/internal/proxy/adapter.go:190-211 | A stored request that ingress accepted parses again, identical but possibly for its protocol version |
| Ingress.HeadersStillAgree | backend/internal/proxy/proxy.go:297-326 | Mirrored headers that agreed with the body at ingress still agree after being restored |
| Ingress.RecheckParity | backend/internal/proxy/adapter.go:190-211 | The recheck sees the policy input that ingress saw, apart from the time, exactly when the version header is plainly named |
| Ingress.TokenNamesArePlain | backend/internal/proxy/proxy.go:331-356 | Header names made of HTTP token characters are always plainly named |
| Ingress.LongSIsNotPlain | backend/internal/proxy/proxy.go:331-356 | A name spelled with a long s is found at ingress and not captured |
| Outbox.OutboxBounds | backend/internal/notify/notify.go:239-315 | Over every run a notification is sent at most eight times and never leased after its delivery is recorded |
| Outbox.NoOverlapWithinLease | backend/sql/notify.sql:10-27 | While claims finish within their lease at most one worker holds a notification |
| Outbox.OverlapExactly | backend/sql/notify.sql:10-27 | A second send can start beside the first exactly when the first claim's lease is over and the row is neither delivered nor out of attempts |
| Outbox.OutlivedLeaseOverlaps | backend/internal/notify/notify.go:239-255 | A run in which two workers are sending the same notification at once |
| Outbox.BackoffIsExact | backend/internal/notify/notify.go:317-321 | Up to thirty attempts the shift does not overflow and the cap is exact |
| Outbox.BackoffOverflows | backend/internal/notify/notify.go:317-321 | The thirty-first would be negative |
| Outbox.BackoffDoubles | backend/internal/notify/notify.go:193-197 | For every reachable attempt count the delay doubles and stays within the hour |
| Outbox.TotalBackoff | backend/internal/notify/notify.go:193-197 | The waits between eight attempts add up to 1905 seconds |
| Outbox.Worker.Deliver | backend/internal/notify/notify.go:257-315 | The steps taken are exactly those the answers call for, sending only when the channel exists and the action is readable and pending; the row is then closed, or due again after the backoff of its attempt count |
| Outbox.Worker.Try | backend/internal/notify/notify.go:257-291 | The steps up to the send for each combination of configuration, read and send result, and how the row is to be marked |
| Outbox.Worker.Close | backend/internal/notify/notify.go:293-315 | One settle step marks the row delivered or due after the backoff, and touches no other claim |
| Outbox.Worker.EnqueueHeld | backend/sql/notify.sql:1-8 | Adds a row, due at once and unattempted, for each held action that has none, and leaves existing rows alone |
| Outbox.SelectDue | backend/sql/notify.sql:16-25 | Selects due rows only, each once, the oldest first, as many as the limit allows and all of them when they fit |
| Outbox.Worker.Lease | backend/sql/notify.sql:10-27 | Of the selected rows leases exactly those due, with one more attempt and a two-minute lease, and changes no other row |
| Outbox.Worker.DeliverAll | backend/internal/notify/notify.go:252-254 | Works through each lease exactly once, with the steps of its answers, and nothing else |
| Outbox.Worker.ProcessOnce | backend/internal/notify/notify.go:239-255 | Every held action has a row afterwards; at one point of the tick the oldest due rows, up to 25, are leased, each lease is worked through once, and none outlives the tick; a failing statement ends the tick with nothing leased |
| Session.ThrottleAdmitsNoMore | backend/internal/sso/sso.go:290-316 | Over every trace the throttled policy admits nothing that writing on every request would refuse, even if writes fail |
| Session.ThrottleLosesAtMostAMinute | backend/internal/sso/sso.go:290-316 | It admits everything that writing on every request with a minute less idle time would admit |
| Session.TheMinuteIsReal | backend/internal/sso/sso.go:53-54 | For every idle limit above a minute a trace where the two differ |
| Session.NeverRevives | backend/sql/auth.sql:19-28 | A session once refused is never admitted again |
| Session.HardLimits | backend/sql/auth.sql:19-24 | Under either policy no request is admitted at or after the absolute expiry, to a session without a reviewer role, or after a sign-out, however recently it was seen |
| Session.Store.AuthenticateSession | backend/internal/sso/sso.go:290-316 | Admits exactly a session that is not revoked, before its expiry, seen within the idle limit and a reviewer's, and records activity exactly when the last record is over a minute old and the write succeeds |
| Session.Store.RevokeSession | backend/sql/auth.sql:30-32 | After a sign-out no request is admitted at any time |

## Left out

- HTTP serving, reverse-proxy transport, CORS, streaming deadlines, metrics and logging: plumbing without state to reason about.
- SHA-256, HMAC, Base64, UTF-8 and JSON lexing: parameters of the model (`hash`, `H`, `b64`, `bad`, `syntax`).
- The OPA evaluator and the Rego rules: a policy verdict is arbitrary in the protocol, and the ingress results are about the policy input.
- The worker's polling timer: `World.Run` repeats the pass a given number of times.
- Postgres internals: each statement is one atomic step, a serialization failure rolls its transaction back without effect, and claims skip no locked row because only the lock holder claims.
- Column widths: `attempts` and sequence numbers are unbounded integers; sequence numbers reach the page bound only in `FirstBoundIsExact`.
- The tie-break by id of the claim order: any order among entries of equal age is allowed.
- Outbound replay headers (`doReplay`'s copy of captured headers, the service token, `StripAgentControlledHeaders`) and response handling beyond success or failure.
- Slack and webhook messages and signatures, OIDC sign-in, role mapping, configuration, rate limiting, dashboards, migrations other than the append-only rule.
- Ledger export, anchor parsing in the verify handler, and the batched cursor inside the ledger stream: `VerifyChain` takes the rows in sequence order.
- The directory walk of the bundle version and the shortening of its digest to sixteen hexadecimal digits: only the bytes fed to the digest are modelled.
- Other outbox workers: in a run any due row may be leased by anyone; only the worker's own code follows the batch size and order.
- Timestamps are civil UTC records; calendar validity and time zones are not modelled.
- Outbox.Worker.ProcessOnce: what an enqueue or claim statement did although it reported failure is a step of some other worker in the run.
- Session.ThrottleLosesAtMostAMinute: requests are atomic and on one clock, and activity writes succeed; failed writes are covered by `ThrottleAdmitsNoMore` only.
