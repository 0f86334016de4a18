# Verification models of the MODstore server

Dafny models of the stateful protocols and of the text and arithmetic kernels of the MODstore server, with proofs of what
they keep over every input, every run and every interleaving. `dafny verify dfyconfig.toml` checks the whole project.

Code that only computes is modelled by functions. Code that works step by step is modelled by methods with the same loops
and branches, and tables or dictionaries it updates by the fields of a class. Methods are proved against functions on
values, and the laws are lemmas about those functions and about runs of them. Outside calls (payment, wallet, upstream
models, the vector engine, other services) are parameters that may answer or fail in any way.

| files | what they model |
|---|---|
| `Normalizer.dfy`, `Chunker.dfy`, `Text.dfy` | the text normaliser, the overlapping chunker and the chunk metadata of uploads |
| `SlidingWindow.dfy`, `RateLimits.dfy` | the three sliding-window limiters, against the full history of accepted calls |
| `ExperienceLedger.dfy`, `LedgerInterleaving.dfy` | the experience ledger: serial calls, and workers whose steps interleave |
| `PaidOrders.dfy` | the paid-order store and the entitlements it grants |
| `Metering.dfy`, `WalletProtocol.dfy` | token charges in cents, and the wallet hold around a chat call or stream |
| `CatalogStore.dfy`, `CatalogSync.dfy` | the package store with draft promotion, and its synchronisation into the market table |
| `Invoices.dfy` | invoice applications and their review |
| `CustomerService.dfy`, `CustomerPlans.dfy` | tickets, idempotent actions, refund requests and complaints; what a message asks for and gets |
| `VectorStore.dfy`, `RedisStore.dfy`, `RedisGlob.dfy` | the two backends of the knowledge store, and the patterns one of them scans with |
| `ESkillValues.dfy`, `ESkillTemplate.dfy`, `ESkillInterpreter.dfy`, `ESkillPatch.dfy`, `ESkillGate.dfy`, `ESkillRuntime.dfy`, `ESkillVersions.dfy`, `ESkillRuns.dfy` | the skill runtime: interpreter, patcher, quality gate and version state machine; what one run decides |
| `Basics.dfy`, `Decimal.dfy`, `Keys.dfy` | shared helpers |

## Where the code keeps less than it promises

Each point is proved, with the condition under which the code does or does not keep the promise.

- Roll-backs of a skill are for good. Version rows are unique per skill and number (`MODstore_deploy/modstore_server/models.py:346`),
  and a solidified version always takes the active number plus one. Behind a roll-back that number is taken, so the commit
  fails, the session becomes unusable for the error path, and the run raises without a trace: a passed attempt becomes a
  version if and only if the active version is the newest (`SolidifiesIffNewest`, `RollbackIsForGood`,
  `RolledBackSkillIsStuck`).
- Uploading a document again loses its chunks from the collection's counter. The session that assigns the recomputed total
  loaded the collection before the old document was deleted in another session, and SQLAlchemy sends an assigned attribute
  only if it differs from the loaded value. The switch `writesEqual` of `VectorStore` separates the two readings: with
  every assigned total written, the counter is right over every run (`RunKeepsCounted`); with the mapper's rule, it is
  right over every run without an upload that replaces a document by one with the same positive number of chunks, and the
  first such upload makes it wrong (`RunKeepsCountedWithoutReplacement`, `UpsertKeepsCountedIff`, `SecondUploadUncounts`).
  What an upload or a deletion does to a counter that may be wrong already is stated for every state
  (`UploadCountsRightIff`, `DeletionCountsRightIff`); there the max with zero does decide (`ClampBites`).
- Deleting a document of the Redis store scans for a pattern that holds the text from the URL as it is. An asterisk there
  removes every chunk of the user and leaves the documents listed (`AsteriskDeletesAllChunks`). The scan is right for every
  document id, for every text without pattern characters, and in general exactly for the texts that `Exact` computes
  from their UTF-8 bytes (`ScanIsExactIff`, `PlainArgumentsAreExact`). It computes both answers where the server's C
  compiler decides: a bracket with a bound outside ASCII is compared as signed bytes on some machines and unsigned on
  others (`BracketDependsOnSign`). Uploading the listed documents again mends the store (`UploadingAgainMends`).
- The adapter cannot adapt an employee task that has a text: the replacement text is an f-string that names an undefined
  variable (`eskill_runtime.py:102`), so it raises (`ProposalRaisesIff`).
- A refund charged to someone other than the payer can run into the clamp at zero, and then counter and ledger part
  (`ConservesIffNoClamp`, `ClampCanBite`).
- A payment notice replayed after a refund grants the plan again (`ReplayAfterRefundGrantsAgain`).
- A hold stays open if the wallet's grant is lost on the way, as the client then has no number to release. It also stays
  open if a call fails before its settlement takes effect and the release has no effect either, or is never sent: in a
  chat because the failure log fails while an exception other than an HTTP one is handled, in a stream because it fails on
  whatever exception (`ChatLeavesOpenIff`, `StreamLeavesOpenIff`, `WaysToLeaveOpen`).
- Two payments or refunds of one user can lose an update if the session has loaded the user before: the locked read does
  not replace the value it saw (`StaleReadIff`, `StaleReadLosesPoints`).
- The patch of a skill cannot be merged if the old metadata is something dict() refuses (`MergeRaisesIff`).
- Registering a package whose id or version is not stripped can store its key twice (`AppendKeepsUniqueIff`, `UnstrippedTwice`).
- An invoice application that names an order twice bills it twice; only other invoices are checked (`AmountIsRightIffDistinct`).
- The docstring of the catalogue sync speaks of inserting missing packages; the code also updates the rows of present ones
  (`SyncChangesNothingIff`).

## Model

| member | source | states |
|---|---|---|
| Text.StripSlice | MODstore_deploy/modstore_server/knowledge_ingest.py:41 | str.strip cuts exactly at the first and last character that is not whitespace |
| Normalizer.CrLfWithoutPairs | MODstore_deploy/modstore_server/knowledge_ingest.py:38 | text without a carriage-return/newline pair is left alone by the first replacement |
| Normalizer.CrLfPairLaw | MODstore_deploy/modstore_server/knowledge_ingest.py:38 | a pair becomes one newline wherever it stands; both sides are rewritten on their own |
| Normalizer.CrToLfForm | MODstore_deploy/modstore_server/knowledge_ingest.py:38 | position by position, a remaining carriage return becomes a newline and nothing else changes |
| Normalizer.BlankRunLaw | MODstore_deploy/modstore_server/knowledge_ingest.py:39 | a maximal run of blanks and tabs becomes one blank, whatever stands around it |
| Normalizer.NewlineRunLaw | MODstore_deploy/modstore_server/knowledge_ingest.py:40 | a maximal run of newlines is cut to at most two, whatever stands around it |
| Normalizer.NormalizeIsCanonical | MODstore_deploy/modstore_server/knowledge_ingest.py:37-41 | the result has no carriage return, no tab, no two adjacent blanks, no three adjacent newlines and no outer whitespace |
| Normalizer.CanonicalIffFixed | MODstore_deploy/modstore_server/knowledge_ingest.py:37-41 | the canonical texts are exactly those the normaliser leaves alone |
| Normalizer.NormalizeIdempotent | MODstore_deploy/modstore_server/knowledge_ingest.py:196-205 | the second normalisation, inside chunk_text, changes nothing |
| Normalizer.NormalizeKeepsWords | MODstore_deploy/modstore_server/knowledge_ingest.py:37-41 | the words and their order are kept; only whitespace changes |
| Chunker.ChunkSize | MODstore_deploy/modstore_server/knowledge_ingest.py:20-21 | the configured chunk size, or the nearer end of 400..4000 if it lies outside |
| Chunker.ChunkOverlap | MODstore_deploy/modstore_server/knowledge_ingest.py:24-25 | the configured overlap, 0 for a negative one, and at most 800 and at most one below the chunk size |
| Chunker.CutWindows | MODstore_deploy/modstore_server/knowledge_ingest.py:206-216 | the loop computes the closed form: window i starts at i*(size-overlap), so max(pos+1, ...) never decides |
| Chunker.ChunkText | MODstore_deploy/modstore_server/knowledge_ingest.py:202-216 | the chunks are the stripped, non-blank windows of the normalised text |
| Chunker.WindowStartIsProduct | MODstore_deploy/modstore_server/knowledge_ingest.py:215 | windows advance by exactly size minus overlap |
| Chunker.WindowCountClosedForm | MODstore_deploy/modstore_server/knowledge_ingest.py:208-215 | a text longer than a chunk has ceil((len-overlap)/(size-overlap)) windows |
| Chunker.WindowCountChar | MODstore_deploy/modstore_server/knowledge_ingest.py:208-215 | there is a next window exactly if the last one did not reach the end |
| Chunker.WindowMeans | MODstore_deploy/modstore_server/knowledge_ingest.py:208-209 | window i is the slice of the text from i*(size-overlap), size characters long or to the end |
| Chunker.ChunksAreWindows | MODstore_deploy/modstore_server/knowledge_ingest.py:207-216 | the chunks are the stripped windows that show something: all of them, once each, in order |
| Chunker.ChunkBounds | MODstore_deploy/modstore_server/knowledge_ingest.py:209-212 | a chunk is nonempty, trimmed, no longer than the chunk size, and a slice of the normalised text |
| Chunker.VisibleCharactersAreCovered | MODstore_deploy/modstore_server/knowledge_ingest.py:208-215 | every character that is not whitespace lies inside some chunk at its own place |
| Chunker.WindowsRejoin | MODstore_deploy/modstore_server/knowledge_ingest.py:208-215 | without their overlaps the windows concatenate to the text |
| Chunker.BlankWindow | MODstore_deploy/modstore_server/knowledge_ingest.py:210-212 | at every chunk size and overlap some canonical text has a window without a chunk, so the window count is only an upper bound for the chunks |
| Chunker.NormalTextHasChunks | MODstore_deploy/modstore_server/knowledge_ingest.py:255-258 | a text that is not blank has a chunk, so the empty-chunks error is never raised |
| Chunker.ChunkTextWithMetadata | MODstore_deploy/modstore_server/knowledge_ingest.py:219-231 | metadata i numbers chunk i and carries the page |
| Chunker.ParseAndChunk | MODstore_deploy/modstore_server/knowledge_ingest.py:196-199 | a text shorter than ten characters is refused; otherwise the chunks are those of the returned text |
| Chunker.ParsePdfPages | MODstore_deploy/modstore_server/knowledge_ingest.py:53-64 | the pages with visible text, numbered from one |
| Chunker.PageIsNormal | MODstore_deploy/modstore_server/knowledge_ingest.py:60-63 | a page carries the normalised text of the sheet its number names |
| Chunker.PagesMean | MODstore_deploy/modstore_server/knowledge_ingest.py:58-64 | the pages are exactly the sheets whose normalised text is not empty, in order, under their own numbers |
| Chunker.JoinedUpTo | MODstore_deploy/modstore_server/knowledge_ingest.py:249-253 | the stored text holds every page behind the pages before it, two line breaks and its own mark |
| Chunker.OnePage | MODstore_deploy/modstore_server/knowledge_ingest.py:250 | one page has its own chunks, numbered from 0 under its number |
| Chunker.PageChunksJoin | MODstore_deploy/modstore_server/knowledge_ingest.py:251 | the chunks are the pages' chunks one page after the other |
| Chunker.PageMetasJoin | MODstore_deploy/modstore_server/knowledge_ingest.py:252 | the metadata are the pages' metadata one page after the other |
| Chunker.ParseAndChunkPdf | MODstore_deploy/modstore_server/knowledge_ingest.py:241-253 | text, chunks and metadata of all pages in order; each metadata entry names its chunk's page and place |
| Chunker.PdfChunksAreSlices | MODstore_deploy/modstore_server/knowledge_ingest.py:248-253 | every chunk is a slice of the stored text, page marks included |
| SlidingWindow.PruneTwice | MODstore_deploy/modstore_server/llm_billing.py:123 | what was pruned earlier would be pruned later, so pruning loses nothing a later decision needs |
| SlidingWindow.PopStale | MODstore_deploy/modstore_server/developer_key_export_api.py:47-48 | popping a stale call off the front leaves what is counted unchanged |
| SlidingWindow.NoWindowOverfull | MODstore_deploy/modstore_server/llm_billing.py:118-127 | no window of the given length, laid anywhere over the run, holds more accepted calls than the cap |
| SlidingWindow.RecentCounts | MODstore_deploy/modstore_server/llm_billing.py:123 | what a limiter counts is the number of past calls within its window, by the difference of the times |
| RateLimits.WindowKeyInjective | MODstore_deploy/modstore_server/llm_billing.py:122 | the keys of different limiters or identities differ, colons in the identity included |
| RateLimits.LlmLimiter.LimitKey | MODstore_deploy/modstore_server/llm_billing.py:118-127 | the call is accepted exactly if the full history has fewer than limit calls in the half-open window |
| RateLimits.LlmLimiter.RoomMeans | MODstore_deploy/modstore_server/llm_billing.py:118-127 | room means a limit switched off or fewer than limit accepted calls less than sixty seconds back |
| RateLimits.LlmLimiter.Pruned | MODstore_deploy/modstore_server/llm_billing.py:123 | the comprehension keeps exactly the calls still in the window |
| RateLimits.LlmLimiter.EnforceRiskLimits | MODstore_deploy/modstore_server/llm_billing.py:130-140 | a request passes exactly if all three limiters had room, each at its own reading of the clock; a refused one has used the slots in front of the refusal |
| RateLimits.LlmLimiter.DifferentLimiters | MODstore_deploy/modstore_server/llm_billing.py:133-136 | the three limiters never share a key |
| RateLimits.LlmLimiter.RoomElsewhere | MODstore_deploy/modstore_server/llm_billing.py:133-136 | what one limiter records leaves the others' decisions alone |
| RateLimits.LlmLimiter.NeverOverfull | MODstore_deploy/modstore_server/llm_billing.py:118-127 | in every reachable state no minute holds more calls of a key than the largest limit ever in force |
| RateLimits.ExportLimiter.RateCheck | MODstore_deploy/modstore_server/developer_key_export_api.py:44-51 | the export is accepted exactly if fewer than eight accepted ones of the full history lie at most fifteen minutes back |
| RateLimits.ExportLimiter.PopFront | MODstore_deploy/modstore_server/developer_key_export_api.py:47-48 | popping the front equals filtering, because the deque stays in order of time |
| RateLimits.ExportLimiter.NeverOverfull | MODstore_deploy/modstore_server/developer_key_export_api.py:27-51 | no quarter of an hour holds more than eight exports of one user |
| RateLimits.ContactLimiter.RateAllow | MODstore_deploy/modstore_server/market_shared.py:224-231 | the submission is accepted exactly if the full history has fewer than the limit in the half-open window |
| RateLimits.ContactLimiter.After | MODstore_deploy/modstore_server/market_shared.py:226-228 | comparing with the cutoff keeps exactly the calls still in the window |
| RateLimits.ContactLimiter.NeverOverfull | MODstore_deploy/modstore_server/market_shared.py:224-231 | no window holds more submissions of one client than the limit |
| ExperienceLedger.XpFromAmountExact | MODstore_deploy/modstore_server/account_level_service.py:59-67 | whole cents give exactly that many points, any amount is at most half a point off, more money gives no fewer points |
| ExperienceLedger.BuildLevelProfile | MODstore_deploy/modstore_server/account_level_service.py:86-112 | the level is the highest rank reached, the next threshold the one above, progress the share of the way between |
| ExperienceLedger.FindRank | MODstore_deploy/modstore_server/account_level_service.py:91-96 | the loop stops at the highest threshold reached |
| ExperienceLedger.AccountStore.ExistingEntry | MODstore_deploy/modstore_server/account_level_service.py:115-123 | the row with the given key, or none |
| ExperienceLedger.AccountStore.AdjustUserExp | MODstore_deploy/modstore_server/account_level_service.py:126-133 | adds to an existing user's counter, clamped at zero |
| ExperienceLedger.AccountStore.ApplyOrderXp | MODstore_deploy/modstore_server/account_level_service.py:136-177 | a crediting call made alone has exactly the effect and answer of the serial step, whose meaning PaymentMeans states |
| ExperienceLedger.AccountStore.RevokeOrderXp | MODstore_deploy/modstore_server/account_level_service.py:180-217 | a refunding call made alone has exactly the effect and answer of the serial step, whose meaning RefundMeans states |
| ExperienceLedger.PaymentMeans | MODstore_deploy/modstore_server/account_level_service.py:136-177 | credited exactly if user and order are named, the order counts, gives points and has not been credited; then its row is posted and its points are the answer |
| ExperienceLedger.RefundMeans | MODstore_deploy/modstore_server/account_level_service.py:180-217 | refunded exactly if the order was credited with points and not refunded; then a row takes the payment back and its points are the answer |
| ExperienceLedger.AnswerIsLedgerChange | MODstore_deploy/modstore_server/account_level_service.py:160-217 | the answer is what the user's ledger sum gained by a payment or lost by a refund, and positive exactly if a row was appended |
| ExperienceLedger.SerialRunSound | MODstore_deploy/modstore_server/account_level_service.py:136-217 | over any run each order is credited and reversed at most once, refunds reverse their payment to the point, no row is rewritten |
| ExperienceLedger.RepeatIsNoOp | MODstore_deploy/modstore_server/account_level_service.py:160-161 | repeating a call changes nothing and reports zero |
| ExperienceLedger.ConservesIffNoClamp | MODstore_deploy/modstore_server/account_level_service.py:126-133 | a call keeps every counter equal to the ledger if and only if the clamp at zero does not bite |
| ExperienceLedger.ClampCanBite | MODstore_deploy/modstore_server/account_level_service.py:131 | a refund that names someone other than the payer can run into the clamp |
| ExperienceLedger.SumIsOutstanding | MODstore_deploy/modstore_server/account_level_service.py:162-217 | with refunds naming the payer, a user's ledger sum is the sum of the payments not yet reversed |
| ExperienceLedger.PayerRefundNeverClamps | MODstore_deploy/modstore_server/account_level_service.py:194-216 | a refund naming the payer always finds the points it takes back |
| ExperienceLedger.SerialRunConserves | MODstore_deploy/modstore_server/account_level_service.py:136-217 | over whole runs whose refunds name the payer, experience is the starting value plus the ledger deltas |
| LedgerInterleaving.StepRefines | MODstore_deploy/modstore_server/account_level_service.py:152-217 | a worker's step is invisible or has exactly the effect of its call made alone at that moment |
| LedgerInterleaving.StaleReadIff | MODstore_deploy/modstore_server/account_level_service.py:126-133 | a session that loaded the user earlier has that effect exactly if the counter has not moved since, or both values clamp to zero |
| LedgerInterleaving.StaleReadLosesPoints | MODstore_deploy/modstore_server/account_level_service.py:126-133 | two payments of one user, the second computing from the counter its session loaded before the first one's commit: both are in the ledger and the first one's points are lost |
| LedgerInterleaving.StepKeepsInv | MODstore_deploy/modstore_server/account_level_service.py:152-217 | what each worker knows of the committed rows survives every step of the others |
| LedgerInterleaving.EveryInterleavingIsSerial | MODstore_deploy/modstore_server/account_level_service.py:136-217 | every interleaving equals a serial run of the calls that finished, with the same results |
| LedgerInterleaving.ResultsAreLedgerChanges | MODstore_deploy/modstore_server/account_level_service.py:160-217 | in every interleaving a finished call reports the points of the row its commit added, and zero exactly if it added none |
| LedgerInterleaving.InterleavingsAreSound | MODstore_deploy/modstore_server/account_level_service.py:170-175 | no interleaving credits or reverses an order twice |
| LedgerInterleaving.InterleavingsConserve | MODstore_deploy/modstore_server/account_level_service.py:126-133 | after every interleaving counters equal the ledger, if refunds name the payer |
| LedgerInterleaving.BehavioursAreShort | MODstore_deploy/modstore_server/account_level_service.py:136-217 | n workers take at most 5n steps |
| LedgerInterleaving.NoDeadlock | MODstore_deploy/modstore_server/account_level_service.py:126-133 | as long as a call is not through, some call can go on without giving up |
| PaidOrders.YuanInjective | alipay_package/model_payment_order_store.py:114-119 | the two-decimal rendering of cents is injective, so a matching notice names exactly the order's amount |
| PaidOrders.YuanReads | alipay_package/model_payment_order_store.py:115 | the printed amount reads back as the cents: sign, yuan without superfluous zeros, point, two digits |
| PaidOrders.OrderStore.RecordCheckoutPending | alipay_package/model_payment_order_store.py:67-91 | writes the order as pending, whatever was stored under its number |
| PaidOrders.OrderStore.ApplyNotifyPaid | alipay_package/model_payment_order_store.py:94-163 | the notice's effect and answer, by order, amount and status |
| PaidOrders.OrderStore.GrantEntitlement | alipay_package/model_payment_order_store.py:166-187 | one more purchase of the plan; the first payment date stays |
| PaidOrders.OrderStore.UpdateOrderStatus | alipay_package/model_payment_order_store.py:223-243 | rewrites the status and the fields carried along, or reports a missing order |
| PaidOrders.NotifyMeaning | alipay_package/model_payment_order_store.py:94-163 | a notice is marked paid exactly for an open order and its exact amount, and touches no other order or plan |
| PaidOrders.StepMeans | alipay_package/model_payment_order_store.py:67-243 | what every event answers, and every field it stores in its order and entitlement |
| PaidOrders.StatusIsLastWritten | alipay_package/model_payment_order_store.py:67-243 | over any run an order's status is the last one written: by its checkout, by a notice of its amount, or by a rewrite |
| PaidOrders.PurchaseCountIsMarkedPaid | alipay_package/model_payment_order_store.py:166-187 | a plan's purchase count is the number of marked_paid answers for that plan, over any run |
| PaidOrders.GrantsNeedOpenings | alipay_package/model_payment_order_store.py:129-150 | an order is granted at most once per write to a status other than paid |
| PaidOrders.TwoGrantsNeedReopening | alipay_package/model_payment_order_store.py:129-133 | between two grants of an order it was reopened, so repeated notices grant once |
| PaidOrders.ReplayAfterRefundGrantsAgain | alipay_package/model_payment_order_store.py:129-150 | a notice replayed after a refund grants a second time |
| PaidOrders.FirstPaymentIsKept | alipay_package/model_payment_order_store.py:181 | a plan's first payment date never changes |
| Metering.HalfUpLaws | MODstore_deploy/modstore_server/llm_billing.py:51-52 | half-up rounding is monotone, exact on whole cents, within half a cent, and rounds ties away from zero |
| Metering.SumOfEstimates | MODstore_deploy/modstore_server/llm_billing.py:103 | the sum of the message estimates |
| Metering.EstimateBounds | MODstore_deploy/modstore_server/llm_billing.py:59-61 | at least one token per message and more than a quarter of each message's characters |
| Metering.ChargeIs | MODstore_deploy/modstore_server/llm_billing.py:93-99 | the charge is, to the nearest cent, the larger of the minimum and fee * (prompt * input + completion * output) / 1000, and never below the rounded minimum |
| Metering.ChargeMonotone | MODstore_deploy/modstore_server/llm_billing.py:93-99 | the charge is monotone in both token counts |
| Metering.PreauthIs | MODstore_deploy/modstore_server/llm_billing.py:102-106 | the reservation is the rounded larger one of the floor and the charge of the whole estimate |
| Metering.PriceIs | MODstore_deploy/modstore_server/llm_billing.py:78-90 | an enabled row's prices, its minimum unless missing or zero; the defaults without a row |
| Metering.EstimateIs | MODstore_deploy/modstore_server/llm_billing.py:59-61 | a text is estimated at one token more than its whole fours of characters |
| Metering.UsageIs | MODstore_deploy/modstore_server/llm_billing.py:64-75 | reported counts are taken over, a missing total is their sum, and only a report of nothing is replaced by estimates |
| Metering.PreauthCoversCharge | MODstore_deploy/modstore_server/llm_billing.py:102-106 | the reservation covers the final charge of every call within its estimate |
| Metering.UnreportedUsageIsCovered | MODstore_deploy/modstore_server/llm_billing.py:64-75 | without reported usage the reservation covers the charge if the reply fits the completion cap |
| Metering.OverrunExceedsReservation | MODstore_deploy/modstore_server/llm_billing.py:102-106 | every call outside its estimate costs more than was reserved under some sensible price |
| Metering.CoveredIffWithinEstimate | MODstore_deploy/modstore_server/llm_billing.py:102-106 | a call is covered under every sensible price exactly if its prompt and completion tokens stay within the estimate |
| WalletProtocol.WalletClient.Preauthorize | MODstore_deploy/modstore_server/llm_billing.py:160-175 | one request with the Java backend and a login token, none otherwise; the answer decides the hold, and one that is lost is an exception; without a token it raises before sending |
| WalletProtocol.WalletClient.SettleHold | MODstore_deploy/modstore_server/llm_billing.py:177-188 | a request only for an enabled hold; whether it takes effect and what is reported of it are apart |
| WalletProtocol.WalletClient.ReleaseHold | MODstore_deploy/modstore_server/llm_billing.py:190-201 | a request only for an enabled hold; whether it takes effect and what is reported of it are apart |
| WalletProtocol.Reserve | MODstore_deploy/modstore_server/llm_api.py:624-629 | a hold is asked for exactly without an own key; what goes on without one |
| WalletProtocol.LlmChat | MODstore_deploy/modstore_server/llm_api.py:613-684 | it succeeds exactly if reservation, upstream, metering, settling and saving do; then the wallet got exactly a reservation and a settlement of the reply's charge, and none with an own key; the charge is what its usage costs at the prices, to the nearest cent; else the first fault is raised |
| WalletProtocol.GuardedChat | MODstore_deploy/modstore_server/llm_api.py:630-661 | upstream, metering, settling and saving in this order, up to the first fault |
| WalletProtocol.LlmChatStream | MODstore_deploy/modstore_server/llm_api.py:706-789 | the same for a whole streamed run: chunks sent on in order, one closing event, wallet calls fixed by the faults |
| WalletProtocol.StreamGen | MODstore_deploy/modstore_server/llm_api.py:721-789 | the generator behind the hold: events sent, and settle or release by the faults |
| WalletProtocol.ConsumeStream | MODstore_deploy/modstore_server/llm_api.py:722-752 | the loop collects the text and the last reported usage up to the end, an error event or an exception |
| WalletProtocol.HandleStreamFault | MODstore_deploy/modstore_server/llm_api.py:783-789 | log, then release, then one error event; a failing log costs the release |
| WalletProtocol.StreamMeans | MODstore_deploy/modstore_server/llm_api.py:721-789 | a stream opens, sends nonempty chunks and closes once: with a reply exactly if nothing failed, which repeats the chunks and charges what its usage costs |
| WalletProtocol.DeltasInOrder | MODstore_deploy/modstore_server/llm_api.py:746-750 | every chunk with text is sent on as it came and in its place |
| WalletProtocol.SucceedsIff | MODstore_deploy/modstore_server/llm_api.py:640-661 | the guarded part succeeds exactly if the upstream replies and metering, settling and saving work |
| WalletProtocol.HoldCoversCharge | MODstore_deploy/modstore_server/llm_api.py:628-647 | the hold is large enough for every reply within the estimate it was made from |
| WalletProtocol.CallsAreOrdered | MODstore_deploy/modstore_server/llm_api.py:627-673 | reserve first, settle at most once, release at most once and last |
| WalletProtocol.ChatLeavesOpenIff | MODstore_deploy/modstore_server/llm_api.py:662-674 | a chat run leaves a hold open exactly if the grant of a hold that was made is lost, or the run fails before a settlement takes effect and then the release has no effect, or is not sent because the log fails on a non-HTTP exception |
| WalletProtocol.StreamLeavesOpenIff | MODstore_deploy/modstore_server/llm_api.py:735-789 | a streamed run leaves a hold open exactly if the grant of a hold that was made is lost, or the run fails before a settlement takes effect and then the release has no effect, or is not sent because the log of the handler fails on any exception |
| WalletProtocol.WaysToLeaveOpen | MODstore_deploy/modstore_server/llm_api.py:662-674 | a lost grant leaves a hold open whatever follows, a failing release after any failed call, a failing log after a non-HTTP exception, and after an HTTP one only in a stream |
| WalletProtocol.LostSettlement | MODstore_deploy/modstore_server/llm_api.py:648-666 | a settlement that is done but reported as failed costs the reply, is followed by a release request, and leaves nothing open |
| WalletProtocol.FailedRunsRelease | MODstore_deploy/modstore_server/llm_api.py:662-674 | with a failure log that works, every run that does not settle and reply ends in a release request, and if that works nothing stays open |
| CatalogStore.Store.GetPackage | MODstore_deploy/modstore_server/catalog_store.py:113-120 | finds a record of the stripped key exactly if one is stored |
| CatalogStore.Store.PromoteDraftToStable | MODstore_deploy/modstore_server/catalog_store.py:137-170 | terminates; appends one copy of the draft under the first free version and keeps everything else; its errors |
| CatalogStore.Store.FreeVersion | MODstore_deploy/modstore_server/catalog_store.py:155-159 | the search ends at the first version number that is free |
| CatalogStore.VersionsTried | MODstore_deploy/modstore_server/catalog_store.py:151-159 | promotion tries the draft's version without prefix and outer whitespace, or 1.0.0, then the same with +2, +3, ... |
| CatalogStore.Store.AppendPackage | MODstore_deploy/modstore_server/catalog_store.py:173-203 | replaces the record stored under the stripped key, or refuses empty fields |
| CatalogStore.Store.RemovePackage | MODstore_deploy/modstore_server/catalog_store.py:206-239 | removes exactly the matching records and reports how many |
| CatalogStore.CandidatesDiffer | MODstore_deploy/modstore_server/catalog_store.py:155-159 | different numbers give different version texts, which is why the search ends |
| CatalogStore.CandidateIsTrimmed | MODstore_deploy/modstore_server/catalog_store.py:113-120 | the versions tried survive get_package's own strip |
| CatalogStore.PromoteKeepsUnique | MODstore_deploy/modstore_server/catalog_store.py:157-169 | promotion keeps (id, version) unique |
| CatalogStore.KeptMeans | MODstore_deploy/modstore_server/catalog_store.py:221-236 | what a removal keeps, and that keys stay unique |
| CatalogStore.KeptJoin | MODstore_deploy/modstore_server/catalog_store.py:221-236 | a removal decides record by record and keeps the order |
| CatalogStore.WithoutJoin | MODstore_deploy/modstore_server/catalog_store.py:198-203 | registering drops old records one by one and keeps the order of the others |
| CatalogStore.AppendKeepsUniqueIff | MODstore_deploy/modstore_server/catalog_store.py:199-200 | registering keeps keys unique exactly if id and version come stripped or the unstripped key is new |
| CatalogStore.UnstrippedTwice | MODstore_deploy/modstore_server/catalog_store.py:199-200 | an unstripped record registered twice is stored twice under one key |
| CatalogStore.KeysStayUnique | MODstore_deploy/modstore_server/catalog_store.py:137-239 | over any serial run with stripped records keys stay unique |
| CatalogSync.Market.FirstRow | MODstore_deploy/modstore_server/catalog_sync.py:65 | the first row of a package id |
| CatalogSync.Market.UpsertCatalogItem | MODstore_deploy/modstore_server/catalog_sync.py:42-79 | one row per package id is written or replaced; invalid records change nothing |
| CatalogSync.RowMeans | MODstore_deploy/modstore_server/catalog_sync.py:30-79 | the row's fields: stripped id and version, the name or the id cut to 256, the description cut to 8000, a price only for priced records, the defaults of artifact and industry |
| CatalogSync.Market.SyncPackages | MODstore_deploy/modstore_server/catalog_sync.py:82-116 | last record wins per id, rows not named untouched, counters equal valid records and new ids |
| CatalogSync.LastOfMeans | MODstore_deploy/modstore_server/catalog_sync.py:96-113 | the record that decides a package's row is the last valid one with its id |
| CatalogSync.ValidCounts | MODstore_deploy/modstore_server/catalog_sync.py:96-113 | the records counted are those whose id and version show something |
| CatalogSync.SecondSyncChangesNothing | MODstore_deploy/modstore_server/catalog_sync.py:82-116 | a second sync of the same packages inserts nothing and changes no row |
| CatalogSync.SyncChangesNothingIff | MODstore_deploy/modstore_server/catalog_sync.py:42-79 | a sync leaves the table alone exactly if every named package already has its last record's row |
| Invoices.InvoiceBook.Apply | MODstore_deploy/modstore_server/invoice_api.py:60-109 | accepted exactly if a company names its tax number and every order is eligible and on no open invoice; then one pending invoice is added; else the first reason in the order of the checks |
| Invoices.EligibleMeans | MODstore_deploy/modstore_server/invoice_api.py:65-74 | an order can be invoiced exactly if it exists, is paid, not refunded and the applicant's; which of these is reported |
| Invoices.InvoiceBook.OccupiedOrders | MODstore_deploy/modstore_server/invoice_api.py:81-89 | the dictionary holds exactly the orders of invoices that are not rejected |
| Invoices.InvoiceBook.Review | MODstore_deploy/modstore_server/invoice_api.py:187-212 | accepted exactly for an administrator with the needed field on a pending invoice; only that invoice changes |
| Invoices.RejectFreesExactlyItsOrders | MODstore_deploy/modstore_server/invoice_api.py:207-209 | rejecting frees the invoice's own orders and no other |
| Invoices.HistoriesAreExclusive | MODstore_deploy/modstore_server/invoice_api.py:80-109 | over any run no order is on two open invoices, and issued and rejected are final |
| Invoices.AmountIsRightIffDistinct | MODstore_deploy/modstore_server/invoice_api.py:64-75 | the amount is the orders' worth exactly if the application names no order twice |
| CustomerService.KeyInjective | MODstore_deploy/modstore_server/customer_service_tools.py:97 | equal idempotency keys mean the same ticket, action and target |
| CustomerService.ServiceDesk.BuildAction | MODstore_deploy/modstore_server/customer_service_tools.py:86-115 | returns the action under the key, adding it only if there is none |
| CustomerService.ServiceDesk.FindAction | MODstore_deploy/modstore_server/customer_service_tools.py:97-102 | the row under the key, if any |
| CustomerService.ServiceDesk.ExecuteAction | MODstore_deploy/modstore_server/customer_service_tools.py:118-160 | the effect of one run; a finished action is not run again |
| CustomerService.ServiceDesk.ApplyRefund | MODstore_deploy/modstore_server/customer_service_tools.py:223-256 | one refund request per order, only for the owner's paid order |
| CustomerService.ServiceDesk.CreateComplaint | MODstore_deploy/modstore_server/customer_service_tools.py:259-281 | one complaint for an existing item |
| CustomerService.ExecutedKeepsSound | MODstore_deploy/modstore_server/customer_service_tools.py:118-160 | one action per key, one refund request per order and exactly for the orders of completed refund actions, complaints equal completed complaint actions: kept by every execution; a finished action is not run again |
| CustomerService.ServiceDesk.EnsureTicket | MODstore_deploy/modstore_server/customer_service_orchestrator.py:276-324 | the chosen ticket: the session's newest active one if its intent fits, a new one otherwise |
| CustomerService.ServiceDesk.ExecuteMatchingIntegrations | MODstore_deploy/modstore_server/customer_service_tools.py:163-220 | the desk after building and running, in order, the action of every enabled row of the scenario whose configuration is complete |
| CustomerService.ServiceDesk.PlanActions | MODstore_deploy/modstore_server/customer_service_orchestrator.py:379-444 | the desk after building and running the action an approved message plans |
| CustomerService.ServiceDesk.PlanAndRun | MODstore_deploy/modstore_server/customer_service_tools.py:86-160 | one action: built unless its key has one, run unless it is finished |
| CustomerService.ServiceDesk.HandleMessage | MODstore_deploy/modstore_server/customer_service_orchestrator.py:77-138 | the whole effect of a message: its ticket, its decision, its actions one after the other and the new status |
| CustomerService.HandledTickets | MODstore_deploy/modstore_server/customer_service_orchestrator.py:276-324 | a message continues the newest active ticket of its session exactly if that has its intent; no other ticket changes; the status follows decision and own actions |
| CustomerService.HandledKeepsSound | MODstore_deploy/modstore_server/customer_service_orchestrator.py:77-138 | a message keeps all of this and leaves finished actions and resolved tickets alone |
| CustomerService.RunIsSound | MODstore_deploy/modstore_server/customer_service_orchestrator.py:77-138 | after any messages from the empty desk: one action per key, one refund request per order, requests exactly for completed refund actions, complaints equal completed complaint actions |
| CustomerService.FinishedStaysFinished | MODstore_deploy/modstore_server/customer_service_orchestrator.py:128-137 | in any run of messages, what was finished or resolved after n of them is the same at the end |
| CustomerService.ResolvedIff | MODstore_deploy/modstore_server/customer_service_orchestrator.py:128-132 | a ticket is resolved exactly if some approved message of the run worked on it and found all its own actions finished |
| CustomerService.ResolvedForGood | MODstore_deploy/modstore_server/customer_service_orchestrator.py:128-137 | a resolved ticket stays as it is, and the actions it rests on are finished in the last state |
| CustomerService.RefundsWereOwed | MODstore_deploy/modstore_server/customer_service_tools.py:223-256 | every refund request of a run is for an order that was paid and its own user's when some message of the run was handled |
| CustomerPlans.DecisionMeans | MODstore_deploy/modstore_server/customer_service_orchestrator.py:327-376 | a message is approved exactly if nothing its intent needs is missing, and the missing fields are named |
| CustomerPlans.JobsMean | MODstore_deploy/modstore_server/customer_service_orchestrator.py:379-444 | the calls of a message are its intent's own action and one for every enabled integration of its scenario |
| CustomerPlans.MessageMeans | MODstore_deploy/modstore_server/customer_service_orchestrator.py:77-138 | exactly the wanted actions are built and run, each completed if it was or if a call succeeds and failed otherwise; nothing else is touched; the ticket waits, is resolved if all wanted ones are completed, or is in processing |
| CustomerPlans.RefundsMean | MODstore_deploy/modstore_server/customer_service_tools.py:223-256 | a message adds a refund request exactly if it completely asks for an order of its user's that is paid and not requested yet, with the order's amount |
| CustomerPlans.ComplaintsMean | MODstore_deploy/modstore_server/customer_service_tools.py:259-281 | a message files a complaint exactly if it completely asks for one about a catalogue item and the ticket has not filed it, with at most 32 characters of its type |
| CustomerPlans.ResolvedMeans | MODstore_deploy/modstore_server/customer_service_orchestrator.py:128-132 | behind every resolved ticket of a run is a complete message of its session and intent whose own action is completed |
| CustomerPlans.ResolvedRefund | MODstore_deploy/modstore_server/customer_service_orchestrator.py:390-402 | a refund ticket is resolved only with a refund request for the order its resolving message named |
| CustomerPlans.RefundIsGranted | MODstore_deploy/modstore_server/customer_service_tools.py:223-256 | in every run, whoever asks with a reason for an order that is his and paid gets his request, and it stays |
| VectorStore.VectorIdInjective | MODstore_deploy/modstore_server/knowledge_vector_store.py:204 | vector ids determine document and number |
| VectorStore.KnowledgeStore.EnsureCollection | MODstore_deploy/modstore_server/knowledge_vector_store.py:83-109 | a missing collection starts with count zero |
| VectorStore.KnowledgeStore.DeleteDocument | MODstore_deploy/modstore_server/knowledge_vector_store.py:313-357 | removes the row, lowers the counter, passes over an engine failure |
| VectorStore.KnowledgeStore.UpsertDocument | MODstore_deploy/modstore_server/knowledge_vector_store.py:161-270 | clears the old document, writes the vectors, then row and total; an engine failure leaves the old document deleted |
| VectorStore.KnowledgeStore.RecordUpload | MODstore_deploy/modstore_server/knowledge_vector_store.py:235-263 | the document's row, and the recomputed total over the value loaded before |
| VectorStore.KnowledgeStore.WriteVectors | MODstore_deploy/modstore_server/knowledge_vector_store.py:200-231 | the batch of vectors, or the part a failing engine took |
| VectorStore.UploadCarries | MODstore_deploy/modstore_server/knowledge_vector_store.py:200-231 | behind a successful upload the document's row and, for every i, vector doc:i hold the upload's file name, size, i-th text, embedding and page |
| VectorStore.RunHoldsLatest | MODstore_deploy/modstore_server/knowledge_vector_store.py:161-357 | over every run, whatever the engine does, the listed documents are those last uploaded successfully and not deleted since, and row and vectors hold what that upload brought |
| VectorStore.RefusedUpload | MODstore_deploy/modstore_server/knowledge_vector_store.py:185-186 | chunks and embeddings of different number are refused before anything is touched |
| VectorStore.DeleteKeepsCounted | MODstore_deploy/modstore_server/knowledge_vector_store.py:352-354 | deleting keeps counters right under any engine failure; max(0, ...) never decides |
| VectorStore.UpsertKeepsCountedIff | MODstore_deploy/modstore_server/knowledge_vector_store.py:194-263 | an upload keeps counters right exactly if assigned totals are always written, the engine failed, or it does not replace a document by one with as many chunks |
| VectorStore.RunKeepsCounted | MODstore_deploy/modstore_server/knowledge_vector_store.py:161-357 | with assigned totals written, counters equal the sum over the rows over every run |
| VectorStore.RunKeepsCountedWithoutReplacement | MODstore_deploy/modstore_server/knowledge_vector_store.py:161-357 | under the mapper's equal-value rule the same over every run whose successful uploads never replace a document by one with as many chunks |
| VectorStore.UploadCountsRightIff | MODstore_deploy/modstore_server/knowledge_vector_store.py:194-263 | from any state, right or wrong, the counter is right after a successful upload exactly if totals are always written, the total differs from the loaded value, or deleting the old document did not move it |
| VectorStore.DeletionCountsRightIff | MODstore_deploy/modstore_server/knowledge_vector_store.py:352-354 | from any state, the counter is right after a deletion exactly if it was right before, or the clamp puts it right by chance |
| VectorStore.ClampBites | MODstore_deploy/modstore_server/knowledge_vector_store.py:352-354 | under the mapper's rule a run whose deletion would take the counter below zero, and the clamped counter misses another document |
| VectorStore.SecondUploadUncounts | MODstore_deploy/modstore_server/knowledge_vector_store.py:194-263 | uploading a document twice leaves the counter at zero under the mapper's equal-value rule |
| VectorStore.DeleteKeepsVectors | MODstore_deploy/modstore_server/knowledge_vector_store.py:344-351 | a deletion keeps every other document's vectors |
| VectorStore.UpsertKeepsVectors | MODstore_deploy/modstore_server/knowledge_vector_store.py:161-270 | a listed document always has all its vectors; with a reliable engine nothing else is stored |
| VectorStore.RunKeepsVectors | MODstore_deploy/modstore_server/knowledge_vector_store.py:161-357 | over every run with a reliable engine the vectors are exactly doc:0..doc:n-1 of the listed documents |
| RedisStore.EncodeInjective | MODstore_deploy/modstore_server/knowledge_vector_store_redis.py:71-80 | document, chunk and index keys are injective and pairwise different |
| RedisGlob.PlainPrefix | MODstore_deploy/modstore_server/knowledge_vector_store_redis.py:260-261 | plain text at the head of a pattern has to stand at the head of the key |
| RedisGlob.MatchHits | MODstore_deploy/modstore_server/knowledge_vector_store_redis.py:260-261 | a pattern that matches some id, colon and number is found by the side-by-side search |
| RedisGlob.HitMatches | MODstore_deploy/modstore_server/knowledge_vector_store_redis.py:260-261 | what the side-by-side search finds is matched by some id, colon and number |
| RedisGlob.Utf8Ascii | MODstore_deploy/modstore_server/knowledge_vector_store_redis.py:260-261 | text within ASCII is its own UTF-8 form, and no other text has one within ASCII |
| RedisStore.MatchesMeans | MODstore_deploy/modstore_server/knowledge_vector_store_redis.py:260-261 | the scan stays within the user's chunks, and there is decided by the argument's own bytes as a pattern |
| RedisStore.ScanFindsOwnChunks | MODstore_deploy/modstore_server/knowledge_vector_store_redis.py:260-261 | for an exact argument the scan finds exactly the document's chunks |
| RedisStore.ScanIsExactIff | MODstore_deploy/modstore_server/knowledge_vector_api.py:123-126 | whatever text the route passes on, byte by byte and on servers with signed or unsigned bytes: the scan finds the argument's own chunks and no others, among all there can be, exactly if the argument is a document id or its pattern fits no id, colon and number |
| RedisStore.PlainArgumentsAreExact | MODstore_deploy/modstore_server/knowledge_vector_store_redis.py:260-261 | arguments without the characters * ? [ and backslash are exact |
| RedisStore.BracketDependsOnSign | MODstore_deploy/modstore_server/knowledge_vector_store_redis.py:260-261 | a bracket with a bound outside ASCII matches every chunk of the user where bytes are signed, and none where they are not |
| RedisStore.AsteriskDeletesAllChunks | MODstore_deploy/modstore_server/knowledge_vector_api.py:123-126 | deleting * removes every chunk of the user and leaves hashes and index |
| RedisStore.DeletedPlace | MODstore_deploy/modstore_server/knowledge_vector_store_redis.py:258-270 | what a deletion with any argument leaves in each place of any key space |
| RedisStore.InexactDeletion | MODstore_deploy/modstore_server/knowledge_vector_store_redis.py:258-270 | a deletion whose argument is no document id removes exactly the chunks its pattern matches |
| RedisStore.InexactDeletionBreaksIff | MODstore_deploy/modstore_server/knowledge_vector_store_redis.py:258-270 | behind it the keys stand for some nested map only if nothing was removed |
| RedisStore.UploadingAgainMends | MODstore_deploy/modstore_server/knowledge_vector_store_redis.py:166-223 | uploading the user's listed documents again, in any order and with any content, makes the keys a nested map again |
| RedisStore.Redis.DeleteDocument | MODstore_deploy/modstore_server/knowledge_vector_store_redis.py:258-270 | for any argument the keys left behind; for an exact one it refines removing the document from the nested map and reports whether it was there; otherwise chunks of the user's documents may be missing |
| RedisStore.UploadedPlace | MODstore_deploy/modstore_server/knowledge_vector_store_redis.py:166-223 | in any key space the document's hash, its score in the index and its chunks are exactly the uploaded ones, and every other place is as it was |
| RedisStore.Redis.UpsertDocument | MODstore_deploy/modstore_server/knowledge_vector_store_redis.py:166-223 | refines storing the document in the nested map, in every reachable state, and mends its missing chunks |
| RedisStore.Redis.ReadDocument | MODstore_deploy/modstore_server/knowledge_vector_store_redis.py:243 | reading a document's key gives the nested map's entry |
| ESkillTemplate.LiteralPrefix | MODstore_deploy/modstore_server/eskill_runtime.py:34 | text without a dollar sign passes through |
| ESkillTemplate.BracedPlaceholder | MODstore_deploy/modstore_server/eskill_runtime.py:34 | a braced placeholder gives way to its value, or stays |
| ESkillTemplate.PlainPlaceholder | MODstore_deploy/modstore_server/eskill_runtime.py:34 | so does one without braces, up to the first character that is not part of a name |
| ESkillTemplate.DollarSigns | MODstore_deploy/modstore_server/eskill_runtime.py:34 | two dollar signs are one, and a single one in front of nothing it could start stays |
| ESkillTemplate.RenderedIsTidy | MODstore_deploy/modstore_server/eskill_runtime.py:32-35 | a rendered text is trimmed, with single blanks between words |
| ESkillTemplate.FallbackShowsDetails | MODstore_deploy/modstore_server/eskill_runtime.py:80 | the last-resort template shows the details |
| ESkillInterpreter.ExecutePipeline | MODstore_deploy/modstore_server/eskill_runtime.py:393-433 | the loop runs the steps in order and stops at the first fault |
| ESkillInterpreter.OutputsAgreeWithContext | MODstore_deploy/modstore_server/eskill_runtime.py:400-433 | outputs agree with the context later steps read, on every name written; all else is input |
| ESkillInterpreter.RequiredFirst | MODstore_deploy/modstore_server/eskill_runtime.py:349-353 | logic of every type fails on a required field that is missing, None or empty, and runs only with all of them |
| ESkillInterpreter.EmployeeOutputMeans | MODstore_deploy/modstore_server/eskill_runtime.py:362-382 | an employee task needs an employee and returns the service's result for the rendered task under the mapped entries |
| ESkillInterpreter.OutputMeans | MODstore_deploy/modstore_server/eskill_runtime.py:355-391 | a template returns its rendered text under its output name, generated code what its service returns; other types are faults |
| ESkillInterpreter.StepMeans | MODstore_deploy/modstore_server/eskill_runtime.py:409-441 | what each type of step computes, and that other types and tools are faults |
| ESkillPatch.ProposePatch | MODstore_deploy/modstore_server/eskill_runtime.py:41-116 | the proposed changes, from history or by rule |
| ESkillPatch.FillRuleChanges | MODstore_deploy/modstore_server/eskill_runtime.py:75-110 | the rule for each logic type |
| ESkillPatch.ProposalMeans | MODstore_deploy/modstore_server/eskill_runtime.py:51-116 | with a history the newest related patch again; else the first filled replacement template, the standard task with at least one retry, or the last resort; always metadata of this run |
| ESkillPatch.PatchMeans | MODstore_deploy/modstore_server/eskill_runtime.py:497-512 | entry by entry, what a merge takes from the patch and what from the logic, metadata merged into metadata |
| ESkillPatch.DictOfPairsMeans | MODstore_deploy/modstore_server/eskill_runtime.py:504 | in a dict() of pairs the last pair of a key decides |
| ESkillPatch.ApplyPatch | MODstore_deploy/modstore_server/eskill_runtime.py:497-512 | the merge, key by key in any order; it fails on metadata that dict() refuses |
| ESkillPatch.ProposalRaisesIff | MODstore_deploy/modstore_server/eskill_runtime.py:99-106 | the adapter raises exactly for employee tasks with a text or an unreadable retry count |
| ESkillPatch.DictOfIff | MODstore_deploy/modstore_server/eskill_runtime.py:504 | dict() takes what is empty, a dict, or a list of pairs; a pair is a list or text of two, or a dict of two keys |
| ESkillPatch.MergeRaisesIff | MODstore_deploy/modstore_server/eskill_runtime.py:502-509 | the merge raises exactly if dict() refuses the old metadata |
| ESkillPatch.GeneratedPipelineRuns | MODstore_deploy/modstore_server/eskill_runtime.py:83-98 | the generated pipeline runs and returns the rendered template and the reason |
| ESkillPatch.PatchedLogicRuns | MODstore_deploy/modstore_server/eskill_runtime.py:75-110 | without history the patch of any logic but an employee task merges exactly if dict() takes the old metadata, and the merged logic runs on every input |
| ESkillGate.QualityReport | MODstore_deploy/modstore_server/eskill_runtime.py:446-495 | the issues are exactly the violated clauses, the score the least an issue lowers it to, and it passes exactly if every clause holds and the minimum score is at most one |
| ESkillRuntime.RetrieveSuccessHistory | MODstore_deploy/modstore_server/eskill_runtime.py:530-559 | the patches of at most five related runs among the thirty newest successful ones |
| ESkillRuns.HistoryMeans | MODstore_deploy/modstore_server/eskill_runtime.py:538-559 | the search is the query it stands for: of the newest successful runs, the first related ones |
| ESkillRuns.SatisfiesIff | MODstore_deploy/modstore_server/eskill_runtime.py:446-495 | the verdict, written out: keys, length, texts, pattern, rules and minimum score |
| ESkillRuntime.CheckGate | MODstore_deploy/modstore_server/eskill_runtime.py:443-444 | the gate's verdict on an output |
| ESkillRuntime.Runtime.RollbackToPreviousVersion | MODstore_deploy/modstore_server/eskill_runtime.py:561-576 | moves to the greatest earlier version, if there is one |
| ESkillRuntime.Runtime.MakeAttempt | MODstore_deploy/modstore_server/eskill_runtime.py:233-279 | domain check, patch, execution and gate, up to the first failure |
| ESkillRuntime.Runtime.RunDynamic | MODstore_deploy/modstore_server/eskill_runtime.py:217-305 | the effects of a dynamic attempt |
| ESkillRuntime.Runtime.SolidifyVersion | MODstore_deploy/modstore_server/eskill_runtime.py:283-304 | version, active number and run are stored together, or nothing if the number is taken |
| ESkillRuntime.Runtime.HandleFault | MODstore_deploy/modstore_server/eskill_runtime.py:199-215 | the error path, once |
| ESkillRuntime.Runtime.Run | MODstore_deploy/modstore_server/eskill_runtime.py:123-215 | one run, static stage first, as RunMeans states it |
| ESkillRuns.RunMeans | MODstore_deploy/modstore_server/eskill_runtime.py:155-215 | a run from its merged dicts and how its logic fares: an output that satisfies the gate and is not forced on is the answer, logged as static, the skill as it was; a fault or another output goes where the policies send it, with that output |
| ESkillRuns.StageIff | MODstore_deploy/modstore_server/eskill_runtime.py:178-201 | static exactly if the logic runs, its output satisfies the gate and nothing forces the dynamic stage; below the gate exactly if the policy stops there; such runs move nothing and log one row without a patch |
| ESkillRuns.AttemptLeads | MODstore_deploy/modstore_server/eskill_runtime.py:217-305 | a dynamic attempt, by domain, patch and how the patched logic fares: output, logged row, roll-back to the greatest earlier version, or the new version with the old policies |
| ESkillVersions.AttemptMoves | MODstore_deploy/modstore_server/eskill_runtime.py:250-305 | when an attempt moves the active number, and when it raises |
| ESkillVersions.RunIsAllowed | MODstore_deploy/modstore_server/eskill_runtime.py:123-305 | a run moves the active number only up by one with logic that passed this run's gate, or down to the greatest earlier version |
| ESkillVersions.RunsKeepVersions | MODstore_deploy/modstore_server/eskill_runtime.py:123-305 | over any runs the active number names a stored version and stored rows are never lost or edited |
| ESkillVersions.RunKeepsNumbering | MODstore_deploy/modstore_server/eskill_runtime.py:286-298 | numbers stay gapless; a number is added only from the newest version; a roll-back is by one |
| ESkillVersions.SolidifiesIffNewest | MODstore_deploy/modstore_server/eskill_runtime.py:286-302 | a passed attempt becomes a version if and only if the active version is the newest |
| ESkillVersions.RollbackIsForGood | MODstore_deploy/modstore_server/eskill_runtime.py:561-576 | behind a roll-back no sequence of runs adds a version or moves the active number up |
| ESkillVersions.RolledBackSkillIsStuck | MODstore_deploy/modstore_server/eskill_runtime.py:286-302 | from one version, a run that passes makes version 2, one that fails the gate goes back to 1, and then the run that passed before raises and leaves nothing |
| ESkillVersions.ReachableIsNumbered | MODstore_deploy/modstore_server/eskill_runtime.py:286-298 | every state reachable from one version is numbered without gaps |

## Left out

- HTTP routes, authentication, logging texts, metrics, e-mail and front-end code: no protocol of their own.
- File parsers (PDF, DOCX, XLSX, CSV, byte decoding): the models start from the extracted text of a file or page.
- Intent recognition and field extraction of the service desk (regular expressions over the message): a message comes as its
  intent and fields. Ticket numbers, evidence, replies, audit rows and events are not kept, and two tickets opened by one
  session within a second, whose ticket numbers collide, are not modelled.
- is_countable_order, the blocked-word scan behind the rate limits, model_price's table query, package files on disk and
  list views: they would only add easy members.
- The reading of a skill's quality gate from its dict (int, float and str conversions), the text of an output, the pattern
  search, the domain check and the matching of earlier inputs are parameters of the run, fixed during it.
- Dicts are maps: the insertion order of an output's entries, which decides the order of the joined text the gate reads, is
  inside the parameter that gives that text.
- QualityReport: the reported score is not rounded to four digits; the verdict does not depend on the rounding.
- BuildLevelProfile: experience is an integer or missing; rounding the progress for display is left out.
- XpFromAmountExact: amounts are exact reals, not floats, and amounts that are not numbers are missing ones.
- HalfUpLaws: amounts are exact reals, so the precision limit of the decimal context does not appear.
- LimitKey: every caller passes a window of sixty seconds, so the window is a constant of the limiter; clocks do not go back.
- EveryInterleavingIsSerial: the worker's session has not loaded the user row before (StaleReadIff is the other case), and
  commits succeed except for the ledger's unique key.
- ApplyNotifyPaid: the stored amount is always a whole number of cents, so the textual fallback amount is never used; the
  order file can always be read and written.
- UpdateOrderStatus: of the fields carried along only status, plan and amount are kept.
- StreamGen: the generator is driven to its end; cancelled requests and killed processes are not modelled.
- PromoteDraftToStable: calls do not interleave; ids and versions are texts, and fields no operation looks at are one value.
- SyncPackages: copying package files and the list of copy errors.
- Review: invoice numbers are the places of their rows, which are never deleted.
- UpsertDocument: a user's default collection is named by the user, as one collection exists per user; Redis commands of a
  pipeline all take effect, and document ids are 24 hex digits.
- ScanIsExactIff: the limit on nested asterisks in newer servers, behind which a pattern matches nothing, is not modelled.
- LlmChat: a wallet request that is reported as done has taken effect.
- MergeRaisesIff: keys of a list of pairs that are no texts count as the texts they are written as.
- HandleMessage: outcomes of workflow, connector and model-extension calls are parameters; compliance reviews change only
  their action, not the catalogue item.
- The employee and generated-code services behind a skill may answer anything in each attempt and step, but a step makes at
  most one such call.
- Other writers of the same tables (skill registration, refund and payment routes, version 2 of the knowledge API).
