# SLAgent-402 in Dafny

A verified model of the parts of SLAgent-402 that keep state or move money. HTTP, chain, database and
language-model calls are inputs: every theorem holds for whatever they answer.

| file | models |
|---|---|
| Wallet.dfy | circuit breaker, retry loop and one-shot recovery of the sidecar wallet client |
| Strategy.dfy, BuyerLoop.dfy | seller statistics and ranking, and the autonomous buyer loop |
| Preimage.dfy | the packed bytes a settlement signature covers |
| Settlement.dfy, SettlementRuns.dfy | nonce allocation and idempotent submission, one call at a time and under threads |
| Authorization.dfy, Ap2Runs.dfy | AP2 intents, authorizations and the event log |
| Pricing.dfy, LlmPolicy.dfy, Gateway.dfy | what a call pays: tier rules, the normalised model reply, the overlay |
| Disputes.dfy, Budget.dfy | the buyer's checks, disputes and tool-chain budget |
| Receipts.dfy | the receipt cache and its indexed table |
| Base.dfy, Sorting.dfy | shared helpers and the stable sort |

Code that changes state is a class or a method with the source's loops, proved equal to a function on
values; the properties are lemmas about that function. Main results are stated over every input, every
environment or every run.

Where a promise does not hold of the code, the code is modelled as it is and the exact condition is
proved. Found this way: an exception outside the two caught ones leaves the breaker HALF_OPEN and goes
unmetered; the loop disputes full refunds of failed seller calls; the latency score jumps up at the
degraded threshold; a full payout can be flagged as a breach; a suggested base can exceed a suggested
maximum of zero; a receipt message takes a rejected intent out of its documented terminal state
(docs/AP2_FLOW.md calls it terminal; the model follows the code); the duplicate check of the submitter
is two steps, a raise after acceptance invites a second acceptance, and a lagging pending count after a
reset a second use of a nonce; receipts the client refused are entered in the loop's ledger at their own
word; a buyer whose mandate was not registered disputes honest prices of the default one; table and
memory read negative page bounds differently; a receipt with an integer beyond 64 bits is cached and not
stored.

`dafny verify dfyconfig.toml` checks the project.

## Model

| member | source | states |
|---|---|---|
| Wallet.AttemptsOverSpan | buyer_agent/wdk_wallet.py:129-247 | Amortised cost of a dead sidecar: over any run of requests none of which succeeds, from a fresh wallet and a clock that never goes back, attempts are at most 5 + 3 * floor(T / 30), retries after the breaker opened included; attempts lost to an uncaught exception come on top |
| Wallet.BoundIsReached | buyer_agent/wdk_wallet.py:129-247 | The bound is exact: for every number of 30-second periods some crash-free run sends precisely 5 + 3k attempts |
| Wallet.CrashesAreUnmetered | buyer_agent/wdk_wallet.py:206-226 | The crash term is needed: exceptions the loop does not catch leave the breaker untouched, so any number of attempts goes out at one instant |
| Wallet.StateIsHistory | buyer_agent/wdk_wallet.py:129-156 | Under any interleaving of checks, successes and failures the state is a function of the history: failures since the last success; CLOSED iff fewer than 3; HALF_OPEN iff some check came 30 seconds after the latest failure; opened-at is the time of the latest failure |
| Wallet.RequestFollowsTrace | buyer_agent/wdk_wallet.py:192-247 | A request does to the breaker exactly what its trace says: the check at its time, each failed attempt at its own time, then a success, a last failure at exhaustion, or nothing more |
| Wallet.CallsAreHistory | buyer_agent/wdk_wallet.py:129-247 | So the history law holds of any sequence of whole requests from a fresh wallet: count, circuit and opened-at are read off the answers and clocks of the requests |
| Wallet.HalfOpenAfterIff | buyer_agent/wdk_wallet.py:129-156 | A completed request leaves HALF_OPEN if and only if it was let through as a probe and its very first attempt died of an uncaught exception |
| Wallet.HalfOpenIsReached | buyer_agent/wdk_wallet.py:202-226 | It happens: a dead sidecar, and thirty seconds later a probe that crashes, leave the breaker HALF_OPEN |
| Wallet.RecoveryIsOneShot | buyer_agent/wdk_wallet.py:158-190 | One top-level request in full: the request; exactly when its answer reports the wallet lost and a seed is known, one import under an empty cache; exactly when that yields an acceptable address, the request once more under that address, whose outcome is the answer; otherwise the import's own error is, and no address stays cached; breaker, log and import count exact in each case |
| Wallet.AtMostNine | buyer_agent/wdk_wallet.py:158-190 | A top-level request sends at most 9 HTTP requests and imports at most once |
| Wallet.RetryAnswers | buyer_agent/wdk_wallet.py:180-190 | By answers and clocks: after a recovery the retry goes out under the fresh address and, if it succeeds at once, is sent once and its reply is the answer; if the breaker refuses it, nothing is sent and the caller is told |
| Wallet.RetryHappens | buyer_agent/wdk_wallet.py:180-190 | For instance a wallet lost under one address and imported under another: three requests in order, and the retry's reply comes back |
| Wallet.AnswersDecide | buyer_agent/wdk_wallet.py:192-247 | A request refused within thirty seconds sends nothing; any other is decided by its first answer that is not retried, or fails as its third attempt did |
| Wallet.EnsureYields | buyer_agent/wdk_wallet.py:278-301 | An import yields its address if it names one that equals the expected one, if any, up to letter case; otherwise why not |
| Wallet.LostWalletIff | buyer_agent/wdk_wallet.py:177-179 | A lost wallet is reported by service errors that contain the phrase in any letter case, and by no others |
| Wallet.EnsureBounded | buyer_agent/wdk_wallet.py:278-301 | Loading the wallet costs nothing when the address is cached, otherwise one import of at most 3 attempts, and succeeds exactly when an address is cached afterwards |
| Wallet.WDKWallet.CbCheck | buyer_agent/wdk_wallet.py:129-139 | The check refuses or moves OPEN to HALF_OPEN and changes nothing else |
| Wallet.WDKWallet.CbRecordSuccess | buyer_agent/wdk_wallet.py:141-145 | A success closes the breaker and clears the count; address and log stay |
| Wallet.WDKWallet.CbRecordFailure | buyer_agent/wdk_wallet.py:147-156 | A failure counts, and opens the breaker from HALF_OPEN or at the threshold, stamping the time |
| Wallet.WDKWallet.SendWithRetries | buyer_agent/wdk_wallet.py:192-247 | The retry loop refines the recursive request: same breaker, same outcome, and every attempt sent is logged |
| Wallet.WDKWallet.RequestWithRecovery | buyer_agent/wdk_wallet.py:158-190 | The recovery recursion refines the specification and terminates by an explicit measure |
| Wallet.WDKWallet.EnsureWalletLoaded | buyer_agent/wdk_wallet.py:278-301 | Loading refines the specification, including the missing- and mismatched-address errors |
| BuyerLoop.BlacklistIsPermanent | buyer_agent/loop.py:148-313 | Once a seller is blacklisted by the history of a run it stays blacklisted, and no later selection of that run, the one that ends in a stop included, can name it, whatever is on offer |
| BuyerLoop.UselessSellersAreDropped | buyer_agent/loop.py:148-313 | Against n distinct sellers, always offered and never validating, with m samples, a positive pass-rate threshold and money for n*m rounds, a run allowed more than n*m rounds plays exactly n*m, m per seller, and stops because all are blacklisted |
| BuyerLoop.ExploreThenExploit | buyer_agent/loop.py:324-354 | From an empty history with the same distinct sellers offered each round, round k goes to seller k until all were tried (failed negotiations count), and every later round to the best allowed seller |
| BuyerLoop.RunTrace | buyer_agent/loop.py:148-313 | Every run only appends, and each record is for the seller that the history before it selects from that round's offer |
| BuyerLoop.SelectMeaning | buyer_agent/loop.py:324-354 | Selection fails exactly when every offered seller is blacklisted, and otherwise names an offered, allowed seller |
| BuyerLoop.LoopLedger | buyer_agent/loop.py:219-266 | The remaining budget is never negative and equals initial minus payouts exactly when no payout exceeded what was left |
| BuyerLoop.LedgerExactIff | buyer_agent/client.py:343-473 | With the client's checks and the budget guard in front, every round but a refused one pays between 0 and what was left, so the ledger equation holds if and only if no refused receipt asked for more |
| BuyerLoop.RefusedReceiptOverdraws | buyer_agent/loop.py:236-266 | A refused receipt can: one over 20 tokens against a budget of 10 leaves 0, not -10 |
| BuyerLoop.RunIsRecorded | buyer_agent/loop.py:186-313 | Every round of every run is recorded as it went: price, payout, refund, latency, verdict, success, status and balances; under the default refund rule a conserved result is marked disputed if and only if it had a request id and metrics and paid other than the negotiated rules, and the round counts as disputed if the gateway also opened it |
| BuyerLoop.DisputesAreCounted | buyer_agent/loop.py:259-263 | The dispute count is the number of rounds whose dispute was opened |
| BuyerLoop.HonestRoundUndisputed | buyer_agent/loop.py:219-297 | A receipt priced by the gateway under the negotiated mandate passes through client and loop as a success and is never disputed |
| BuyerLoop.StopIff | buyer_agent/loop.py:156-222 | The stop reasons, each if and only if its condition is the first to hold |
| BuyerLoop.AgentCallMeaning | buyer_agent/client.py:343-475 | The client accepts a reply if and only if it is conserved, in bounds and unpaid in invalid mode, and hands on its fields unchanged either way |
| BuyerLoop.AutonomousBuyerLoop.Run | buyer_agent/loop.py:148-313 | The loop refines the recursive run: rounds, history, budget, disputes, sellers seen and stop reason |
| BuyerLoop.AutonomousBuyerLoop.SelectSeller | buyer_agent/loop.py:324-354 | The scan for an untried seller, then the best one, refines the selection function |
| BuyerLoop.AutonomousBuyerLoop.PlayRound | buyer_agent/loop.py:156-217 | One iteration refines the round step: no sellers, none allowed, failed negotiation, or a call; the record is appended to the loop's history |
| Strategy.PickBestMeaning | buyer_agent/strategy.py:111-137 | Sort then first allowed is: an allowed seller of maximal score, smallest id on ties; none exactly when all are blacklisted |
| Strategy.BlacklistIsSampleCount | buyer_agent/strategy.py:88-187 | When nothing ever passed validation, blacklisted means exactly: at least the minimum number of samples |
| Strategy.OthersUnaffected | buyer_agent/strategy.py:88-108 | A record about one seller changes the evaluation of no other |
| Strategy.LatencyScoreAntitoneIff | buyer_agent/strategy.py:190-201 | The latency score never rewards slowness if and only if the degraded threshold is not above the target; the defaults violate it |
| Strategy.ScoreRange | buyer_agent/strategy.py:88-201 | For non-negative latency thresholds a score lies between -12.5 and 100 whatever the history, since every rate and the mean payout ratio are fractions |
| Strategy.FlawlessSellerScoresFull | buyer_agent/strategy.py:140-187 | A seller whose every call succeeded, validated, went undisputed and was paid in full, with mean latency within the target, scores exactly 100, and no threshold on that scale blacklists it |
| Strategy.ValidatingIsWorth40 | buyer_agent/strategy.py:159-170 | Among a seller's n records one that validates instead of not raises the unrounded score by 40/n |
| Strategy.SucceedingIsWorth20 | buyer_agent/strategy.py:159-170 | One that succeeds instead of not raises it by 20/n |
| Strategy.PaymentIsWorth15 | buyer_agent/strategy.py:159-170 | One paid a share of its price instead of nothing raises it by that share of 15/n |
| Strategy.DisputeCosts15 | buyer_agent/strategy.py:159-170 | One no longer disputed raises it by 15/n |
| Strategy.FirstLatencyIsWorth12 | buyer_agent/strategy.py:159-201 | A first measured latency within the target raises it by 12.5 |
| Strategy.ScoreIsNearestHundredth | buyer_agent/strategy.py:159-170 | The score is the unrounded one to the nearest hundredth |
| Strategy.AverageIsBalanced | buyer_agent/strategy.py:97-107 | The average latency is the value the measured ones balance around, absent exactly when none was measured |
| Strategy.LatencySlope | buyer_agent/strategy.py:190-201 | Between target and degraded threshold the latency score falls in a straight line, not below 0.4 |
| Strategy.LatencyTail | buyer_agent/strategy.py:196-197 | From the degraded threshold on it is the threshold's share of the latency, not below 0.1 |
| Strategy.BlacklistedIff | buyer_agent/strategy.py:172-187 | A seller is blacklisted if and only if it has enough samples and too small a share validated, or succeeded, or too low a score |
| Strategy.EachClauseAlone | buyer_agent/strategy.py:172-187 | Each of the three clauses condemns on its own: single records that show it |
| Strategy.UntriedEvaluation | buyer_agent/strategy.py:147-155 | An untried seller has the cold-start score and is not blacklisted |
| Strategy.ValidatedBeatsSucceeded | buyer_agent/strategy.py:111-170 | Of two sellers with one record each, the one that only validated (65) is picked over the one that only succeeded (45) |
| Preimage.UnpackPack | facilitator/settlement.py:20-39 | The signed preimage decodes back to its fields, for a mandate id of any length and 32-byte request id and receipt hash: ids, addresses up to letter case, both amounts, receipt hash |
| Preimage.PackUnpack | facilitator/settlement.py:20-39 | Every string of at least 168 bytes is the preimage of the terms it decodes to |
| Preimage.PackInjective | facilitator/settlement.py:20-39 | Agreements with well-formed addresses and amounts that fit have one preimage if and only if they are equal up to address letter case, mandate ids of any lengths included, when their request ids are equally long and their receipt hashes are (the gateway makes both 32 bytes by hashing) |
| Preimage.PackLayout | facilitator/settlement.py:20-39 | The order of the fields, by byte offset: mandate id, request id, buyer, seller, maximum price, payout, receipt hash |
| Preimage.FromHexIsNumber | facilitator/settlement.py:34-35 | An address's bytes, read as one big-endian number, are the number its hex digits spell |
| Preimage.LeadingByte | facilitator/settlement.py:36-37 | The most significant byte comes first |
| Preimage.SpellingsAliasIff | facilitator/settlement.py:34-35 | For all spellings with at most forty hex digits after the first two characters: two are one address if and only if their zero-padded lower-case digits agree |
| Preimage.BigEndianRoundTrip | facilitator/settlement.py:36-37 | Amounts that fit survive the 32-byte big-endian encoding |
| Preimage.FromBigEndianRoundTrip | facilitator/settlement.py:36-37 | Every byte string is the encoding of the amount it reads as |
| Preimage.AmountWidth | facilitator/settlement.py:36-37 | The amounts that fit are exactly those below 2 to the 256 |
| SettlementRuns.IssuedNoncesIncrease | facilitator/settlement.py:79-90 | Over every interleaving of threads at the level of single accesses to the cache, and any reported pending counts, nonces issued between two resets strictly increase |
| SettlementRuns.EveryNonceIsLeast | facilitator/settlement.py:79-90 | Over every interleaving: a nonce drawn from an empty cache is the pending count read for it, and one drawn while the cache held another is the least number above that and not below the count |
| SettlementRuns.NoNonceSkipped | facilitator/settlement.py:79-90 | Between two resets each nonce is one past the nonce before it, unless the node reports more pending transactions, and then it is their count |
| SettlementRuns.NoNonceReused | facilitator/settlement.py:141-165 | If the pending count exceeds every used nonce whenever the cache is found empty, no nonce is used twice in the whole run, accepted-then-raised sends included |
| SettlementRuns.StaleIsFatal | facilitator/settlement.py:79-90 | The condition is exact: the first time an empty cache meets a pending count not above every used nonce, the run can go on to use a nonce twice |
| SettlementRuns.StalePendingReuses | facilitator/settlement.py:162-165 | And it happens: a failure's reset and a stale pending count reuse a nonce |
| SettlementRuns.MutexHolds | facilitator/settlement.py:141-159 | Exactly the lock holder is between taking the lock and the send |
| SettlementRuns.CompletedAtMostOnce | facilitator/settlement.py:185-231 | Over every interleaving where no id is added that was added since it was looked up, each id completes at most once and is remembered exactly while one thread carries it or after it completed, never both |
| SettlementRuns.RaceIsFatal | facilitator/settlement.py:185-190 | The condition is exact: from the first such addition on, whatever the state of the run, it can go on so that the id completes twice, without any raise after acceptance |
| SettlementRuns.AcceptedLedger | facilitator/settlement.py:199-231 | Over every interleaving, races included: the node accepted each id as often as its calls returned, raised after acceptance, or are in flight |
| SettlementRuns.AcceptedAtMostOnce | facilitator/settlement.py:199-231 | If also no settlement raises after its transaction was accepted, each id is accepted by the node at most once |
| SettlementRuns.LostIsFatal | facilitator/settlement.py:226-231 | The condition is exact: after any settlement that raises although its transaction was accepted, the retry, even undisturbed, can be accepted a second time |
| SettlementRuns.RacingThreadsCompleteTwice | facilitator/settlement.py:186-190 | The look-up and the addition are not one step: two threads that both looked first complete twice |
| SettlementRuns.SoloSubmission | facilitator/settlement.py:167-231 | An undisturbed submission, duplicate check, section and exception handler, ends as the sequential method does whether the chain fails early, fails late or accepts, and leaves thread and lock free |
| SettlementRuns.SoloDeposit | gateway/app/settlement_client.py:266-290 | The same for deposits and the dispute submitters |
| Settlement.SubmittedExactlyOnce | facilitator/settlement.py:167-231 | In every sequential run an id is remembered exactly when one attempt for it completed without raising; no id completes twice |
| Settlement.SubmissionMeaning | facilitator/settlement.py:167-231 | Duplicate, mocked, sent or raised, each if and only if its condition holds, with the nonce and the memory each leaves |
| Settlement.SettlementClient.NextNonce | facilitator/settlement.py:79-90 | The nonce is the pending count for an empty cache, otherwise the least number above the cached nonce and not below the count, and is cached |
| Settlement.SettlementClient.LockedSend | facilitator/settlement.py:199-231 | Success caches the nonce, any failure forgets the cache |
| Settlement.SettlementClient.SubmitDeposit | facilitator/settlement.py:122-165 | Deposits (and the three dispute submitters) mock or run the locked section and never touch the submitted ids |
| Settlement.SettlementClient.Submit | facilitator/settlement.py:167-231 | Duplicates are skipped, completed ids remembered, raised ones forgotten |
| Ap2Runs.SettlementOnlyOnLiveGrant | gateway/app/a2a/routes.py:298-375 | In every run with fresh ids, each executed settlement follows a grant of that very pair by the authorizer and under the policy it names, was checked no later than the grant's expiry, never concerns a rejected intent, and is the only one of its intent and of its authorization |
| Ap2Runs.LogDeterminesStore | gateway/app/a2a/routes.py:150-425 | The event log is a complete audit trail: replaying it gives every intent status and every authorization's intent, authorizer, policy, expiry and status |
| Ap2Runs.GateOpensIff | gateway/app/a2a/authorization.py:161-186 | With a clock that never goes back, settlement passes the gate if and only if the log shows the intent granted and nothing since, the grant is for it, and its expiry is not a positive time already past |
| Ap2Runs.GrantSettlesIff | gateway/app/a2a/authorization.py:55-57 | As long as no later message names its intent, a grant given no expiry (0, less, or not finite) settles at every time and any other exactly until its expiry, under its authorizer and its policy, which is the mandate if none was given |
| Ap2Runs.BlockedIff | gateway/app/a2a/authorization.py:161-186 | Each reason for blocking, if and only if it is the first of the six conditions to fail |
| Ap2Runs.ReceiptNamesGranter | gateway/app/a2a/routes.py:378-412 | A receipt names the authorizer the log shows for its intent, and nobody if the log shows no grant |
| Ap2Runs.IntentTermsKept | gateway/app/a2a/authorization.py:80-100 | An intent keeps the terms and time it was created with whatever becomes of its status |
| Ap2Runs.LoggedEvents | gateway/app/a2a/routes.py:150-425 | Which event each message logs, and which messages log none |
| Ap2Runs.LinkedAlways | gateway/app/a2a/authorization.py:80-201 | The intent index is the exact inverse of the authorizations' intent ids; SETTLED implies CONSUMED, CONSUMED implies SETTLED or RECEIPT_ISSUED; CREATED and REJECTED intents have no authorization |
| Ap2Runs.ExactlyOneAuthorization | gateway/app/a2a/authorization.py:107-136 | An authorized or settled intent has exactly one authorization, the indexed one |
| Ap2Runs.StatusNeverFalls | gateway/app/a2a/authorization.py:107-201 | Along every run an intent's status only rises in CREATED < AUTHORIZED, REJECTED < SETTLED < RECEIPT_ISSUED |
| Ap2Runs.RejectedLeftIff | gateway/app/a2a/authorization.py:197-201 | The documented terminal state REJECTED: an intent rejected at some point of a run is RECEIPT_ISSUED at its end if a receipt message named it since, and otherwise still REJECTED |
| Ap2Runs.AuthStatusFinal | gateway/app/a2a/authorization.py:179-195 | An authorization found expired or consumed at some point of a run has that status at every later point |
| Authorization.AuthorizationStore.Create | gateway/app/a2a/authorization.py:80-100 | Inserts the intent and changes nothing else |
| Authorization.AuthorizationStore.Authorize | gateway/app/a2a/authorization.py:107-136 | Raises exactly unless the intent is CREATED; otherwise grants, links and marks it |
| Authorization.AuthorizationStore.Reject | gateway/app/a2a/authorization.py:138-148 | Raises exactly unless the intent is CREATED; otherwise rejects it |
| Authorization.AuthorizationStore.ValidateForSettlement | gateway/app/a2a/authorization.py:161-186 | The first failing gate condition, with an expired authorization marked in passing |
| Authorization.AuthorizationStore.Settle | gateway/app/a2a/authorization.py:188-195 | Intent SETTLED, authorization CONSUMED, nothing else |
| Authorization.AuthorizationStore.IssueReceipt | gateway/app/a2a/authorization.py:197-201 | Any known intent becomes RECEIPT_ISSUED |
| Authorization.Routes.HandleIntentCreate | gateway/app/a2a/routes.py:150-191 | Protocol step: create and log |
| Authorization.Routes.HandleIntentAuthorize | gateway/app/a2a/routes.py:194-257 | Protocol step: grant and log, or log the failure; an unreadable expiry changes nothing |
| Authorization.Routes.HandleIntentReject | gateway/app/a2a/routes.py:260-295 | Protocol step: reject and log, or change nothing |
| Authorization.Routes.HandleSettlementExecute | gateway/app/a2a/routes.py:298-375 | Protocol step: settle and log, or log what blocked it |
| Authorization.Routes.HandleReceiptIssue | gateway/app/a2a/routes.py:378-425 | Protocol step: mark a known intent and log the receipt with its authorizer |
| Pricing.ApplyLatencyTiers | gateway/app/pricing.py:89-131 | Sort then scan refines the declarative decision: the covering tier of least threshold, first written on ties |
| Pricing.ComputePayout | gateway/app/pricing.py:26-86 | Payout and refund always add up to the maximum price; failed calls and failed validation pay nothing |
| Pricing.BasePayMeaning | gateway/app/pricing.py:72-86 | Without latency tiers a good call earns the base pay, or the maximum if that is less, flagged if it is less |
| Pricing.FlaggedIff | gateway/app/pricing.py:104-114 | A covered call is flagged if and only if it is paid less than the best tier, of least threshold and first written, is written for |
| Pricing.TierPriceMeaning | gateway/app/pricing.py:89-131 | The price is min(maximum, payout of the covering tier with least threshold), and 0 with its own rule exactly when no tier covers |
| Pricing.OrderIrrelevant | gateway/app/pricing.py:101-105 | Permuting tiers with distinct thresholds changes no field of the decision |
| Pricing.AntitoneIff | gateway/app/pricing.py:89-131 | For any tiers and any price, pricing is antitone in latency if and only if, among the first-written tier of each threshold, capped payouts are non-negative and never rise with the threshold |
| Pricing.SlowerNeverPaysMore | gateway/app/pricing.py:89-131 | The same for two given latencies, without assuming distinct thresholds |
| Pricing.PayoutBounds | gateway/app/pricing.py:44-86 | With non-negative terms the payout lies between 0 and the maximum price |
| Pricing.FullPayoutFlaggedIff | gateway/app/pricing.py:104-114 | A full payout is reported as a tier breach if and only if the best tier is written above the maximum price |
| Pricing.FullPayoutFlagged | gateway/app/pricing.py:104-114 | It happens: a best tier of 120 under a maximum of 100 pays the full 100 and flags it |
| LlmPolicy.EvaluateSla | gateway/app/llm_policy.py:75-162 | The reassigning code refines a table over scenarios, for every model reply, raising exactly on non-finite payouts and confidences beyond a float |
| LlmPolicy.AutoRecommendation | gateway/app/llm_policy.py:120-123 | Without a scenario the recommendation is the model's number, its fraction dropped, cut to what the mandate allows, and absent exactly when it gave none |
| LlmPolicy.SlowRecommendation | gateway/app/llm_policy.py:146-152 | A slow call is paid the amount nearest to the recommendation between the base pay and one below the maximum, the latter if there is none |
| LlmPolicy.VerdictFollowed | gateway/app/llm_policy.py:119-147 | The verdict is the model's, or the checks' if it gave none, except where a scenario decides |
| LlmPolicy.SlowIsDegradedIff | gateway/app/llm_policy.py:97-98 | Slow calls are paid strictly below the maximum for every reply if and only if 0 < maximum and base < maximum |
| LlmPolicy.SuggestMandate | gateway/app/llm_policy.py:211-279 | Clamping, the tier loop and the scenario overrides refine the suggestion function, raising exactly on unreadable terms and tiers that cannot be iterated |
| LlmPolicy.SuggestedTermsSound | gateway/app/llm_policy.py:211-279 | For every reply that normalises with a positive maximum: 0 <= base <= maximum, tiers non-empty and sorted, payouts within the maximum |
| LlmPolicy.SuggestedMaxMeaning | gateway/app/llm_policy.py:215-217 | The suggested maximum is the model's, or the mandate's if it gave none, and 0 at least |
| LlmPolicy.SuggestedBaseMeaning | gateway/app/llm_policy.py:216-229 | The suggested base under a positive maximum, scenario by scenario |
| LlmPolicy.SuggestedTiersMeaning | gateway/app/llm_policy.py:247-264 | The three tiers of each scenario: thresholds, and shares of the maximum in tenths, raised to the base or not |
| LlmPolicy.SuggestedAutoTiers | gateway/app/llm_policy.py:231-246 | Without a scenario: as many tiers as readable entries, each with its payout cut to the maximum, or one tier with the base if none is readable |
| LlmPolicy.BaseWithinMaxIff | gateway/app/llm_policy.py:217-229 | Base exceeds maximum if and only if there is no scenario, the maximum is 0 and the raw base positive |
| LlmPolicy.BaseExceedsMax | gateway/app/llm_policy.py:215-218 | It happens: a suggested maximum of -1 is read as 0, and a suggested base of 5 stays 5 |
| LlmPolicy.SuggestedTermsDegrade | gateway/app/llm_policy.py:247-264 | Pricing scenario terms never pays a slower call more |
| LlmPolicy.SlowTermsPayBase | gateway/app/llm_policy.py:224-226 | Slow terms never pay a passing call below the suggested base while a tier covers it |
| Gateway.CallEndpoint | gateway/app/main.py:470-555 | The validator fold and the model overlay refine the response function |
| Gateway.DecisionSafe | gateway/app/main.py:470-555 | Whatever the model returns: payout + refund = maximum, 0 <= payout <= maximum, nothing for failed calls, failed schemas or a failed verdict |
| Gateway.ValidationPassedIff | gateway/app/main.py:470-533 | When an answer counts as validated, for every call |
| Gateway.RecommendationPaid | gateway/app/main.py:518-553 | In the free scenario a good call the model does not reject is paid what it recommends, cut to the mandate's bounds, and what the rules say if it recommends no number |
| Gateway.NegotiatedMarks | gateway/app/main.py:534-553 | A payout other than the rules' is marked negotiated, keeps their breaches and is flagged if and only if it is below the maximum |
| Gateway.ServerErrorIff | gateway/app/llm_policy.py:119-126 | The endpoint fails if and only if reading the model's numbers raises |
| Gateway.ModelRejectionZeroes | gateway/app/main.py:518-533 | A model's rejection zeroes the payout unless a happy or slow guardrail overrules it |
| Gateway.ScenarioPayouts | gateway/app/llm_policy.py:138-152 | Breach scenarios pay 0; happy pays exactly the maximum; slow pays within [base, maximum - 1] |
| Disputes.DisputeIffWrongPayout | buyer_agent/dispute_policy.py:38-102 | On conserved observations with the default refund rule a dispute follows if and only if the payout differs from the rules, whatever role, gain, bond and ratio |
| Disputes.DisputeNeedsGain | buyer_agent/dispute_policy.py:74-85 | Without the refund rule only a gain of the own role above the threshold is disputed |
| Disputes.DisputeIff | buyer_agent/dispute_policy.py:38-102 | For all observations and settings: a dispute follows if and only if the own role's gain passes every threshold, or the refund is not the rules' and that alone suffices |
| Disputes.AssessmentReport | buyer_agent/dispute_policy.py:38-102 | The expected amounts, the gain and each reason, if and only if it applies |
| Disputes.AcceptsIff | buyer_agent/client.py:558-614 | The buyer accepts a receipt if and only if it is conserved, in bounds, and zero in invalid mode |
| Disputes.LoopDisputesIff | buyer_agent/loop.py:248-263 | With one mandate at the gateway and another at the buyer: the loop disputes if and only if the payout differs from the buyer's rules by other than the excess of the gateway's cap over the buyer's, or that excess passes the role's thresholds |
| Disputes.GatewayAnswerAcceptedIff | buyer_agent/client.py:443-473 | The buyer accepts a gateway answer if and only if both mandates have one maximum, and an invalid call earned nothing |
| Disputes.HonestCallIff | buyer_agent/loop.py:248-263 | A successful call priced by the rules of the gateway's mandate is accepted if and only if the maxima agree, and disputed if and only if the two mandates' rules differ by other than their maxima do or that excess is worth it |
| Disputes.HonestCallUndisputed | buyer_agent/loop.py:248-263 | Under one mandate on both sides a successful call priced by the rules is accepted and never disputed |
| Disputes.UnregisteredMandateDisputed | gateway/app/main.py:333-341 | The mandates do come apart, as a call whose mandate was not registered is priced by the default: a buyer that agreed on 80000 refuses and disputes the honest 100000, whatever else its mandate says |
| Disputes.OverlayDisputedIff | buyer_agent/loop.py:248-263 | Under equal maxima a successful call is disputed if and only if it paid other than the buyer's rules; where both mandates' rules agree, exactly when the model moved the payout |
| Disputes.FullRefundDisputedIff | buyer_agent/loop.py:251-258 | A failed seller call is refunded in full, yet the loop assesses a success: under equal maxima it disputes if and only if no model was usable or one outside a breach scenario said the SLA passed, and the buyer's rules would have paid something; under unequal ones the exact condition has the excess in it |
| Disputes.FullRefundDisputed | buyer_agent/loop.py:251-258 | It happens: the default terms on both sides, any bond, a failed call and no model |
| Disputes.FailingModeUnpaid | buyer_agent/client.py:592-598 | Untagged calls in a failing mode judged by a model earn 0, and pass every buyer check if and only if both mandates have one maximum |
| Budget.GatewayChainConserves | buyer_agent/tools.py:281-437 | For all tools, latencies, validators and model replies: spent = sum of payouts, spent + refunded = sum of charged prices, remaining + spent = budget, 0 <= remaining at every step |
| Budget.BooksBalance | buyer_agent/tools.py:131-160 | The ledger identities for arbitrary gateway answers |
| Budget.SpentEqualsPayoutsIff | buyer_agent/tools.py:148-152 | The ledger counts price less refund; it equals what sellers were paid if and only if the settled sums match the prices |
| Budget.NeverOverdrawn | buyer_agent/tools.py:141-152 | With non-negative refunds no step leaves the budget negative |
| Budget.StepsAreContiguous | buyer_agent/tools.py:281-437 | Every step starts from the balance the one before it left |
| Budget.ChainIsRecorded | buyer_agent/tools.py:281-437 | Every step is that of its tool: blocked, refused or charged by the two limits and the answer, with its amounts, balance and status; only the last can be blocked; and how the chain ended |
| Budget.BudgetManager.CanAffordStep | buyer_agent/tools.py:141-146 | The two guards in order, changing nothing |
| Budget.BudgetManager.RecordSpend | buyer_agent/tools.py:148-152 | Spending and refund are added and the balance recomputed from the budget |
| Budget.ToolChainExecutor.ExecuteTool | buyer_agent/tools.py:281-401 | Blocked, refused, charged or raised, with the matching ledger change |
| Budget.ToolChainExecutor.Run | buyer_agent/tools.py:403-437 | The loop refines the recursive chain, stopping at the first guard that fires |
| Receipts.SearchesAgree | gateway/app/receipt.py:192-263 | After any operations whatever, indexed and in-memory search return the same receipts for all filters the query can bind if and only if every cached receipt could be stored and has pricing and a boolean verdict |
| Receipts.SearchableSavesAgree | gateway/app/receipt.py:192-263 | So they do after any saves of such receipts, overwrites and reopenings |
| Receipts.SearchesAgreeIff | gateway/app/receipt.py:99-117 | Row by row the two searches agree for all filters if and only if the receipt has pricing and a boolean verdict |
| Receipts.InStepIff | gateway/app/receipt.py:119-144 | After any mix of saves, failed saves, overwrites and reopenings, cache and table hold the same receipts, each id once, with their columns, if and only if no save that did not fit the table is left without a later reopening or save under its id |
| Receipts.WidePayoutDangles | gateway/app/receipt.py:119-144 | It happens: a payout of 2 to the 63 is cached, and then the table write raises |
| Receipts.GetReturnsLatestIff | gateway/app/receipt.py:146-147 | After any such mix a lookup returns the latest receipt saved under the id if and only if that was stored or the store was not reopened since |
| Receipts.ReopeningPreservesGetIff | gateway/app/receipt.py:70-79 | At any point of such a mix, reopening leaves a lookup unchanged if and only if what it returned was stored |
| Receipts.PagesConcatenate | gateway/app/receipt.py:261-263 | Consecutive in-memory pages concatenate to the full result |
| Receipts.PagesAgreeIff | gateway/app/receipt.py:217-263 | Table and memory cut the same page out of every list if and only if the limit is 0 or neither bound is negative: SQL reads a negative limit as none and a negative offset as 0, a slice counts from the end |
| Receipts.NewestFirst | gateway/app/receipt.py:220 | The indexed result holds the receipts of exactly the matching rows, newest row first |
| Receipts.FiltersMeaning | gateway/app/receipt.py:232-263 | Filters act one by one and an empty one not at all |
| Receipts.BoundsMeaning | gateway/app/receipt.py:232-263 | The least payout and greatest latency admit the bound itself, a verdict only its own boolean |
| Receipts.RowIsStamped | gateway/app/receipt.py:119-144 | A stored receipt's row carries the time of the save that stored it |
| Receipts.ReopenedOldestFirst | gateway/app/receipt.py:70-79 | After reopening the cache lists the stored receipts oldest first |
| Receipts.PutInPlace | gateway/app/receipt.py:119-121 | A save keeps every other receipt where it is cached and takes the place of its id, or the next free one |
| Receipts.SqlPageMeaning | gateway/app/receipt.py:217-221 | A negative limit is none and a negative offset is 0; otherwise the page is that slice of the list |
| Receipts.ReceiptStore.Open | gateway/app/receipt.py:20-79 | The load loop refines reading the ordered table into an empty cache |
| Receipts.ReceiptStore.Save | gateway/app/receipt.py:119-144 | In place or at the end of the cache; replaced in the table, which raises exactly on integers outside 64 bits, the cache being written already |
| Receipts.ReceiptStore.BuildWhere | gateway/app/receipt.py:192-216 | The conditions collected hold of exactly the rows the filters mean |
| Receipts.ReceiptStore.SearchSqlite | gateway/app/receipt.py:192-230 | Collecting conditions, filtering, ordering, cutting the page and reading the rows back gives the page of the matching receipts; it raises exactly on parameters outside 64 bits |
| Receipts.ReceiptStore.SearchMemory | gateway/app/receipt.py:232-263 | Six successive comprehensions give the page of the receipts that pass all filters at once |
| Receipts.ReceiptStore.Search | gateway/app/receipt.py:153-190 | The table answers when there is one, otherwise the cache |
| Receipts.ReceiptStore.Get | gateway/app/receipt.py:146-147 | The first cached receipt with the id, or nothing exactly when there is none |

## Left out

- HTTP clients, routing, RPC, SQLite, Gemini, environment variables, logging: each is an arbitrary outcome, a map or a sequence.
- Keccak, signing and signature recovery: only the preimage bytes are modelled.
- The branch of `call_endpoint` for an upstream transport error, which answers 502, and the buyer client's own nonce counter, which follows the settlement client's rule.
- The Solidity contract and the Node wallet service are not part of this model; nothing is claimed about on-chain state beyond acceptance by a node.
- The wallet's `health` and synchronous fallback, which bypass the breaker.
- Floating point: rates, scores and ratios are exact reals, and the 0.9, 0.8, 0.7, 0.6, 0.5 and 0.3 fractions of a price are exact tenths rounded down; for amounts below 2^53 IEEE rounding moves a suggested payout by at most one unit, larger ones are not covered.
- A zero average latency above a negative target, where the source divides by zero: the latency score is given as 0.1.
- Reading numbers from text and JSON: inputs arrive read, or marked as unreadable where the source reacts to that; receipts read back from the table as they were written.
- Model confidence, reasons and free-text breach names: they reach no decision.
- Letter case and white space outside ASCII.
- Authorization.AuthorizationStore: intents and authorizations are values in maps, so a caller that kept a returned object and saw it change later is not modelled.
- Ap2Runs.SettlementOnlyOnLiveGrant: the time compared with the expiry is the clock reading of the gate; the event's own timestamp, taken moments later, may exceed it.
- Generated ids: their freshness is assumed, collisions of the twelve random hex digits are not modelled.
- SettlementRuns: threads are interleaved at accesses to the shared fields; an id's looked-up-then-added window and a raise after acceptance are recorded as flags, and the theorems name the flag they exclude.
- Database write errors other than integers outside 64 bits.
- The order of indexed search results with equal creation times, which SQL leaves open.
- The offer catalogue and the context passed from one tool to the next; tool mandates enter through their price and non-negative terms.
- Event queries, attestations, in-memory dispute status, demo keys, scripts and the dashboard: easy members or user interface.
