# Verified models of the ZKas mining pool

This project models the parts of the pool where an invariant spans several calls, tasks or
restarts, and proves what those parts promise. It covers the merged-mining bridge (Merkle
branch, aux blocks, pending work, job publication, submission guard, per-IP limits, nonce
prefixes, wire encodings), the reward pipeline of the accountant (chain scan, maturity gate,
recording, pro-rata split, fee breakdown, allocation commit, tier classifier), the claim
challenge store, and the dashboard's payout history.

Every component has a specification as functions on values. Code that updates state in place
is a class whose methods are proved equal to those functions; properties of whole histories and
of interleavings are lemmas about every sequence of steps. `dafny verify dfyconfig.toml` checks
all of it.

| module | what it covers |
|---|---|
| `CoinbaseMerkle`, `AuxPow` | coinbase inclusion branch, merge key, parent and aux blocks |
| `MergedPending`, `MergedJobs`, `JobOrigins` | pending work, publication of full and parent-only jobs by interleaved tasks, and the steps a published job goes back to |
| `JobRing`, `Extranonce`, `Hex`, `JobEncoding` | job storage, nonce prefixes, wire forms of a job and the miner's decoder |
| `SubmitGuard`, `AntiAbuse`, `TierBreaker`, `ClaimStore` | guards and caches driven by a clock |
| `RewardScan`, `RewardRuns` | the chain scan, the tracker sweep and whole runs of both |
| `ShareWindows`, `RewardSplit`, `FeeModel`, `RewardLedger` | share windows, split, fees, and the allocation commit under concurrent sweeps |
| `PayoutHistory` | the per-wallet payout list |

## Where the code does less than its comments say

- **Payee of a parent-only refresh.** The comment at `bridge/src/client_handler.rs:1148-1150`
  says a refresh keeps paying whoever the original template paid, by asking for the recorded
  flag. That fails in two ways. First, the call goes through the `KaspaApiTrait` interface, whose
  default (`bridge/src/share_handler.rs:2056-2058`) answers no, and the implementation for
  `KaspaApi` (`bridge/src/kaspaapi.rs:1541-1608`) does not override it: a refresh of a template
  cut in a fee minute pays the connection's own payout while the flag says pool
  (`MergedJobs.RefreshCanContradictFlag`). Second, with or without forwarding, a payout that a
  re-authorisation replaces (`bridge/src/default_client.rs:337`) or a decode error clears
  (`bridge/src/client_handler.rs:558`) after the cut is the one the refresh pays
  (`MergedJobs.ChangedPayoutContradictsFlag`). `MergedJobs.RefreshMatchesFlagIff` is the exact
  condition; with the lookup forwarded and the payout unchanged it always holds
  (`MergedJobs.SamePayoutMatchesIff`).
- **Rewards behind the cursor.** The scan stores its cursor before the tracker records the
  rewards. A failure on a later page drops what earlier pages found (`RewardRuns.LossyRun`).
  `RewardRuns.LosslessIffGivenUpRecovered` says for every run exactly when nothing is missing,
  `RewardRuns.AbortLosesExactly` and `RewardRuns.ResetLosesExactly` what an abort and a cursor
  reset cost, and `RewardRuns.CompletedSweepsRecordAll` that completed sweeps lose nothing.
- **"Mature by construction"** (`accountant/src/shielded_scan.rs:258`). The tracker reads its
  score before the block sweep and the scanner reads another one after it. What the scanner may
  ingest passes the tracker's gate exactly while the second score is at most 50 above the first
  (`RewardScan.MarginIsExact`). After a longer block sweep a reward can fail the gate behind the
  stored cursor and be lost without any error (`RewardRuns.SilentLoss`).
- **Marking an expired hash again.** `remove` leaves the hash in the guard's queue, so an
  expired hash can be refused (`SubmitGuard.ExpiredCanStayBlocked`);
  `SubmitGuard.ExpiredRemarkable` gives the exact condition after every history.
- **A clock that steps back** breaks the frame-rate bound in wall-clock terms. The bound holds for
  all configurations and windows exactly when the clock never steps back
  (`AntiAbuse.RateBoundIffNondecreasing`); the acceptance rule in terms of earned tokens holds
  for any clock.

## Model

| member | source | states |
|---|---|---|
| `CoinbaseMerkle.CoinbaseMerkleBranch` | bridge/src/merged.rs:40-63 | For every transaction list, folding the coinbase with the branch gives the root of the tree defined on the list alone by halving it at powers of two, with a zero hash for a missing right half, and the branch has one sibling per level of the smallest such tree |
| `CoinbaseMerkle.Siblings` | bridge/src/merged.rs:49-62 | The level loop: folding the first leaf with the collected siblings gives the root over the leaf slots |
| `CoinbaseMerkle.RootIsTree` | bridge/src/merged.rs:46-61 | The root over padded leaf slots is the tree of the transactions that fall into them, and absent exactly when there are none |
| `CoinbaseMerkle.NextLevel` | bridge/src/merged.rs:54-58 | One pass over the pairs is the next level of the tree |
| `CoinbaseMerkle.NextPowerOfTwo` | bridge/src/merged.rs:46 | The padded size is the smallest power of two that holds the leaves |
| `CoinbaseMerkle.UpKeepsRoot` | bridge/src/merged.rs:50-61 | Collapsing the lowest level keeps the root of every subtree |
| `CoinbaseMerkle.HeightUnique` | bridge/src/merged.rs:46 | The leaf count determines the height, hence the branch length |
| `AuxPow.HashAll` | bridge/src/merged.rs:45 | The leaves are the transaction hashes in order |
| `AuxPow.AssembleAuxBlock` | bridge/src/merged.rs:198-214 | The block is the template with, in the bound form, the nonce binding of the parent; its proof is the parent's header and coinbase with a branch that folds to the parent's Merkle root whenever that is the root of its transactions; it has the predicted chain hash and the template's merge key, and passes the aux-proof check, spelled out hash by hash, whenever the parent carries the commitment |
| `AuxPow.ParentMapsBack` | bridge/src/merged.rs:113-139 | A parent carrying a template's commitment maps back to exactly that template's key, in both commitment forms |
| `AuxPow.AssembleForSubmission` | bridge/src/kaspaapi.rs:840-848 | A solved parent yields an aux block exactly when its committed key is pending, read under the legacy tag or, only without one, under the tag of the fork; none when there is no coinbase or it commits to nothing pending; and if the parent carries the commitment of a template pending under its own merge key, the call returns that template's block and it verifies |
| `AuxPow.BuildParentBlock` | bridge/src/merged.rs:160-176 | The synthetic parent commits to the template's key and carries the template's target and time |
| `MergedPending.InsertKeepsValid` | bridge/src/merged.rs:249-267 | An insert keeps the queue duplicate-free, equal to the map's keys and within the cap, with solved and fee sets inside it |
| `MergedPending.PendingWork.constructor` | bridge/src/merged.rs:239-241 | An empty store with the given capacity, zero counting as one |
| `MergedPending.PendingWork.InsertWithPayee` | bridge/src/merged.rs:249-267 | The eviction loop computes the insert of the specification |
| `MergedPending.PendingWork.ClaimSolution` | bridge/src/merged.rs:280-282 | The claim of the specification, and whether it won |
| `MergedPending.ReplayShowsLog` | bridge/src/merged.rs:219-287 | After every history of inserts, re-inserts and claims the store is the last cap arrivals of an unbounded log, each with the block and flag of its newest insert, solved exactly when claimed since it arrived |
| `MergedPending.StepShows` | bridge/src/merged.rs:249-287 | Each call keeps the store equal to the resident part of that log |
| `MergedPending.PaidPoolIsNewestFlag` | bridge/src/merged.rs:272-274 | The payee lookup gives the flag of the newest insert for residents and false otherwise |
| `MergedPending.QueriesReadLog` | bridge/src/merged.rs:268-287 | After every history a claim wins, and a key counts as unsolved, if and only if the key is among the resident arrivals of the log and not claimed since it arrived; a lookup finds exactly the residents, with the block of the newest insert |
| `MergedPending.BecomesClaimable` | bridge/src/merged.rs:249-287 | Only the arrival of a key that was out of the store makes it claimable |
| `MergedPending.OneWinPerResidency` | bridge/src/merged.rs:280-282 | After any claim of a key, a later claim wins only if the key left the store and was inserted again in between |
| `MergedPending.FirstClaimWins` | bridge/src/merged.rs:280-282 | The first claim of a key after its arrival wins if the key is still in the store |
| `MergedJobs.ParentCache.FetchKaspaParent` | bridge/src/kaspaapi.rs:650-681 | The cached parent is returned exactly for an unforced request with the same key and pay address before the TTL; every other request returns and caches the fresh reply, or nothing without one; whatever is returned commits to the requested key and pays the requested payee |
| `MergedJobs.FetchOk` | bridge/src/kaspaapi.rs:650-681 | The same for the fetch as a function, over every cache content the invariant allows |
| `MergedJobs.KeyIsFresh` | bridge/src/kaspaapi.rs:1187-1194 | The lane tag with its generation makes every key about to be stored a new one |
| `MergedJobs.StartFullStep` | bridge/src/client_handler.rs:491-509 | Taking the job-build lock and the next generation keeps the invariant |
| `MergedJobs.CutStep` | bridge/src/kaspaapi.rs:1225-1239 | Cutting a template and deciding its payee keeps the invariant |
| `MergedJobs.FetchFullStep` | bridge/src/kaspaapi.rs:1240-1254 | Fetching the parent of a full template, or falling back to a synthetic one, keeps the invariant |
| `MergedJobs.StoreStep` | bridge/src/kaspaapi.rs:1255 | Storing the pending work keeps the invariant for every other task, including refreshes of evicted keys |
| `MergedJobs.PublishFullStep` | bridge/src/client_handler.rs:609-612 | Publishing a full job keeps the order of generations |
| `MergedJobs.LookUpStep` | bridge/src/client_handler.rs:1151 | The flag lookup of a refresh keeps the invariant, with or without forwarding |
| `MergedJobs.ReadPayoutStep` | bridge/src/client_handler.rs:1151 | So does reading the connection's payout, whatever changed in between |
| `MergedJobs.FetchRefreshStep` | bridge/src/kaspaapi.rs:683-694 | A forced fetch gives a parent for the expected key |
| `MergedJobs.PublishRefreshStep` | bridge/src/client_handler.rs:1160-1178 | Publishing a refresh under the lock check keeps the invariant |
| `MergedJobs.RunKeeps` | bridge/src/client_handler.rs:491-612 | In every interleaving of full tasks, refreshes, claims and payout changes over any connections, cache, pending work, lanes, tasks and jobs stay consistent |
| `MergedJobs.RefreshKeepsKey` | bridge/src/client_handler.rs:1128-1178 | In every interleaving a parent-only job commits to the key of the job before it, so keys change at full-template jobs only |
| `MergedJobs.KeysNeverReturn` | bridge/src/client_handler.rs:833-929 | Once a connection has moved on from a key it never publishes it again |
| `MergedJobs.KeysArePrivate` | bridge/src/stratum_context.rs:164-172 | No two connections ever publish the same key |
| `JobOrigins.PayeeWasDecided` | bridge/src/kaspaapi.rs:1225-1239 | In every run the payee recorded for a key goes back to a named task: the payout of the connection when that task started, or the pool if its template was cut in a fee minute |
| `JobOrigins.RefreshHasOrigin` | bridge/src/client_handler.rs:1128-1178 | In every run a published parent-only job goes back to named steps of one refresh: it read that payout of the connection, found its key resident and unsolved, and fetched exactly this parent by a forced request before it published |
| `MergedJobs.FullMatchesFlag` | bridge/src/kaspaapi.rs:1225-1256 | While its key is resident, a full template's Kaspa parent pays the pool if the recorded flag says so and otherwise the payout of the connection at the cut |
| `MergedJobs.RefreshMatchesFlagIff` | bridge/src/client_handler.rs:1148-1152 | In every run, a refreshed parent of a resident key matches the flag if and only if, for a lane cut for the pool, the lookup is forwarded or the payout the refresh read is absent or the pool's; and for a lane cut for the miner, what that payout resolves to is the payout at the cut |
| `MergedJobs.SamePayoutMatchesIff` | bridge/src/client_handler.rs:1148-1152 | If the payout the refresh read is the one at the cut, it matches if and only if the lookup is forwarded, the lane was not cut for the pool, there is no payout, or it is the pool's |
| `MergedJobs.RefreshCanContradictFlag` | bridge/src/share_handler.rs:2056-2058 | Without forwarding, for every capacity and every payout other than the pool's, a run in which the refresh of a fee-minute template contradicts the flag |
| `MergedJobs.ChangedPayoutContradictsFlag` | bridge/src/default_client.rs:337 | With or without forwarding, a run in which the refresh of a template cut for the miner contradicts the flag because the payout was cleared or replaced |
| `MergedJobs.StoryIsRun` | bridge/src/client_handler.rs:1128-1178 | Both contradictions are runs of the system, for every capacity, address and later payout |
| `JobRing.AddStores` | bridge/src/mining_state.rs:56-81 | Publishing stores the new id and forgets exactly the id 300 before it |
| `JobRing.AddHolds` | bridge/src/mining_state.rs:56-81 | Publishing keeps the ring equal to the last 300 publications |
| `JobRing.MiningState.constructor` | bridge/src/mining_state.rs:39-53 | Nothing is published |
| `JobRing.MiningState.SetStratumDiff` | bridge/src/mining_state.rs:144-146 | Only later publications see the new difficulty |
| `JobRing.MiningState.AddJob` | bridge/src/mining_state.rs:56-81 | The job is publication number id, with the difficulty in force |
| `JobRing.MiningState.GetJob` | bridge/src/mining_state.rs:87-95 | Exactly the job of that id for the last 300 ids and nothing for any other id |
| `JobRing.MiningState.GetJobDiff` | bridge/src/mining_state.rs:171-177 | Exactly the difficulty set when that job was published |
| `JobRing.MiningState.LatestJob` | bridge/src/mining_state.rs:165-169 | The last publication and its id |
| `SubmitGuard.DropStaleKeepsValid` | bridge/src/kaspaapi.rs:151-163 | Dropping stale hashes keeps every stored hash in the queue |
| `SubmitGuard.TrimReachesCap` | bridge/src/kaspaapi.rs:165-171 | The over-cap loop never meets an empty queue and ends within the cap |
| `SubmitGuard.BlockSubmitGuard.constructor` | bridge/src/kaspaapi.rs:146-148 | An empty guard |
| `SubmitGuard.BlockSubmitGuard.Prune` | bridge/src/kaspaapi.rs:150-172 | Both loops compute the pruning of the specification |
| `SubmitGuard.BlockSubmitGuard.TryMark` | bridge/src/kaspaapi.rs:174-182 | Marks exactly when the pruned map lacks the hash |
| `SubmitGuard.BlockSubmitGuard.Remove` | bridge/src/kaspaapi.rs:184-187 | Drops the hash from the map and leaves the queue |
| `SubmitGuard.ReplayValid` | bridge/src/kaspaapi.rs:138-188 | After every history stored hashes are in the queue and at most max + 1 entries remain |
| `SubmitGuard.MarksAreSeparated` | bridge/src/kaspaapi.rs:138-188 | Two successful marks of one hash are separated by its removal, by more than the TTL on the clock, or by an over-cap eviction |
| `SubmitGuard.MarkOnlyIsSlidingWindow` | bridge/src/kaspaapi.rs:150-182 | Without remove, a mark succeeds exactly when the hash is not among the newest max successful marks whose age on the clock is at most the TTL |
| `SubmitGuard.RemovedMarksAgain` | bridge/src/kaspaapi.rs:174-187 | After a removal the next mark of that hash succeeds, whatever calls for other hashes lie in between |
| `SubmitGuard.ExpiredRemarkable` | bridge/src/kaspaapi.rs:150-187 | After every history, on any clock and at any fill of the map, an expired hash can be marked again if and only if no live hash is queued ahead of it |
| `SubmitGuard.ExpiredCanStayBlocked` | bridge/src/kaspaapi.rs:184-187 | A run with remove in which an expired hash is refused |
| `AntiAbuse.LevelIsLeastAllowance` | bridge/src/anti_abuse.rs:234-246 | The refilled level is the least allowance of all windows that end at the call, and some window attains it |
| `AntiAbuse.PaidIffEveryWindowAllows` | bridge/src/anti_abuse.rs:234-246 | A frame is paid for if and only if every window ending at it stays within burst plus earnings |
| `AntiAbuse.AcceptedIffEveryWindowAllows` | bridge/src/anti_abuse.rs:227-246 | The same for the bucket of an entry, for any order of times |
| `AntiAbuse.RateBound` | bridge/src/anti_abuse.rs:227-246 | At nondecreasing times the frames accepted between any two calls number at most burst plus rate times elapsed time |
| `AntiAbuse.BackwardsClockBreaksBound` | bridge/src/anti_abuse.rs:234-246 | Wherever the clock steps back between two frames, some valid configuration breaks the wall-clock bound for exactly that window |
| `AntiAbuse.RateBoundIffNondecreasing` | bridge/src/anti_abuse.rs:227-246 | For every sequence of frame times, the wall-clock bound holds for all valid configurations and all windows if and only if the times are nondecreasing |
| `AntiAbuse.AntiAbuseGuard.constructor` | bridge/src/anti_abuse.rs:259-261 | No IP is tracked |
| `AntiAbuse.AntiAbuseGuard.TryAcceptConnection` | bridge/src/anti_abuse.rs:294-310 | Verdict and table of the specification |
| `AntiAbuse.AntiAbuseGuard.ConsumeFrame` | bridge/src/anti_abuse.rs:312-318 | An untracked IP is refused; a tracked one is charged |
| `AntiAbuse.AntiAbuseGuard.DropTicket` | bridge/src/anti_abuse.rs:323-331 | The last ticket of an IP removes its entry |
| `AntiAbuse.ReplayConsistent` | bridge/src/anti_abuse.rs:294-331 | In every run each count equals the live tickets within its cap, tracked IPs are those with a ticket, and their number stays within the maximum |
| `AntiAbuse.VerdictMeaning` | bridge/src/anti_abuse.rs:294-310 | A ticket exactly when the IP is below its cap and, if new, the table has room |
| `AntiAbuse.TrackedBucket` | bridge/src/anti_abuse.rs:312-318 | While an IP stays tracked its bucket depends on its own frames only |
| `AntiAbuse.GuardAcceptsIffAllowed` | bridge/src/anti_abuse.rs:312-318 | Hence in every run its next frame is accepted if and only if every window of its own frames allows it |
| `AntiAbuse.UntrackedRefused` | bridge/src/anti_abuse.rs:312-318 | In every run a frame from an IP without a live ticket is refused and changes nothing |
| `TierBreaker.KasplexTierClassifier.constructor` | accountant/src/tier_kasplex.rs:229-247 | Empty cache, closed breaker |
| `TierBreaker.KasplexTierClassifier.Classify` | accountant/src/tier_kasplex.rs:365-425 | Cache, breaker and upstream calls in the order of the specification |
| `TierBreaker.FailurePaid` | accountant/src/tier_kasplex.rs:182-214 | Every failed attempt beyond the threshold is paid for by a cooldown |
| `TierBreaker.AttemptsBound` | accountant/src/tier_kasplex.rs:378-414 | In every success-free sequential run the upstream attempts between two calls number at most max(threshold, 1) plus one per cooldown |
| `TierBreaker.CacheSourced` | accountant/src/tier_kasplex.rs:259-277 | Every cache entry stems from an earlier upstream answer for that wallet |
| `TierBreaker.EliteNeedsEvidence` | accountant/src/tier_kasplex.rs:365-425 | Elite is answered only on an upstream yes for that wallet, at this call or within the TTL |
| `TierBreaker.ClassifyExactly` | accountant/src/tier_kasplex.rs:365-425 | In every sequential run, the exact answer of each call and whether it goes upstream, from the replies of the calls before it: remembered answers younger than the TTL, consecutive failures against the threshold, and the time since the breaker opened |
| `ClaimStore.ChallengeStore.constructor` | api/src/claim.rs:75-80 | No challenge is stored |
| `ClaimStore.ChallengeStore.IssueAt` | api/src/claim.rs:95-105 | The address's challenge becomes this nonce, valid for the TTL |
| `ClaimStore.ChallengeStore.RedeemAt` | api/src/claim.rs:110-132 | The challenge is consumed whatever the outcome |
| `ClaimStore.ChallengeStore.SweepExpired` | api/src/claim.rs:135-138 | Exactly the unexpired challenges stay |
| `ClaimStore.StoreIsOpen` | api/src/claim.rs:95-138 | The store differs from the latest unredeemed issue only where that one has expired |
| `ClaimStore.RedeemJudgesLatestIssue` | api/src/claim.rs:95-132 | A redeem is judged by the latest issue for its address with no redeem since |
| `ClaimStore.RedeemAnswersExactly` | api/src/claim.rs:95-132 | On a nondecreasing clock a redeem succeeds with a nonce, is a bad signature, or finds no challenge, each if and only if the calls before it say so: an issue younger than the TTL with no later issue or redeem for the address, whose nonce verifies, one whose nonce does not, or no such issue |
| `ClaimStore.SuccessHasIssue` | api/src/claim.rs:95-132 | A successful redeem names that issue |
| `ClaimStore.SweepsChangeNoResult` | api/src/claim.rs:135-138 | Adding or removing expiry sweeps anywhere changes no redeem result |
| `ClaimStore.SuccessesWithinIssues` | api/src/claim.rs:95-132 | On any clock an address redeems at most as often as challenges were issued for it |
| `JobEncoding.GenerateLargeJobParams` | bridge/src/hasher.rs:367-390 | The BzMiner loop yields the same 80 characters as the IceRiver form of the same hash and timestamp |
| `JobEncoding.SwappedTimestamp` | bridge/src/hasher.rs:367-390 | A byte-swapped timestamp printed as a word shows its little-endian bytes |
| `JobEncoding.WordsHexIsEncode` | bridge/src/hasher.rs:367-390 | Big-endian words printed at full width are the hex of the bytes |
| `JobEncoding.JobStringInjective` | bridge/src/hasher.rs:253-390 | Two jobs with the same 80 characters are the same job |
| `JobEncoding.JobStringDigits` | bridge/src/hasher.rs:253-390 | Character by character: two lower-case hex digits per hash byte, then the timestamp bytes from the least significant on |
| `JobEncoding.LittleEndian` | bridge/src/hasher.rs:253-267 | The byte order of both word conversions, byte by byte and in both directions |
| `JobEncoding.GenerateJobHeader` | bridge/src/hasher.rs:253-267 | The little-endian words of the complete chunks, four for a 32-byte hash |
| `JobEncoding.HeaderWords` | bridge/src/hasher.rs:253-267 | Byte b of word i is byte 8i + b of the hash |
| `JobEncoding.ParseNotify` | bridge/examples/cpu_stratum_miner.rs:260-278 | The decoder's loop computes the meaning of the parameter list, malformed lists included |
| `JobEncoding.NotifyMeans` | bridge/examples/cpu_stratum_miner.rs:260-278 | A list decodes if and only if it holds a string, four or more items of which the first four are 64-bit numbers, and a 64-bit number; the job is then the id, the bytes of the four numbers from the least significant on, and the timestamp |
| `JobEncoding.LegacyRoundTrip` | bridge/examples/cpu_stratum_miner.rs:260-278 | The miner restores exactly the job the bridge encoded |
| `Hex.PaddedIsEncode` | bridge/src/hasher.rs:367-390 | Zero-padded hex of a big-endian number is the hex of its bytes |
| `Hex.EncodeInjective` | bridge/src/hasher.rs:253-390 | Byte hex loses nothing |
| `Hex.EncodeAt` | bridge/src/hasher.rs:253-390 | Each byte is its two lower-case hex digits, high one first |
| `Hex.PaddedInjective` | bridge/src/client_handler.rs:61-69 | Fixed-width hex of numbers that fit loses nothing |
| `Hex.PaddedAt` | bridge/src/client_handler.rs:61-69 | Each character is the hex digit of its place value |
| `Extranonce.PrefixCounters.constructor` | bridge/src/client_handler.rs:45-53 | All counters start at zero |
| `Extranonce.PrefixCounters.NextPrefix` | bridge/src/client_handler.rs:61-69 | A width below 1 counts as 1 and above 3 as 3; the prefix is that width's counter value at exactly two digits per byte; only that counter moves, and it wraps |
| `Extranonce.CounterAdvance` | bridge/src/client_handler.rs:61-69 | Whatever other widths are interleaved, a counter is its earlier value plus what was handed out at its width, modulo 256^w |
| `Extranonce.PrefixesEqualIff` | bridge/src/client_handler.rs:61-69 | Two assignments of one width get the same prefix if and only if the number handed out between them is a multiple of 256^w |
| `Extranonce.PrefixesDisjoint` | bridge/src/client_handler.rs:52-69 | Any 256^w consecutive prefixes of width w are distinct, and so are all nonces formed from them |
| `PayoutHistory.StableUnique` | pool-redactor.py:375 | A sorted list that keeps arrival order at equal timestamps is the stable sort |
| `PayoutHistory.TrimBeforeInsert` | pool-redactor.py:375-376 | Cutting before an insert loses nothing that would survive cutting after it |
| `PayoutHistory.KeepsNewest` | pool-redactor.py:375-376 | Cutting a sorted list drops only entries no newer than every one it keeps |
| `PayoutHistory.Redactor.constructor` | pool-redactor.py:231-236 | The loaded lists |
| `PayoutHistory.Redactor.PayoutsRecord` | pool-redactor.py:353-378 | One batch, block by block, as in the specification |
| `PayoutHistory.Redactor.ShowHistory` | pool-redactor.py:397-411 | The newest entries first, legacy rows priced at the live reward |
| `PayoutHistory.HistoryIsNewest` | pool-redactor.py:353-378 | After any deliveries, in any order and with repeats, a list is the newest 200 by timestamp and arrival of all first deliveries: cutting per block equals cutting once |
| `PayoutHistory.HistorySorted` | pool-redactor.py:353-378 | A list that recorded anything is sorted and within the cap |
| `PayoutHistory.ShownIsNewest` | pool-redactor.py:397-411 | For every requested limit a request shows the newest entries of the newest 200 of everything delivered, newest first, a limit of zero or less leaving out that many of the oldest; each with its own amount or, without one, the live reward |
| `FeeModel.ComputeAllocation` | accountant/src/config.rs:219-263 | Succeeds exactly on a nonnegative gross whose topline product fits; fee, rebate and payout are nonnegative, add up to the gross, and are the rounded-down shares; the reported rates are those of the tier |
| `RewardSplit.ProRateIsFloor` | accountant/src/allocation.rs:450-469 | With exact weights the clamps never bite: a share is the reward times the part of the weight, rounded down |
| `RewardSplit.TotalWeight` | accountant/src/allocation.rs:238 | The sum of the weights |
| `RewardSplit.RoundedShares` | accountant/src/allocation.rs:244-252 | The rounded shares, their sum, and where the smallest wallet id is |
| `RewardSplit.ResidueBound` | accountant/src/allocation.rs:244-249 | The truncation residue lies between 0 and n - 1 |
| `RewardSplit.AnyRoundingConserves` | accountant/src/allocation.rs:249-257 | For any per-wallet rounding, the signed residue makes the grosses total the reward |
| `RewardSplit.SplitReward` | accountant/src/allocation.rs:238-257 | The grosses total the reward, none is negative, and each is the wallet's gross of the specification |
| `RewardSplit.GrossesTotal` | accountant/src/allocation.rs:238-257 | The grosses of the specification total exactly the reward |
| `RewardSplit.OrderIndependent` | accountant/src/allocation.rs:238-257 | A wallet's gross does not depend on row order |
| `ShareWindows.Aggregate` | accountant/src/window.rs:103-150 | Exactly the wallets with a share in the half-open range, each with its weight, count and first credit |
| `ShareWindows.FirstCreditIsEarliest` | accountant/src/window.rs:111-136 | A row's first credit is the earliest credit time of the wallet's shares in the range |
| `ShareWindows.WindowAggregator.CloseWindow` | accountant/src/window.rs:88-179 | Refuses an empty or inverted range; otherwise upserts one row per contributor, keeps first start times, leaves every other row, and reports the number of contributors and the totals of the range's rows |
| `ShareWindows.WindowAggregator.Upsert` | accountant/src/window.rs:111-136 | The aggregated rows are inserted or refreshed, nothing else changes |
| `ShareWindows.WindowAggregator.ListForWindow` | crates/katpool-db/src/repo/share_window.rs:100-117 | Every row of the range once, in any order, with its weight, and the shares they count |
| `ShareWindows.ClosedRangeTotal` | accountant/src/window.rs:88-179 | From any table, even after shares were removed by hand, the rows a closing leaves for its range weigh the range's shares plus exactly the unchanged rows whose wallet has no share in it |
| `ShareWindows.NoStaleRows` | accountant/src/window.rs:88-179 | If every wallet of an earlier closing still has a share, the rows weigh exactly the shares |
| `ShareWindows.EveryListingWeighsItsShares` | accountant/src/window.rs:88-179 | In every history of inserted shares and closings, however often a range is closed again, a listing of a closed range is exactly its contributors at the last closing and totals exactly their difficulty |
| `ShareWindows.ClosingWeighsItsShares` | accountant/src/window.rs:138-163 | A closing reports the difficulty of all shares in its range |
| `ShareWindows.CloseKeepsRolledUp` | accountant/src/window.rs:109-136 | Closing a range again refreshes every row it has, because shares are never removed |
| `ShareWindows.WindowOfShares` | accountant/src/allocation.rs:230-241 | Window rows taken from shares total the range's difficulty, which is positive unless there are no rows, and there are none exactly when no share fell into the range |
| `ShareWindows.AdjacentWindows` | accountant/src/window.rs:88-179 | Two adjacent windows weigh what one window over both weighs |
| `RewardLedger.BuildRows` | accountant/src/allocation.rs:274-282 | The loop computes one fee breakdown per wallet in order, or fails as a whole |
| `RewardLedger.PlanReward` | accountant/src/allocation.rs:208-298 | The compute phase of the specification; a plan with rows totals exactly the reward with one balanced row per wallet |
| `RewardLedger.PlanOutcome` | accountant/src/allocation.rs:215-298 | Retention exactly on an empty window; refusal exactly on a negative reward, an invalid total weight or a failing breakdown |
| `RewardLedger.PlanIsGood` | accountant/src/allocation.rs:238-298 | A plan with rows has one nonnegative balanced row per wallet, each the breakdown of its gross, and totals the reward |
| `RewardLedger.Database.CommitRows` | accountant/src/allocation.rs:300-338 | The locked commit of the specification and its outcome |
| `RewardLedger.CommitSound` | accountant/src/allocation.rs:300-338 | A commit keeps the books sound, whatever was committed since the plan was computed |
| `RewardLedger.EveryRunIsSound` | accountant/src/allocation.rs:208-408 | In every interleaving of arriving shares, closings and sweeps, a reward commits at most once, unallocated rewards have no rows, allocated ones are booked to exactly their amount or wholly retained, rows are unique per reward and wallet, accrued rebates equal the rebate rows, and a reward's rows are those of the plan that allocated it |
| `RewardLedger.AllocatedByItsWindow` | accountant/src/allocation.rs:223-298 | An allocated reward's rows are the fee breakdowns of the grosses of the share window an earlier computation read after a closing, and it is retained if and only if no share lay below the reward's DAA score and within the span of it |
| `RewardLedger.AllocatedFromShares` | accountant/src/maturity.rs:436-447 | That window ends at the reward's DAA score and starts one span before it, or at zero; it is exactly the wallets with a share below the score and within the span of it when the range was last closed, each weighing the difficulty of those shares |
| `RewardLedger.WindowWeighsSpan` | accountant/src/maturity.rs:440-442 | A wallet's weight in the window of a block is the difficulty of its shares below the block and within the span of it |
| `RewardLedger.GrossIsProRata` | accountant/src/allocation.rs:244-257 | The gross of every wallet but the smallest id is its rounded-down part of the reward by difficulty of shares |
| `RewardLedger.AllocatedIsFinal` | accountant/src/maturity.rs:414-447 | Once allocated, no replay, race or later plan changes a reward's rows, amount or audit entry |
| `RewardScan.Ingestible` | accountant/src/shielded_scan.rs:209-212 | The longest prefix of a page at or below the safe score |
| `RewardScan.ExtractTreasuryRewards` | accountant/src/shielded_scan.rs:202-237 | A reward is extracted if and only if it is an output of a block of the safe prefix, to a treasury script, with a value below 2^63 at an index below 2^32, under its own transaction, index, value and DAA score; in block order, with the last ingested hash |
| `RewardScan.RewardsArePayments` | accountant/src/shielded_scan.rs:213-233 | The same for the rewards of any prefix of the chain |
| `RewardScan.RewardsSound` | accountant/src/shielded_scan.rs:213-233 | Every extracted reward is an eligible output of an ingested block |
| `RewardScan.RewardsComplete` | accountant/src/shielded_scan.rs:213-233 | Every eligible output of an ingested block is extracted |
| `RewardScan.SafeMeans` | accountant/src/shielded_scan.rs:158-162 | A block above DAA 0 is safe to ingest if and only if its score plus the maturity plus 50 is at most the virtual score |
| `RewardScan.MatureMeans` | accountant/src/maturity.rs:489-500 | The gate passes if and only if the score plus the maturity is at most the virtual score |
| `RewardScan.IngestedIsMature` | accountant/src/shielded_scan.rs:158-162 | What the scanner ingests passes the tracker's gate if and only if the block is above DAA 0 or the tracker's score reaches the maturity |
| `RewardScan.MarginIsExact` | accountant/src/shielded_scan.rs:158-162 | With a positive safe score, everything ingestible above DAA 0 passes the tracker's gate if and only if the scanner's score is at most 50 above the tracker's |
| `RewardScan.ShieldedRewardScanner.constructor` | accountant/src/shielded_scan.rs:125-154 | Settings and stored cursor |
| `RewardScan.ShieldedRewardScanner.HandleReply` | accountant/src/shielded_scan.rs:272-310 | One turn of the page loop, as in the specification |
| `RewardScan.ShieldedRewardScanner.GetPoolCoinbaseUtxos` | accountant/src/shielded_scan.rs:259-319 | The loop over at most 50 pages computes the scan of the specification, with its stored cursor and its error return |
| `RewardScan.ScanIsComplete` | accountant/src/shielded_scan.rs:259-319 | On replies that serve one chain in order, however it is cut into pages, a scan has collected exactly the payments of the blocks it passed and stored the last of them, advances with every page, and stops by itself only at the end of the chain or at the first block above the safe score |
| `RewardScan.ScanInterrupted` | accountant/src/shielded_scan.rs:273-287 | A failed request aborts and changes nothing else; a reorganised cursor moves to the pruning point, keeps what was collected and ends the scan |
| `RewardRuns.Tracker.constructor` | accountant/src/maturity.rs:210-225 | Nothing is recorded |
| `RewardRuns.Tracker.RecordRewards` | accountant/src/maturity.rs:365-410 | The recording loop with its gate, floor and failed inserts |
| `RewardRuns.PageEffect` | accountant/src/shielded_scan.rs:272-310 | A page moves the stored cursor over exactly the blocks whose rewards it adds |
| `RewardRuns.EveryRunAccounts` | accountant/src/maturity.rs:242-261 | In every run of chain changes, pages, resets, failures and recordings, each eligible output the cursor has passed is recorded, in flight, below the floor, or was given up by a drop or a reset |
| `RewardRuns.CompletedSweepsRecordAll` | accountant/src/maturity.rs:353-410 | In runs of completed sweeps nothing handed over fails the maturity gate, and between sweeps every eligible output the cursor has passed is recorded or below the floor |
| `RewardRuns.LosslessIffGivenUpRecovered` | accountant/src/maturity.rs:353-410 | At every point of every run nothing passed is missing if and only if every passed output ever given up, by an abort, a failed insert, a failed gate or a reset, is recorded, below the floor or in flight again |
| `RewardRuns.AbortLosesExactly` | accountant/src/shielded_scan.rs:277 | At any point of any run, the books are complete after an abort if and only if every passed output the sweep holds, or an earlier step gave up, is settled |
| `RewardRuns.ResetLosesExactly` | accountant/src/shielded_scan.rs:279-287 | At any point of any scan, everything passed is safe after a reset if and only if no cursor was ever stored or every output up to the pruning point that is jumped over now or was given up before is safe |
| `RewardRuns.LossyRun` | accountant/src/shielded_scan.rs:298 | A run in which a stored cursor and a failed request lose a reward |
| `RewardRuns.SilentLoss` | accountant/src/maturity.rs:366-372 | A run without any failure in which a reward the scanner ingested fails the tracker's gate behind the stored cursor and is lost |
| `RewardRuns.RecordedAsPaid` | accountant/src/maturity.rs:390-397 | In every run a recorded reward is an output of a chain block to a treasury script, under its own amount and DAA score |
| `RewardRuns.RecordedWhenDue` | accountant/src/maturity.rs:365-410 | In every run a recorded reward is at or above the floor and its score plus the maturity is at most the chain's score |
| `RewardRuns.RecordedForGood` | accountant/src/maturity.rs:390-397 | A recorded reward is never replaced, however often its block is scanned |

## Left out

- gRPC, TCP, HTTP, Prometheus and Postgres plumbing: the node is a source of replies, the database is maps with atomic transactions, clocks and randomness are parameters.
- kHeavyHash, header hashing, address encoding and the consensus side of the aux proof: uninterpreted functions with only the laws that are used (`AuxPow.Consensus.Lawful`, `MergedJobs.Lawful`, `RewardRuns.TxidsCommit`).
- Floating point: token buckets and weights are exact reals. `RewardSplit.AnyRoundingConserves` covers conservation for any rounding, the residue bound is for exact weights.
- Wrap-around of 64-bit job, generation and session counters, and 64-bit saturation of times.
- JobRing.MiningState.GetJobDiff: stated for calls with no concurrent publication, because the source drops one lock before it takes the next.
- Share validation, variable difficulty, the non-merged mode and the per-connection pacing of refreshes: refreshes may happen at any time in the model.
- The retry loop around a template request: a template either arrives or the build is given up.
- Hand-made changes to the share table: `ShareWindows.Follows` inserts shares and nothing else, as the repository does.
- Block colour tracking in the sweep, vesting, the payout engines and their audit text: short folds or display.
- Loading and saving of the payout history file, and the float parsing of timestamps.
- Configuration parsing, dashboards, log output and the canary script.
