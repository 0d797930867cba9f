# Verified models of the brain repository

A Dafny model of the small cores of this repository that carry a real guarantee: the session-renewal
protocol, the token caches, the cross-tenant admin reads, the statistics behind the evaluation gates,
and a handful of loops and state machines whose correctness is not visible in any one body. `dafny
verify dfyconfig.toml` checks everything.

The modules follow the source, one file per component.

* **Sessions.** `TokenRefresh` puts the server's rotation memory (a single-flight map swept after
  60 s) between any number of requests and a provider that rotates refresh tokens (section 6 of
  RFC 6749) and revokes a family when a rotated token comes back (section 4.14.2 of RFC 9700).
  Requests, exchanges, settlements and clock ticks interleave freely. `SessionRenewal` adds the
  guards that set or withhold the new cookies. `BrowserTabs` adds the cookie jar of a browser with
  any number of requests under way, whose responses arrive in any order, and whose requests may be
  handled with a cookie the jar no longer holds.
* **Token caches.** `TokenLane` is one keyed single-flight cache, `BrainApi` two of them under any
  interleaving of backend calls at their `await` points, with token exchange (section 2 of RFC 8693),
  eviction at 500 entries and invalidation on a 401.
* **Admin reads.** `AdminReads` merges each tenant's newest rows into one page and builds the
  overview; `AuditPage` adds the counters of the audit page; `CostBreakdown` rolls token counters into cost buckets (mutable objects reached
  through two maps).
* **Evaluation.** `McNemar`, `Calibration`, `HnswParity`, `BaselineDiff`, `DecisionGate`,
  `NuggetPool` and `NuggetScores`, over exact real numbers.
* **Loops and machines.** `CanonicalJson`, `StructureKey`, `ForceLayout`, `Backfill`, `Loader`,
  `ProxyPath`.

`Collections`, `Sorting` and `Reals` hold the insertion-ordered dictionary, the stable descending
sort and a few facts of arithmetic that the others share.

Code that runs step by step is modelled step by step: classes with the fields the source updates,
loops with invariants, each proved against a specification function about which the theorems are
stated. Code whose difficulty is interleaving is a state machine whose steps are the stretches of
code between two `await`s, and the theorems hold of every run.

## What is not true

Several promises hold only under a condition. Each is stated as an exact condition, for all inputs or
runs, and where the condition does not already name a failing input, a lemma shows one.

* One exchange per refresh token (`TokenRefresh`): exactly when no request arrives after the window
  of an exchange that is still running or has consumed the token, and no such exchange lost its
  answer. The comment at brain-landing/lib/token-refresh.ts:62-65 has no such condition. A family is
  lost exactly when one of its tokens was presented that way and the provider was later handed it
  again after consuming it (`RevokedExactlyWhen`).
* The browser's refresh cookie is the live one (`SessionRenewal`): exactly when no request rotated
  it and then failed its guard, or lost the provider's answer. A user without the admin role whose
  session runs out on an admin page is such a case (`GuardDropsAPair`).
* `withAdmin` answers 403 to a session without the admin role (the comment at
  brain-landing/lib/server-auth.ts:193-196): it answers 401, as it does to no session at all
  (`RunsExactlyWhen`).
* The browser's cookie is live with requests that overlap (`BrowserTabs`): exactly when the pair
  that reached the jar last is the newest one. A response that is overtaken sets the jar back
  (`OldAnswerOverwrites`); asking again inside the window recovers it, and asking later costs the
  session.
* The calibration map for an empty gold set is the identity (src/ai/calibration/isotonic.ts:53 and
  133-135): exactly for confidences of 1; it answers 1 to everything (`BootstrapExactlyWhen`).
* A metric never falls by more than the allowed drops over a chain of green diffs (`BaselineDiff`):
  exactly when no report in between has a null for it. Two promises of the header of
  scripts/eval-baseline-diff.ts are not kept either. memory-lifecycle-correctness need not equal 1.0
  in the current run (`HalfIsGreen`): it must exactly when it did in the baseline
  (`StaysPerfectExactlyWhen`). And F1, precision and recall are not held to 0.03 under any name
  (`BareNamesGetFive`): `ThreePointsExactlyWhen` says which names are.
* `sortKeysDeep` preserves its input (`CanonicalJson`): exactly when no object has a member named
  `__proto__`.
* The final count of judged rows (`NuggetPool`): exactly when no append failed (a failed append
  counts as a failure but keeps its row in memory) and there was a worker to do the work;
  `AppendFailureBreaksTheCount` is a run where it does not hold.
* The audit totals by source and by operation (`AuditPage`): exactly when no row has a name that
  every JavaScript object inherits, since the totals are plain objects. The sources are the audited
  tables (src/audit/changefeed-drain.service.ts) and the operations a fixed set
  (src/db/changefeed-row.ts:63), so no such row is written in practice.
* The loading indicator (`Loader`): exactly when no render goes back to the very identity recorded
  as settled.
* Query strings never change a path's verdict (`ProxyPath`): exactly when no line terminator follows
  the first question mark. Through the app such a path never arrives: both routes pass the segments
  of a URL's pathname, which holds no raw question mark and no line break. And a deny entry such as
  `/forget` does not rule out the path `forget` itself (`FirstSegmentNotDenied`), although the
  comment at brain-landing/lib/bff-proxy.ts:39-41 reads as if it did.

## Model

| member | source | states |
|---|---|---|
| TokenRefresh.RotationMemory.RefreshAccessToken | brain-landing/lib/token-refresh.ts:67-75 | the sweep drops exactly the entries older than the window (finished or not); a remembered token is answered by its own promise, any other starts one exchange and is remembered from now |
| TokenRefresh.RotationMemory.OnSettled | brain-landing/lib/token-refresh.ts:78-80 | a null answer is forgotten, anything else stays for the window |
| TokenRefresh.PresentKeeps | brain-landing/lib/token-refresh.ts:67-82 | a request that is not unprotected keeps the protocol invariant: every open exchange of a token is the one the memory points to |
| TokenRefresh.NoReplay | brain-landing/lib/token-refresh.ts:39-51 | under the invariant the provider is never handed a token it has rotated |
| TokenRefresh.StepKeeps | brain-landing/lib/token-refresh.ts:67-111 | every step of requests, provider, settlements and clock keeps the invariant |
| TokenRefresh.SingleExchangeExactlyWhen | brain-landing/lib/token-refresh.ts:62-82 | over every run: no token ever has two exchanges that run or consumed it if and only if no request arrived unprotected |
| TokenRefresh.FamiliesSurvive | brain-landing/lib/token-refresh.ts:39-51 | in every such run no family is revoked, and no exchange still to be handled replays a rotated token |
| TokenRefresh.SharedAnswers | brain-landing/lib/token-refresh.ts:62-75 | in every such run, requests sharing an old token that were answered with a rotation were answered by the same one, and a request inside the window of an exchange that came to something awaits that very exchange |
| TokenRefresh.UnprotectedReplayRevokes | brain-landing/lib/token-refresh.ts:39-51 | conversely, presenting a consumed token unprotected always ends in the revocation of its family |
| TokenRefresh.RevokedExactlyWhen | brain-landing/lib/token-refresh.ts:39-82 | over every run, protected or not: a family is revoked if and only if one of its tokens was presented unprotected and the provider was later handed that token after it had consumed it |
| TokenRefresh.SlowExchangeRevokes | brain-landing/lib/token-refresh.ts:69-71 | a run in which an exchange slower than the window costs the family, because the sweep evicts unfinished entries |
| TokenRefresh.LostAnswerRevokes | brain-landing/lib/token-refresh.ts:76-80 | a run in which a rotation whose answer is lost costs the family, because it is forgotten like a refusal |
| SessionRenewal.CookieJar.SetSessionCookies | brain-landing/lib/token-refresh.ts:129-138 | the access cookie always changes, the refresh cookie only if the provider rotated |
| SessionRenewal.CookieJar.RenewSession | brain-landing/lib/token-refresh.ts:147-155 | the request's jar and the returned tokens, for a missing cookie, a failed exchange and a renewal |
| SessionRenewal.CookiesExactlyWhen | brain-landing/lib/server-auth.ts:62-75 | across the five guards, new cookies are set exactly when the request renewed and the renewed token passes that guard |
| SessionRenewal.RunsExactlyWhen | brain-landing/middleware.ts:85-105 | across the five guards and every branch: a handler runs with a session exactly when the request's own token is valid, or else a renewed one of a request that may renew, and is an admin's where the guard asks for it; everyone else is sent to log in at the edge, runs without a session under `withSession`, and is unauthorized otherwise |
| SessionRenewal.CookiesAfter | brain-landing/lib/token-refresh.ts:129-155 | the browser's cookies after a renewal that passed: the access token the provider minted, and its new refresh token if it rotated; the old pair in every other case |
| SessionRenewal.ServeExactly | brain-landing/lib/server-auth.ts:142-211 | one request keeps the browser's refresh cookie the family's one live token if and only if it does not drop a rotation |
| SessionRenewal.LiveExactlyWhen | brain-landing/middleware.ts:86-106 | over any number of requests, rotating provider or not, the cookie is live throughout if and only if no request dropped a rotation |
| SessionRenewal.WindowRecovers | brain-landing/middleware.ts:96-105 | a pair withheld by a guard is handed to the next request inside the window whose guard passes, and the cookie is live again |
| SessionRenewal.GuardDropsAPair | brain-landing/middleware.ts:96-102 | from a fresh login, an expired session of a user without the admin role on an admin page: the provider rotates, the guard refuses, and the cookie kept is a consumed one |
| BrowserTabs.EventKeeps | brain-landing/lib/token-refresh.ts:39-138 | requests with the jar's cookie, with an older one of the family or of another user, provider, settlements, clock and deliveries in any order keep the invariant: the family is a chain of tokens with one live tip, and the jar holds one of them |
| BrowserTabs.JarLiveExactlyWhen | brain-landing/lib/server-auth.ts:142-171 | over every run of overlapping requests that all came protected, late ones with an outdated cookie among them, the jar holds the family's live token if and only if the pair that reached it last is the newest the provider made |
| BrowserTabs.DeliveryExactlyWhen | brain-landing/lib/token-refresh.ts:129-138 | a response leaves the jar with the live token if and only if no later exchange of the family has rotated by the time it arrives |
| BrowserTabs.OldAnswerOverwrites | brain-landing/lib/token-refresh.ts:129-138 | a run from the login with every request protected, after which a delayed response replaces the live token by a consumed one |
| BrowserTabs.ProtectedExactlyWhen | brain-landing/lib/token-refresh.ts:49-75 | a request with a consumed cookie, from a jar that fell behind or sent before the jar changed, is joined to the exchange that consumed it if and only if that one began inside the window and was not lost |
| BrowserTabs.RetriesRecover | brain-landing/middleware.ts:96-105 | if the pairs missed were heard of and are inside the window, asking again at most as often as the jar is exchanges behind makes it live, all requests protected and the provider unchanged |
| BrowserTabs.LateTabRevokes | brain-landing/lib/token-refresh.ts:39-51 | any other request with a consumed cookie of the family revokes it, whatever the provider would have answered |
| TokenLane.TokenCache.GetToken | brain-landing/lib/brain-api.ts:116-127 | a live cached token, else the promise in flight, else one new fetch; and exactly what changes |
| TokenLane.TokenCache.AfterFetch | brain-landing/lib/brain-api.ts:207-217 | the starter's continuation evicts the oldest entry at the limit, stores the token on success, always leaves the in-flight map, and keeps the invariant |
| TokenLane.TokenCache.Invalidate | brain-landing/lib/brain-api.ts:408-413 | a 401 removes the key's entry and nothing else |
| TokenLane.ForgetIs | brain-landing/lib/brain-api.ts:408-413 | what a lookup of any key answers after that |
| TokenLane.OneOutstandingPerKey | brain-landing/lib/brain-api.ts:121-134 | two outstanding fetches of one key are the same fetch |
| TokenLane.BeginKeeps | brain-landing/lib/brain-api.ts:191-206 | a token request keeps the cache invariant, and a hit was minted for that key and its recorded expiry is ahead |
| TokenLane.HeldIsHitExactlyWhen | brain-landing/lib/brain-api.ts:107-120 | a cached token is served from the cache if and only if the clock is more than 30 s before the end of the life the auth service gave it, of 5 minutes if it gave none |
| TokenLane.TokenCache.Answered | brain-landing/lib/brain-api.ts:98-113 | the end of a token fetch: a failure, or the token with its expiry |
| TokenLane.FinishIs | brain-landing/lib/brain-api.ts:207-217 | a fetch that succeeded leaves its own entry and all others, but for the oldest when 500 were held; one that failed leaves the cache as it was |
| TokenLane.FinishKeeps | brain-landing/lib/brain-api.ts:207-217 | finishing a fetch keeps the invariant and the bound, and no other fetch leaves flight |
| BrainApi.ExchangeKeyInjective | brain-landing/lib/brain-api.ts:149-152 | given an injective hexadecimal digest, two sessions or scopes never share a cache key |
| BrainApi.StepKeeps | brain-landing/lib/brain-api.ts:249-272 | every step of any number of interleaved calls keeps the invariant of both caches and all calls |
| BrainApi.SingleFlightAndBounded | brain-landing/lib/brain-api.ts:145-218 | in every run: at most one outstanding fetch per key in each cache, and at most 500 exchanged tokens |
| BrainApi.CachesServeLiveTokens | brain-landing/lib/brain-api.ts:107-120 | in every run: a token answered from a cache had come from the auth service before, had at least 30 s of the life it was given left, and had never been refused by the backend before |
| BrainApi.AnswerIsDated | brain-landing/lib/brain-api.ts:103-113 | an answer is recorded with the time on the clock and the lifetime it came with |
| BrainApi.FailureMeans | brain-landing/lib/brain-api.ts:249-272 | a failed exchange closes an end user's call with 403 exactly when it must keep its identity, and any other falls back to the service token |
| BrainApi.CredentialsFit | brain-landing/lib/brain-api.ts:337-413 | in every run: what reaches the backend is the call's own key or a token minted for exactly its scope and user, and an end-user call that must keep its identity never sends a client-credentials token |
| BrainApi.NoCallIsStuck | brain-landing/lib/brain-api.ts:116-217 | in every run, a call that is not over can go on by itself, or waits for an answer of the backend or of the auth service, or for the call that started the fetch it joined, which can go on |
| AdminReads.EffectiveLimit | src/admin/admin.service.ts:470 | the limit used is the one asked for when that is between 1 and the cap, the nearer end when it is not, and the default when none is asked for |
| AdminReads.ListNewest | src/admin/admin.service.ts:470-508 | for any limit asked for, the page is a newest-first list of min(limit, total) rows of the readable tenants, and no row left out is newer than one shown, by the stored time cut to whole milliseconds |
| AdminReads.SortAndSlice | src/admin/admin.service.ts:506-507 | sorting all fetched rows newest first and keeping the first limit gives the merge theorem's page |
| AdminReads.SameTimeKeepsOrder | src/admin/admin.service.ts:506-507 | rows of the same millisecond keep the order they were fetched in |
| Sorting.SortIsStable | src/admin/admin.service.ts:409-417 | a sort by any key keeps the order of equal elements |
| AdminReads.MergedIsNewest | src/admin/admin.service.ts:547-590 | the merge theorem behind the three lists: the newest of each tenant's newest are the newest of all |
| AdminReads.OmittedIsOlder | src/admin/admin.service.ts:503-507 | a row that is not shown, fetched or not, is no newer than any row shown |
| AuditPage.CountByTallies | src/admin/admin.service.ts:743-749 | a counter that is a true dictionary: each key's count is the number of rows that have it, and the counts add up to the rows fetched |
| AuditPage.PlainCountsExactlyWhen | src/admin/admin.service.ts:743-746 | a counter that is a plain object holds the true counts if and only if no row's key is one that objects inherit |
| AuditPage.ConstructorIsGarbled | src/admin/admin.service.ts:743-746 | a row whose source is named `constructor` leaves no number |
| AuditPage.HourlyIsExact | src/admin/admin.service.ts:755-758 | the chart: hours strictly ascending, each hour that occurs with its number of rows, the counts adding up to the rows fetched |
| AuditPage.ListAuditEvents | src/admin/admin.service.ts:711-760 | the audit page: the merge theorem for the events, the exact hourly chart over every fetched row, and the two totals exact if and only if no source (no operation) has an inherited name |
| AuditPage.TallyEvents | src/admin/admin.service.ts:741-750 | the nested loops gather every readable tenant's rows in order, with the three counters over them |
| AdminReads.SumSkipsUnreadable | src/admin/admin.service.ts:958-960 | the total of a count over the table equals the total over the tenants that answered: the -1 placeholders never leak in |
| AdminReads.BuildOverview | src/admin/admin.service.ts:211-268 | one line per tenant, the number of tenants, five totals over the tenants that answered, the health of the database, and the twenty newest dead letters and forgotten entities of all of them |
| AdminReads.GatherTenants | src/admin/admin.service.ts:230-246 | the gathering loop, tenant by tenant, readable or not |
| CostBreakdown.CostBucket.AddTokens | src/admin/admin.service.ts:380-391 | what a token sample does to a bucket object, by its type |
| CostBreakdown.ChargeBucket | src/admin/admin.service.ts:360-393 | get or create the bucket object, mutate it, and store it: the map's figures move as specified and no other bucket's do |
| CostBreakdown.BuildCostBreakdown | src/admin/admin.service.ts:340-418 | the per-model and per-operation lists agree bucket for bucket and are the sorted specification; the three totals are the sums of the samples |
| CostBreakdown.BreakdownConserves | src/admin/admin.service.ts:345-417 | the list shown adds up to the total tokens and dollars, its calls to the calls of the kinds that used tokens, and it is sorted by dollars |
| CostBreakdown.EachBucketIsItsOwn | src/admin/admin.service.ts:345-407 | there is a bucket for exactly the kinds that used tokens, holding what it would hold if the other kinds did not exist |
| CostBreakdown.BucketHolds | src/admin/admin.service.ts:345-407 | a bucket shown holds the prompt tokens, the completion tokens, all tokens and the calls of its kind, unlabelled ones as "unknown" |
| CostBreakdown.BucketIsPriced | src/admin/admin.service.ts:345-393 | its cost is its prompt tokens at the prompt price and its completion tokens at the completion price of its model, per million, and nothing without a price |
| CostBreakdown.BucketedCallsWithinTotal | src/admin/admin.service.ts:399-407 | bucketed calls never exceed the total calls, and equal them if and only if every kind that was called has a bucket |
| McNemar.CombIsFactorial | scripts/eval-analysis/beam-mcnemar.py:27 | the binomial coefficient used here is the closed form of `math.comb` |
| McNemar.PSymmetric | scripts/eval-analysis/beam-mcnemar.py:22-28 | swapping the two reports does not change p |
| McNemar.PInRange | scripts/eval-analysis/beam-mcnemar.py:22-28 | p is positive and at most 1 |
| McNemar.ClipExactlyWhen | scripts/eval-analysis/beam-mcnemar.py:27-28 | the clip at 1 matters exactly when the flips are split evenly |
| McNemar.PStrictlyDecreasing | scripts/eval-analysis/beam-mcnemar.py:22-28 | for a fixed number of flips, the more uneven split has the strictly smaller p |
| McNemar.PIsTwoTailedProbability | scripts/eval-analysis/locomo-mcnemar.py:28-34 | p is the probability that as many fair coin flips split at least as unevenly, counted outcome by outcome |
| McNemar.PairedBlock | scripts/eval-analysis/locomo-mcnemar.py:37-60 | the four-way count yields the accuracies, flips and p of the definition, and the accuracies differ by exactly the net flips; none for no rows |
| McNemar.StatsAre | scripts/eval-analysis/beam-mcnemar.py:10-53 | accuracies and flips as numbers of rows: which rows are right for the base and for the leg, which are lost and which are won |
| McNemar.GroupByAbility | scripts/eval-analysis/beam-mcnemar.py:42-44 | each ability that occurs gets exactly its rows, in order |
| McNemar.GroupsConserveCounts | scripts/eval-analysis/beam-mcnemar.py:46-58 | whatever is counted per ability adds up to the overall count |
| Calibration.BinContains | src/admin/admin.controller.ts:236-249 | a confidence in [0, 1] lands in the one tenth that contains it, the last one closed |
| Calibration.AppliesFirstFit | src/ai/calibration/isotonic.ts:137-152 | any map: the clamped confidence selects the first threshold not below it, else the last value; a missing value reads as 1 |
| Calibration.AppliesItsStep | src/ai/calibration/isotonic.ts:137-144 | a fitted map answers a confidence with the value of the one step it lies on |
| Calibration.StepExists | src/ai/calibration/isotonic.ts:118-130 | on a fitted map, whose last threshold is 1, every confidence in [0, 1] lies on such a step |
| Calibration.BootstrapExactlyWhen | src/ai/calibration/isotonic.ts:53-59 | the map for an empty gold set answers 1 to everything, which is the identity exactly for a confidence of 1 |
| Calibration.CalibrationStats | src/admin/admin.controller.ts:235-269 | every bin holds the size and the three means of its own samples; ECE and Brier score are the specified ones, also for an empty gold set |
| Calibration.CalibrationPanel | src/admin/admin.controller.ts:221-285 | the whole panel: disabled without a map; else every bin's edges, midpoint, size and means, ECE, Brier score and the 21 points of the curve |
| Calibration.CurveRises | src/admin/admin.controller.ts:270-273 | the curve of a monotone map never falls |
| Calibration.BinsPartition | src/admin/admin.controller.ts:247-260 | bin sizes add up to the gold set, and so does any sum over the samples |
| Calibration.EceAtMostMeanError | src/admin/admin.controller.ts:261-268 | for every gold set and map, ECE is at most the mean absolute error |
| Calibration.EceSquaredAtMostBrier | src/admin/admin.controller.ts:259-269 | for every gold set and map, ECE squared is at most the Brier score |
| HnswParity.RunLane | scripts/scan-hnsw-parity.ts:154-197 | the verdict of a lane, too few probes and no probes included |
| HnswParity.VerdictExactlyWhen | scripts/scan-hnsw-parity.ts:154-197 | skipped exactly with fewer probes than required, passed exactly with at least one and a mean recall of 0.98 |
| HnswParity.MeasuresAre | scripts/scan-hnsw-parity.ts:178-190 | recall is the share of the exact rows that the index found, overlap the share of all rows that both found, 1 when there are none |
| HnswParity.ProbeBounds | scripts/scan-hnsw-parity.ts:184-192 | per probe, overlap is at most recall and at least the tangent of r/(2-r) at the gate |
| HnswParity.PassBoundsJaccard | scripts/scan-hnsw-parity.ts:194-197 | a lane that passes the recall gate of 0.98 has mean overlap at least 49/51, and never above its recall |
| HnswParity.BoundIsSharp | scripts/scan-hnsw-parity.ts:184-197 | for every k that is a multiple of 50, the 200 and 400 of the script among them, a passing lane sits exactly on that bound |
| HnswParity.ExitCode | scripts/scan-hnsw-parity.ts:237-246 | exit 0 exactly for a non-empty all-PASS sweep, 1 exactly when something failed, 2 otherwise |
| HnswParity.Scan | scripts/scan-hnsw-parity.ts:226-246 | the sweep ends with 0 if and only if it has lanes and every lane passes, with 1 if and only if some lane fails |
| HnswParity.CleanScanBounds | scripts/scan-hnsw-parity.ts:226-246 | so a clean sweep promises the overlap bound for every lane |
| BaselineDiff.DiffMetrics | scripts/eval-baseline-diff.ts:127-199 | the findings of one diff, in order: missing, regressed with the widened tolerance, added |
| BaselineDiff.NoneBlocking | scripts/eval-baseline-diff.ts:237-238 | a diff has no blocking finding if and only if every baseline metric is present and none regressed beyond its tolerance |
| BaselineDiff.GreenRowExactlyWhen | scripts/eval-baseline-diff.ts:100-172 | what green allows, metric by metric: the privacy leak may rise by 0.05 over its value or upper bound; the others may fall by 0, 0.01, 0.03 or 0.05, the last two from the lower bound |
| BaselineDiff.LeakMayNotGrow | scripts/eval-baseline-diff.ts:102 | a privacy leak without bounds is green exactly when it is at most 0.05 over the baseline |
| BaselineDiff.FindsLast | scripts/eval-baseline-diff.ts:129 | of several rows of one name the last is compared |
| BaselineDiff.Passes | scripts/eval-baseline-diff.ts:214-238 | the script passes exactly when the overall block and every baseline vertical are green |
| BaselineDiff.MetricsPersist | scripts/eval-baseline-diff.ts:132-148 | over any chain of green diffs a metric of the first report never disappears |
| BaselineDiff.ChainWithinBudget | scripts/eval-baseline-diff.ts:149-180 | over any chain of green diffs with values throughout, a metric moves the wrong way by at most the sum of the allowed moves |
| BaselineDiff.HardGatesNeverWiden | scripts/eval-baseline-diff.ts:156-166 | for a tolerance under 0.03 that sum is just the number of diffs times the tolerance |
| BaselineDiff.ZeroToleranceNeverDecreases | scripts/eval-baseline-diff.ts:101 | so the zero-tolerance metric never decreases |
| BaselineDiff.BudgetHoldsExactlyWhen | scripts/eval-baseline-diff.ts:149 | the budget holds for every green chain of a given shape of nulls if and only if no report in between has a null |
| BaselineDiff.NullHidesAFall | scripts/eval-baseline-diff.ts:149 | a green chain in which the zero-tolerance metric falls from 1 to 0 |
| BaselineDiff.StaysPerfectExactlyWhen | scripts/eval-baseline-diff.ts:101 | a green diff forces memory-lifecycle-correctness, whose values are at most 1, to equal 1 if and only if the baseline has 1 |
| BaselineDiff.HalfIsGreen | scripts/eval-baseline-diff.ts:149-180 | a report with that metric at 0.5 is green against itself |
| BaselineDiff.ThreePointsExactlyWhen | scripts/eval-baseline-diff.ts:100-126 | the names held to 0.03, by their first and last letters |
| BaselineDiff.BareNamesGetFive | scripts/eval-baseline-diff.ts:100-126 | a metric called F1, precision or recall is held to 0.05 only |
| DecisionGate.LinearHead.Shrink | scripts/train-decision-gate.ts:81-86 | the in-place loop deletes exactly the small weights and rounds the rest |
| DecisionGate.GateModel.CompactModel | scripts/train-decision-gate.ts:75-89 | the main head and every kind head are shrunk, each once |
| DecisionGate.ShrunkIsClose | scripts/train-decision-gate.ts:81-86 | no weight moves by more than the larger of the pruning threshold and half a unit of the last digit |
| DecisionGate.ShrunkExactly | scripts/train-decision-gate.ts:80-86 | a weight is gone exactly when it lies strictly inside the pruning threshold, and otherwise is the nearest multiple of the last digit, halves upwards |
| DecisionGate.ScoreIs | src/code-memory/capture/gate-classifier.ts:49-56 | the score is the bias and each feature's value times the weight of its bucket, if there is one |
| DecisionGate.VerdictKept | src/code-memory/capture/gate-classifier.ts:49-56 | any linear score moves by at most s times the sum of the feature sizes, for any s that covers the pruning threshold and half a unit of the last digit, so a verdict with a larger margin is unchanged |
| DecisionGate.CompactKeepsVerdicts | scripts/train-decision-gate.ts:75-89 | one compaction keeps the clear verdicts of the main head and of every kind head, for all inputs and cuts |
| DecisionGate.PrecisionRecall | scripts/train-decision-gate.ts:44-72 | precision and recall from the counts, F1 as 2tp/(2tp+fp+fn), accuracy as the agreeing share |
| NuggetPool.StepKeeps | scripts/offline-nugget-score.ts:92-143 | every step of every worker keeps the invariant: rows claimed in order and by one worker, every claimed row accounted for, memory and file in step |
| NuggetPool.ScoresAreGiven | scripts/offline-nugget-score.ts:94-129 | at every step, each row in memory or in the file was found there or was given that very score by the judge in this run, and is in the dataset |
| NuggetPool.LastLineCounts | test/eval/checkpoint.ts:11-29 | of several lines of one question the last counts |
| NuggetPool.CrashLosesFew | test/eval/checkpoint.ts:31-34 | whenever the run dies, at most one judged row per worker is missing from the file, besides those whose append had failed |
| NuggetPool.FinalCountExactlyWhen | scripts/offline-nugget-score.ts:91-144 | at the end every row was claimed exactly once, and judged rows = found + to do - failed if and only if no append failed and there was a worker (or nothing to do) |
| NuggetPool.AppendFailureBreaksTheCount | scripts/offline-nugget-score.ts:130-141 | a finished run with an append that failed, after which the count does not hold |
| NuggetPool.EveryRunFinishes | scripts/offline-nugget-score.ts:94-144 | no run takes more than 4 steps a row and one a worker, and a run that cannot go on has finished |
| NuggetPool.RemainingIs | scripts/offline-nugget-score.ts:86-87 | the rows to do are exactly those of the report that the checkpoint lacks |
| NuggetPool.CrashAndResume | test/eval/checkpoint.ts:11-29 | a re-run after a crash at any step judges nothing that is in the file, keeps the scores found there, repeats at most one row per worker (and the lost ones), and without failures ends with the whole report scored and written |
| NuggetScores.TruncatedExactlyWhen | scripts/offline-nugget-score.ts:64-68 | the truncated score of a row is at most its score, and equal exactly when every item got a whole number |
| NuggetScores.MeanWithin | scripts/offline-nugget-score.ts:160-163 | a mean lies between the least and the greatest score |
| NuggetScores.MeanMoves | scripts/offline-nugget-score.ts:160-163 | one more score moves the mean by its distance over the new count |
| NuggetScores.GroupScores | scripts/offline-nugget-score.ts:146-159 | the grouping loop, for either of the two values |
| NuggetScores.GroupsCountEveryRow | scripts/offline-nugget-score.ts:160-163 | the sizes shown per ability add up to the rows judged |
| NuggetScores.TruncatedMacroExactlyWhen | scripts/offline-nugget-score.ts:160-169 | the truncated macro average is at most the macro average, and equal exactly when no item anywhere got partial credit |
| CanonicalJson.SortKeysDeep | scripts/build-openapi.ts:3588-3599 | the recursion with its key loop computes the specified value |
| CanonicalJson.LessExactlyWhen | scripts/build-openapi.ts:3592 | the order of the keys: at the first difference the smaller code unit comes first, and a beginning before the whole |
| CanonicalJson.SortFinds | scripts/build-openapi.ts:3592-3595 | every lookup in the output answers the sorted input lookup, except for `__proto__`, which is lost |
| CanonicalJson.SortIsCanonical | scripts/build-openapi.ts:3587-3599 | two values have identical outputs if and only if they are equal up to key order at every depth (and `__proto__` members) |
| CanonicalJson.SameOutputExactlyWhenAlike | scripts/build-openapi.ts:3587-3599 | without `__proto__` members, identical outputs if and only if equal up to key order at every depth |
| CanonicalJson.SortPreservesExactlyWhen | scripts/build-openapi.ts:3588-3599 | the output is the input up to key order, arrays in order, if and only if no member is named `__proto__` |
| CanonicalJson.SortIsIdempotent | scripts/build-openapi.ts:3588-3599 | sorting twice is sorting once |
| CanonicalJson.ProtoIsLost | scripts/build-openapi.ts:3594 | an input that loses a member |
| StructureKey.BodyReads | brain-landing/lib/force-layout.ts:28-31 | what `JSON.stringify` writes for a string of UTF-16 code units reads back as that string and ends where it ends (section 7 of RFC 8259) |
| StructureKey.EscapedIs | brain-landing/lib/force-layout.ts:28-31 | which units are written as they are, with a letter of their own, or as four lower-case digits |
| StructureKey.BodyIsPaired | brain-landing/lib/force-layout.ts:28-31 | no surrogate is written without its other half, even for an id that has one |
| StructureKey.KeyInFull | brain-landing/lib/force-layout.ts:28-31 | a key written out, brackets, commas and quotes |
| StructureKey.KeyIdentifiesStructure | brain-landing/lib/force-layout.ts:24-32 | two graphs share a key if and only if their id and link sequences are equal |
| ForceLayout.ReconcileSimNodes | brain-landing/lib/force-layout.ts:41-60 | the pool's keys are exactly the node ids, survivors are the same untouched objects, newcomers are seeded at their node's first position, the result lists the pool's body of each node, and a pool that already fits is left alone |
| ForceLayout.AdoptOne | brain-landing/lib/force-layout.ts:48-52 | find the body or create and store a seeded one |
| ForceLayout.Evict | brain-landing/lib/force-layout.ts:56-58 | the second loop deletes exactly the bodies whose node is gone |
| ForceLayout.RenderTwice | brain-landing/lib/force-layout.ts:34-40 | two renders with the same ids, moved or not: both list the pool's body of each node, and the second answers with the very same bodies |
| Backfill.PageIsConsecutive | scripts/backfill-lang-attribution.ts:149-157 | a page is the rows right after the cursor in id order without a gap, and is empty only when none is left |
| Backfill.Store.Select | scripts/backfill-lang-attribution.ts:149-157 | a query answers with the page of the table as it is then, ids and texts, and records what was fetched |
| Backfill.Store.Update | scripts/backfill-lang-attribution.ts:164-179 | the update writes one row, and none if the row is gone by then |
| Backfill.PassRow | scripts/backfill-lang-attribution.ts:159-181 | handling one row read keeps the pass sound: the stamps issued are those due for the rows read so far, in id order, and no row that had a text throughout is left behind |
| Backfill.BackfillAll | scripts/backfill-lang-attribution.ts:144-184 | whatever other clients write in between, as long as they use finitely many ids: the loop ends, the ids fetched from the store strictly increase, the updates issued are exactly the stamps due for the texts fetched (none on a dry run), every row with a text throughout is among them once, and rows nobody else writes end up stamped or as they were |
| Backfill.BackfillFor | scripts/backfill-lang-attribution.ts:144-184 | whatever other clients write in between, with no bound on their ids: after any number of rounds the reads and stamps so far are in order and as due, no row that had a text throughout is behind the cursor unstamped, each round reads a row more, and an empty page means the outcome of a whole session |
| Backfill.OwnStamps | scripts/backfill-lang-attribution.ts:159-181 | of a row nobody else writes, the store receives the attribution of its text and no other, and none if it has no text |
| Backfill.StampSays | scripts/backfill-lang-attribution.ts:159-181 | what that attribution says: the language unless undetermined, its confidence and version, and none for a row without a text or with an empty one |
| Backfill.RunTwice | scripts/backfill-lang-attribution.ts:144-184 | two passes, while other clients use finitely many ids: rows nobody else writes are stamped by the first, issued the same stamps and left unchanged by the second; with no other writer both passes issue the same updates in the same order and leave the same table |
| Loader.SupersededIsSilent | brain-landing/hooks/useLoader.ts:25-33 | a superseded run changes nothing the hook returns, whenever it settles |
| Loader.NeverMisledExactlyWhen | brain-landing/hooks/useLoader.ts:22-47 | over every run, comparing identities tells whether the run of the load on screen has settled if and only if no render returns to the identity recorded as settled |
| Loader.LoadingIsExact | brain-landing/hooks/useLoader.ts:8-18 | with fresh identities, in every reachable state, the indicator is off exactly when the current load's own run has settled and no reload is in flight |
| Loader.ReturningMisleads | brain-landing/hooks/useLoader.ts:47 | a run of five events after which the indicator is off although the run on screen has not begun |
| Loader.UseLoader.Use | brain-landing/hooks/useLoader.ts:22-47 | a render and the indicator it derives |
| Loader.UseLoader.Effect | brain-landing/hooks/useLoader.ts:25-33 | cleanup of the last run and a run of its own |
| Loader.UseLoader.Finally | brain-landing/hooks/useLoader.ts:27-29 | a settling run records its load only while it is current |
| Loader.UseLoader.StartReload | brain-landing/hooks/useLoader.ts:35-37 | a reload is in flight and counted |
| Loader.UseLoader.FinishReload | brain-landing/hooks/useLoader.ts:38-42 | a reload is over, whether or not it failed |
| ProxyPath.AllowsExactlyWhen | brain-landing/lib/bff-proxy.ts:54-59 | what an allow entry matches, for every entry: its segments are a prefix of the path's, a proper one if it ends in a slash; an empty entry only the empty path |
| ProxyPath.VerdictExactlyWhen | brain-landing/lib/bff-proxy.ts:43-60 | the whole verdict for any allow and deny lists: some allow entry covers the path, and the path does not end in a denied entry, with or without a slash behind, in any spelling |
| ProxyPath.LeadingSlashesIgnored | brain-landing/lib/bff-proxy.ts:47 | any number of leading slashes, none included, gives the same verdict |
| ProxyPath.QueryIgnored | brain-landing/lib/bff-proxy.ts:47 | a query on one line never changes the verdict |
| ProxyPath.QueryCutExactlyWhen | brain-landing/lib/bff-proxy.ts:47 | the path matched is what stands before the first question mark if and only if no line terminator follows it |
| ProxyPath.CutAtFirstFreeMark | brain-landing/lib/bff-proxy.ts:47 | of several question marks the cut is at the first with no line terminator behind it |
| ProxyPath.AllowedByNameExactlyWhen | brain-landing/lib/bff-proxy.ts:47-59 | a path allowed by name stays allowed under a query if and only if the query is on one line |
| ProxyPath.AllowedExactlyWhen | brain-landing/lib/bff-proxy.ts:43-60 | the verdict for any allow list and one-segment deny names: some allow entry covers the path and no denied name is, in any letter case, its last segment when that is not its first |
| ProxyPath.DenyOverrides | brain-landing/lib/bff-proxy.ts:48-53 | a path that ends in a denied entry up to letter case is rejected whatever is allowed, and so is every respelling of it in large and small letters |
| ProxyPath.DeniedExactlyWhen | brain-landing/lib/bff-proxy.ts:48-53 | a deny entry of one segment rules out exactly the paths whose last segment, a trailing slash aside, has that name in any letter case and is not their first |
| ProxyPath.FirstSegmentNotDenied | brain-landing/lib/bff-proxy.ts:47-53 | a path that is the denied name alone is allowed |
| ProxyPath.ExtractRoundTrip | brain-landing/lib/bff-proxy.ts:11-19 | the segments joined below a route are the segments extracted |
| ProxyPath.DoubledSlashIgnored | brain-landing/lib/bff-proxy.ts:11-19 | a doubled slash adds no segment |
| ProxyPath.LastSlashIgnored | brain-landing/lib/bff-proxy.ts:11-19 | nor does a slash at the end |
| ProxyPath.ForeignPathHasNone | brain-landing/lib/bff-proxy.ts:11-19 | a path that is not below the route has no segments |

## Left out

- Floating point: every number that is a fraction in the source is an exact real number here.
- The network, storage and SQL engine: they are nondeterministic answers, bounded only by the
  hypotheses stated; a query answers with the rows that match, sorted and limited.
- JWT verification and hashing: what verification says is an input, and the digest of a session token
  is assumed injective and hexadecimal.
- Separate module instances in the edge and Node runtimes: one process is modelled.
- Cookie lifetimes and attributes, the development bypass, and pages that no guard covers.
- SessionRenewal.LiveExactlyWhen: a browser's requests come one at a time; requests that overlap are the subject of BrowserTabs.
- BrowserTabs.JarLiveExactlyWhen: one browser uses the family; a response that a guard strips of its cookies is one that is never delivered.
- BrainApi.CachesServeLiveTokens: a joiner that awaited a promise is handed its token without a look at the clock, as in the code; only answers from the cache are dated.
- BrainApi.CredentialsFit: an empty key or user token counts as none in the code, and is none here.
- TokenLane.TokenCache.GetToken: clock and fetch names are arguments, and a fetch is answered in a step of its own.
- Calibration.CalibrationPanel: a negative or non-finite confidence, which would index no bin, is not modelled; nor are the list of versions and the map's provenance, which are passed through.
- AdminReads.ListNewest: the ISO strings are compared as the milliseconds they stand for, which agree for the years 0 to 9999; filters are part of what a tenant's rows are.
- AuditPage.ListAuditEvents: how a total of an inherited name reads once it is garbled.
- AdminReads.BuildOverview: the process metrics and the time of the answer, and the choice between live counts and statistics views; counts are assumed not to be negative.
- CostBreakdown.BuildCostBreakdown: price overrides read from the environment; any price table is allowed.
- McNemar.PairedBlock: the printed lines; the LoCoMo script's two notions of a correct row are represented by the BEAM one.
- HnswParity.PassBoundsJaccard: probes are compared with the rows that satisfy the lane's gates, of which neither query returns more than k or repeats one.
- DecisionGate.CompactKeepsVerdicts: the sigmoid, which is monotone and is compared with a threshold, is replaced by a cut on the linear score; training and the hashed hold-out split are not modelled.
- NuggetPool.CrashAndResume: a line of the file is written whole or not at all; the stretch of code between two awaits of one worker may be cut in more places here than at run time.
- NuggetScores.TruncatedMacroExactlyWhen: the abilities are averaged in the order they first occur, not sorted by name; without rows there is no average.
- CanonicalJson.SortKeysDeep: the order in which JavaScript enumerates keys that look like array indices, and surrogate pairs in the comparison of keys, which are compared character by character.
- StructureKey.KeyIdentifiesStructure: only the fixed shape this key has is written, not `JSON.stringify` in general.
- ForceLayout.ReconcileSimNodes: the physics of the simulation, which writes positions and velocities between renders.
- Backfill.BackfillAll: assumes that all ids ever in use are finitely many, since a client that forever inserts ahead of the cursor would keep the loop going; BackfillFor, on what any number of rounds has done, does not. Renewing the database session is not modelled, and the detector is any function of the text.
- Backfill.RunTwice: the same hypothesis, for the writers during both passes.
- Loader.LoadingIsExact: a component that unmounts, and an effect that React runs twice for one load; a render and the effects it leaves pending are two events, in that order.
- ProxyPath.DeniedExactlyWhen: letters outside ASCII keep their case.
- The React components, the documentation site, the OpenAPI tables, the NestJS controllers that only delegate, the work-claim client, and every service whose code is elsewhere in the repository.
