# AlturaProt: a verified model of its request-path state machines

AlturaProt is a reverse proxy that protects an upstream with bounded, sharded, time-driven state: token
buckets, permit limiters, an adaptive flood detector, activatable filter rules, header checks, rate guards,
a circuit breaker and a bounded event log. This project models those parts in Dafny and proves what they
promise over all inputs, all runs and all interleavings.

The modules follow the program:

| module | models |
|---|---|
| `Shards` | the bounded key table (map plus FIFO of keys, eviction by a bounded scan) behind every limiter, detector and breaker shard |
| `Buckets` | token buckets |
| `RateLimit`, `RateLimitAnyOrder`, `StaleEviction`, `LaggingClocks`, `UnrefilledRuns`, `LockedRegions` | the per-key rate limiters: their refinement of an unbounded reference, what holds whatever the clock readings, how long a full shard can refuse newcomers, what lagging readings and slow rates cost, and the reduction of their locked regions to single steps |
| `Permits`, `PermitBudgets`, `PermitPairs` | the three permit limiters as a concurrent protocol, what their buckets grant over a window, and requests holding two permits |
| `SiblingTokens` | the entry of the short-token sibling limiter |
| `Adaptive` | the detector's signature windows |
| `PathShapes`, `Rules`, `FilterEngine`, `FloodBlocks` | path normalisation, rule evaluation, activation and reload, and the way from a flood to a block |
| `HeaderScan`, `Framing` | reading and replaying the first header block, message framing (sections 6.1 and 6.3 of RFC 9112, section 5.6.1.2 of RFC 9110) |
| `RateGuards`, `Circuit` | minimum-rate guards of bodies and TCP streams, the upstream circuit breaker |
| `IpRanges`, `ForwardedFor` | trusted ranges and address masking, X-Forwarded-For resolution |
| `LogLimiter`, `EventLog` | the lock-free log limiter, the event queue and log rotation |
| `Options`, `Text`, `Words`, `Sets` | shared types, splitting and trimming, machine words, set sizes |

How the model relates to the code:

- Clocks are arguments. Buckets use real seconds, guards nanoseconds, breaker and log limiter milliseconds.
- A region under a mutex is one step where nothing outside that mutex is touched in it. In the permit
  limiters every atomic operation inside the region is a step of its own. For the rate limiters
  `LockedRegions` splits the region at the shared bucket and proves that every interleaving of the parts is
  a run of whole regions.
- Hash functions, address parsing, the legacy signature and the checks on a complete header block are
  parameters, so the results hold for every choice of them.
- Integer widths are explicit where they matter: saturating sums in the guards, the breaker and the log,
  the wrapping counter of the log limiter, the 64-bit cast of the TCP guard.
- Objects the code updates in place are classes (`LimiterShard`, `TokenBucket`, `RateLimiter`,
  `SignatureWindows`, `ParentEntry`, `Scratch`, `Engine`, `PreReadStream`, `BodyRateGuard`, `TcpRateGuard`,
  `CircuitBreaker`, `Limiter`, `EventLogWorker`); their methods are proved equal to the functions the run
  theorems are about.

Where the code does not do what one would expect, the code is kept and the exact condition is proved:

- The connection limiters may evict an entry that is inactive but not stale, which gives its key a fresh
  connect bucket. `RotationResetsConnects` is a run from start-up that shows it, `AdmitKeepsOtherIff` says
  exactly when another key's bucket survives, and `ConnectWindow` proves the window bound for keys that are
  never evicted below full.
- Eviction of a stale bucket is invisible exactly when the rate refills the burst within 120 seconds
  (`StaleFullIff`, `OtherKeyIff`); for every rate and burst outside that condition
  `UnrefilledBreaksWindow` gives a run that breaks the window bound.
- A request refused for shard capacity is reported with the per-key rate reason, whatever its bucket holds;
  `RefusedExactly` says when.
- In a crowded shard of the circuit breaker closed circuits are evicted with their failure counts, so two
  shapes failing by turns may never trip (`CrowdedNeverTrips`); `TripsExactly` is the exact condition.
- Splitting an X-Forwarded-For line in two saves a comma, so a list at the byte limit is accepted on two
  lines and refused on one (`CommaPassesLimit`, `LimitExample`); `LinesDoNotMatterIff` is the exact condition.
- The shape of a path is a fixed point of shaping only under the condition of `ShapeFixedIff`; the root
  path is not one (`RootShapeGrows`).
- The raw header check accepts a Content-Length that does not fit in 64 bits; this is the only header list
  on which it differs from the parsed check (`BothChecks`, with inputs in `ChecksDiffer`).
- A full shard may refuse a newcomer although it holds a stale entry, because one scan inspects 32 keys;
  `StaleBucketYields` bounds how often in a row.
- The TCP guard's arithmetic is sound for one measurement exactly within the bound of `TcpExact`.
- A later activation of a rule replaces its deadline even by an earlier one (`LaterActivationShortens`);
  from its last activation on, a rule is active exactly under the condition of `ActivationSurvivesIff`.

## Model

| member | source | states |
|---|---|---|
| Shards.ScanFacts | src/limiter.rs:1020-1063 | one eviction scan removes the first evictable entry among the first 32 keys of the queue, or none when there is none, and moves the keys inspected before it to the back in their order; the queue stays a duplicate-free permutation of the keys |
| Shards.ScanKeeps | src/limiter.rs:1020-1063 | a scan removes at most one entry and only an evictable one, and keeps all entries exactly when none inspected is evictable |
| Shards.ScanCoverage | src/limiter.rs:1020-1063 | while some entry is evictable for every one of a row of scans, the scans that evict nothing are at most as many as whole groups of 32 keys queued before it, so fewer than the queue's length over 32 rounded up |
| StaleEviction.StaleBucketYields | src/limiter.rs:947-961 | after any run, as long as some bucket of a shard has been idle for more than 120 s whenever a newcomer comes, fewer newcomers than the shard's capacity over 32, rounded up, are refused in a row |
| Shards.RoomUnlessStuck | src/limiter.rs:1020-1042 | room is refused exactly when the shard is full and none of the inspected entries is evictable |
| Shards.RemoveUndoesPut | src/limiter.rs:1065-1073 | rolling back a freshly inserted entry restores the shard exactly |
| Shards.ShardCapacity | src/limiter.rs:906-909 | a shard always has room for one key and the 64 shards together for the configured number |
| Shards.TrackedKeysBound | src/limiter.rs:906-909 | shards within capacity hold together at most 63 keys more than configured |
| Shards.LimiterShard.Evict | src/limiter.rs:1044-1063 | the rotating loop on the live queue leaves what the scan specification says, inspected keys at the back, dropping queued keys without an entry, and reports whether it evicted |
| Shards.LimiterShard.MakeRoomFor | src/adaptive.rs:492-515 | making room keeps a full shard valid, scans once, and reports whether there is room |
| Shards.LimiterShard.Remove | src/limiter.rs:1065-1073 | removal takes the key out of the map and its first occurrence out of the queue |
| Buckets.RefillCompose | src/limiter.rs:89-95 | refilling early and again later equals refilling once |
| Buckets.StaleIsFresh | src/limiter.rs:97-99 | a bucket idle for 120 s that can refill its burst in that time equals a new one |
| Buckets.StaleFullIff | src/limiter.rs:97-99 | every stale bucket is full if and only if rate times 120 s covers the burst |
| Buckets.ServeBudget | src/limiter.rs:70-95 | over any run, grants plus what is left never exceed the starting level plus what the rate adds |
| Buckets.WindowBound | src/limiter.rs:70-95 | any window of requests on one bucket is granted at most burst plus rate times its length |
| Buckets.ServeOk | src/limiter.rs:70-87 | tokens never leave the range from zero to capacity |
| Buckets.TokenBucket.Allow | src/limiter.rs:70-78 | the in-place bucket refills and takes a token exactly as specified |
| Buckets.TokenBucket.TryConsume | src/limiter.rs:897-904 | the locked check-and-take on the shared bucket takes a token exactly when there is one |
| RateLimit.RoomInvisible | src/limiter.rs:947-961 | evicting stale entries never changes what any key's bucket amounts to |
| RateLimit.ChargeLaw | src/limiter.rs:337-389 | under every configuration and whatever the clock read before, an admitted request takes exactly one token from its key and one from the shared bucket, and had both; any other verdict takes none net; a denial by a bucket means that bucket was empty; shared denial leaves no new entry behind |
| RateLimit.OtherKeyIff | src/limiter.rs:947-961 | a request keeps what another key's bucket amounts to if and only if that key is not the eviction victim of a newcomer or its bucket is full again |
| RateLimit.OtherKeysUntouched | src/limiter.rs:947-961 | when the rate refills the burst within the idle period, no other key is ever touched |
| RateLimit.RefusedExactly | src/limiter.rs:357-361 | a request is refused for capacity if and only if its key has no entry, its shard is full and each of the first 32 buckets was used within the last 120 s |
| RateLimit.StepRefines | src/limiter.rs:337-389 | one step of the bounded limiter is one step of the unbounded reference, unless refused for capacity |
| RateLimit.LimiterRefinesReference | src/limiter.rs:337-389 | from start-up, for every run, each verdict other than a capacity refusal is that of an unbounded map of buckets charged only for admitted requests |
| RateLimit.AdmissionWindow | src/limiter.rs:337-389 | in any window of any run, admissions of one key are at most burst plus rps times the window, across eviction and re-creation |
| UnrefilledRuns.UnrefilledBreaksWindow | src/limiter.rs:947-961 | for every rate and burst with rate times the idle period below the burst, a run whose requests are all admitted admits a key twice its burst in a window that earns it less than a second one |
| LaggingClocks.LaggingAdmissionWindow | src/limiter.rs:337-389 | when readings lag behind the latest by at most d, and the rate refills the burst in the idle period less d, admissions of one key in any window are at most burst plus rps times the window and d |
| RateLimitAnyOrder.RunCharges | src/limiter.rs:337-389 | at every event of every run, in whatever order the readings come, key and shared bucket are charged together or not at all, and no other shard is touched |
| RateLimitAnyOrder.GlobalAdmissionWindow | src/limiter.rs:337-389 | in any window of any run, admissions of all keys together are at most the shared burst plus the shared rate times the time between first and latest use of the shared bucket in the window, in whatever order the readings come |
| RateLimitAnyOrder.TimedAdmissionWindow | src/limiter.rs:337-389 | and at most the shared burst plus the shared rate times the length of the window when its readings lie within it |
| LockedRegions.RegionsAreAtomic | src/limiter.rs:354-388 | every interleaving of locking and checking, taking from the shared bucket, and settling decides the verdicts of a run of whole regions |
| LockedRegions.SettleGives | src/limiter.rs:375-388 | charging or rolling back the checked shard leaves the shard of the whole region |
| LockedRegions.InterleavingsRefineReference | src/limiter.rs:337-389 | so every interleaving whose decisions come at nondecreasing times gives the verdicts of the unbounded reference |
| LockedRegions.InterleavingsCharge | src/limiter.rs:337-389 | in every interleaving, with no condition on time, each decision charges its key and the shared bucket together or neither |
| LockedRegions.InterleavingsWindow | src/limiter.rs:337-389 | in every interleaving, admissions decided in a row are at most the shared burst plus what its rate adds between its first and latest use among them |
| LockedRegions.InterleavingsTrackBoundedKeys | src/limiter.rs:911-961 | at every moment of every interleaving, also inside regions, at most the configured limit plus 63 keys are held and every queue is a permutation of its keys |
| RateLimit.RunBudget | src/limiter.rs:337-389 | admissions of a key plus the tokens it has left never exceed its earlier tokens plus what the rate adds |
| RateLimitAnyOrder.RunTracksBoundedKeys | src/limiter.rs:911-961 | after any run, in whatever order the readings come, at most the configured limit plus 63 keys are tracked, every queue is a permutation of its keys and every bucket is within its bounds |
| RateLimit.KeyCheckIsRateCheck | src/limiter.rs:160-185 | the key limiter's check is the rate limiter's without a shared bucket, so the run results apply to it |
| RateLimit.RateLimiter.Check | src/limiter.rs:337-389 | the two-phase check is an early look followed, unless it denies, by one charging step |
| RateLimit.RateLimiter.CheckLocked | src/limiter.rs:346-388 | the locked region with its rollback computes the specified shard, shared bucket and verdict |
| RateLimit.RateLimiter.constructor | src/limiter.rs:299-321 | a new limiter has 64 empty shards and a shared bucket only for a positive global rate |
| Permits.ActionKeeps | src/limiter.rs:441-529 | every atomic step of every thread, in all three limiters, keeps the protocol invariant |
| Permits.RunKeeps | src/limiter.rs:751-819 | the invariant holds after every interleaving |
| Permits.RunTracksBoundedKeys | src/limiter.rs:963-1018 | in every reachable state at most the configured limit plus 63 keys are held and every queue is a permutation of its keys |
| Permits.PermitCaps | src/limiter.rs:441-529 | the global counter equals the active counts plus threads past the compare-exchange minus threads between the two halves of a release; live permits never exceed the global cap, nor a positive per-key cap on any key, nor one per key for TCP connections without a cap |
| Permits.PermitEntryKept | src/limiter.rs:515-529 | an entry with a live or departing permit is in the table with a positive count |
| Permits.ReleaseFindsEntry | src/limiter.rs:668-678 | the missing-entry and saturating branches of release are never taken |
| Permits.SharedTokensConserved | src/limiter.rs:475-507 | charges of the shared bucket equal permits granted plus threads charged and about to be granted one; the bucket stays within its bounds |
| PermitBudgets.SharedStep | src/limiter.rs:893-904 | a charge is counted exactly when the shared bucket, refilled, holds a token and loses it; every other step leaves the bucket as it is or refilled |
| PermitBudgets.SharedGrantWindow | src/limiter.rs:475-507 | in any window of any interleaving, grants over all keys are at most the shared burst plus the shared rate times the time the bucket saw pass, and the threads charged when the window opened |
| PermitBudgets.SharedGrantWindowFromUse | src/limiter.rs:475-507 | the same measured from the first use of the shared bucket inside the window |
| Permits.KeyTokensConserved | src/limiter.rs:626-661 | a key's connect bucket loses one token exactly at a grant on that key, and had it |
| Permits.QuietMeansEmpty | src/limiter.rs:805-819 | when no thread is active the counter and all active counts are zero |
| Permits.DenialsJustified | src/limiter.rs:593-666 | in every reachable state, an action denies an acquire or makes it give its slot back if the bucket, cap or table its reason names is exhausted, or the counter value it read is at the cap, and only then |
| Permits.CounterDenialSawFull | src/limiter.rs:481-496 | a thread denied in the compare-exchange loop saw the counter at its cap: it stood there at some point of the same call |
| Permits.AdmitExactly | src/limiter.rs:751-803 | the locked checks pass if and only if the key has or can get an entry, its active count is below the configured cap (no cap outside TCP when it is zero, one in TCP) and it has a connect token; a key that fails both is told of its count by TCP and of its rate by the others |
| Permits.VictimExactly | src/limiter.rs:963-1018 | the key that goes from a full shard is the first among the first 32 that holds nothing and has been idle for 120 s, else the first that holds nothing among the 32 after them, and there is no room exactly when there is neither |
| Permits.LastSeenStep | src/limiter.rs:751-819 | an entry shows the time of the grant or release that an action was on it, or of its creation, and keeps the time it shows otherwise |
| Permits.AdmitKeepsOtherIff | src/limiter.rs:982-999 | admitting a key keeps another key's connect bucket if and only if that key is not the eviction victim of a newcomer or its bucket is full again |
| PermitBudgets.ConnectWindow | src/limiter.rs:593-666 | while a key is never evicted below full, its grants in any window of any interleaving are at most its burst plus its rate times the time between the locks of its shard |
| PermitBudgets.ConnectWindowFromLock | src/limiter.rs:593-666 | the same measured from the first lock of the key's shard inside a window that opens with no thread inside a region for the key |
| PermitBudgets.RotationResetsConnects | src/limiter.rs:982-999 | a run from start-up, at one moment, in which a key denied for want of a token is granted again after one connect from another key |
| PermitPairs.NoPermitLeaks | src/http_proxy.rs:1297-1315 | in every interleaving of requests that decide from the answers they got, both limiters keep their guarantees, a serving request holds what it thinks it holds, and a finished one, including one whose second acquire failed, holds nothing |
| PermitPairs.AllFinishedMeansEmpty | src/http_proxy.rs:2624-2640 | once all requests have finished both limiters are back to nothing in use |
| PermitPairs.MoveKeepsWorld | src/http_proxy.rs:2057-2076 | every step of a request keeps both invariants and the permits its stage should hold |
| SiblingTokens.RememberOk | src/limiter.rs:285-293 | the remembered tokens are duplicate-free, include the latest and never become fewer |
| SiblingTokens.RemembersLatest | src/limiter.rs:284-292 | a new token joins the queue, which keeps its last 64; a known one changes nothing |
| SiblingTokens.ParentEntry.Check | src/limiter.rs:258-295 | the entry's set stays the contents of its queue and the verdict is the specified one |
| SiblingTokens.FewTokensAllowed | src/limiter.rs:294-295 | a parent is never denied while it has seen fewer than three distinct tokens |
| SiblingTokens.ManyTokensMetered | src/limiter.rs:285-295 | from the third token on the verdicts are those of the bucket alone |
| SiblingTokens.EveryRequestCharged | src/limiter.rs:258-295 | every request is charged: it passes if and only if the bucket serves it or fewer than three tokens are known by then |
| SiblingTokens.SiblingWindow | src/limiter.rs:258-295 | from the third distinct token on, admissions in any window are at most burst plus rate times its length |
| Adaptive.SignatureWindows.ObserveSignature | src/adaptive.rs:220-280 | the in-place observation computes the specified windows, count, activation and event flag |
| Adaptive.ObserveFacts | src/adaptive.rs:220-280 | an observation charges only its own signature and activates exactly when that bucket is empty; evicting idle windows changes no verdict |
| Adaptive.RefusedExactly | src/adaptive.rs:472-480 | an observation goes uncounted if and only if its signature has no window, its shard is full and each of the first 32 windows was seen less than 120 s ago |
| Adaptive.RunTracksBoundedWindows | src/adaptive.rs:492-515 | after any run of observations, at any times and with any threshold, at most the configured number of windows plus 63 are held and every queue is a permutation of its signatures |
| Adaptive.WeakReportsApart | src/adaptive.rs:257-276 | while a window lives, two reports on weak observations are at least a cooldown apart, whatever comes between |
| Adaptive.ThreeReportsApart | src/adaptive.rs:257-276 | any three reports of one window, weak and strong in any mix, span at least a cooldown |
| Adaptive.DueIsReported | src/adaptive.rs:257-276 | an activating observation a cooldown or more after every earlier report of its window is reported |
| Adaptive.StrongDueIsReported | src/adaptive.rs:263-267 | so is a strong one a cooldown or more after every earlier report on a strong observation, however recent the reports on weak ones |
| Adaptive.CountsObservations | src/adaptive.rs:255-257 | a report carries the number of observations of its window, up to what 64 bits hold |
| Adaptive.HistoryIsPrivateBucket | src/adaptive.rs:492-515 | for every run, the verdicts on a signature are those of one bucket never evicted and never shared |
| Adaptive.ActivationMeansFlood | src/adaptive.rs:453-466 | an activation implies a window ending at it with more observations than (threshold - 1, as far as 32 bits go) plus threshold times its length |
| Adaptive.FloodMeansActivation | src/adaptive.rs:453-466 | every such window contains an activation |
| PathShapes.NormalizePathWith | src/filter.rs:925-939 | the appending loop computes the layout of the classified segments |
| PathShapes.AppendSegment | src/filter.rs:941-965 | one appended segment grows the output by its class or its literal text |
| PathShapes.ShortTokenParentShape | src/filter.rs:902-923 | the loop computes the parent shape and the token it replaced |
| PathShapes.ShapeFromNormalized | src/filter.rs:894-900 | for every path the shape is the normalised path with each segment classified in place |
| PathShapes.EqualNormalizedEqualShape | src/filter.rs:894-939 | equal normalised paths have equal shapes |
| PathShapes.ShapesEqualIff | src/filter.rs:925-965 | shapes are equal exactly when their laid-out segment classes agree |
| PathShapes.CanonicalShapesEqualIff | src/filter.rs:925-1004 | on single-slash paths, shapes are equal exactly when segment classes agree position by position |
| PathShapes.KeptExactly | src/filter.rs:967-1075 | a segment keeps its text if and only if it is empty, or has a byte other than letters and digits and is no UUID, or is a single letter, or has up to nine letters and digits and is a common word, all lowercase or a version number, or is a longer common word |
| PathShapes.SegmentsMerge | src/filter.rs:967-1075 | two numbers, two UUIDs, two runs of 16 or more hexadecimal digits, two other tokens of ten or more, or two of two to nine letters and digits with a digit or capital, become the same |
| PathShapes.VersionsSeparate | src/filter.rs:967-1004 | single-slash paths that differ in a version of up to eight digits or in a lowercase word of up to nine letters have different shapes |
| PathShapes.ShapeFixedIff | src/filter.rs:925-939 | shaping a shape changes nothing if and only if the path has a nonempty segment and no doubled gap after its first one |
| PathShapes.CanonicalShapeFixed | src/filter.rs:925-939 | on single-slash paths the shape is a fixed point |
| PathShapes.RootShapeGrows | src/filter.rs:928-930 | the root path grows by a slash with each shaping |
| PathShapes.ParentReplacesOne | src/filter.rs:902-923 | on single-slash paths the parent differs from the shape in exactly the first short lowercase token |
| PathShapes.ParentExactly | src/filter.rs:902-923 | there is a parent if and only if some segment is two or three lowercase letters and no common word, and the token is the first such segment |
| PathShapes.PieceTwice | src/filter.rs:967-1075 | classifying an already classified segment gives the class of the original |
| Rules.SortSorts | src/filter.rs:481-485 | publishing keeps exactly the loaded rules, in sorted order |
| Rules.SortedMeaning | src/filter.rs:481-485 | of two published positions the earlier has the higher priority, or the same and an id that is a prefix of the other or has the smaller byte at the first difference |
| Rules.LoadOrderIrrelevant | src/filter.rs:481-485 | two load orders of the same rules publish the same sequence |
| Rules.RuleMatches | src/filter.rs:764-824 | matching through the memo equals matching from scratch |
| Rules.ContainsMeans | src/filter.rs:785-800 | a text contains another exactly when it is something, the other and something, and starts with it exactly when it is the other and something |
| Rules.Scratch.MatchesPathShape | src/filter.rs:394-425 | the lazily memoised shape and parent shape give the recomputed answer |
| Rules.Scratch.IsLegacySignature | src/filter.rs:394-425 | the memoised legacy signature gives the recomputed answer |
| Rules.Evaluate | src/filter.rs:615-636 | evaluation returns the first rule that is enabled, unexpired, active and matching, or none if no rule is |
| Rules.EvaluatePublished | src/filter.rs:615-636 | on published rules no firing rule has a higher priority than the hit, and one of the same priority has an id that the hit's precedes byte by byte |
| Rules.FiresExactly | src/filter.rs:883-892 | a matching rule fires if and only if it is enabled, strictly before its expiry, and if adaptive strictly before the end of its activation |
| Rules.BestUnique | src/filter.rs:615-636 | that rule depends only on the set of rules |
| FilterEngine.Engine.ActivateRules | src/filter.rs:638-690 | the activation loop stamps rules and deadline map as specified and reports whether a rule was addressed |
| FilterEngine.Engine.ReloadRules | src/filter.rs:476-508 | a reload publishes sorted rules with carried deadlines, or fails without effect |
| FilterEngine.RunAgrees | src/filter.rs:476-508 | in every interleaving, each published activation time is its entry in the deadline map, and rules stay sorted with distinct ids |
| FilterEngine.FailedReloadsInvisible | src/filter.rs:476-484 | any run ends as it does without its unreadable, invalid or duplicate reloads |
| FilterEngine.ActivationStamps | src/filter.rs:638-690 | right after an activation every addressed rule carries its deadline in both places |
| FilterEngine.ActivatedUntil | src/filter.rs:638-717 | an activation gives exactly the enabled, adaptive, unexpired rules for its signature or path shape the clock plus the rule's own lifetime, else the requested one, else the fallback, clamped to 1..86400 seconds; the others keep their time |
| FilterEngine.ActivationDeadline | src/filter.rs:638-690 | an activation leaves a deadline alone or sets it to that of an addressed rule with that id |
| FilterEngine.ActivationSurvivesIff | src/filter.rs:476-508 | from the last activation addressing a rule and before its deadline, the rule is active if and only if every reload that succeeded since has its id and read the clock before that deadline |
| FilterEngine.UnaddressedRun | src/filter.rs:487-506 | through any run that does not address a rule, its deadline is kept under that condition and is gone otherwise |
| FilterEngine.LaterActivationShortens | src/filter.rs:638-690 | runs in which a reload shortens a rule's lifetime and a second activation takes back what the first gave |
| FilterEngine.DeadlinesWithinADay | src/filter.rs:702-717 | after any run every deadline is one from the start or was stamped by an activation that addressed its rule, at most 24 hours after the clock reading of that stamp |
| FloodBlocks.FloodActivates | src/adaptive.rs:135-163 | in every run of detector and engine, a flood of a signature contains an observation that activates it |
| FloodBlocks.FloodLeadsToBlock | src/adaptive.rs:135-163 | and from that observation on every adaptive rule published for the signature blocks the requests it matches, itself or by a rule before it, until its deadline, as long as no later activation addresses it and every reload that succeeds keeps its id and comes before the deadline |
| HeaderScan.ReadHead | src/http_proxy.rs:647-722 | for every split of the stream into reads, the incremental loop has the outcome of one scan of the whole stream and has read exactly a prefix |
| HeaderScan.HeadExactly | src/http_proxy.rs:664-721 | a header block is checked if and only if a blank line ends within the first maxBytes bytes, up to the first such line; otherwise it is too large with that many bytes and passed on with fewer |
| HeaderScan.ScanResumes | src/http_proxy.rs:778-791 | resuming after a gap without terminator finds what a full scan finds |
| HeaderScan.PrefixEnd | src/http_proxy.rs:664-721 | a terminator found in a prefix is the first of the whole stream |
| HeaderScan.PreReadStream.PollRead | src/http_proxy.rs:606-627 | a read returns at most the room given and the next bytes of prefix then stream |
| HeaderScan.ReplayInOrder | src/http_proxy.rs:606-627 | for every sequence of buffers, delivered and remaining bytes are the original ones in order |
| HeaderScan.ReplayDeliversStream | src/http_proxy.rs:606-722 | read and replayed, the peer's bytes arrive exactly once and in order |
| Framing.ValidateTransferEncoding | src/http_proxy.rs:1030-1056 | accepted exactly when the only coding is one chunked among at most eight empty elements and chunked is allowed; otherwise the first defect met is the one reported |
| Framing.CountFraming | src/http_proxy.rs:957-981 | the header loop stops at the first bad line or length, or counts lengths and encodings |
| Framing.ScanMeaning | src/http_proxy.rs:957-981 | the loop finishes if and only if the lines up to the empty one hold fields, position by position, and all lengths are digits, and then it has counted those fields |
| Framing.LineMeaning | src/http_proxy.rs:957-975 | a line without its trailing CR is a field if and only if a colon follows one or more bytes that are all token characters, and then it is the bytes before that colon and the trimmed bytes after it |
| Framing.BadLine | src/http_proxy.rs:962-972 | any other line is reported as folded when it starts with a blank, else as invalid when it has no colon, else for its name |
| Framing.FieldsMeaning | src/http_proxy.rs:957-975 | the fields of a header are those of its lines before the first empty one, in order |
| Framing.FieldsExactly | src/http_proxy.rs:957-975 | a header has fields if and only if every line before the first empty one has a name of token characters and a colon |
| Framing.BodyExactly | src/http_proxy.rs:983-1000 | no body without framing fields; a size for a single one that is a content length of digits; chunked for a single one that is a transfer encoding naming just that, when allowed; in no other case |
| Framing.CaseInsensitive | src/http_proxy.rs:975-980 | names are compared byte by byte up to the case of letters |
| Framing.ValidateRaw | src/http_proxy.rs:943-1000 | a header block is accepted if and only if its first line is not blank and its lines up to an empty one hold fields, position by position, with exactly one body framing |
| Framing.ValidateParsed | src/http_proxy.rs:1473-1535 | parsed headers are accepted if and only if, with content lengths trimmed, they have exactly one body framing and a length fits in 64 bits |
| Framing.BothChecks | src/http_proxy.rs:1473-1535 | on rendered header lists the parsed check implies the raw one, and they differ exactly on one content length above 64 bits |
| Framing.ChecksDiffer | src/http_proxy.rs:1525-1535 | the two checks differ on every request whose only header is a content length of one and twenty or more zeros |
| Framing.RenderedFields | src/http_proxy.rs:947-975 | splitting a rendered header list gives its fields back with values trimmed |
| Text.TrimMeaning | src/http_proxy.rs:1002-1013 | trimming removes blanks from both ends, all of them and nothing else |
| RateGuards.BodyRateGuard.Record | src/http_proxy.rs:2570-2606 | the in-place guard steps and answers as specified |
| RateGuards.TcpRateGuard.Observe | src/tcp_proxy.rs:278-306 | the same for the TCP guard, which ignores empty reads |
| RateGuards.StretchBound | src/http_proxy.rs:2594-2605 | between any two passes, bytes in between plus the slack per pass exceed rate times time, whatever surplus came before and whatever failed in between |
| RateGuards.BodyGuardBound | src/http_proxy.rs:2570-2606 | for every run ending with a pass, bytes after the grace period plus one per pass exceed rate times the time since it ended |
| RateGuards.TcpGuardBound | src/tcp_proxy.rs:278-306 | the same with slack of one byte and a thousandth of the rate per pass, while each reading is near enough to its window for the arithmetic; the length of the connection does not matter |
| RateGuards.NewBodyGuardBound | src/http_proxy.rs:2559-2606 | the bound over the whole life of a new body guard, from its first reading |
| RateGuards.NewTcpGuardBound | src/tcp_proxy.rs:268-306 | the bound over the whole life of a new TCP guard, from its first reading with bytes |
| RateGuards.TcpExact | src/tcp_proxy.rs:294-298 | satisfying counts cover whole milliseconds if and only if neither the cast nor the product overflows the limit |
| RateGuards.BodySound | src/http_proxy.rs:2597-2599 | the 128-bit saturation never lets a short count pass |
| RateGuards.GraceIsFree | src/http_proxy.rs:2587-2593 | bytes within the grace period earn no credit |
| RateGuards.BodyPassesExactly | src/http_proxy.rs:2594-2605 | a measurement passes if and only if its bytes are less than one short of the rate times the time since its window opened, whatever the rate and time |
| RateGuards.TcpPassesExactly | src/tcp_proxy.rs:294-305 | the same over whole milliseconds while the product stays in 64 bits |
| RateGuards.KeepingUpNeverFails | src/http_proxy.rs:2570-2606 | a client that brings the rate times the time since the last reading at every reading after the grace period never fails either guard |
| Circuit.CircuitBreaker.RecordFailure | src/http_proxy.rs:155-182 | a failure counts, trips or is refused as in the runs of `OpenExactly` and `TripsExactly`, on the live table |
| Circuit.CircuitBreaker.RecordSuccess | src/http_proxy.rs:143-153 | a success resets the entry of its shape if there is one |
| Circuit.CircuitBreaker.Open | src/http_proxy.rs:128-140 | reports open exactly before the stored deadline, never when disabled |
| Circuit.OpenExactly | src/http_proxy.rs:128-182 | a circuit is open at a time if and only if a failure of its shape tripped it less than the open time before, below the end of 64 bits, and no success of its shape came later |
| Circuit.OpenForOpenTime | src/http_proxy.rs:128-182 | after a trip with no later outcome of its shape, the circuit is open for exactly the open time |
| Circuit.StepOn | src/http_proxy.rs:199-225 | another shape's outcome leaves an entry alone or forgets it once closed |
| Circuit.StepKeeps | src/http_proxy.rs:154-182 | every step keeps failure counts below the threshold, shards within capacity and queues permutations |
| Circuit.RunTracksBoundedShapes | src/http_proxy.rs:199-225 | after any run at most the configured number of shapes plus 63 are held |
| Circuit.FailureCounts | src/http_proxy.rs:165-174 | a failure goes uncounted if and only if its shape has no entry, its shard is full and the first 32 circuits are all open |
| Circuit.TripsExactly | src/http_proxy.rs:155-182 | in every run, an outcome trips its circuit if and only if it is a counted failure and the threshold-th since the last success, trip or moment without an entry |
| Circuit.CrowdedNeverTrips | src/http_proxy.rs:199-225 | with room for one shape and a threshold of two, two shapes failing by turns never trip, for any number of turns at any times |
| Circuit.TripNeedsStreak | src/http_proxy.rs:175-181 | a trip needs threshold failures in a row with no success or trip between |
| Circuit.UncrowdedTrips | src/http_proxy.rs:155-182 | in particular, while a shard has room for its shapes, exactly every threshold-th failure in a row trips |
| IpRanges.RangeIsPrefix | src/http_proxy.rs:2843-2885 | for every prefix length, membership in a range equals agreement under the limiters' masking and of the leading bits |
| IpRanges.NormalizeKeeps | src/limiter.rs:838-863 | masking keeps the leading bits of an address and clears the others |
| ForwardedFor.Resolve | src/http_proxy.rs:2715-2762 | the loops compute the specified client or error |
| ForwardedFor.ResolvedMeaning | src/http_proxy.rs:2715-2762 | a trusted peer's request is accepted if and only if all values are text within the limits with only addresses, and then resolves along all hops |
| ForwardedFor.RefusalMeaning | src/http_proxy.rs:2727-2751 | a refusal of text as invalid, too long or of too many hops means an element that is no address, bytes above their limit, or elements above theirs |
| ForwardedFor.PickMeaning | src/http_proxy.rs:2755-2760 | the walk finds the rightmost untrusted hop, or the peer if there is none |
| ForwardedFor.ClientOutsideRanges | src/http_proxy.rs:2755-2760 | with trust by ranges, the client is the rightmost hop whose leading bits agree with no range, or the peer when every hop agrees with one |
| ForwardedFor.PrependedHopsIgnored | src/http_proxy.rs:2715-2762 | with an untrusted hop present, readable hops put in front do not change the client |
| ForwardedFor.LinesDoNotMatterIff | src/http_proxy.rs:2727-2751 | splitting a value at a comma over two header lines changes the outcome if and only if the two lines of a trusted peer are readable and the joining comma is the byte that passes the limit |
| ForwardedFor.CommaPassesLimit | src/http_proxy.rs:2732-2735 | with a limit of exactly the bytes of two readable lines, they are accepted and their joined form is refused as too long |
| ForwardedFor.LimitExample | src/http_proxy.rs:2732-2735 | an input on which it happens |
| LogLimiter.Limiter.ShouldLogAt | src/log_limiter.rs:27-47 | an uninterrupted call performs load, compare-exchange and swap or fetch-add in a row |
| LogLimiter.SuppressionsConserved | src/log_limiter.rs:27-47 | in every interleaving, reported counts plus the counter equal finished suppressions, up to turns of the 64-bit counter |
| LogLimiter.NoUnseenChange | src/log_limiter.rs:35-40 | a successful compare-exchange below the end of the clock saw a deadline no other call had replaced |
| LogLimiter.DeadlineRises | src/log_limiter.rs:34-40 | a successful compare-exchange strictly raises the deadline unless the clock is at its end |
| LogLimiter.LogsApart | src/log_limiter.rs:27-47 | whatever clocks calls bring, a log happens at least its interval, or one millisecond, after every earlier log, or at the end of the clock |
| LogLimiter.UninterruptedLogs | src/log_limiter.rs:27-47 | after every interleaving, a call that nothing interrupts logs if and only if there is no log yet or the interval of the last one has passed |
| LogLimiter.LogRate | src/log_limiter.rs:27-47 | with a fixed interval, n logs span at least n - 1 intervals |
| EventLog.EventLogWorker.Rotate | src/telemetry.rs:536-559 | the descending rename loop leaves the specified files and byte count |
| EventLog.EventLogWorker.WriteEvent | src/telemetry.rs:445-517 | a write rotates first when needed, appends its line and keeps the byte count right |
| EventLog.RotatedFacts | src/telemetry.rs:536-559 | rotation moves every file one place back, forgets the last, empties the active one and touches nothing else |
| EventLog.RotationForgets | src/telemetry.rs:536-559 | rotation loses exactly the oldest backup, or without backups the active file |
| EventLog.WriteFacts | src/telemetry.rs:445-534 | after a write the active file is within the positive cap or holds a single line, if and only if the cap is below the largest or file and line together stay within 64 bits |
| EventLog.WriteForgets | src/telemetry.rs:445-534 | a write forgets nothing without a cap, on an empty file or when file and line stay within the cap; otherwise it forgets exactly the oldest backup |
| EventLog.NothingForgotten | src/telemetry.rs:445-559 | in every run without a cap, or whose cap holds the first active file and all lines written, the files hold everything |
| EventLog.LogIsSuffix | src/telemetry.rs:445-559 | in every run, backups from oldest to newest then the active file are a contiguous suffix of everything logged |
| EventLog.EventsConserved | src/telemetry.rs:356-383 | in every run each submitted event is written, queued or counted as dropped, in order; nothing is queued after the worker stops |
| EventLog.SubmitExactly | src/telemetry.rs:356-383 | an event is dropped on submission if and only if the queue is at its capacity |
| EventLog.QueueBounded | src/telemetry.rs:356-383 | in every run the queue stays within its capacity |

## Left out

- Configuration, CLI, daemon start-up, listeners, admin endpoints, metrics rendering and response builders: independent range checks, I/O or straight-line text.
- The detector's path-shape windows and its sampling of events: they repeat the signature windows with more counters; `Adaptive` covers the signature side only.
- Floating-point rounding in token buckets, mutex poisoning recovery and relaxed memory orders: tokens are reals and atomic steps are sequentially consistent.
- Time stamps beside a bucket that the rate limiters store and never read.
- Hashing (BLAKE3, FNV, the default hasher), UTF-8 decoding and the text form of addresses: parameters.
- The checks on a complete header block other than framing (line lengths, counts, request target): a parameter of `ReadHead`; the per-rule validation of a reload: a parameter of `ReloadRules`.
- The single-address client header variant, and the wrap-around of byte sums that no header list in memory reaches.
- The shard of parent entries around the short-token sibling entry: the same bounded table as in `Shards`.
- The asynchronous relays, timeouts and body wrappers around the guards.
- Failing file operations in the event log and partial lines of an interrupted write; flushing, which moves no bytes between files in this model.
- Map entries are values: the code's maps own their entries, so no two places share one and in-place update of an entry is a replacement here.
- Permits.PermitCaps: the permit limiters are stated over atomic steps and values rather than as classes, because a class method could not be interrupted between its atomics.
- RateGuards.TcpGuardBound: asks that each reading be near its window; beyond the bound of `TcpExact` a single measurement can ask for too little.
