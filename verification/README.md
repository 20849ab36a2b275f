# Verified model of chia-query

chia-query decides when the answers of untrusted, unsynchronised Chia peers may be treated as facts.
This project models that decision, the state it rests on, and the state it feeds, and proves what the
decision is worth. Everything that comes from a network (messages, answers, dial results, the order in
which things happen) is an input that may be anything.

| part | modules |
|---|---|
| the light client's coin cache | `CoinCache`, `CacheInvariants`, `Chain`, `CacheRefinement`, `CacheRuns`, `LateAnswers` |
| agreement between populations of coins | `ChainClaims`, `SetAgreement`, `SetRound` |
| agreement on one claim, and the router's settlement of it | `ScalarRound` |
| frame fan-out, sessions and subscriptions | `Frames`, `Sessions`, `Subscriptions`, `Resets`, `Relay` |
| the peer pool: admission, eviction, voices, dial rounds | `PeerPool`, `Median`, `Eviction`, `Freshness`, `DialSelection`, `DialFairness`, `DialRanking` |
| the provider registry | `Registry`, `Custody`, `RecordLists` |
| relaying a bundle | `PushTx` |
| API drift | `Drift`, `DriftReport`, `DriftCount` |
| shared | `Prelude`, `Net`, `StableSort` |

The form follows the source. What the source updates in place is a class with the same fields
(`CoinCache.CoinStateCache`, `Frames.FrameFanout`, `PeerPool.Pool`, `Registry.ProviderRegistry`,
`PushTx.Router`), its loops are loops, and each such method is proved equal to a function of the old
state; the theorems are about those functions. Code that only computes is functions. The tasks that run
concurrently around the pool are a state machine, `Sessions.Next`, whose steps are the critical sections
of the source; a theorem about `Sessions.Run` holds for every interleaving of them.

Automatic induction is switched off on every lemma: an inductive proof is written out, step and all.

## Where the code does not do what one would like

Each of these is a theorem about the model, with the exact condition and a concrete witness.

- **A followed coin can be starved.** The drive loop untracks a coin as soon as it is spent, which lowers
  the cache's cap while the spent coin stays cached, so a coin that is still followed can be refused when
  it is created (`CacheRuns.DriveLoopCanStarveAFollowedCoin`). The cache mirrors the chain after every
  event if and only if every event found room (`CacheRuns.RunMirrorsIffRoom`); a client that never lets
  go, and follows no puzzle hash with more than ten thousand coins, always has room
  (`CacheRuns.CacheRefinesTheChain`).
- **A late answer can leave a followed coin stale.** `subscribe_coins` awaits the peer's answer and only then
  tracks the coins and seeds the cache (src/peer/light_client/mod.rs:157-163). An update applied in between is
  dropped as unsubscribed and the older answer lands after it (`LateAnswers.ALateAnswerCanBeStale`). The cache
  mirrors the chain afterwards if and only if, for the coins asked for, what it held overwritten by the answer
  is what the chain now holds (`LateAnswers.ALateAnswerMirrorsIff`); for a client that held none of them, if
  and only if no block added since the answer created or spent one
  (`LateAnswers.AFreshSubscriptionMirrorsIffUntouched`). `CacheRuns` takes answers about the current chain.
- **A repeated coin escapes the comparison of sets.** `fingerprint` compares the last record of a coin and
  `normalise_at` returns all of them, so two honest peers corroborate an answer that hands the caller a
  record both know to be false (`SetRound.RepeatedCoinsEscapeTheComparison`). Of an answer that survived the
  comparison every returned record is true, under every projection, if and only if no two records of one
  coin state different facts (`SetRound.ReturnedRecordsAreTrueIffConsistent`).
- **A subscriber can be told twice that its session began, or be cut off by it.** `open_session` takes the
  lock twice and its comment says nobody can be subscribed in between; somebody can. A subscription has two
  Resets in its stream if and only if it joined before the session's own Reset and anything has reached it
  since (`Resets.ToldTwiceIffJoinedEarly`; witness `Resets.ASubscriberCanBeToldTwice`). The session's own
  Reset terminates such a subscription instead if and only if its reader has hung up, or it holds one frame
  and has not read the Reset it opened with (`Resets.CutOffByTheOpeningIff`; witness
  `Resets.ASubscriberCanBeCutOffByTheOpening`).
- **A retry can go to the peer that just failed.** The comment at src/router.rs:209-210 says that the second
  attempt selects a different peer because the first failure ejects the peer. The retry refills the pool
  first, and a refill is kept only from addresses that are held (`PushTx.TheRetryCanRepeatItself`). The retry
  goes elsewhere, whatever its round robin comes to, if and only if that refill does not seat the failed
  address again (`PushTx.TheRetryGoesElsewhereIff`).
- **List agreement is not always order-insensitive.** `canonical_order` sorts by coin id alone, so a list
  that describes a coin in two ways disagrees with some reordering of itself, and only such a list does
  (`RecordLists.OrderIsIgnoredIffSingleValued`; witness `RecordLists.AReversalCanDisagree`).
- **Some claims can be imitated.** A record claim determines its record if and only if neither hash text of
  the coin contains a comma (`ChainClaims.RecordClaimIsUniqueIff`; witness
  `ChainClaims.CommasMakeClaimsAmbiguous`), an identity if and only if neither contains a colon
  (`ChainClaims.IdentityIsUniqueIff`), a block claim always does, and a spend claim under the condition of
  `ChainClaims.SpendClaimIsUniqueIff`. Texts from peers are hex (src/types/response.rs:260-266), and no other
  text imitates a claim over hex; the coinset JSON fills the same `String` fields with whatever it
  contains (src/types/response.rs:8-12).

## Model

| member | source | states |
|---|---|---|
| CoinCache.CoinStateCache.SetPeak | src/peer/light_client/cache.rs:63-65 | A bare peak announcement moves the cache as `update_peak` without permission to lower. |
| CoinCache.CoinStateCache.Get | src/peer/light_client/cache.rs:68-70 | A coin is found exactly when it is cached, with its cached state. |
| CoinCache.CoinStateCache.Seed | src/peer/light_client/cache.rs:76-80 | Seeding admits every state in turn through the one gate. |
| CoinCache.CoinStateCache.TrackCoins | src/peer/light_client/cache.rs:83-85 | The coin subscriptions grow by the ids given and nothing else changes. |
| CoinCache.CoinStateCache.TrackPuzzleHashes | src/peer/light_client/cache.rs:88-90 | The puzzle-hash subscriptions grow by the hashes given and nothing else changes. |
| CoinCache.CoinStateCache.UntrackCoins | src/peer/light_client/cache.rs:93-97 | The ids are no longer subscribed; what is cached stays. |
| CoinCache.CoinStateCache.ApplyUpdate | src/peer/light_client/cache.rs:137-182 | The whole update, in its fixed order: roll back, gate the fall of the peak, move the peak and sweep, admit the subscribed items. |
| CoinCache.CoinStateCache.Retain | src/peer/light_client/cache.rs:149-164 | The in-place rollback, in whatever order the map is visited, is the rollback of the map as a whole, and reports whether anything changed. |
| CoinCache.CoinStateCache.ChangePeak | src/peer/light_client/cache.rs:214-227 | The peak moves unless that would lower it without permission, and a peak that moves sweeps the coins above it. |
| CoinCache.CoinStateCache.Admit | src/peer/light_client/cache.rs:193-208 | A state enters unless it lies above the peak or would be a new coin in a full cache. |
| CacheInvariants.CacheAllBounds | src/peer/light_client/cache.rs:193-208 | Admission drops nothing, adds only what was offered and never takes the map past the cap. |
| CacheInvariants.CacheAllAt | src/peer/light_client/cache.rs:193-208 | An offered coin holds its last admissible state; it is missing only from a full cache. |
| CacheInvariants.EveryRunIsSound | src/peer/light_client/cache.rs:50-247 | Through any sequence of public operations with any input: no cached coin was created above the peak, every coin is under its own id, and the map never outgrows the highest cap it ever had. |
| CacheInvariants.UnmentionedCoinsFallBackToTheFork | src/peer/light_client/cache.rs:137-182 | After an update a coin that no subscribed item mentions is cached exactly when it was, existed at the fork and is not above the peak, and then with its state at the fork. |
| CacheInvariants.MentionedCoinsHoldTheLastItem | src/peer/light_client/cache.rs:137-208 | A coin that a subscribed item mentions holds its last admissible item, or else its surviving old state. |
| CacheInvariants.PeakFallsOnlyForAGenuineReorg | src/peer/light_client/cache.rs:137-182 | The peak falls only if the rollback dropped or unspent a cached coin and the fork lies below the old peak, and never below the fork. |
| CacheInvariants.ThePeakFallsIff | src/peer/light_client/cache.rs:165-181 | An update below the peak lowers it, to the update's own height and hash, if and only if it does not end below its fork and some cached coin that no subscribed item names was created or spent above the fork; otherwise the peak stands. |
| CacheInvariants.ThePeakRises | src/peer/light_client/cache.rs:165-227 | An update at or above the peak moves it. |
| CacheInvariants.UnsolicitedItemsChangeNothing | src/peer/light_client/cache.rs:137-182 | An item that nobody subscribed to, by id or by puzzle hash, changes nothing. |
| CacheInvariants.SetPeakIsARunningMaximum | src/peer/light_client/cache.rs:63-65 | A run of bare announcements keeps a running maximum and, over a sound cache that had a peak, drops no coin. |
| CacheInvariants.HighestIsTheMaximum | src/peer/light_client/cache.rs:63-65 | That maximum is one of the peaks heard and none heard is higher. |
| Chain.TruncationIsRollback | src/peer/light_client/cache.rs:114-136 | Rolling a chain's coin states back to a fork gives the states of the chain cut at the fork: the rollback's specification, from blocks. |
| Chain.ABlockAboveTheForkRollsOff | src/peer/light_client/cache.rs:149-164 | One block above the fork leaves no trace after the rollback. |
| Chain.SharedCoins | src/peer/light_client/cache.rs:114-136 | Two chains that agree up to a fork give every coin that existed there the same coin and creation height. |
| CacheRefinement.AdmittedWholeIffRoom | src/peer/light_client/cache.rs:193-208 | A batch at or below the peak is admitted whole if and only if it adds nothing new or the cap has room for all that is new. |
| CacheRefinement.UpdateIsRightAt | src/peer/light_client/cache.rs:137-208 | Coin by coin, after an honest update across any reorg a cached subscribed coin has the new chain's state, and a missing one was mentioned. |
| CacheRefinement.UpdateStaysGrounded | src/peer/light_client/cache.rs:137-208 | After an honest update every cached coin, followed or not, is a coin of the new chain and the peak is not behind its tip, even when the peak was not lowered. |
| CacheRefinement.UpdateMirrorsIffRoom | src/peer/light_client/cache.rs:137-247 | An honest update over a cache that mirrors the old chain mirrors the new one if and only if there was room for the coins it introduced. |
| CacheRuns.SubscriptionMirrorsIffRoom | src/peer/light_client/cache.rs:76-90 | The same for a subscription answered with states of the current chain. |
| CacheRuns.RunMirrorsIffRoom | src/peer/light_client/cache.rs:50-247 | In any honest run of updates, announcements, subscriptions and unsubscriptions, the cache mirrors the chain after every event if and only if every event had room. |
| CacheRuns.WhatIsFollowed | src/peer/light_client/cache.rs:83-97 | In any run what is followed is what was subscribed to, less the ids that were let go; nothing else changes it. |
| CacheRuns.FollowingCoinsAlwaysHasRoom | src/peer/light_client/cache.rs:240-247 | Coin-id subscriptions that are never dropped always leave room. |
| CacheRuns.FollowersAlwaysHaveRoom | src/peer/light_client/cache.rs:240-247 | So do subscriptions of either kind that are never dropped, while no followed puzzle hash has more than ten thousand coins on the chain. |
| CacheRuns.CacheRefinesTheChain | src/peer/light_client/cache.rs:137-247 | After any honest run, reorgs included, such a client's cache is exactly the chain's states of the coins it follows, by id or by puzzle hash. |
| CacheRuns.ApplyCoinStates | src/peer/light_client/mod.rs:464-481 | The drive loop's handling of one coin-state frame: the update, then untracking of every coin it says is spent. |
| CacheRuns.DriveLoopCanStarveAFollowedCoin | src/peer/light_client/mod.rs:464-481 | An honest run of that loop after which a followed coin of the chain is not cached. |
| LateAnswers.ALateAnswerMirrorsIff | src/peer/light_client/mod.rs:157-185 | With room for it, an answer given from any earlier chain leaves the cache mirroring the present one if and only if, for the coins asked for, the cache overwritten by the answer is what the chain holds. |
| LateAnswers.AFreshSubscriptionMirrorsIffUntouched | src/peer/light_client/mod.rs:157-163 | A client that held none of the coins it asks for mirrors the chain if and only if no coin it asked for was created or spent by a block added since the answer was given. |
| LateAnswers.ALateAnswerCanBeStale | src/peer/light_client/mod.rs:157-163 | An honest update and an honest answer after which a followed coin is cached as unspent and the chain has spent it. |
| ChainClaims.DecimalRoundTrips | src/types/chain_claim.rs:36-49 | A printed number reads back as itself. |
| ChainClaims.IdentityIsInjective | src/peer/set_agreement.rs:203-208 | A coin whose hash texts contain no colon shares its identity with no other coin, whatever that one's texts are. |
| ChainClaims.IdentityIsUniqueIff | src/peer/set_agreement.rs:203-208 | An identity determines its coin if and only if neither hash text contains a colon. |
| ChainClaims.RecordClaimIsUniqueIff | src/types/chain_claim.rs:36-49 | A record claim determines the coin, the height it was created at and whether and when it was spent if and only if neither hash text contains a comma. |
| ChainClaims.RecordClaimsAgreeIff | src/types/chain_claim.rs:36-49 | Two record claims are equal exactly when the amounts, heights and the two hash texts joined by a comma are. |
| ChainClaims.BlockClaimIsInjective | src/types/chain_claim.rs:80-89 | Equal block claims mean the same height, header hash and timestamp, whatever the hash text contains. |
| ChainClaims.SpendClaimIsUniqueIff | src/types/chain_claim.rs:54-63 | A spend claim determines its spend if and only if neither hash text contains a comma, the label of the solution occurs once in the program text, and that text does not end like a spend claim. |
| ChainClaims.HexSpendClaimIsUnique | src/types/chain_claim.rs:54-63 | No other spend, whatever its texts, has the claim of a spend in hex. |
| ChainClaims.HexIsPlain | src/types/chain_claim.rs:36-49 | Hex texts contain no separator. |
| ChainClaims.CommasMakeClaimsAmbiguous | src/types/chain_claim.rs:36-49 | Two different coins that render alike, through hashes that contain commas. |
| SetAgreement.Contradiction | src/peer/set_agreement.rs:336-369 | Nothing is reported exactly when the two fingerprints are equal, and whatever is reported is a real difference. |
| SetAgreement.NormalisationComposes | src/peer/set_agreement.rs:308-320 | Holding an answer to a peak and then to a lower height is holding it to the lower height. |
| SetAgreement.NormalisedFacts | src/peer/set_agreement.rs:308-320 | Normalising the records of an answer is cutting the chain facts they state at the height. |
| SetAgreement.NormalisedRecords | src/peer/set_agreement.rs:308-320 | A normalised answer holds exactly the records created by the height, each as it was but for a spend above the height. |
| SetAgreement.NormalisationKeepsOrder | src/peer/set_agreement.rs:308-320 | And it keeps their order. |
| SetAgreement.FingerprintsAgreeIffFactsDo | src/peer/set_agreement.rs:324-369 | An answer in hex, or any text without colons, has the fingerprint of another answer, whatever that one's texts are, if and only if they state the same facts about the chain. |
| SetAgreement.SupportIsSixBlocks | src/peer/set_agreement.rs:292-297 | An as-of height is supported once a peak is announced, from six blocks below it on. |
| SetAgreement.AgreementWithPlainIsPlain | src/peer/set_agreement.rs:324-330 | An answer that agrees with one without colons contains none either. |
| SetAgreement.HonestAnswerAtHeight | src/peer/set_agreement.rs:308-320 | An honest answer held to any height it has reached is the chain at that height. |
| SetAgreement.ProjectedFacts | src/peer/set_agreement.rs:374-386 | The caller's projection of records is the projection of facts. |
| SetRound.ReadSetCorroborated | src/peer/mod.rs:548-672 | The round over the pool: one voice for each other discovered host, the verdict on the sets that were returned, and exactly the failed sources ejected. |
| SetRound.OnlyFailedSourcesAreEjected | src/peer/mod.rs:548-600 | A round removes exactly the sources whose read failed; one that contradicts is kept. |
| SetRound.GradeSets | src/peer/mod.rs:600-672 | The grading loop ends in the verdict: any difference at the common height is a disagreement, and a floor of agreement in an armed pool, over a settled window, corroborates. |
| SetRound.CountAgreeing | src/peer/mod.rs:622-642 | Everyone whose set has the claimed print is counted, and disagreement is reported if and only if somebody's differs. |
| SetRound.EverySourceHasPassed | src/peer/set_agreement.rs:244-250 | The common height lies the settled margin below every source that answered, and not above the caller's end. |
| SetRound.TheCommonHeightIs | src/peer/set_agreement.rs:244-250 | There is a common height unless some source is below two, and it is the highest that lies two below every source and not above the caller's end. |
| SetRound.MoreSourcesOnlyLower | src/peer/set_agreement.rs:244-250 | Further sources, honest or not, can only lower the common height. |
| SetRound.HonestLagNeverDisagrees | src/peer/mod.rs:548-672 | Honest sources at any peaks never disagree: the round answers with the chain at the common height and is corroborated exactly when armed, numerous enough and settled. |
| SetRound.ARoundAnswersIffFactsAgree | src/peer/mod.rs:596-672 | Over an asked source with plain texts, a round with a common height is answered there if and only if everybody who answered states the same facts, and is refused as a disagreement otherwise. |
| SetRound.WithoutAHeightNothingIsAnswered | src/peer/mod.rs:607-614 | And a round without a common height is refused as uncorroborated. |
| SetRound.OneHonestSourceMakesItTrue | src/peer/mod.rs:548-672 | If any answering source is honest, a round that answers holds, before projection, exactly the chain's facts at its height. |
| SetRound.ThreeMustLie | src/peer/mod.rs:548-672 | A corroborated set is true unless at least three answering sources lied. |
| SetRound.ACorroboratedSetRestsOnTwoOtherHosts | src/peer/mod.rs:548-672 | A corroborated set was returned alike by two discovered machines, different from each other and from the one asked. |
| SetRound.ReturnedRecordsAreTrueIffConsistent | src/peer/set_agreement.rs:308-385 | Every record that a truthful round returns states a fact of the chain, under every projection, if and only if no two records of one coin state different facts. |
| SetRound.EachCoinIsStatedOnceIffDistinct | src/peer/set_agreement.rs:308-385 | And each coin is stated once if and only if no coin is named twice. |
| SetRound.RepeatedCoinsEscapeTheComparison | src/peer/set_agreement.rs:324-330 | A corroborated answer, agreed by two honest sources, that returns a coin all of them know to be spent as unspent. |
| SetRound.SettledSetIsSeconded | src/router.rs:154-190 | A set settled by an honest coinset that has reached its height is true. |
| SetRound.HonestTiersSettle | src/router.rs:154-190 | An honest peer set and an honest coinset always settle. |
| SetRound.RouterNeverReturnsALoneSet | src/router.rs:336-408 | Once a peer has answered, the router answers if and only if that peer's set was corroborated or the enabled coinset tier returned an equal one, and then with that set; a refusal is a disagreement exactly when the coinset tier was asked and answered. |
| SetRound.EqualSetsStateTheSame | src/router.rs:154-190 | Over plain texts, an equal set is one that states what the coinset tier's facts come to at the height, under the caller's projection. |
| SetRound.CoinsetAnswersAloneIff | src/router.rs:381-451 | When neither attempt was answered, the router answers if and only if the fallback is enabled, the coinset tier names a peak of at least two and its read succeeded; the answer is dated two below that peak or at the caller's end. |
| SetRound.AnHonestCoinsetAloneIsTrue | src/router.rs:416-451 | And an honest coinset tier is then answered with exactly the facts of the chain at that height that the caller asked for. |
| ScalarRound.CorroboratePresence | src/peer/mod.rs:342-423 | Every answer is collected before the verdict; the failed voices are reported in order. |
| ScalarRound.CorroborateAbsence | src/peer/mod.rs:431-493 | The same for an absence. |
| ScalarRound.ReadOptCorroborated | src/peer/mod.rs:317-339 | The round over the pool: readiness is the number of other discovered hosts, one voice is asked for each, and exactly the failed voices are ejected. |
| ScalarRound.VerdictIgnoresOrder | src/peer/mod.rs:366-411 | Permuting the corroborators' answers never changes the verdict. |
| ScalarRound.TheVerdictIs | src/peer/mod.rs:342-493 | The whole verdict from the answers alone: a disagreement if anybody who answered said something else, and otherwise the asked peer's own answer, as a fact exactly when the pool was armed and two voices answered. |
| ScalarRound.AFactNeedsTwoVoicesAndNoDissent | src/peer/mod.rs:103-105 | A fact is established if and only if the pool was armed before the round, two voices agreed and nobody who answered dissented. |
| ScalarRound.AFactRestsOnTwoOtherHosts | src/peer/pool.rs:783-801 | Those two voices are two discovered machines, different from each other and from the one asked. |
| ScalarRound.OneHonestAnswererMakesItTrue | src/peer/mod.rs:342-493 | One voice that answered truthfully makes whatever the round answers true. |
| ScalarRound.HonestRoundsAnswer | src/peer/mod.rs:342-493 | Honest peers never disagree however many time out, and establish the fact exactly when armed and numerous enough. |
| ScalarRound.AFalseFactTakesThreeLiars | src/peer/mod.rs:103-105 | A false fact takes the asked peer and two voices to lie. |
| ScalarRound.OnlyFailuresAreEjected | src/peer/mod.rs:403-407 | A round removes exactly the voices whose read failed; a peer that contradicts is kept. |
| ScalarRound.RouterAnswersIffSeconded | src/router.rs:267-328 | Once a peer has answered, the router answers if and only if the peer tier established the fact or the enabled coinset tier claims the same, and then it answers what that peer said. |
| ScalarRound.CoinsetAnswersAloneIff | src/router.rs:267-296 | When neither attempt was answered, the router answers if and only if the coinset tier is enabled and answered, and then what it said. |
| ScalarRound.RefusalsSayWhy | src/router.rs:82-131 | A refusal is a disagreement exactly when the coinset tier was asked and answered, and names the presence or the absence that nobody could second otherwise. |
| ScalarRound.RouterAnswersAreTrue | src/router.rs:267-328 | Rounds and router together: a false answer takes three lying peers in the round that was answered from, the retry's included, or its asked peer and the coinset tier, or the coinset tier alone once neither attempt answered. |
| Frames.FrameFanout.AllocateSession | src/peer/frames.rs:306-311 | A session gets a number of its own and nothing is listed or published. |
| Frames.FrameFanout.Subscribe | src/peer/frames.rs:264-289 | Only a listed session can be followed, and the new channel opens with its own Reset. |
| Frames.FrameFanout.OpenSession | src/peer/frames.rs:320-323 | The session is listed and then announced. |
| Frames.FrameFanout.Publish | src/peer/frames.rs:338-361 | One publication, sender by sender, is the publication as a whole. |
| Frames.FrameFanout.TryRecv | src/peer/frames.rs:187-194 | Reading takes the head of the queue and nothing else, and reports the end exactly when everything queued has been read and no follower list holds the sender. |
| Frames.PublicationIsExact | src/peer/frames.rs:338-361 | A publication adds one frame to exactly the followers of its own source that can take it, lets go of exactly those that cannot, and changes no other queue or list. |
| Frames.JoiningStaysWellFormed | src/peer/frames.rs:264-289 | No channel is ever on a follower list twice. |
| Sessions.SessionsStayOk | src/peer/pool.rs:504-528 | Every atomic step keeps: one number for each session, logs that fit their phase, only live sessions listed, only stopped ones recorded dead. |
| Sessions.PoolStaysOk | src/peer/pool.rs:1030-1059 | Every atomic step keeps the pool bounded, with distinct addresses and only seated sessions. |
| Subscriptions.EveryRunKeepsTheInvariant | src/peer/pool.rs:1114-1201 | The joint invariant of sessions, pool and subscriptions holds in every reachable state. |
| Subscriptions.SubscriptionsHaveNoGaps | src/peer/frames.rs:264-361 | Over every interleaving, what a subscription has read and has queued is a prefix of a Reset and everything published for its session since it joined; it is all of that while it is still registered; and the queue is bounded. |
| Subscriptions.SessionsSpeakTheProtocol | src/peer/pool.rs:1114-1201 | The frames of one session are Reset, then peaks and bounded coin updates, then at most one end, which is last. |
| Relay.FollowersAreToldWhatWasHeard | src/peer/pool.rs:1114-1268 | Over every run, what a session has published after its Reset, and is about to, tells in order and field by field of exactly the messages its handler heard, the one that stopped it included. |
| Relay.SubscribersAreToldWhatWasHeard | src/peer/pool.rs:1114-1268 | And so does every subscription, with no gap, from the time it joined. |
| Relay.ASessionCanComeUp | src/peer/pool.rs:1030-1059 | A session at an address that is not held, with room in the pool, can be seated, listed, announced and started. |
| Relay.ARunningSessionRelays | src/peer/pool.rs:1114-1201 | A running session publishes what it hears and runs on. |
| Relay.AStoppedSessionLeaves | src/peer/pool.rs:974-1007 | A session that is closed, garbled or flooded says so last and is listed no more, and the next maintenance sweeps it, the other dead and nobody else from the pool. |
| Relay.ALeaverIsLetGo | src/peer/frames.rs:338-361 | A subscriber that has left is let go at the next publication of its session, and is sent no more. |
| Relay.ASubscriptionEndsIff | src/peer/frames.rs:163-194 | A subscription has a sender exactly until a publication fails to reach it or its session ends. |
| Relay.AReadTakesTheHead | src/peer/frames.rs:187-194 | A read takes the head of the queue, while the reader listens. |
| Relay.EjectionsTakeExactly | src/peer/pool.rs:694-698 | An ejection takes the entries at the address and changes nothing else. |
| Relay.RotationsTakeOne | src/peer/pool.rs:846-864 | A rotation takes one discovered peer over age while there are any, and changes nothing else. |
| Subscriptions.ListedSessionsAreLive | src/peer/pool.rs:1114-1201 | A session is listed exactly while it is open and its handler has not finished, and only stopped handlers are recorded dead. |
| Subscriptions.FollowersLearnTheEnd | src/peer/frames.rs:338-361 | No subscription outlives its session unannounced: one that never lapsed has the end as its last frame. |
| Subscriptions.OnlyItsOwnSessionFeedsASubscription | src/peer/frames.rs:338-361 | No other session can add to a subscription's stream or terminate it, and a lapsed one never grows again. |
| Subscriptions.ThePoolIsBoundedAndDistinct | src/peer/pool.rs:1030-1059 | In every reachable state the pool is within its size and holds no address and no session twice. |
| Subscriptions.ASuccessorOutlivesItsPredecessorsDeath | src/peer/pool.rs:991-1007 | A replacement at a dead session's address is never removed by that death. |
| Subscriptions.AnnouncedPeaksOnlyRise | src/peer/pool.rs:1138 | No step lowers the peak that a held session has announced. |
| Subscriptions.SeatedEntriesGoBack | src/peer/pool.rs:1030-1059 | A session is seated at most once: an entry held after any further steps, whose session had been seated by then, is one that was held then, but for its peak. |
| Subscriptions.AnnouncedPeaksNeverFall | src/peer/pool.rs:1138 | Between any two points of a run at which a session is held, the peak it has announced has not fallen. |
| Relay.AnEntryCarriesTheHighestPeakHeard | src/peer/pool.rs:1138 | In every reachable state a held entry carries the highest peak its session has heard. |
| Resets.ASecondResetIffJoinedBeforeTheFirst | src/peer/frames.rs:320-323 | A second Reset is owed to a subscription if and only if it joined before the session's own Reset and that has been published. |
| Resets.ToldTwiceIffJoinedEarly | src/peer/frames.rs:264-323 | A second Reset is in a subscription's stream if and only if it joined before the session's own Reset and anything has reached it since. |
| Resets.CutOffByTheOpeningIff | src/peer/frames.rs:320-361 | A session's own Reset terminates a subscription that joined before it if and only if the reader has hung up, or the subscription holds one frame and its first is unread. |
| Resets.ASubscriberCanBeToldTwice | src/peer/frames.rs:313-323 | A reachable state in which a subscriber has two Resets. |
| Resets.ASubscriberCanBeCutOffByTheOpening | src/peer/frames.rs:313-361 | A reachable state in which a subscription with room for one frame has been terminated by the opening of its own, still listed, session. |
| PeerPool.Pool.Admit | src/peer/pool.rs:1030-1059 | A connection is seated exactly when there is room and its address is not held. |
| PeerPool.Pool.EjectPeer | src/peer/pool.rs:694-698 | The entries at the address go, the others keep their order. |
| PeerPool.Pool.EjectDeadSessions | src/peer/pool.rs:991-1007 | The recorded deaths are taken and exactly the entries they name, by address and session, go. |
| PeerPool.TheDeadLeave | src/peer/pool.rs:991-1007 | An entry leaves exactly when a dead session has both its address and its number. |
| PeerPool.Pool.EvictLaggingPeers | src/peer/pool.rs:925-967 | Exactly the discovered announcers too far behind the reference go, and their addresses are reported in order. |
| PeerPool.Pool.CycleExpiredPeers | src/peer/pool.rs:846-864 | At most the one expired entry admitted first goes, and it is the one reported. |
| PeerPool.Pool.Maintain | src/peer/pool.rs:974-979 | A maintenance pass ejects the dead, then the laggards, then the oldest, and then refills. |
| PeerPool.MaintenanceKeepsThePool | src/peer/pool.rs:974-979 | A pass keeps the pool within its size and its addresses distinct, whatever the refill brings. |
| PeerPool.RefillHoldsIff | src/peer/pool.rs:1030-1059 | After a refill an address is held if and only if it was before, or arrived while there was room. |
| PeerPool.Pool.SelectPeer | src/peer/pool.rs:579-587 | Round robin over the pool; none exactly when the pool is empty. |
| PeerPool.Pool.SelectPeerExcluding | src/peer/pool.rs:603-613 | Round robin, by the shared index, over the entries at other addresses; none exactly when there are none. |
| PeerPool.Pool.Corroborators | src/peer/pool.rs:793-801 | Exactly one entry for each discovered host other than the asked one, as many as there are such hosts. |
| PeerPool.Pool.CorroborationReadiness | src/peer/pool.rs:820-831 | Readiness reports the number of those hosts and is armed exactly at the floor. |
| PeerPool.Pool.IndependentPeerCount | src/peer/pool.rs:738-745 | The number of distinct discovered hosts. |
| PeerPool.IndependentVoicesBesideTheAsked | src/peer/pool.rs:738-831 | The two counts differ by one exactly when the asked host is itself a discovered host. |
| Median.ReferenceExceedsIffMajority | src/peer/pool.rs:1240-1247 | The reference exceeds a height if and only if more than half the announced peaks do. |
| Median.ReferenceIsPermutationInvariant | src/peer/pool.rs:1240-1247 | The reference does not depend on the order of the announcements. |
| Eviction.AWindowHoldingHalfIsSafe | src/peer/pool.rs:925-967 | If half the announcing discovered peers lie within the eviction bar of one another, none of them goes, whatever all others announce. |
| Eviction.APassRemovesAMinority | src/peer/pool.rs:925-967 | A pass over n announcing discovered peers removes at most (n - 1) / 2 of them and never lowers their reference. |
| Eviction.EvictionIsExact | src/peer/pool.rs:925-967 | A pass keeps every entry that is not a discovered announcer behind the bar and removes every one that is. |
| Eviction.EvictedIffMostAreFarAhead | src/peer/pool.rs:925-967 | A pass removes a discovered announcer if and only if more than half of them are more than six blocks ahead of it, and nobody else. |
| Eviction.EvictedAreNoLongerHeld | src/peer/pool.rs:925-967 | The addresses reported are exactly those that were held and no longer are. |
| Eviction.RotationTakesTheOldest | src/peer/pool.rs:846-864 | Rotation removes nothing unless a discovered peer has been held for five minutes, and then the one of those admitted first, the earlier listed on a tie. |
| Eviction.AMaintenancePassIs | src/peer/pool.rs:974-979 | A pass stage by stage, from the entries alone: the dead leave; of the rest, those that most announcers are far ahead of; then the oldest over age; then arrivals are seated behind the others until the pool is full. |
| Eviction.SettledAnswersAreFresh | src/peer/set_agreement.rs:292-297 | The bound itself, at one pass: with no end height, supported answers at announced peaks no lower than those at the pass settle at most 14 blocks behind its reference. |
| Freshness.SettledAnswersStayFresh | src/peer/set_agreement.rs:292-297 | In any run, after an eviction pass and any further steps, a round of supported answers by discovered peers that had announced by the pass and are still held is settled at most 14 blocks behind the reference of that pass. |
| DialSelection.FillBuckets | src/peer/pool.rs:197-222 | The candidates by subnet, in order of first appearance, priority candidates apart. |
| DialSelection.TakeOnePass | src/peer/pool.rs:223-237 | One pass takes the next candidate of every subnet that has one and reports whether any has more. |
| DialSelection.SpreadAcrossSubnets | src/peer/pool.rs:197-237 | The draining loops end, in the spread as a whole. |
| DialSelection.SelectMostCredible | src/peer/pool.rs:143-156 | Rank, first copy of each address, spread, truncate. |
| DialSelection.SpreadKeepsSubnetOrder | src/peer/pool.rs:197-237 | Within every subnet the spread keeps the round's order and loses nobody. |
| DialFairness.SpreadIsAPermutation | src/peer/pool.rs:197-237 | The spread loses no candidate and doubles none. |
| DialFairness.NoSubnetRunsAhead | src/peer/pool.rs:197-237 | At no point has a subnet two more places than another that still has candidates. |
| DialFairness.FirstPlacesCoverDistinctSubnets | src/peer/pool.rs:197-237 | The first j discovered places cover as many subnets as j places can. |
| DialFairness.TheRoundKeepsDistinctBestCandidates | src/peer/pool.rs:143-156 | A round keeps min(slots, addresses) candidates at distinct addresses, each the first copy of its address in the ranking. |
| DialFairness.TheRoundPrefersPriorityThenVariety | src/peer/pool.rs:143-237 | Priority candidates come first, and the discovered ones after them cover as many subnets as their number allows. |
| DialRanking.TheKeptCopyIsTheBest | src/peer/pool.rs:143-148 | The kept copy of an address is a priority one if any is, and the fastest of its origin. |
| DialRanking.TheLeftOutAreNoFaster | src/peer/pool.rs:143-156 | A candidate whose address is left out is no faster than any kept one of its subnet, or, if it is a priority one, than any kept priority one. |
| DialRanking.ASubnetLeftOutIsNoFaster | src/peer/pool.rs:197-237 | A discovered candidate of a subnet that has no place is no faster than any kept discovered one. |
| DialRanking.RivalsStandByHandshake | src/peer/pool.rs:143-156 | The kept priority candidates, and each subnet's kept ones, stand in ascending handshake, and ties as the round produced them. |
| DialRanking.PrioritiesHaveTheFirstPlaces | src/peer/pool.rs:143-237 | Priority candidates stand before discovered ones. |
| DialRanking.APriorityIsLeftOutForPrioritiesOnly | src/peer/pool.rs:143-237 | A priority candidate is left out only if priority candidates have every place. |
| StableSort.SortIsStable | src/provider_registry/registry.rs:215-219 | The sort sorts, permutes and keeps the order of equal keys. |
| StableSort.SortsAgreeIffKeysDo | src/provider_registry/registry.rs:360-367 | Two lists sort alike if and only if they agree key by key. |
| Registry.QuorumRead | src/provider_registry/registry.rs:374-414 | The first voice that the threshold of distinct groups agrees with is answered, and nothing is answered exactly when there is none. |
| Registry.VoicesAreFirstAnswers | src/provider_registry/registry.rs:384-402 | A group's voice is its first answer of acceptable size. |
| Registry.UnusableProvidersDoNotMatter | src/provider_registry/registry.rs:391-400 | A provider that fails or floods loses its own vote and changes nothing else. |
| Registry.AQuorumIsIndependentGroups | src/provider_registry/registry.rs:405-413 | Every quorum has the threshold of distinct groups behind it, each with a provider that answered the same. |
| Registry.OneGroupIsOneVoice | src/provider_registry/registry.rs:374-414 | Sources of one group never make a quorum. |
| Registry.CoinsetAloneIsNoQuorum | src/provider_registry/registry.rs:85-91 | Sources that can all reach coinset, registered as derived, never make a quorum. |
| Registry.CoinsetAndPeersMakeAQuorum | src/provider_registry/registry.rs:69-91 | One answering source that reaches coinset and one that cannot are quorum enough when nobody lies. |
| Registry.QuorumAnswersAreTrue | src/provider_registry/registry.rs:374-414 | With fewer dishonest groups than the threshold, an answered quorum agrees with the truth. |
| Registry.HonestGroupsReachTheQuorum | src/provider_registry/registry.rs:374-414 | With the threshold of honest groups answering, the quorum answers. |
| Registry.ProviderRegistry.Register | src/provider_registry/registry.rs:146-162 | A provider is appended with the operator's trust, or its kind's default. |
| Custody.OnlyALocalNodeIsTrustedByDefault | src/provider_registry/registry.rs:146-162 | Without the operator's word, the trusted sources are exactly the local nodes. |
| Registry.ProviderRegistry.constructor | src/provider_registry/registry.rs:119-123 | A new registry has no providers and the opt-in is off. |
| Registry.ProviderRegistry.AllowPublicQuorumCustody | src/provider_registry/registry.rs:131-141 | The opt-in is what the operator last said, and nothing else changes. |
| Registry.ProviderRegistry.CustodyRead | src/provider_registry/registry.rs:230-260 | Trusted sources when there are any, a quorum only if opted in, and otherwise nothing. |
| Registry.ProviderRegistry.DiscoveryRead | src/provider_registry/registry.rs:277-293 | The first provider by priority with an acceptable answer, or the last failure. |
| Custody.DiscoveryHearsTheFirstUsable | src/provider_registry/registry.rs:277-293 | Discovery answers if and only if some provider's answer is small enough, with one that no other such precedes by priority. |
| Custody.DiscoveryFailsAsTheLast | src/provider_registry/registry.rs:277-293 | When none is, it fails as the provider tried last does, an answer too large being a failure. |
| Custody.TrustedAnswersIffOneDoes | src/provider_registry/registry.rs:230-251 | With a trusted source registered, custody answers if and only if one of them does. |
| Custody.UntrustedSourcesHaveNoSay | src/provider_registry/registry.rs:230-251 | What untrusted sources say has no influence on that answer. |
| Custody.TheHeardSourceComesFirst | src/provider_registry/registry.rs:215-251 | No answering trusted source has a lower priority number than the one heard. |
| Custody.TiesGoToTheFirstRegistered | src/provider_registry/registry.rs:215-219 | Among equals the first registered is heard. |
| RecordLists.ListsAgreeIffEveryCoinDoes | src/provider_registry/registry.rs:336-367 | Lists agree if and only if they give every coin the same records in the same order. |
| RecordLists.AgreementIsAboutTheSameRecords | src/provider_registry/registry.rs:336-339 | Lists that agree hold the same records, each as often. |
| RecordLists.OrderIsIgnoredIffSingleValued | src/provider_registry/registry.rs:353-367 | Agreement ignores the order of a list if and only if the list describes no coin in two ways. |
| RecordLists.AReversalCanDisagree | src/provider_registry/registry.rs:353-367 | A list of one coin with two spent heights disagrees with its reversal. |
| RecordLists.ListQuorumsAnswerTheTrueRecords | src/provider_registry/registry.rs:336-414 | With fewer dishonest groups than the threshold, a quorum over lists answers exactly the true records, in whatever order the honest sources list them. |
| RecordLists.QuorumListsAreBounded | src/provider_registry/registry.rs:41-50 | A list has a voice exactly when it holds at most a hundred thousand records, and no quorum answers a longer one. |
| PushTx.IntrinsicReasonsAreWholeNames | src/mempool_refusal.rs:114-119 | A refusal is intrinsic exactly when its whole reason is one of the names, in any case, between blanks. |
| PushTx.Router.TryPushTx | src/peer/mod.rs:919-931 | At most one transmission, to the peer that the round robin comes to in the maintained pool, which is ejected exactly when it fails. |
| PushTx.Router.TryPushTxExcluding | src/peer/mod.rs:943-962 | At most one transmission, to the peer that the round robin comes to among those at other addresses, which is ejected exactly when it fails; none only if nobody else is held. |
| PushTx.Router.RetryThenCoinset | src/router.rs:211-239 | One more peer, then the coinset tier if it is enabled. |
| PushTx.Router.PushTx | src/router.rs:1195-1239 | At most two peer transmissions, the second after a refusal to another address and only if the refusal was not final; coinset only after every peer attempt failed in transport; admitted if and only if a peer that answered admitted; a peer that answered stays held. |
| PushTx.TheRetryGoesElsewhereIff | src/router.rs:209-222 | After a transport failure the retry goes to another address, whatever its round robin comes to, if and only if the refill in between does not seat the failed address again. |
| PushTx.TheRetryCanRepeatItself | src/router.rs:209-222 | A pool and a refill with which the retry goes to the peer that just failed. |
| Drift.DiffShapes | src/drift.rs:81-100 | The recursive comparison of two shapes. |
| Drift.DiffObjects | src/drift.rs:104-121 | Its two loops over the keys of each object. |
| Drift.NoDriftIffCompatible | src/drift.rs:46-121 | No line between the shapes of two responses if and only if they have the same keys and scalar types, up to an empty array on either side. |
| Drift.ShapesAreEqualIffAlike | src/drift.rs:46-73 | Two responses have one shape if and only if they differ only in scalars of the same type and in array elements after the first. |
| DriftReport.TheReportIsExact | src/drift.rs:81-121 | A line is reported if and only if it is true of the two trees at some place: nothing false, nothing missing. |
| DriftCount.DriftCountIsSymmetric | src/drift.rs:81-121 | There are as many lines whichever tree is the baseline. |

## Left out

- TLS, DNS, websocket dialling, timeouts, HTTP and wasm: a dial or a read is an arbitrary result.
- CLVM, block parsing and the check of a puzzle reveal against its hash: they rest on clvmr and chia_consensus, which are not part of this model.
- Hashing: a coin id is an attribute of the coin, and in `RecordLists` a number that stands for the coin.
- Error texts and logging: an error is its kind. A drift line is its kind, path and types, not its wording.
- Integer widths: heights, peaks, instants and session numbers are naturals. The source only compares heights, adds nothing to them, and subtracts saturating; the cap's saturating arithmetic is modelled. The session counter's wrap after 2^64 sessions is not.
- Refilling: which peers a refill dials. Its outcome is an argument of `PeerPool.Pool.Maintain`.
- Cancellation: a task dropped between seating a connection and starting its handler. The steps of one task otherwise interleave freely.
- Senders and receivers as separate heap objects: `Frames` keeps the channels in one list and follower lists hold positions in it.
- SetAgreement.Contradiction: does not fix which difference is reported first when there are several, because that is the key order of a map.
- ScalarRound.ReadOptCorroborated: does not let another task change the pool during the round, and starts from the pool that `pick` has maintained; the lemmas about the verdict take readiness and answers as arbitrary and so cover that.
- SetRound.ReadSetCorroborated: does not let another task change the pool during the round, in the same way.
- Frames.FrameFanout.OpenSession: does not show what happens between its two acquisitions of the lock, because a method is one uninterrupted effect; `Sessions` takes them as two steps.
- Frames.FrameFanout.TryRecv: `recv` also waits, which is not modelled; each reading is one `TryRecv`.
- The eviction step of `Sessions.Next`: it is atomic, while in the source an announced peak can be raised without the entries lock and the pass reads every peak twice.
- CacheRuns.CacheRefinesTheChain: does not cover clients that let coins go; `CacheRuns.RunMirrorsIffRoom` does, under its exact condition.
- LateAnswers.ALateAnswerMirrorsIff: does not say which part of a late answer is refused when there is no room for all of it.
- PushTx.Router.PushTx: an attempt that cannot build its wire message counts as an attempt that failed, though nothing was sent.
- Repeated eviction passes: the median moves after a removal, so a second pass may remove more; nothing is claimed about it.
- The read by parent ids: it concatenates rounds held to different heights and reports the lowest; each round is covered on its own.
- Paging through a puzzle-hash answer: a peer that never finishes keeps it going, so its end is not claimed.
- The coinset endpoint wrappers, the client facade, provider wrappers and the blocking bridge: delegation.
- `ordering.rs`, hex helpers and byte caps: they would add only easy members.
- Hinted coins that are cached though nobody subscribed to them: the refinement is about subscribed coins.
