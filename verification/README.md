# dig-account: a model of its minting, resuming, resolving, unlocking and editing

dig-account is a Rust wallet library that mints on-chain profiles (a DID singleton and a dig-store
launched from it, in two bundles), resumes reward-distributor mints from stored records, finds a
profile's store from its DID, holds an account unlocked for a bounded time, and edits published
profiles. This project restates those decisions in Dafny and proves what their callers rely on.

## How the world is modelled

- **Ids are free terms.** A coin id is `Of(parent, puzzleHash, amount)` or raw bytes that name no coin,
  so ids are injective and ancestry is structural and well-founded (`Base`). Committed roots and
  puzzle hashes are free terms in the same way. This is the one cryptographic assumption.
- **A chain is a sequence of blocks**, a block a set of atomic bundles and rewards; `Chain.Valid` states
  the consensus rules used. A reorganisation drops at most five tip blocks and never shortens the
  chain (`Follows`, `History`); five is one less than the confirmation depth of six.
- **A source answers reads by position.** `Source` is indexed by the position of a read in its call, so
  an adversary may answer one question differently a moment later. "One chain state per call" is the
  explicit predicate `Honest(source, view)`; `HonestAt` and `ReadFrom` answer each read from a chain of
  its own, and exactly when such answers can be trusted is proved, not assumed away.
- **Everything outside the code is a parameter**: chain answers, what another caller reserves between a
  selection and its claim, whether the unlock is live at each check, what the SDK drained, which
  signatures it says are required, and what the network answered.

## The modules

- `Base`, `Chain`: the shared vocabulary above, and the lemmas about burial and reorganisation.
- `Evidence`, `Status`: evidence constructors, and the two polled verdicts.
- `Resume`, `ResumeFinality`: resuming a reward-distributor mint from a stored record, and what later
  chains and split reads can change about the answer.
- `OwnBundles`: the bundles the library builds, shown to be those the verdicts speak of.
- `Resolver`, `WithheldSpends`: DID to store, over spends an untrusted source serves, and when a source
  that withholds some is still answered truly.
- `Unlock`: liveness tokens and the gate, as objects over a clock, against a step function.
- `Gates`, `Funding`: the five pre-signing root gates, the signing loop, coin selection, bundle shapes
  and the money arithmetic.
- `Push`: reading a push answer, and the request body.
- `Reservations`, `Journal`, `Ceremony`: the reservation table, the registry and the profile minter, each
  as an object whose methods are proved equal to a function of the old state.
- `CeremonySafety`: the invariant every run of the ceremony keeps. A run is any sequence of begins,
  advances, host records, other callers' reservations and releases, lapsing holds and restarts, at any
  indices, under any answers whatever. `CeremonyGuarantees` and `CeremonyProgress` say what the
  invariant is worth, `CeremonyRestarts` exactly what a restart costs.
- `ProfileBody`, `ProfileEditor`: batches of slot changes, reading, committing and publishing.
- `StoreHistory`: a store's lineage over a chain, and how long "confirmed" holds.

## What the ceremony proofs assume

- Within one process the registry a host passes to a call is the one the previous call left. A restart
  finds one the host saved at some point of the run, and no holds at all: `LocalReservations` is memory.
  Nothing assumes that it was saved in time; the theorems that need it say so (`Kept`), and
  `RestartIsSafeExactlyWhenAccounted` shows that they need no less.
- A crash inside a call is that call with its answer never heard, and then a restart from a registry
  saved before it.
- A hold ends by release, by lapsing at any moment between two calls, or in a restart. A hold lapsing
  inside the call that took it, abandonment of a mint by its host, hand-edited journal files, and
  DID-only mints at an index of a profile mint are outside the runs.
- Where inclusion is spoken of (`PaidOnce`), the network keeps its word: a bundle it carries is one that
  some push of it was not refused.

## Properties that are false as stated, and their exact conditions

- A `Failed` mint is not final under reorganisations (`FailedIsNotFinal`). It is final exactly when the
  spend it rests on has five blocks on top (`FailedIsFinalExactlyWhenBuried`).
- `Failed` is wrong of a live mint if a block arrives between the reads of one call
  (`StraddlingReadsMisreport`). Over a growing chain it is sound exactly when the spend is no later
  than the peak that call read first (`SplitFailedIsSoundExactlyWhenSpentByThePeak`).
- `LaunchDead` is wrong of a live launch if the reads straddle a reorganisation
  (`StraddlingReadsDeclareALiveLaunchDead`). It is sound if the spend was already five deep at a peak
  read before the others, and not otherwise wherever a reorganisation of that chain still has room for
  the launch at that height (`SplitDeadIsSoundExactlyWhenBuriedBefore`); the code reads its peak last.
- An account's own record can be called somebody else's, also after it was called dead: a mint asks for
  confirmed inputs, not buried ones, and a reorganisation can take one away (`DeadThenDisowned`). No later
  chain does so exactly when both inputs are buried (`NeverDisownedExactlyWhenBuried`); a record once
  dead stays dead exactly when its reward CAT is (`DeadStaysDeadExactlyWhenTheCatIsBuried`).
- A distributor that landed can read as `Failed`: exactly when its launcher confirmed below the height
  it was pushed at (`LandedLauncherFailsExactlyBelowItsPush`), where a reorganisation of the chain it was
  pushed on can put it (`LandedLauncherReadsAsFailed`).
- "Each half is pushed at most once, because it is journalled first" needs the journal to outlive the
  push. It is written to memory, so a crash before the host's next save buys the half again
  (`CrashBeforeTheSaveBuysTwice`). A restart is harmless exactly if the registry it finds accounts for
  every bundle that may land (`RestartIsSafeExactlyWhenAccounted`), which a save after every call
  ensures (`SavingEachCallIsEnough`) and only calls that pushed something live need
  (`SaveIsNeededExactlyAfterALivePush`).
- The coin of a bundle that may still land is not always held: a restart, or five minutes, frees it
  (`RestartUnguardsEverything`, `HeldExactlyWhileGuarded`), and another caller can then take it, exactly
  then (`RivalTakesACoinExactlyWhenUnguarded`). Two live bundles can share a coin in one way only, a
  store launch spending what its own DID was minted from (`SharedCoinWasForgotten`), and it is possible
  exactly when the coin is free (`LaunchMaySpendItsDidsCoinExactlyWhenFree`) and never if the launch
  reads one chain state (`OneChainNeverSharesACoin`).
- A confirmation is compared with the peak before the push by `<`, so the block that was the tip, which
  already existed, is accepted (`TheTipItselfIsAccepted`); nothing older is, and an accepted DID fails to
  postdate its push exactly at that height (`EvidenceIsNoOlderThanTheTip`).
- A spend outside the lineages of a gated bundle is not always refused: under the DID gate the parent of
  the root is let in (`ParentOfTheRootIsLetIn`). `DidGateAfterOneMore`, `StoreGateAfterOneMore` and
  `RootGateAfterOneMore` say exactly when one more spend is.
- The store gate's two coins need not be two: a DID coin spent twice can be both
  (`DoubledDidPassesTheStoreGate`). They are one exactly when the bundle spends the DID coin twice
  (`StoreGateConfines`, `StoreRootsCoincideExactlyWhenDoubled`).
- The resolver's completeness check counts coins. It pins the visited coins to the lineage exactly when
  the lineage contains the launcher, which the code does not check (`CompleteIffLauncherIsAMember`);
  a source that leaves the launcher out makes it report no store for a DID that has one
  (`LauncherLeftOutMisleads`).
- The completeness check does not catch every withheld spend: one intermediate's is enough for a DID
  with a store to be reported as having none, over a lineage served whole
  (`WithheldIntermediateReadsAsNoStore`). The answer of a withholding source is the true one exactly if
  it serves the launches of all live stores (`TrueExactlyWhenLaunchesAreServed`).
- A DID with one launch can be refused for having too many, by a served solution that repeats it
  (`RepetitionIsCounted`). The refusal is exactly of walks that meet more than eight
  (`TooManyExactlyWhenMet`).
- An edit's `Pushed` does not mean "not yet": one that landed reads so again once edited over
  (`SupersededReadsAsPushed`, and exactly then, `PolledExactlyWhileTheTipCommitsIt`).
- A retried edit is not "re-read rather than re-spent" on a chain that has not moved: it broadcasts
  again, a second spend of the same coin (`RetryOnAnUnmovedTipSpendsItAgain`), exactly until its root is
  anchored (`RetryPushesExactlyUntilAnchored`). No chain carries both spends.
- A lapsed unlock can come back: touching reads the clock twice, and a deadline that falls between the
  reads is undone (`TouchRevivesExactlyAcrossTheDeadline`). At one instant per call it is not.
- The refusal marker is matched case-insensitively and the pending assertions case-sensitively, so a
  refusal naming a pending assertion in lower case is read as final
  (`LowercaseAssertionIsReadAsRejected`), as is exactly any that names one in another case only
  (`MisreadExactlyWhenOnlyTheCaseDiffers`).

## Model

| member | source | states |
|---|---|---|
| Evidence.DepthTestIsBurial | src/mint/evidence.rs:195-222 | the saturating u32 depth test is the plain inequality over the naturals, future heights and u32::MAX included |
| Evidence.DidEvidenceIff | src/mint/evidence.rs:195-222 | a `MintedDid` exists exactly for a buried record of the awaited coin at a height the push allows |
| Evidence.StoreEvidenceIff | src/mint/store_evidence.rs:150-178 | the same for a store, and the evidence carries the DID coin the launch was built from |
| Evidence.DistributorEvidenceIff | src/mint/reward_distributor_evidence.rs:219-290 | a distributor needs burial and an advertisement of exactly its launcher and generation |
| Evidence.BuriedIsFinal | src/mint/evidence.rs:195-222 | a buried record served honestly stays true, at the same height, of every later chain |
| Evidence.DidIsFinal | src/mint/evidence.rs:195-222 | every `MintedDid` names a coin all later chains carry |
| Evidence.StoreIsFinal | src/mint/store_evidence.rs:150-178 | every `ConfirmedStore` names a coin all later chains carry |
| Evidence.DistributorIsFinal | src/mint/reward_distributor_evidence.rs:274-290 | every confirmed distributor names a coin all later chains carry |
| Evidence.FiveDeepIsReversible | src/mint/evidence.rs:195-222 | the depth is tight: a coin one block shallower can be reorganised away |
| Status.MintConfirmedStays | src/mint/did.rs:257-292 | `Confirmed` is absorbing, with the same evidence, reorganisations included |
| Status.DistributorConfirmedStays | src/mint/reward_distributor.rs:336-427 | the same for a distributor |
| Status.MintFailedStays | src/mint/did.rs:276-286 | on a growing chain a failed mint's bundle is never included and every later answer is `Failed` |
| Status.DistributorFailedStays | src/mint/reward_distributor.rs:336-427 | the same for a distributor, in all the ways it can fail |
| Status.FailedIsFinalExactlyWhenBuried | src/mint/did.rs:276-286 | under reorganisations a `Failed` is final if and only if its spend is five blocks deep |
| Status.FailedIsNotFinal | src/mint/did.rs:276-286 | a chain that reads `Failed` and a reorganisation of it that carries the bundle |
| Status.StraddlingReadsMisreport | src/mint/did.rs:263-286 | a block between two reads of one call makes a landed mint read as dead |
| Status.SplitFailedIsSound | src/mint/did.rs:257-292 | with reads split over a growing chain, a `Failed` whose spend is no later than the peak read first is true of every later chain |
| Status.SplitFailedIsSoundExactlyWhenSpentByThePeak | src/mint/did.rs:257-292 | and only then: a later spend may be the mint's own |
| Status.LandedLauncherFailsExactlyBelowItsPush | src/mint/reward_distributor.rs:392-426 | of a launch on chain and advertised the status says `Failed` exactly when its launcher confirmed below the push height, and otherwise waits for burial |
| Status.LandedLauncherReadsAsFailed | src/mint/reward_distributor.rs:392-426 | the chain a launch is pushed on and a reorganisation of it that carries the launch, below, and reads as `Failed` |
| Status.ReverifiedAgain | src/mint/evidence.rs:239-255 | a journalled DID that was buried is proved again on every later chain |
| Resume.AcceptanceIsSound | src/reward_distributor_mint.rs:244-514 | no source can get a record accepted unless both inputs are this account's and both launchers derive from the funding coin |
| Resume.ResumedByOneAccount | src/reward_distributor_mint.rs:244-283 | one record is never resumed by two accounts |
| Resume.LauncherPinsItsFunding | src/reward_distributor_mint.rs:400-482 | two accepted records of one distributor agree on its funding coin |
| Resume.BuiltRecordParses | src/reward_distributor_mint.rs:290-343 | the record of an own mint is consistent exactly when its push height is not zero |
| Resume.OwnRecordVerdict | src/reward_distributor_mint.rs:244-283 | over one honest view an own record is malformed only at push height zero, and somebody else's exactly when the source has no record of an input; each other verdict has its chain state |
| Resume.DisownedExactlyWhenAnInputIsGone | src/reward_distributor_mint.rs:353-386 | which is exactly when the chain carries the funding or the CAT coin no longer |
| Resume.AcceptedExactlyWhenLanded | src/reward_distributor_mint.rs:400-482 | a source that answers has the record accepted exactly when the launcher is on chain and the CAT known |
| Resume.DeadExactlyWhenBuried | src/reward_distributor_mint.rs:556-677 | and dead exactly when the launcher is absent, the funding spend buried and the CAT known |
| ResumeFinality.NeverDisownedOnceBuried | src/reward_distributor_mint.rs:353-386 | with both inputs buried no later honest answer calls an own record somebody else's |
| ResumeFinality.NeverDisownedExactlyWhenBuried | src/reward_distributor_mint.rs:353-386 | and an input short of burial has a later chain that does |
| ResumeFinality.DeadIsFinal | src/reward_distributor_mint.rs:556-643 | after `LaunchDead` no later chain includes the launch; every later answer is `LaunchDead` again, or, of a CAT the chain has dropped, somebody else's |
| ResumeFinality.DeadStaysDeadExactlyWhenTheCatIsBuried | src/reward_distributor_mint.rs:556-643 | the record is dead on every later chain if and only if its reward CAT is buried |
| ResumeFinality.DeadThenDisowned | src/reward_distributor_mint.rs:353-386 | a chain that says `LaunchDead` and a reorganisation of it that disowns the same record |
| ResumeFinality.StraddlingReadsDeclareALiveLaunchDead | src/reward_distributor_mint.rs:556-643 | with reads split across a reorganisation `LaunchDead` is said of a launch that is on chain |
| ResumeFinality.SplitDeadIsFinal | src/reward_distributor_mint.rs:244-283 | however its reads were split, a `LaunchDead` over a spend already five deep at a peak read before all of them is final |
| ResumeFinality.SplitDeadIsSoundExactlyWhenBuriedBefore | src/reward_distributor_mint.rs:556-643 | and only then, wherever a reorganisation still has room for the launch: a shallower spend may be its own, orphaned between the reads and back |
| OwnBundles.LaunchIsItsPending | src/mint/reward_distributor.rs:474-687 | the launch consumes and creates the coins its pending mint names, and that pending mint is one this account resumes |
| OwnBundles.LaunchNeedsItsTwoCoins | src/mint/reward_distributor.rs:474-687 | it needs the funding coin and the reward CAT from the chain and nothing else |
| OwnBundles.LaunchPassesItsGate | src/mint/reward_distributor.rs:640-656 | its own bundle passes its own gate exactly when this account may sign it and neither input is a child of what it spends |
| OwnBundles.LaunchBalances | src/mint/reward_distributor.rs:514-556 | the whole launch, CAT included, balances to the fee if the SDK's own spends create what they spend |
| OwnBundles.LandedLaunchIsResumed | src/reward_distributor_mint.rs:244-283 | the record of a launch that landed resumes as that launch |
| OwnBundles.OwnFailedMintStays | src/mint/did.rs:276-286 | a `Failed` read at the DID bundle itself: never included while the chain grows |
| OwnBundles.OwnFailedMintIsFinalExactlyWhenBuried | src/mint/did.rs:276-286 | and final under reorganisations exactly when the spend of its source coin is five deep |
| Resolver.EnumerateIntermediates | src/profile_resolve.rs:305-380 | the loop over the lineage equals its specification, early refusal at the ninth launch included |
| Resolver.EnumerationIsComplete | src/profile_resolve.rs:305-380 | on success exactly the lineage was visited and exactly its profile launches are listed |
| Resolver.NoCycle | src/profile_resolve.rs:359-370 | ids commit to their ancestors, so the cycle branch is unreachable against any source |
| Resolver.WithheldSpendRefuses | src/profile_resolve.rs:305-380 | a withheld spend behind any member but the launcher makes the enumeration refuse |
| Resolver.ResolveProfileStore | src/profile_resolve.rs:224-289 | the resolving loop, with its ordered map, equals its specification |
| Resolver.ResolutionIsExact | src/profile_resolve.rs:224-289 | none, one or many: the answer is the declarative set of the live stores the source serves below the lineage, unique DID coin named, ascending and complete |
| Resolver.WithheldMemberSpendIsAnError | src/profile_resolve.rs:299-380 | a source that withholds the spend behind a lineage coin gets an error out of the resolver, never an absence |
| WithheldSpends.TrueExactlyWhenLaunchesAreServed | src/profile_resolve.rs:224-289 | over a complete lineage, the answer of a source that only withholds is the true one exactly if it serves the launch of every live store |
| WithheldSpends.TrueExactlyWhenIntermediatesAreServed | src/profile_resolve.rs:388-425 | which, where the lineage goes on from every launching DID coin, is down to the intermediates' spends |
| WithheldSpends.WithheldIntermediateReadsAsNoStore | src/profile_resolve.rs:388-435 | one intermediate's spend withheld turns a resolved store into none, over a lineage served whole |
| Resolver.MintedStoreIsFound | src/profile_resolve.rs:224-289 | the store a profile mint launches is among the answers wherever its spends are served |
| Resolver.TooManyExactlyWhenMet | src/profile_resolve.rs:335-345 | a lineage is refused for its launches exactly when its walk meets more than eight intermediates, repetitions counted |
| Resolver.EightLaunchesAreAnswerable | src/profile_resolve.rs:335-345 | which, where no served spend creates one coin twice, is never a lineage that launched eight or fewer |
| Resolver.RepetitionIsCounted | src/profile_resolve.rs:335-345 | a served solution that creates one intermediate nine times over is refused as nine launches |
| Resolver.CompleteIffLauncherIsAMember | src/profile_resolve.rs:372-380 | the count pins the visited set to the lineage if and only if the lineage contains the launcher |
| Resolver.LauncherLeftOutMisleads | src/profile_resolve.rs:372-380 | a lineage without its launcher makes the resolver deny a live store |
| Unlock.AtMostOneLives | src/auth/policy.rs:206-284 | over all gate histories at most one issued token lives, the held one, and `is_unlocked` agrees with it |
| Unlock.DeadStaysDead | src/session_residency.rs:102-121 | with a monotone clock a dead token is dead for the rest of the run |
| Unlock.LivenessIsHistory | src/session_residency.rs:85-142 | a token lives at t exactly when never revoked and every gap from unlock through accesses to t is below the timeout |
| Unlock.EndingKillsEarlierTokens | src/auth/policy.rs:227-284 | lock, drop and a superseding unlock each kill every earlier token |
| Unlock.TouchRevivesExactlyAcrossTheDeadline | src/session_residency.rs:102-142 | with a tick between its two clock reads, touching revives a token seen dead exactly when the deadline falls between them |
| Unlock.Residency.Unbounded | src/session_residency.rs:75-80 | a token with no idle window starts live |
| Unlock.Residency.IdleBounded | src/session_residency.rs:85-96 | a bounded token's first deadline is one timeout away |
| Unlock.Residency.Touch | src/session_residency.rs:109-116 | touching extends a live window and never revives a lapsed one |
| Unlock.Residency.Revoke | src/session_residency.rs:119-121 | revoking kills the token at once; that it stays dead is `Unlock.DeadStaysDead` |
| Unlock.UnlockedAccount.Lock | src/unlocked.rs:265-270 | a handle's own lock is one step of its gate's history, on the token every handle of that unlock shares |
| Unlock.UnlockGate.constructor | src/auth/policy.rs:186-203 | a new gate has issued nothing |
| Unlock.UnlockGate.EndHeld | src/auth/policy.rs:227-231 | ending revokes the held token and holds none |
| Unlock.UnlockGate.Unlock | src/auth/policy.rs:236-256 | a refusal changes no token; a success ends the held one and issues exactly one more |
| Unlock.UnlockGate.Access | src/auth/policy.rs:258-269 | a handle on the held token with its window refreshed, or a relock |
| Unlock.UnlockGate.LockNow | src/auth/policy.rs:273-275 | a lock is one step that ends the held unlock |
| Gates.RequirementsAccepted | src/mint/did.rs:547-567 | requirements pass exactly when each is AGG_SIG_ME under an allowed key |
| Gates.RootSetIsLineage | src/mint/reward_distributor.rs:903-922 | a root set is the permitted one exactly when every spent coin descends from it through coins spent in the bundle |
| Gates.ReachesARoot | src/mint/did.rs:569-588 | walking up from any spent coin ends at a root |
| Gates.DidGateConfines | src/mint/did.rs:540-589 | an accepted DID mint signs only as this wallet and descends from one coin at its puzzle hash |
| Gates.DidGateAdmits | src/mint/did.rs:540-589 | and every such bundle that spends no coin twice is accepted |
| Gates.StoreGateConfines | src/mint/store_launch.rs:301-367 | an accepted launch descends from this mint's DID coin and one coin of this wallet, the DID coin itself exactly when that coin is spent twice |
| Gates.StoreRootsCoincideExactlyWhenDoubled | src/mint/store_launch.rs:332-366 | the roots of an accepted launch are the DID coin alone exactly then |
| Gates.StoreGateAdmits | src/mint/store_launch.rs:301-367 | and every such bundle that spends no coin twice is accepted |
| Gates.DoubledDidPassesTheStoreGate | src/mint/store_launch.rs:332-364 | a DID coin at the wallet's puzzle hash, spent twice, is accepted in both roles |
| Gates.DistributorGateIff | src/mint/reward_distributor.rs:866-923 | accepted exactly when requirements, quote form and the two named roots hold |
| Gates.RefillGateIff | src/mint/reward_distributor_refill.rs:324-344 | accepted exactly when confined to the four named roots |
| Gates.ClawbackGateIff | src/mint/reward_distributor_clawback.rs:354-374 | accepted exactly when confined to the five named roots |
| Gates.ExtraSpendIsRefused | src/mint/did.rs:569-588 | at all five doors one more spend outside the lineages, with nothing of the bundle under it, is refused |
| Gates.DidGateAfterOneMore | src/mint/did.rs:569-588 | the exact condition under which the DID gate accepts one more spend |
| Gates.StoreGateAfterOneMore | src/mint/store_launch.rs:332-366 | the same for the store gate |
| Gates.RootGateAfterOneMore | src/mint/reward_distributor.rs:903-922 | the same for the three doors that name their roots |
| Gates.ParentOfTheRootIsLetIn | src/mint/did.rs:569-588 | a wallet coin outside every lineage is accepted if it is the parent of the spent root |
| Gates.SignDistributorLaunch | src/mint/reward_distributor.rs:640-784 | the signing loop returns a signature exactly when the gate accepts and the security coin's requirement is listed, and it discharges each requirement once |
| Funding.SelectFundingCoin | src/mint/did.rs:355-420 | the selection loop equals its specification |
| Funding.SelectionIsExact | src/mint/did.rs:355-420 | the earliest smallest sufficient unreserved own coin; the two shortfalls exactly when they are true; `available` the largest own coin |
| Funding.NoiseIsInert | src/mint/did.rs:336-420 | foreign, unconfirmed or spent records anywhere in the listing change nothing |
| Funding.PaidFee | src/mint/did.rs:486-504 | the paid fee is the requested one, or one more exactly when the coin holds two beyond it |
| Funding.DidBundleBalances | src/mint/did.rs:437-484 | spent minus created is the paid fee and no two outputs of a coin collide |
| Funding.DidBundleIsItsPending | src/mint/did.rs:437-484 | the bundle spends the source and creates the DID coin its pending mint names |
| Funding.DidBundleNeedsOneCoin | src/mint/did.rs:437-484 | everything else it spends it creates itself |
| Funding.DidBundlePassesItsGate | src/mint/did.rs:507-589 | the mint's own bundle is never refused by its own gate |
| Funding.StoreBundleBalances | src/mint/store_launch.rs:246-277 | spent minus created is the fee, the launcher's mojo coming from the funding coin |
| Funding.SelectedCoversTheLaunch | src/mint/store_launch.rs:257-264 | selection hands out exactly the coins the launch can afford |
| Funding.StoreDescendsFromItsDid | src/mint/store_launch.rs:144-200 | the store coin names its DID coin three ids up, through the even-amount intermediate |
| Funding.StoreBundlePassesItsGate | src/mint/store_launch.rs:119-240 | the launch's own bundle passes exactly when its inputs are not each other's children and the funding coin is the wallet's |
| Funding.RewardBundleBalances | src/mint/reward_distributor.rs:457-556 | change is exact or refused, and the launch's XCH spends balance to the fee |
| Push.RejectedIff | src/mint/coinset_push.rs:193-251 | an answer is a refusal exactly when the body states one |
| Push.LowercaseAssertionIsReadAsRejected | src/mint/coinset_push.rs:223-251 | a refusal that names a pending assertion in lower case, and is read as final |
| Push.MisreadExactlyWhenOnlyTheCaseDiffers | src/mint/coinset_push.rs:223-251 | matching in any case would differ from the code on exactly the refusals that name an assertion in another case only, and would not call those final |
| Push.PrefixingIsExact | src/mint/coinset_push.rs:154-183 | every text leaf of a request is prefixed, nothing else changes, and a prefixed body is left alone |
| Reservations.ReserveIsAtomic | src/wallet/reservation.rs:215-251 | a claim takes every coin or none, and never one already held |
| Reservations.SelectAndReserveIsClean | src/wallet/reservation.rs:398-432 | under any interference a success is a fresh hold on exactly the chosen coin and a failure leaves nothing held |
| Reservations.LocalReservations.Reserve | src/wallet/reservation.rs:215-251 | the table after a claim |
| Reservations.LocalReservations.ReleaseHold | src/wallet/reservation.rs:253-256 | the table after a release |
| Reservations.LocalReservations.Claim | src/wallet/reservation.rs:398-432 | the bounded re-selecting loop equals its specification |
| Journal.ProfileRegistry.BeginSeededMint | src/registry/registry.rs:352-389 | an index takes one mint, and a refusal changes nothing |
| Journal.ProfileRegistry.AdvanceMint | src/registry/registry.rs:392-398 | only the stage of a journalled mint moves |
| Journal.ProfileRegistry.AbandonMint | src/registry/registry.rs:408-415 | only the one entry is forgotten |
| Journal.ProfileRegistry.RecordMintedProfile | src/registry/registry.rs:195-227 | a record builds the anchor first, so a refusal changes nothing |
| Ceremony.ProfileMinter.PrepareDidMint | src/mint/did.rs:202-248 | every failure after the claim gives the coin back |
| Ceremony.ProfileMinter.JournalAndPushDid | src/mint/profile.rs:175-199 | journal, then push, then keep or release by the answer |
| Ceremony.ProfileMinter.BeginProfileMint | src/mint/profile.rs:147-200 | the whole new state of a begin |
| Ceremony.ProfileMinter.JournalAndPushStore | src/mint/profile.rs:399-431 | the stage moves before the push and rewinds only on a refusal |
| Ceremony.ProfileMinter.LaunchStore | src/mint/profile.rs:312-431 | the whole new state of a launch |
| Ceremony.ProfileMinter.AdvanceProfileMint | src/mint/profile.rs:212-237 | an advance is a status and, on one answer only, a launch |
| CeremonySafety.StatusSpeaksOfItsStage | src/mint/profile.rs:253-304 | whatever the source, a status speaks only of the coins its stage names, and offers a launch only where none was pushed |
| CeremonySafety.PushDidSettles | src/mint/profile.rs:175-199 | a refused begin leaves journal and holds as if never tried |
| CeremonySafety.PushStoreSettles | src/mint/profile.rs:399-431 | a refused launch leaves its DID's stage and frees its coin |
| CeremonySafety.BeginKeepsSafe | src/mint/profile.rs:147-200 | begin keeps the ceremony's invariant under any answers |
| CeremonySafety.AdvanceKeepsSafe | src/mint/profile.rs:212-237 | so does advance |
| CeremonySafety.EveryRunIsSafe | src/mint/profile.rs:147-431 | the invariant holds in every run, restarts and lapsing holds included: one live bundle per half, journal entries name live bundles, halves pair, and the minter holds exactly for live bundles whose hold was not lost |
| CeremonyGuarantees.OneLiveBundlePerHalf | src/mint/profile.rs:28-30 | an index never has two bundles of one half that may both land, through any restarts that find their registry saved in time |
| CeremonyGuarantees.PaidOnce | src/mint/profile.rs:28-30 | however often a half was pushed, at most one bundle of it is ever carried |
| CeremonyGuarantees.EveryPushPaysItsFee | src/mint/profile.rs:140-144 | each bundle pays its disclosed fee, a DID at most one mojo more, never past the ceiling by more |
| CeremonyGuarantees.HeldExactlyWhileGuarded | src/wallet/reservation.rs:146-156 | the minter holds a coin exactly while some bundle it funds may land and neither a restart nor the clock has taken that bundle's hold |
| CeremonyGuarantees.HeldIffItMayLand | src/mint/profile.rs:185-198 | where nothing restarts or lapses, exactly while a bundle it funds may still land |
| CeremonyGuarantees.GuardedCoinsAreNotShared | src/mint/did.rs:178-193 | of a guarded bundle's coin there is no second guarded spender and no other holder |
| CeremonyRestarts.RestartIsSafeExactlyWhenAccounted | src/mint/profile.rs:24-30 | after a restart no half is ever bought twice if and only if the registry found accounts for every bundle that may land |
| CeremonyRestarts.SaveIsNeededExactlyAfterALivePush | src/mint/profile.rs:175-199 | the registry from before a call accounts for what may land exactly if the call pushed nothing live |
| CeremonyRestarts.CrashBeforeTheSaveBuysTwice | src/mint/profile.rs:24-30 | a crash between a push and the next save lets that half be bought again |
| CeremonyRestarts.SavingEachCallIsEnough | src/mint/profile.rs:24-30 | a registry saved after the last call accounts for everything |
| CeremonyRestarts.SharedCoinWasForgotten | src/wallet/reservation.rs:146-156 | two live bundles share a coin only as a DID and its own store, the first's hold lost before the second was pushed |
| CeremonyRestarts.LaunchMaySpendItsDidsCoinExactlyWhenFree | src/mint/profile.rs:312-398 | some answers make a launch spend the coin its DID was minted from exactly when nobody holds it |
| CeremonyRestarts.OneChainNeverSharesACoin | src/wallet/reservation.rs:154-156 | an advance that reads one chain state never spends a live bundle's coin, whatever was forgotten |
| CeremonyRestarts.RivalTakesACoinExactlyWhenUnguarded | src/wallet/reservation.rs:215-251 | another caller can take a free-standing coin exactly when every live bundle it funds has lost its hold |
| CeremonyRestarts.RestartUnguardsEverything | src/wallet/reservation.rs:146-156 | after a restart any live bundle's coin is taken by whoever asks first |
| CeremonyGuarantees.ConfirmedHalvesPair | src/mint/profile.rs:285-295 | any `Confirmed` in any run pairs, commits the seed it began with, and cannot be refused by the anchor |
| CeremonyGuarantees.StoreSpendsItsOwnDid | src/mint/store_launch.rs:130-137 | every store bundle spends the coin its own index's DID bundle creates |
| CeremonyGuarantees.LiveDidsAreDistinct | src/mint/did.rs:437-484 | two live DID bundles are two identities |
| CeremonyGuarantees.HandoffSucceeds | src/mint/profile.rs:32-40 | a host that records what it was told, where it was told, never fails on its own success value |
| CeremonyProgress.AdvancePushesOnEvidence | src/mint/profile.rs:24-30 | an advance pushes only on evidence read in that call, one bundle, from that DID's coin, at the disclosed fee |
| CeremonyProgress.BeginPushesOnlyWhatItMaySign | src/mint/did.rs:202-248 | a begin pushes only unlocked at both checks, within the ceiling, signed as this wallet alone, with the peak just read as its evidence floor; its answer is what was heard |
| CeremonyProgress.LaunchPushesOnlyWhatItMaySign | src/mint/profile.rs:312-398 | so does a launch, and only from the chain's own tip of the recorded DID |
| CeremonyProgress.EvidenceIsNoOlderThanTheTip | src/mint/did.rs:230-233 | no source can have a DID accepted from below the block that was the tip at its push, and one that does not postdate the push is at exactly that height |
| CeremonyProgress.TheTipItselfIsAccepted | src/mint/evidence.rs:195-222 | some source has one accepted from that block, whenever a chain can be five blocks longer |
| CeremonyProgress.LaunchOutcome | src/mint/profile.rs:312-431 | a launch touches neither journal nor network, or pushes once and settles |
| CeremonyProgress.APushedStoreIsOnlyWatched | src/mint/profile.rs:203-237 | after a launch is journalled as pushed, no number of advances changes anything |
| CeremonyProgress.LaunchedOnce | src/mint/profile.rs:203-237 | an unrefused launch is the last thing advancing pushes |
| CeremonyProgress.StagesOnlyMoveForward | src/mint/profile.rs:434-485 | no call loses a mint, changes its seed, fee or DID, or takes it back a stage |
| CeremonyProgress.BeginTouchesOnlyItsIndex | src/mint/profile.rs:147-200 | a begin never touches a mint already journalled |
| CeremonyProgress.IndexReleasedOnlyOnAStatedRefusal | src/mint/profile.rs:475-485 | an index and its coin are freed exactly when the response body states a refusal |
| CeremonyProgress.StageRewoundOnlyOnAStatedRefusal | src/mint/profile.rs:452-469 | a stage is rewound and its coin freed exactly then |
| CeremonyProgress.RefusedLaunchIsRetried | src/mint/profile.rs:434-469 | after a refusal the same chain says to launch again |
| CeremonyProgress.RegistryStaysValid | src/registry/registry.rs:503-624 | in every run, restarts included, indices are confirmed or in progress but not both, identities unique, anchors paired, fees bounded and heights real |
| CeremonyProgress.ConfirmedDidIsNeverLost | src/mint/profile.rs:513-558 | a DID once found confirmed is found again, unchanged, on every later chain |
| CeremonyProgress.ConfirmedProfileIsFinal | src/mint/profile.rs:285-295 | both coins of a confirmed profile stand in every later chain and every later answer is the same |
| ProfileBody.Preview | src/edit/batch.rs:134-143 | the preview, slot by slot, sets and removals in one batch |
| ProfileBody.ProjectStandardSlots | src/edit/read.rs:161-169 | exactly the standard slots that hold text |
| ProfileBody.CommitAgreesWithPreview | src/edit/batch.rs:129-158 | projecting the edited body is the preview of the projected body, for every body and batch |
| ProfileBody.UnnamedSlotIsUntouched | src/edit/commit.rs:180-183 | a slot the batch does not name is carried through |
| ProfileBody.SchemaVersionSurvives | src/edit/commit.rs:453-473 | no edit can change the schema version |
| ProfileBody.EditIsIdempotent | src/edit/commit.rs:229-246 | applying a batch twice is applying it once |
| ProfileBody.BatchIsItsKeystrokes | src/edit/batch.rs:31-37 | committing a batch leaves the body that making every change in turn would have left |
| ProfileEditor.Assemble | src/edit/read.rs:144-154 | the decoding loop equals its specification |
| ProfileEditor.AssemblyIsExact | src/edit/read.rs:138-154 | a body is assembled exactly when the answered slots are that body, in any order, and the format accepts it |
| ProfileEditor.ReadIsExact | src/edit/read.rs:82-110 | a profile is read exactly when the source answers the slots of the committed body, in any order, and the format accepts them |
| ProfileEditor.SchemaVersionIsUnremovable | src/edit/commit.rs:459-473 | the protected-removal guard can never fire |
| ProfileEditor.CommitIsWhatWasShown | src/edit/commit.rs:204-263 | whatever the preview showed is exactly the standard slots of the body committed |
| ProfileEditor.CommitKeepsTheRest | src/edit/commit.rs:180-183 | every slot the batch does not name, and the schema version, is as it was read |
| ProfileEditor.PushedEditRecreatesOurStore | src/edit/commit.rs:363-409 | a broadcast edit spends the tip of this wallet's own store and that coin alone, and signs only as this wallet |
| ProfileEditor.CommitIsExact | src/edit/commit.rs:204-263 | the exact condition for an edit to push, and that a refusal is only ever a heard one |
| ProfileEditor.OnlyAChangeIsPushed | src/edit/commit.rs:237-246 | an edit is confirmed on the spot exactly when it changes nothing |
| ProfileEditor.AnchoredEditIsNotPushedAgain | src/edit/commit.rs:237-246 | once anchored, committing the edit again pushes nothing, whatever the content source answers |
| ProfileEditor.AnchoredPushIsNotRepeated | src/edit/commit.rs:237-246 | the same after a push, answered or not, and polling confirms it |
| ProfileEditor.RetryPushesExactlyUntilAnchored | src/edit/commit.rs:14-19 | a retry that reads the profile as it was or as it was left broadcasts again exactly unless the pushed root is anchored |
| ProfileEditor.PublishIsExact | src/edit/commit.rs:311-356 | the exact condition for a wholesale publish to push, and what it commits |
| StoreHistory.OneTip | src/edit/read.rs:118-136 | a singleton that recreates itself at most once per spend has one unspent coin on a chain |
| StoreHistory.PolledExactlyWhileTheTipCommitsIt | src/edit/commit.rs:151-171 | an honest poll says confirmed exactly while that coin commits the root |
| StoreHistory.ConfirmedIsOnChain | src/edit/commit.rs:237-246 | whoever says confirmed, the chain carries an unspent coin of the store that commits that root |
| StoreHistory.CarriedEditStaysConfirmed | src/edit/commit.rs:14-19 | once that coin is buried, every later poll confirms it and a recommit pushes nothing, reorganisations included, until it is spent |
| StoreHistory.RetryOnAnUnmovedTipSpendsItAgain | src/edit/commit.rs:14-19 | a retry on an unmoved tip is the same spend of the same coin, and no chain carries two bundles that spend it |
| StoreHistory.SupersededReadsAsPushed | src/edit/commit.rs:50-62 | from any chain with the store on it, one where an edit has landed and is polled confirmed, and a later one where it has landed and is polled as pushed |

## Left out

- CLVM evaluation, puzzle currying, BLS and hashing: what a spend creates, and which signatures a bundle needs, are parameters; ids, roots and puzzle hashes are free terms.
- HTTP, JSON text, the keystore, key derivation and second factors: an index has one wallet key and puzzle hash; a response body is its `error` and `status` strings.
- Push.PrefixAll: the request tree is rewritten as a value; the source rewrites it in place.
- Journal.ProfileRegistry.RecordMintedProfile: records no label and no active slot; visibility and recorded melts are not part of this model either, and the registry's two vectors, kept sorted by index, are maps.
- CeremonyProgress.RegistryStaysValid: leaves out the rules on the active and hidden profile, on DID strings and on end heights, because the state they speak of is not part of this model.
- Journal.IdentityHeld: which index already holds an identity is not reported, only that one does.
- Reservations.LocalReservations.Reserve: does not expire lapsed holds itself; a run lets any hold lapse between two calls (`CeremonySafety.Step`).
- Reservations.LocalReservations.Claim: the same.
- Resume.Minter: the manager singleton's amount comes from a dependency whose source is not part of this model, so it is a parameter.
- ProfileBody.SCHEMA_VERSION: its number comes from the profile schema's own crate, which is not part of this model; only its difference from the ten standard slots is used.
- ProfileEditor.AssembleBody: the body format's size and non-emptiness rules are one arbitrary predicate, `fits`; the sort is written out as an insertion.
- Unlock.UnlockGate: each gate call happens at one clock instant; what a tick inside a touch does is `Unlock.TouchRevivesExactlyAcrossTheDeadline`. Atomic orderings are not part of this model.
- Status.MintFailedStays: holds for a chain that grows; `FailedIsFinalExactlyWhenBuried` says what survives a reorganisation.
- Liveness: a mint journalled but never broadcast, or evicted, waits forever by design; only safety is claimed.
- Funding.RewardBundleBalances: the XCH side only; `OwnBundles.LaunchBalances` carries it to the whole launch.
- OwnBundles.LaunchSpends: the spends the SDK drains beside the funding coin, its settlement, the security coin and the reward CAT are an arbitrary `rest` that spends only what the launch makes.
- ResumeFinality.SplitDeadIsSoundExactlyWhenBuriedBefore: speaks of chains at least seven blocks short of the largest u32 height, so that the later chains it names have heights.
- OwnBundles.LaunchBalances: assumes that the SDK's own spends create what they spend.
- ProfileEditor.PushedEditRecreatesOurStore: the recreated store is the tip with its root replaced, standing in for what the SDK's update creates; `StoreHistory.Recreation` is the coin that is.
- Resolver.Served: answers by coin, not by the position of the read; the resolver asks about each coin of a lineage once.
- StoreHistory.OneSuccessor: that one spend of a singleton creates at most one coin of it is the singleton puzzle's own rule, taken as a consensus rule here.
- The refill and clawback builds around their root gates, and the mapping of their errors.
- Melting, `chain_confirm`, `model`, the money path of `wallet` other than reservations, and discovery: straight-line checks that would only add easy members.
