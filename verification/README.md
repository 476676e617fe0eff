# aggre-api: verified models

Dafny models of the parts of the aggre-api gateway that hold state, money or arithmetic, with proofs about every input,
every run and, where goroutines meet, every interleaving. `dafny verify dfyconfig.toml` checks the whole project.

- **Order lock and settlement** (`OrderLock`, `TopUpSettlement`, `SettlementRuns`, `InviteReward`). Each statement of `LockOrder` and `UnlockOrder` that
  touches shared state is one step of a thread over a heap of reference-counted mutexes. An inductive invariant over all
  interleavings gives mutual exclusion, exact reference counts, no leaked entry and no deadlock. Payment callbacks and
  manual completions run on top of it and credit an order at most once, and exactly once unless a statement fails or the
  order is worth nothing; who then gets the invite reward, and how often, is
  decided over all interleavings of the handlers of different orders.
- **Relay** (`Billing`, `RetryLoop`, `RetryLaws`, `Relay`, `TaskRelay`). The billing session with its pre-consume, settle and refund;
  channel selection across auto groups; the retry loop with an exact bound on attempts, when another round follows and
  what a run ends with; and what a relayed request or
  task finally costs. `RequestBody` proves that every attempt reads the whole body.
- **Wallet purchase** (`WalletPurchase`). Conservation of one user's quota over interleaved purchases.
- **Prices** (`RatioDiff`, `PriceSelection`, `SortedStrings`). The multi-pass difference table equals a one-line
  specification; the tolerant minimum does not drift because providers are visited in order.
- **Rate limiter** (`RateLimiter`). The bounded queue with its sweep decides as counting the whole history would.
- **Model reconciliation** (`ModelReconcile`, `Names`, `Text`). Ordered sets of names, and when detecting and applying
  reaches a fixpoint.
- **Multi-key channels** (`MultiKey`, `KeyAppend`, `KeyRuns`, `KeyStatusPages`). A key text and three index maps refine a list of
  key records, over whole sequences of requests.
- **Bodies and audio** (`BodyStorage`, `DiskUsage`, `RequestBody`, `OggWalk`). Two storages behind one interface, exact
  usage counters, and the resynchronising walk over Ogg pages (section 6 of RFC 3533).

What the outside world decides (a database call failing, an upstream answer, the clock, map order, random channel
choice) is a parameter that the theorems quantify over. Floating point numbers are reals. Quotas are integers without a
width.

## What the code does not do

Properties that fail are shown to fail on an input, with the exact condition under which they hold.

- The invite reward, promised at most once per invitee, is granted again to an invitee who has a new invitee of their own:
  `inviteUser` reads the inviter's whole row and later writes it back, and with it an old `aff_reward_settled`
  (`InviteReward.RewardedAtMostOnceIff`, `InviteReward.RewardedTwice`). In the same way it takes back credits the inviter
  got in between (`InviteReward.QuotaAddsUpIff`, `InviteReward.CreditLost`).
- A retried request can make more than `RetryTimes + 1` attempts: an auto token moves on to the next group with a fresh
  counter (`RetryLoop.WithinRetryTimesIff`).
- With a negative `RetryTimes` a request is admitted, never tried and not answered, and keeps its advance
  (`Relay.NeverTriedIff`); a task then uses a missing result (`TaskRelay.RelayTaskRequest`).
- A comment in `Settle` says that a team member's use is counted once; it is counted again for every settlement the
  funding source turned down before (`Billing.CountedOnceIff`). Settling after a refund charges too little
  (`Billing.SettleAfterRefund`, `Billing.FundsDueIff`).
- The rate limiter is exact only if a queue outlives the window and the limit is at least one (`RateLimiter.ExactIff`).
- Applying all pending models does not converge for a name with a comma, or when an added name is itself a `regex:`
  ignore rule that hid another name (`ModelReconcile.ConvergesIff`, `ModelReconcile.RuleNameUncovers`).
- Batch and scheduled detection load channels without their model mapping. They find what the detection of one channel
  finds only if redirects make no difference, and otherwise want to undo them (`ModelReconcile.BatchAgreesIff`,
  `ModelReconcile.RedirectUndone`).
- `delete_disabled_keys` on a channel whose keys are all automatically disabled reports them deleted, keeps them all and
  enables them, because an empty key text is not written (`MultiKey.Channel.DeleteDisabledKeys`).
- Deleting a key can take others with it, enable disabled ones and leave times and reasons without a key, when a blank
  key comes first or last, a key has several lines (as an item of a stored array may) or the text happens to be an array
  (`MultiKey.StorableIff`, `MultiKey.RereadIff`, `MultiKey.DeletionTakesTwo`).
- Appending to a channel whose key text starts with a bracket and is no array replaces all its keys. Array items of
  several lines are split by an append, and a new key takes over a time or reason left at its index
  (`KeyAppend.UnseenKeysAreLost`, `KeyAppend.AppendedRecords`, `KeyAppend.LeftoverTimeReappears`).
- Two channels of one name can hide a real price difference (`RatioDiff.KeptIff`, `RatioDiff.SharedNameHidesDifference`).
- A body longer than its declared length, such as a decompressed one, can push disk usage over the limit
  (`DiskUsage.RunStaysWithinIff`, `DiskUsage.LongerBodyExceedsLimit`).
- The Kling and Jimeng adapters rewrite the request body, but a storage of the old one is still there and is what attempts
  read (`RequestBody.RewrittenIff`, `RequestBody.RewriteIsIgnored`). An adapter that forgets an open storage does not close
  it, so it stays counted after the request (`RequestBody.GivenBackIff`, `RequestBody.ForgottenStaysCounted`).
- With `MaxRequestBodyMB` at most zero the middleware refuses bodies over 32 MB, although the storage would take 128 MB
  (`RequestBody.MiddlewareDecides`).
- An empty read tells the two storages apart (`BodyStorage.RunsAlikeIff`, `BodyStorage.EmptyReadTellsApart`).

## Model

| member | source | states |
|---|---|---|
| OrderLock.DoKeepsInv | controller/topup.go:383-412 | one step of any thread, anywhere in the two functions, keeps the invariant of table, counts, mutex bits and `createLock` |
| OrderLock.RunKeepsInv | controller/topup.go:372-412 | the invariant holds after every interleaving of any threads and orders |
| OrderLock.MutualExclusion | controller/topup.go:383-412 | in every reachable state at most one thread is between the two calls for an order, and all that use the order refer to the one object in the map |
| OrderLock.RefCountIsUserCount | controller/topup.go:376-412 | `refCount` is the number of threads waiting for, holding or still releasing the object |
| OrderLock.UnlockNeverMisses | controller/topup.go:398-412 | the load in `UnlockOrder` always finds the object its caller locked, and an unlocked mutex is never unlocked |
| OrderLock.UnusedOrderHasNoEntry | controller/topup.go:398-412 | when no thread is involved with an order, the map has no entry for it |
| OrderLock.SomeThreadCanAdvance | controller/topup.go:383-412 | no deadlock: while a call is in progress and nobody holds an order, some thread can go on |
| OrderLock.LeftOnlyByHolding | controller/topup.go:383-395 | in every state, whatever any thread does, a thread in `LockOrder` stays in it for its order or holds the order, which takes its own step and a free mutex |
| OrderLock.HeldUntilUnlock | controller/topup.go:383-412 | an order is held until its holder calls `UnlockOrder` |
| OrderLock.LeftOnlyByReturning | controller/topup.go:398-412 | in every reachable state a thread in `UnlockOrder` stays in it for its order or returns |
| OrderLock.StoppedOrNearer | controller/topup.go:383-412 | in every reachable state a thread in a call is stopped by a taken `createLock` or by another thread between the calls for its order, and otherwise its step brings it nearer to the end |
| TopUpSettlement.DoKeepsInv | controller/topup.go:465-495 | every statement of every handler, the invite reward included and with any of them failing, keeps the books sound |
| TopUpSettlement.RunKeepsInv | controller/topup.go:465-495 | the books are sound after every interleaving of inserts, callbacks and manual completions |
| TopUpSettlement.CreditedAtMostOnce | controller/topup.go:465-495 | an order is credited at most once, only once it is marked paid, to its buyer, with the worth of its amount, or of its money if a Stripe order is completed by hand |
| TopUpSettlement.WorthPerUnit | model/topup.go:335-344 | that worth is the amount, or the money, times QuotaPerUnit without the fraction, toward zero |
| TopUpSettlement.WorthPerWholeUnit | controller/topup.go:484-486 | for a whole QuotaPerUnit an amount is worth the product itself |
| TopUpSettlement.PaidOrderCreditedOnce | controller/topup.go:476-492 | a paid order whose handler is past the quota increase has exactly one credit, or none if that increase failed |
| SettlementRuns.HandlerStarts | controller/topup.go:465-468 | a callback or manual completion on an idle thread starts a handler that waits for its order and has written nothing |
| SettlementRuns.HandlerStays | controller/topup.go:465-497 | over every run a thread has a job exactly while it waits for its order or holds it, and has done nothing while it waits |
| SettlementRuns.StatementsEnd | controller/topup.go:468-494 | every statement, failing or not, brings a handler nearer to its end |
| SettlementRuns.FailureWritesNothing | model/topup.go:317-367 | a failing statement writes nothing, and ends the handler unless it is the grant of the reward |
| SettlementRuns.HandlerFinishes | controller/topup.go:467-467 | a handler gives its order back when it is done and not before |
| SettlementRuns.HandlerSettlesIff | model/topup.go:317-374 | over every run, a handler of either kind that found its order pending and is through has credited it, once, if and only if none of its statements failed and the order is worth something to it; the order is marked paid exactly if credited or, for a callback, its increase failed |
| TopUpSettlement.QuotaIsInitialPlusCredits | model/user.go:541-582 | after every run a quota is its initial value plus the credits and invite rewards given, less what writing back an inviter's row took from it |
| InviteReward.DoKeepsRight | model/user.go:541-582 | every step of every handler keeps: only credited users claim, only invited ones not settled before are rewarded, and only rows of their inviters are written back |
| InviteReward.RewardIsDeserved | model/user.go:541-582 | over every interleaving of the handlers of any orders, a reward is QuotaForInvitee and goes to an invited user with a credited order whose reward was not settled before |
| InviteReward.DoKeepsOnce | model/user.go:547-577 | for a user whose row is not written back, every step keeps a settled reward in exactly one of: settled before, about to be granted by the claiming thread, granted once, missed |
| InviteReward.SettledUserRewardedOnce | model/user.go:547-577 | such a user, once settled and with no grant pending, has been rewarded exactly once, or never if it was settled before or the increase failed or adds nothing |
| InviteReward.RewardedTwice | model/user.go:346-379 | a run of three callbacks that rewards a user twice, for any user and rules that meet the condition |
| InviteReward.RewardedAtMostOnceIff | model/user.go:525-582 | given an amount the callback can credit, a user is rewarded at most once over every run if and only if there is no reward to get, or no unsettled invitee of the user exists, or QuotaForInviter is not positive |
| InviteReward.CreditLost | model/user.go:346-379 | a run in which writing back the inviter's row takes a credit of the inviter away |
| InviteReward.QuotaAddsUpIff | model/user.go:346-379 | given an amount worth something, a user's quota is the initial one plus credits and rewards over every run if and only if no unsettled invitee of the user exists or QuotaForInviter is not positive |
| WalletPurchase.CallKeeps | controller/subscription_payment_wallet.go:122-176 | each of deduct, activate, refund and expire, successful or not, keeps the balance, a quota of at least zero and rows that match the handlers |
| WalletPurchase.MoneyConserved | controller/subscription_payment_wallet.go:122-176 | over every interleaving the quota is not negative, and initial quota and deposits equal the quota plus completed, in-flight and lost costs |
| WalletPurchase.PurchaseFollowsCalls | controller/subscription_payment_wallet.go:122-176 | over every interleaving phase and order row of a purchase are exactly what its own calls came to |
| WalletPurchase.MoneyFollowsCalls | controller/subscription_payment_wallet.go:122-176 | its money is spent exactly if the activation succeeded, gone exactly if the refund failed, and with the user exactly if it was not taken or was returned |
| WalletPurchase.PurchasesAreAsked | controller/subscription_payment_wallet.go:122-140 | every request for a positive cost becomes a purchase at that cost, in order |
| WalletPurchase.DepositsAreMade | controller/subscription_payment_wallet.go:122-176 | the deposits of the balance are those of the run |
| WalletPurchase.QuietUserPaidForActivePlans | controller/subscription_payment_wallet.go:122-176 | once nothing is in flight and no refund failed, exactly the activated plans have been paid for |
| Billing.OpeningIsFair | service/billing_session.go:160-203 | an accepted advance is on both sides what is due: nothing of a trusted wallet user, else the quota, at least one of a subscription or team; it is refused exactly if a call for it fails, and then costs nothing unless its rollback fails |
| Billing.CostOfRun | service/billing_session.go:40-147 | for every sequence of settle and refund calls and every pattern of failing database calls: the advance, less what the first refund before the first accepted settlement gives back, plus the difference of that settlement, each side by its own calls; a team member is counted for every settlement up to that one |
| Billing.FundsDueIff | service/billing_session.go:40-147 | the funding source is charged what is due if and only if there was no advance, or no working refund came before the accepted settlement, or, without one, the refund works |
| Billing.FirstCallDecides | service/billing_session.go:40-147 | without failures and with nothing settled after a refund, both sides cost what the first call says: the actual amount or nothing |
| Billing.NothingMoves | service/billing_session.go:91-147 | after a settlement nothing moves money, and after a refund no further refund does |
| Billing.SettleAfterRefund | service/billing_session.go:40-88 | settling after a refund charges the right amount if and only if there was no advance |
| Billing.RetriedSettlement | service/billing_session.go:40-88 | however often the funding source turns a settlement down first, the money comes out right and a team member is counted at every try |
| Billing.CountedOnceIff | service/billing_session.go:46-54 | a team member's use is counted once if and only if the first settlement is accepted, nothing was used or the amount equals the advance |
| Billing.BillingSession.SettleAt | service/billing_session.go:40-88 | the fields, the money and the result of `Settle`, for every combination of failing calls |
| Billing.BillingSession.GiveBack | service/billing_session.go:91-147 | the fields and the money after `Refund`, for every combination of failing calls |
| RetryLoop.SelectChannel | service/channel_select.go:83-162 | the search loop over auto groups takes the first group from the current one that has a channel, and leaves counter, flag and group index as specified |
| RetryLoop.FirstGroup | service/channel_select.go:106-130 | the group found has a channel at its priority and no earlier group from the start on has one at its own |
| RetryLoop.SettledUsesOne | service/channel_select.go:135-152 | whatever group gave the channel, the next increase of the counter leaves fewer possible attempts, cross-group resets included |
| RetryLoop.StepUsesOne | controller/relay.go:189-235 | every retried round leaves strictly fewer possible attempts, so the loop ends |
| RetryLoop.ObtainChannel | controller/relay.go:286-316 | the request's own channel first, then selected ones; a locked channel of a task is set up again only on a retry |
| RetryLoop.TakeRound | controller/relay.go:189-235 | one turn of the loop either ends the run or leaves the rest of it to the next round, with fewer attempts possible |
| RetryLoop.TryChannels | controller/relay.go:180-242 | the loop computes the specified run, notes the channels in order and applies the effect of each attempt once |
| RetryLoop.AttemptsBound | controller/relay.go:189-235 | no world makes a request attempt more often than `MaxAttempts` |
| RetryLoop.MaxAttemptsInGroups | service/channel_select.go:83-162 | that bound in closed form for auto groups: groups times (RetryTimes + 1) with cross-group retry, groups times RetryTimes plus one without |
| RetryLoop.BoundReached | controller/relay.go:189-235 | for every retryable failure there is a world in which exactly `MaxAttempts` attempts are made |
| RetryLoop.WithinRetryTimesIff | service/channel_select.go:106-154 | every run stays within RetryTimes + 1 attempts if and only if the channel is locked, the group fixed, RetryTimes zero or at most one auto group is left |
| RetryLoop.RunEndsWell | controller/relay.go:189-235 | all attempts but the last failed in a way that may be retried, and there is no error exactly when the last one succeeded |
| RetryLoop.ChannelsInOrder | controller/relay.go:251-255 | the used channels are those of the rounds, in order |
| RetryLaws.AgainIff | controller/relay.go:318-348 | the decision to retry, in the fields of the failure: never with affinity or after a violation; a channel error always; else with retries left, no channel asked for, skip not set, and a status that is no success and no HTTP status or a retried one no skip rule covers; tasks by their fixed statuses (controller/relay.go:607-647) |
| RetryLaws.DefaultRanges | setting/operation_setting/status_code_ranges.go:23-38 | by default every HTTP status but a success, 400, 408, 504 and 524 is retried |
| RetryLaws.NormalizedFields | service/violation_fee.go:56-71 | a violation is reported as no channel error and not to be retried, with its status |
| RetryLaws.ChannelLaw | controller/relay.go:286-316 | which error leaves a round without a channel: none at first, the set-up of a locked channel on a retry, else that no group from the current one on has a channel, or the set-up |
| RetryLaws.GoesOnIff | controller/relay.go:189-242 | in every run another round follows if and only if the round had channel and body, its attempt failed in a way that is retried, and the counter allows one more or starts again |
| RetryLaws.FixedGoesOnIff | controller/relay.go:189-242 | with a fixed group or a locked channel, if and only if fewer than RetryTimes rounds came before and the failure is retried |
| RetryLaws.EndsWith | controller/relay.go:189-242 | a run ends with its last round: with the missing channel, the unreadable body, the success, or the reported failure of its attempt |
| RetryLaws.FinedIff | service/violation_fee.go:73-82 | a request pays the violation fee if and only if its last round ends in the violation that is fined |
| Relay.RelayRequest | controller/relay.go:67-242 | an early error costs nothing, a refused advance what its rollback leaves, and neither attempts anything; otherwise attempts, channels, error, charge and fee are the specified ones, with one refund exactly on error |
| Relay.AdmittedIff | controller/relay.go:160-170 | a request is let in if and only if there is no early error and it is free or no call for what is due in advance fails |
| Relay.RequestCost | controller/relay.go:160-178 | whichever database calls fail, each side of a billed request costs the first settlement that goes through; without one, nothing if the run ends in an error and the refund works, and otherwise the advance |
| Relay.RequestCostWithoutFailures | controller/relay.go:160-178 | without failures both sides cost the same and a team member is counted once |
| Relay.RequestAnswered | controller/relay.go:189-242 | with RetryTimes at least zero there is no error exactly when the last attempt succeeded, all others failed retryably, and every used channel is noted |
| Relay.NeverTriedIff | controller/relay.go:189-189 | an admitted request ends without attempt and without error if and only if RetryTimes is negative |
| Relay.ViolationEndsRun | service/violation_fee.go:56-71 | an attempt that fails with a violation is the last one, whatever kind of error it was |
| TaskRelay.AccountUntouched | relay/relay_task.go:205-211 | an account is opened by one of the attempts with the advance paid that is due even of a trusted user; refused advances lose only what their rollbacks fail to give back |
| TaskRelay.AccountStays | relay/relay_task.go:205-211 | the account that is opened first stays, and nothing is lost after it |
| TaskRelay.AttemptGoes | relay/relay_task.go:205-211 | an attempt goes as the upstream has it, except that it fails exactly if it asks for an advance and a call for it fails |
| TaskRelay.LostIsKept | relay/relay_task.go:205-211 | the lost token quota is that of the advances that took it, failed on the funding source and were not rolled back |
| TaskRelay.RelayTaskRequest | controller/relay.go:479-597 | exactly one of an error with each refund that works and a recorded task charged its quota, or its advance if the settlement is turned down; neither, exactly when RetryTimes is negative; attempts within the bound |
| TaskRelay.EndsOneWay | controller/relay.go:510-558 | a run of task attempts ends in an error or with a success, unless none may be made |
| TaskRelay.SuccessHasAccount | relay/relay_task.go:205-211 | a successful attempt on a model that is not free has an account: a refused advance fails the attempt |
| RateLimiter.AdmitIsExact | common/rate-limit.go:45-70 | a queue that stands for the history admits exactly when fewer than max admitted requests are younger than the duration |
| RateLimiter.AdmitKeepsTied | common/rate-limit.go:45-70 | a decision keeps the queue standing for the history |
| RateLimiter.SweepKeepsTied | common/rate-limit.go:28-42 | so does a sweep, if the expiration is at least the duration less one second |
| RateLimiter.ExactOverEveryRun | common/rate-limit.go:28-70 | after any requests and sweeps on a clock that does not go back, the decision is that of counting the whole history, and no window admits more than max |
| RateLimiter.ExactFailsOtherwise | common/rate-limit.go:28-70 | for any other limit there is a run after which too many are admitted |
| RateLimiter.ExactIff | common/constants.go:177-178 | the limiter is exact on every run if and only if max is at least one and expiration at least duration less one second |
| RateLimiter.InMemoryRateLimiter.constructor | common/rate-limit.go:14-26 | an empty limiter counts exactly under limits that meet the condition |
| RateLimiter.InMemoryRateLimiter.Request | common/rate-limit.go:45-70 | the decision and the new queue for any call, and the exact count of young admissions for a key used with its own limit; other keys keep their queues |
| RateLimiter.InMemoryRateLimiter.ClearExpiredItems | common/rate-limit.go:28-42 | one pass, in any key order, deletes exactly the expired queues and keeps the count exact |
| ModelReconcile.NormalizeNormal | controller/channel_upstream_update.go:77-82 | normalising gives trimmed, non-empty, distinct names, exactly those of the input, and leaves such lists alone |
| ModelReconcile.MergeModelNames | controller/channel_upstream_update.go:84-98 | the loop computes the merged list |
| ModelReconcile.MergedNames | controller/channel_upstream_update.go:84-98 | merging is set union on normal lists |
| ModelReconcile.SubtractNames | controller/channel_upstream_update.go:100-109 | subtracting is set difference on normal lists |
| ModelReconcile.IntersectNames | controller/channel_upstream_update.go:111-120 | intersecting is set intersection on normal lists, and the identity below the allowed set |
| ModelReconcile.SelectedChanges | controller/channel_upstream_update.go:122-127 | the new list is origin and then added names, each once in order of first occurrence, without what is removed and not added |
| ModelReconcile.PendingNames | controller/channel_upstream_update.go:156-215 | name by name, what is pending to be added and removed |
| ModelReconcile.RuleLaw | controller/channel_upstream_update.go:194-200 | a rule that starts with `regex:` goes by the trimmed rest, any other is a name |
| ModelReconcile.StoredPending | controller/channel_upstream_update.go:340-387 | a check stores the pending removals, and the additions unless they were taken over, and nothing else |
| ModelReconcile.SelectedNames | controller/channel_upstream_update.go:773-799 | name by name in terms of the request: what was asked for and is pending is added, or removed if not also added, and what was neither asked to be added nor ignored stays pending |
| ModelReconcile.ModelsAreWantedIff | controller/channel_upstream_update.go:773-787 | the stored names after a request are those it adds and the old ones it does not remove, if and only if none it adds has a comma |
| ModelReconcile.TextUntouched | controller/channel_upstream_update.go:782-787 | a request that adds and removes nothing leaves the stored text as it is |
| ModelReconcile.ApplyPartitions | controller/channel_upstream_update.go:760-808 | each pending addition is added, or ignored and not added, or remains; each pending removal is removed or remains; nothing else is reported |
| ModelReconcile.IgnoredAfterApply | controller/channel_upstream_update.go:773-803 | the ignore list after applying, name by name |
| ModelReconcile.ReadBack | model/channel.go:196-201 | a normal list survives its comma-separated text if and only if no name has a comma |
| ModelReconcile.ModelsAfterApply | controller/channel_upstream_update.go:760-808 | the stored list is the selected one if and only if no added name has a comma |
| ModelReconcile.AppliedAll | controller/channel_upstream_update.go:827-906 | detecting and then applying all takes over exactly what was pending, with whatever mapping the detection was given |
| ModelReconcile.BatchAgreesIff | controller/channel_upstream_update.go:814-825 | batch and scheduled detection, which load no mapping, find what the detection with it finds if and only if no new upstream name is a redirect target and no missing local name a redirect source |
| ModelReconcile.RedirectUndone | controller/channel_upstream_update.go:524-524 | for every channel with one redirected model, nothing is pending with the mapping, and without it the source is to be replaced by the target |
| ModelReconcile.ConvergesIff | controller/channel_upstream_update.go:156-215 | after detecting and applying all nothing is pending if and only if no pending addition has a comma and the surviving ignore rules hide what they hid |
| ModelReconcile.ConvergesForPlainNames | controller/channel_upstream_update.go:156-215 | so it converges for upstream names without commas and without the `regex:` prefix |
| ModelReconcile.CommaNameStaysPending | controller/channel_upstream_update.go:760-808 | an upstream name with a comma stays pending |
| ModelReconcile.RuleNameUncovers | controller/channel_upstream_update.go:760-808 | an upstream name that is itself a `regex:` rule is taken over and uncovers what it hid |
| ModelReconcile.AutoSyncLeavesRemovals | controller/channel_upstream_update.go:340-387 | with automatic takeover no addition and exactly the first removals stay pending, if and only if no pending addition has a comma |
| ModelReconcile.ChannelRow.CheckAndPersist | controller/channel_upstream_update.go:340-387 | the row after a check, how many models it added and whether models changed; a refused save changes nothing |
| ModelReconcile.ChannelRow.ApplyUpdates | controller/channel_upstream_update.go:760-808 | the row after applying a selection, the reported changes and whether models changed; a refused save changes nothing |
| Names.UniqOrder | controller/channel_upstream_update.go:77-82 | duplicates are dropped in favour of the first occurrence, in that order |
| Text.SplitOfJoin | model/channel.go:196-201 | splitting undoes joining if and only if there is a part and no part has the separator |
| Text.SplitOfTrimOfJoin | model/channel.go:81-103 | with the trimming of `GetKeys`, if and only if the first and last part are not empty or the list is one empty part |
| MultiKey.StorableIff | model/channel.go:81-103 | a key list reads back from its text if and only if it is empty, or is not one blank key and is the array the text happens to be, or else has one-line keys with the first and last not blank |
| MultiKey.LooksLikeArrayIff | model/channel.go:88-90 | a text is tried as an array exactly if its first character that is no space is a bracket |
| MultiKey.EmptyArrayCount | model/channel.go:470-488 | the text of an empty array counts as its lines although no key is read from it |
| MultiKey.SavedInfo | model/channel.go:458-505 | saving new maps for the same keys, whatever times and reasons they hold, changes the records accordingly and keeps count and statuses right |
| MultiKey.SavedRecords | model/channel.go:458-505 | whatever records are saved, the channel shows the keys that are read back with the statuses, times and reasons of the records in order |
| MultiKey.UpdatedIsValid | model/channel.go:458-505 | whatever key text and maps are saved, the stored count is that of the keys and every status belongs to one |
| MultiKey.RereadIff | model/channel.go:458-505 | reading back fewer records than there were keys gives exactly them if and only if there are some and their keys can be stored; without any, all keys stay and are enabled |
| MultiKey.SavedFewer | controller/channel.go:1542-1689 | so does saving them, and count and statuses are right in either case |
| MultiKey.Perform | controller/channel.go:1386-1689 | each of the six actions, refused or not, makes of the records what the operation on records does unless the database rejects the row; a deletion leaves times and reasons only for what it means to keep, the others add none |
| MultiKey.Manage | controller/channel.go:1386-1689 | after every sequence of the six requests, with any of them failing to be saved, count and statuses are right and the records shown are those the operations on records give |
| MultiKey.PlainRun | controller/channel.go:1386-1689 | with one-line keys that start neither with a blank nor with a bracket, every such sequence is that of the plain list operations: disable, enable, delete and filter |
| MultiKey.SwitchedAct | controller/channel.go:1386-1540 | whatever the keys, enabling sets status 1 and drops time and reason, disabling sets status 2 and keeps them, of the named or of all enabled keys |
| MultiKey.DeletionTakesTwo | controller/channel.go:1542-1620 | of the keys "a", "" and "b" deleting the first takes two, enables "b" and leaves its time beyond the keys |
| MultiKey.WithoutKey | controller/channel.go:1560-1592 | the re-indexing loop removes exactly one record, moves times and reasons with their keys and leaves indices in range |
| MultiKey.WithoutAutoDisabled | controller/channel.go:1622-1689 | the re-indexing loop keeps exactly the records that are not automatically disabled, counts the others and moves the times and reasons of disabled keys |
| MultiKey.SurvivorsAreFiltered | controller/channel.go:1622-1689 | as shown to the administrator, that is filtering out status 3 |
| MultiKey.SurvivorsOf | controller/channel.go:1622-1689 | nothing survives exactly when all are automatically disabled, everything exactly when none is |
| MultiKey.DisableEnabled | controller/channel.go:1495-1540 | the loop disables exactly the enabled keys of the stored count, counts them and leaves the others as they are |
| MultiKey.Channel.Update | model/channel.go:458-505 | the stored row after saving: unchanged when the database rejects it, and stored although the call fails when only the abilities cannot be updated |
| MultiKey.Channel.DisableKey | controller/channel.go:1386-1427 | exactly one record becomes manually disabled; refused exactly for a missing or bad index |
| MultiKey.Channel.EnableKey | controller/channel.go:1429-1469 | exactly one record becomes enabled without time and reason; refused exactly for a missing or bad index |
| MultiKey.Channel.EnableAllKeys | controller/channel.go:1471-1493 | every record becomes enabled; the reported number is that of status entries |
| MultiKey.Channel.DisableAllKeys | controller/channel.go:1495-1540 | every enabled record becomes manually disabled and is counted; refused exactly when none is enabled |
| MultiKey.Channel.DeleteKey | controller/channel.go:1542-1620 | for every row with right count and statuses: it shows what is read back, which is exactly the other records if and only if their keys can be stored; times and reasons move with their records, also beyond the keys; refused exactly for a missing or bad index or the last key |
| MultiKey.Channel.DeleteDisabledKeys | controller/channel.go:1622-1689 | for every row with right count and statuses: it shows what is read back, which is exactly the records not automatically disabled if and only if there are some and their keys can be stored; with none, all keys stay and are enabled; the reported number |
| KeyAppend.AppendDeduplicated | controller/channel.go:879-951 | the loops keep the existing keys as a prefix and add each new trimmed key once |
| KeyAppend.NewKeysNames | controller/channel.go:879-951 | the added keys are distinct, trimmed, non-empty and exactly those that equal no existing trimmed key |
| KeyAppend.FirstText | controller/channel.go:879-882 | a channel without a key text gets the text as it is |
| KeyAppend.AppendedView | controller/channel.go:879-951 | for every stored row, the keys read from the new text with what the maps say about their indices |
| KeyAppend.UnseenKeysAreLost | controller/channel.go:886-895 | a text that starts like an array and is none is not seen: the channel is left with the new keys alone, unless there are none |
| KeyAppend.BracketKeyIsLost | controller/channel.go:886-895 | a channel whose only key starts with a bracket loses it to an appended one |
| KeyAppend.UnseenLostTo | controller/channel.go:886-895 | one plain key appended to any text that is not seen is all that is left |
| KeyAppend.RepeatedFirst | controller/channel.go:913-949 | the new keys alone are what appending would give if and only if the request repeats the existing keys first |
| KeyAppend.AppendedRecords | controller/channel.go:879-951 | every record stays and each new key gets an enabled one, if and only if no status, time or reason is left for the new indices and the seen list reads back (or is one blank key), or, with unseen keys, nothing is added or the request repeats them first |
| KeyAppend.LeftoverTimeReappears | controller/channel.go:879-951 | the row a deletion can leave, on which an appended key takes over the time of a deleted one |
| KeyRuns.Append | controller/channel.go:879-960 | an append request stores the appended row unless it is rejected, and keeps count and statuses right |
| KeyRuns.TidyAppend | controller/channel.go:879-951 | on a row with plain keys and no date beyond them, an append of plain lines adds exactly an enabled record per new key and leaves such a row |
| KeyRuns.Serve | controller/channel.go:879-1689 | every sequence of the six actions and appends, with any of them failing to be saved, goes step by step as specified; from a row with plain keys and no date beyond them, key text and maps show exactly what the same operations make of the plain list of records |
| KeyStatusPages.FilteredTotal | controller/channel.go:1335-1348 | the filtered list is as long as the count of its status |
| KeyStatusPages.TotalPagesBounds | controller/channel.go:1347-1355 | the last page is the first that reaches the end |
| KeyStatusPages.PagesAreTheList | controller/channel.go:1289-1368 | for every page size all pages together are the filtered list: nothing lost, repeated or reordered |
| KeyStatusPages.LineSays | controller/channel.go:1289-1332 | a line shows index, status, the first ten characters of the key, and time and reason unless the key is enabled |
| KeyStatusPages.RequestedPage | controller/channel.go:1275-1283 | a page that exists is shown itself, others are the first or the last, and the size is 50 unless a positive one is asked for |
| KeyStatusPages.GetKeyStatus | controller/channel.go:1272-1384 | the response: the requested page, the totals and the three status counts, for any requested page and size |
| SortedStrings.IncreasingUnique | controller/ratio_sync.go:791-829 | only one increasing list has given members, so the order of a map does not matter |
| SortedStrings.SortedKeys | controller/ratio_sync.go:791-829 | collecting the keys of a map in any order and sorting them gives that list |
| PriceSelection.ChoiceIsCheapest | controller/ratio_sync.go:766-789 | in provider order the kept offer costs something if any does, and less than 1e-9 more than each that does, however many near-ties are chained |
| PriceSelection.OffersMembers | controller/ratio_sync.go:723-764 | the offers for a model are exactly the valid candidates of the providers |
| PriceSelection.CandidateIff | controller/ratio_sync.go:730-764 | a candidate says exactly the usable prices its provider lists, with no free input and paid output |
| PriceSelection.TakeProvider | controller/ratio_sync.go:791-829 | the inner loop takes each model's offer of one provider, in any map order |
| PriceSelection.SelectPrices | controller/ratio_sync.go:791-829 | the selection depends on the prices alone, and each error case arises exactly from an empty response or no valid price |
| PriceSelection.SelectionIsCheapest | controller/ratio_sync.go:723-829 | what is selected for a model is a valid offer, the cheapest up to 1e-9 that costs something, or else the first free one |
| PriceSelection.UnsortedOffersDrift | controller/ratio_sync.go:766-789 | in another order near-ties can drift by more than the tolerance |
| RatioDiff.ShowChannel | controller/ratio_sync.go:407-581 | the cell of one channel and the flag it raises, for a missing, equal or different value |
| RatioDiff.BuildItem | controller/ratio_sync.go:407-581 | the first-pass entry of one model and ratio type |
| RatioDiff.Collect | controller/ratio_sync.go:407-581 | the first pass, in any order of models, and that no row is empty |
| RatioDiff.ChannelsWithDiff | controller/ratio_sync.go:407-581 | the second pass finds exactly the channels that show a difference |
| RatioDiff.Prune | controller/ratio_sync.go:407-581 | the third pass drops other channels, and entries and rows that become empty |
| RatioDiff.BuildDifferences | controller/ratio_sync.go:407-581 | the three passes together give the specified table, whatever order the maps yield |
| RatioDiff.IncludedIff | controller/ratio_sync.go:407-581 | an entry is made exactly when some channel triggers it |
| RatioDiff.CellMeaning | controller/ratio_sync.go:46-60 | for numeric values a cell shows, and triggers, exactly a real difference of at least 1e-9 or a missing local value |
| RatioDiff.ShowsIffDiffers | controller/ratio_sync.go:407-581 | a name shows a difference somewhere exactly when its last channel really differs somewhere |
| RatioDiff.KeptIff | controller/ratio_sync.go:407-581 | for every list of numeric channels an entry is kept if and only if some channel really differs there, and the last channel of some name differs somewhere and does not agree there |
| RatioDiff.KeptIffRealDifference | controller/ratio_sync.go:407-581 | with distinct names that is: some channel really differs there |
| RatioDiff.ListedChannels | controller/ratio_sync.go:407-581 | a kept entry lists exactly the names whose last channel differs somewhere, each with its value, "same" or nothing |
| RatioDiff.ListedConfidence | controller/ratio_sync.go:436-470 | a listed channel is trusted for a model unless it gives it ratio 37.5 and completion ratio 1 |
| RatioDiff.SharedNameHidesDifference | controller/ratio_sync.go:174-177 | two channels of one name with which a real difference gets lost |
| OggWalk.SumTable | common/audio.go:241-245 | the page size is the sum of the segment table |
| OggWalk.SumLaw | common/audio.go:241-245 | that sum is zero for nothing, the byte for one byte, and additive |
| OggWalk.PageLayout | common/audio.go:207-249 | where the fields of a page are: pattern, granule position at 6, number of segments at 26, table at 27, body |
| OggWalk.Advance | common/audio.go:207-249 | one round of the loop at an offset: end, resynchronise by one byte, or take a page |
| OggWalk.GetOpusDuration | common/audio.go:196-254 | the loop ends on any bytes and gives the walk's granule position over 48000 |
| OggWalk.GranuleRoundTrip | common/audio.go:228-232 | reading the eight bytes little-endian and signed undoes writing a granule position |
| OggWalk.WalkPage | common/audio.go:207-249 | a well-formed page is taken in one step, whatever follows |
| OggWalk.WalkJunk | common/audio.go:219-226 | bytes in which no page starts are skipped |
| OggWalk.WalkStream | common/audio.go:196-254 | on pages with such bytes between and after them the result is the maximum of zero and all granule positions |
| OggWalk.LargestIsMaximum | common/audio.go:228-232 | that value is at least every granule position and is one of them or the start value |
| OggWalk.PlainPagesAreSynchronised | common/audio.go:196-254 | pages one after the other meet the condition |
| OggWalk.WalkIsSomeGranule | common/audio.go:196-254 | on any bytes the result is zero or a granule position that follows a capture pattern |
| DiskUsage.StoredIffWithinLimit | common/body_storage.go:262-303 | without failures a body is stored if and only if it has at most maxBytes bytes, and refused as too large otherwise |
| DiskUsage.OnDiskIff | common/body_storage.go:241-303 | without failures a body goes to disk exactly if the cache is on, it reaches the threshold and fits, or, streamed, its declared length does |
| DiskUsage.CreateOpens | common/body_storage.go:241-260 | creating adds one open storage of that size, on disk exactly if there is room |
| DiskUsage.StreamOpens | common/body_storage.go:262-303 | so does streaming a body that is not too large |
| DiskUsage.CloseCloses | common/body_storage.go:187-196 | closing closes that storage and no other |
| DiskUsage.DropsToZero | common/disk_cache_config.go:115-122 | closing more than is counted leaves the disk counters at zero |
| DiskUsage.ClampNeverFires | common/disk_cache_config.go:115-122 | closing an open storage never makes a counter negative |
| DiskUsage.AccountingExact | common/body_storage.go:241-303 | over every run of creating and closing, repeated closes included, the counters are the number and total size of the open storages, and disk use is within the limit plus what bodies exceed their declared length by |
| DiskUsage.HonestLengthsStayWithinLimit | common/disk_cache_config.go:170-177 | so bodies no longer than declared keep disk use within the limit |
| DiskUsage.StepStaysWithinIff | common/body_storage.go:262-303 | a step leads out of the limit if and only if it streams a body whose size exceeds what is left |
| DiskUsage.RunStaysWithinIff | common/body_storage.go:241-303 | disk use stays within the limit all along if and only if no streamed body overflows it when it comes |
| DiskUsage.OverflowIsLonger | middleware/gzip.go:41-63 | such a body is longer than declared, as a decompressed one can be |
| DiskUsage.LongerBodyExceedsLimit | common/body_storage.go:262-281 | a run that exceeds the limit |
| BodyStorage.DiskBytesIsBody | common/body_storage.go:198-230 | `Bytes` on disk gives the whole body and restores the position |
| BodyStorage.StepAlike | common/body_storage.go:47-81 | one call keeps the two storages alike, and answers alike if and only if it is not an empty read at the end of an open body |
| BodyStorage.RunsAlikeIff | common/body_storage.go:47-230 | a sequence of calls gets the same replies from both storages if and only if it never reads nothing at the end of an open body |
| BodyStorage.RunsAlike | common/body_storage.go:169-230 | so no sequence of non-empty reads, seeks, `Bytes` and closes tells the storages apart |
| BodyStorage.ReadingOn | common/body_storage.go:47-55 | from any position and with buffers of any sizes, reads deliver the rest of the body in order from either storage, all of it once the end is reported or the buffers are large enough, and the position is that much further |
| BodyStorage.SeekGoes | common/body_storage.go:56-63 | seeking goes to the offset from start, position or end, unless that is before the start |
| BodyStorage.ClosedAnswersNothing | common/body_storage.go:47-81 | a closed storage answers nothing but a further close |
| BodyStorage.ShortFile | common/body_storage.go:198-230 | `Bytes` of a file that was cut short reports it |
| BodyStorage.EmptyReadTellsApart | common/body_storage.go:169-176 | an empty read of an empty body does |
| BodyStorage.MemoryStorage.Close | common/body_storage.go:65-72 | closed, with the counters dropped once however often it is called |
| BodyStorage.DiskStorage.Bytes | common/body_storage.go:198-230 | the whole body or the closed error; an intact file ends where it was |
| BodyStorage.DiskStorage.Close | common/body_storage.go:187-196 | closed, with the counters dropped once however often it is called |
| RequestBody.OpKeepsBody | common/gin.go:36-83 | nothing but closing takes the stored body away |
| RequestBody.WholeBody | common/gin.go:36-83 | from the start, a large enough read and `Bytes` both give the whole body |
| RequestBody.BodyInPieces | common/gin.go:36-83 | from the start, reads into any buffers give the whole body piece by piece |
| RequestBody.AcquireIff | common/gin.go:36-83 | a call gives a body whole and from its start if and only if the context offers it: an open storage, else cached bytes, else a network body that can be stored |
| RequestBody.FirstAcquire | common/gin.go:36-83 | without a storage the call succeeds exactly with cached bytes or a body that can be stored, and a readable one without file failures is too large exactly beyond the middleware's limit or that of the storage |
| RequestBody.LimitsInBytes | common/gin.go:60-64 | both limits in bytes: the configured megabytes, or 128 and 32 |
| RequestBody.RefusedAgain | common/gin.go:60-83 | a network body that was refused is refused again, as too large exactly if its reader overran its limit |
| RequestBody.MiddlewareDecides | middleware/gzip.go:31-39 | behind the middleware, which takes 32 MB where the storage takes 128, its limit decides |
| RequestBody.EveryAttemptGetsWholeBody | controller/relay.go:199-209 | after any attempts that did anything but close it, each with a file failure of its own, the next one gets the complete body the context offered, stored, cached or from the network, from its start |
| RequestBody.EveryAttemptReadsWholeBody | controller/relay.go:199-209 | so an attempt that reads it in pieces reads the whole body |
| RequestBody.RewrittenIff | middleware/doubao_adapter.go:203-208 | the bytes an adapter caches are what attempts read if and only if the storage is forgotten, was not there or holds them already |
| RequestBody.RewriteIsIgnored | middleware/kling_adapter.go:46-50 | an adapter that reads the body first and keeps its storage is ignored: every attempt reads the old body |
| RequestBody.GivenBackIff | middleware/doubao_adapter.go:203-208 | over any attempts, a rewrite, any more attempts and the cleanup, a request gives back all it added to the usage counters if and only if no open storage is forgotten |
| RequestBody.ForgottenStaysCounted | middleware/doubao_adapter.go:203-208 | every body that fits in memory and is forgotten stays counted |
| RequestBody.ClosedBodyIsGone | common/gin.go:36-50 | a closed body is found again but cannot be rewound |
| RequestBody.RequestContext.GetRequestBody | common/gin.go:36-83 | context, counters and result after the call, for every failure |
| RequestBody.RequestContext.CleanupBodyStorage | common/gin.go:99-105 | the body is closed once, uncounted and forgotten; the counters are those the release of the context specifies |

## Left out

- Gin, GORM, Redis, HTTP, payment providers and their signatures: each is an atomic step or an arbitrary result.
- Crashes of the process, transaction isolation and when the asynchronous part of a refund runs.
- The choice between wallet, subscription and team billing (service/billing_session.go:301-470), and charges of requests without a session: free models are followed without money.
- The amount of a violation fee, channel disabling after errors, logs and price adjustment of tasks.
- The websocket and format specific parts of a relayed request: handlers are an outcome and an optional settlement.
- The top-up handlers of other payment providers; some of them write order status outside the lock. The invite reward they and subscription purchases grant is the one modelled.
- The affiliate quota, count and tier bonuses an inviter gets (model/user.go:351-376): of the inviter's row only quota and `aff_reward_settled` are followed.
- The Vertex AI branch of appending keys (controller/channel.go:899-915): new keys are lines of text. Replacing the keys is a plain save.
- The abilities a channel's update rebuilds: only that this may fail after the row is stored.
- Regular expressions in ignore rules: matching is an arbitrary predicate.
- JSON decoding of key arrays and of upstream answers: decoding is an arbitrary function or already done.
- Fetching upstream models and ratios, batch runs over channels, notifications and intervals.
- Cleanup of old cache files and counter resets, which the exact accounting excludes, and the hit counters.
- Concurrent use of one storage or limiter: each holds its mutex during a call, so calls are one after the other.
- IEEE rounding, integer widths of quotas, and audio formats other than Ogg Opus.
- CRUD controllers, settings, OAuth, team administration and static tables: single checks and pass-through.
- Billing.Settle: a failing count of a team member's use, which is only logged, is taken to succeed.
- RateLimiter.Sweep: `expiration` is the whole seconds of a positive expiration; the sweep does not exist for others.
- RateLimiter.ExactIff: a negative limit is left out, because making the queue of its first request stops the process.
- BodyStorage.DiskDo: a seek with a whence other than the three defined ones is an error.
- OrderLock.SomeThreadCanAdvance: says nothing about fairness between waiting threads.
