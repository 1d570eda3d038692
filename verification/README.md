# Crynux relay: a verified model

The relay is a task market. Creators pay a fee per task, nodes run tasks, results are voted on in groups of three, and
fees are refunded, paid out or released over time. This project models five connected parts of the relay in Dafny and
proves what they promise. `dafny verify dfyconfig.toml` checks all of it.

## How it is laid out

- **Rows.** `Model` holds the records: tasks, nodes, vesting grants, ledger events. `Basics` and `Sorting` are shared
  vocabulary.
- **Task and node lifecycle.** `Lifecycle` gives every database transaction as a function from the committed rows to
  the new rows or to the failure that rolls it back. `Deadline`, `Validation` and `Settlement` are the parts it
  computes with: deadlines, the two-of-three vote, fee arithmetic. `Timing` is the vote in terms of execution times.
  `Invariant` states what every reachable set of rows satisfies; `Moves`, `Rows`, `Transactions`, `GroupMoves`,
  `Verdicts` and `Steps` prove that each transaction keeps it. `Effects`, `GroupEffects` and `Payouts` say of each
  request exactly when it succeeds and what it then leaves in every column.
- **Ledger and vesting.** `Ledger` is the two-tier balance (cache now, database after folding), `Audit` the validator
  of pending events, `Vestings` the release schedule and the chain of release events.
- **Runs.** `Relay` puts everything into one machine. A step is one committed transaction together with its cache
  update; a refused request leaves at most cache updates behind, and `Rollback` says which. Handlers work on copies of
  task rows read at any earlier time, so every step takes an arbitrary earlier row. `Guarantees` are the results over
  every run from an empty pending queue; `Relay.RunKeeps` covers runs from any state in order. `Payouts`, `Incomes`,
  `Schedules` and `Nodes` follow the group payout, the DAO's part, the release schedule and the pending requests of
  nodes over whole runs; `StuckGroups` follows the one kind of group that cannot be decided, and `Overdrafts` what its
  refusal does to the ledger.
- **Updates in place.** `Store` is the same relay as a class over tables and a balance map: transitions with early
  failures and rollback, the batch fold, the release run, the timeout abort loop. Each method is proved to be the
  machine's step, or to keep its invariant.
- **Scheduler.** `Signature` and `Matching`: one greedy round over keyset pages with candidate sets memoised by
  signature.
- **Caches and encodings.** `Pricing` and `Flush` (calibration means, dirty-version flush by any number of flushers),
  `Delegation` (stakes by node and by delegator), `CanonicalJson`, `JsonParser`, `HashList` and `ModelFiles`
  (canonical JSON, hash sets, model file identities).

## Modelling choices

- A task's row id and its commitment are one number. A revealed task id is written as the list of tasks it names: one
  task, or a group of three with ascending ids. So one id names one task or one group, and no task is validated both
  alone and in a group. The code does not enforce this.
- Ledger reasons are structured values instead of formatted strings; addresses are compared exactly.
- Transactions are atomic and see the current rows. An update of a task passes only if the status of the caller's copy
  is still the stored one. Nodes are read inside the transaction, as the per-node lock of the scheduling index makes
  them.
- Signatures, VRF proofs, whitelists, health, the node name policy, the permanent kick-out rule, slash evidence,
  weighted sampling and regression fits are inputs: any verdict is allowed. Configuration and the finalised chain are
  fixed over a run. Times are whole seconds. Parameters of the pricing model are real numbers.
- A task can only succeed from Validated or GroupValidated. The code leaves this to its callers.
- A retry after a changed status refreshes only the status and the abort reason of its copy. `Steps.RetryIsRefused`
  shows that every such retry fails, so the steps of a run need only copies of whole earlier rows.
- In `Flush` the version last written to a row and the last version of a record are bookkeeping of the model, not
  columns.
- A deposit's event and its cache credit are one step, and so are the commit and the cache update of every transaction
  that is not nested in another. The transactions of a group's members are nested in the one of the group, and each
  ends with its own cache update.
- Hash functions are arguments. Where a result needs it, they do not collide on the inputs at hand.

## What turned out not to hold

- **Three failed members.** A group whose three members all reported an error for the same task type is refused while
  all three stand: the third member is sent to GroupRefund, which requires ScoreReady. It is the only such group
  (`Validation.GuardsAcceptIff`, `Verdicts.ValidateGroupIff`), it is reachable (`StuckGroups.StuckGroupExists`), and
  it can be decided later exactly when a member has been aborted meanwhile, and none for the creator's delay
  (`StuckGroups.StuckUntilFreed`, `StuckGroups.TransactFreesIff`).
- **A refused group request credits the cache.** By the time the third member of such a group is refused, the refunds
  of the two fastest have been posted to the cache, and the rollback takes back their events but not the posts
  (`StuckGroups.StuckIsRefused`). Over every run a cached balance is the sum of all events plus what was left behind
  this way (`Guarantees.BalancesAddUp`), so cache and ledger agree exactly when no request of the run met such a group
  with two fastest members that cost something (`Guarantees.CacheIsLedgerIff`, `Guarantees.BooksBalanceIff`, per step
  `Relay.StepKeeps`). Then the validator rejects nothing (`Guarantees.NothingIsRejected`); otherwise spending the
  credit gets a debit rejected (`Overdrafts.RejectsIff`). A balance of 3 and three tasks of fee 1 are enough
  (`Overdrafts.OverdraftExample`).
- **Group payout.** The remainders themselves, not their quotient, are added to the last payee. With equal fees F,
  scores summing to T and k units lost to rounding, F + k(T - 1) is paid. Scores 10 and 5 turn a fee of 1 into 15
  (`Settlement.GroupPaymentTotal`, `Settlement.GroupPaymentCanExceedFee`). Over every run this is what a won group's
  events add up to (`Payouts.WonGroupShares`, `Payouts.WonGroupOverpaid`).
- **Image votes.** Image scores are compared within a distance, which is not transitive, so who is invalidated can
  depend on who was faster: exactly in the groups where comparison is not transitive (`Timing.TimesMatterIff`,
  `Timing.ImageVerdictDependsOnTimes`), never for language model tasks (`Timing.LanguageModelsIgnoreTimes`).
- **Two flushes at once.** At shutdown the flush loop and the main function both flush. A flush that writes an earlier
  snapshot of a record after another flush wrote and cleared a later one leaves the record clean and its last sample
  unstored (`Flush.LateWriteLosesSample`). `Flush.RunStoresIff` and `Flush.StoredIffLastWriteIsLatest` say exactly
  when clean records are the stored ones; while flushes exclude one another they always are (`Flush.NoSampleLost`).
- **Restart.** The cache is filled from the database before pending events are folded. It is right afterwards exactly
  when the pending events cancel out at every address that has a row (`Ledger.RestartIff`).
- **A failed fit.** It changes no price and no existing record, and leaves the records as they were exactly when the
  configuration already had one (`Pricing.FailedFitIff`, `Pricing.FailedFitLeavesRecord`).

## Model

| member | source | states |
|---|---|---|
| Guarantees.NodesHoldRunningTasks | service/task_status.go:614-630 | In every reachable state a node has a current task exactly when it is Busy, PendingPause or PendingQuit; that task is started, not ended and selects the node; and every such task is its node's current task. |
| Guarantees.WrongNodeUnreachable | service/task_status.go:614-630 | However old the copy it works with, no abort of a task that has not ended finds another task current on its node; and invalidating an aborted task always fails (lines 421-428). |
| Guarantees.TerminalIsFinal | models/inference_task.go:217-237 | However a run continues, a task keeps creator and fee, its status only moves forward, and a terminal status and its abort reason never change. |
| Guarantees.SettledByStatus | service/task_status.go:491-579 | One payment always; success has one income and no refund; abort has exactly one of the two, income only for a creator validation timeout; invalidated has neither; group refund has one refund and an income exactly when its group's representative succeeded. |
| Guarantees.FeesComeBack | service/task_status.go:632-646 | A task's events add up to minus its fee while the fee is out or the task was invalidated, to nothing once it succeeded alone, was aborted, or was refunded in a group not won, and in a won group to its part of the payout, less the fee for the representative. |
| Payouts.WonGroupShares | service/task_status.go:750-817 | Over every run, each paid member of a won group has earned fee * score / Q of its own fee and score, rounded down, Q being the sum of the scores of the members paid, and the last of them all the remainders modulo Q as well; on the rows' columns. |
| Payouts.WonGroupWeighted | service/task_status.go:750-786 | Over every run and for any fees, Q times what the paid members are up together, plus Q times the representative's fee, is the score-weighted sum of their fees plus (Q - 1) times the remainders. |
| Payouts.WonGroupOverpaid | service/task_status.go:772-779 | If the paid members cost the same, that total is k(Q - 1) with kQ the sum of remainders and k below 3, and nothing exactly when k is 0 or Q is 1. |
| Payouts.WonPaidOut | service/task_status.go:750-817 | The same shares in any rows in order. |
| Incomes.DaoHasItsPart | service/relay_account.go:910-990 | Over every run, of the income d + p + o that a task's events pay to the DAO, the delegators and the operator, 100 d <= income * percent < 100 (d + 1); every DAO event goes to the DAO's address and every delegator's to that delegator; the income is the fee after a single success or a creator validation timeout, and in a won group the earned share. |
| Incomes.RunDivides | service/relay_account.go:910-990 | From any state in order whose incomes are so divided, every run keeps them so. |
| Guarantees.BalancesAddUp | service/relay_account.go:771-796 | Over every run each cached balance is the sum of all events since the start and of the refunds that refused group requests left in the cache, each database balance is the sum of the events folded and not rejected, and neither is negative. |
| Guarantees.CacheIsLedgerIff | service/relay_account.go:892-908 | At the end of a run the cache is the sum of all events at every address exactly when no request of it met three failures of one type whose two fastest members cost something. |
| Guarantees.BooksBalanceIff | service/validate_task.go:384-540 | Every state of a run has cache and database in step, every prefix of the queue covered and nothing rejected, exactly under the same condition. |
| Guarantees.RunLeaks | service/task_status.go:703-705 | From any state in order, a run moves the cache away from the ledger by exactly what its requests left behind, never down, and somewhere up exactly when one of them leaks. |
| Guarantees.NothingIsRejected | service/relay_account.go:379-444 | While no request leaks, the cache is the database plus what is pending, the database is the one at the start with the folded events applied one at a time, the validator rejected nothing, accepts every batch of what is pending, and every id-ordered prefix is covered. |
| Guarantees.EmittedStaysAdmissible | service/relay_account.go:395-429 | An event the lifecycle emitted passes the validator's status and amount checks in every later state of the run. |
| Guarantees.ReleasesAreContiguous | service/vesting.go:335-386 | A grant's release events are contiguous ranges from 0 to its released amount, add up to it, never exceed the grant, and reach it exactly when the grant is completed. |
| Guarantees.OneReleasePending | service/vesting.go:278-316 | At most one release of a grant is pending and it ends at the released amount. |
| Schedules.NothingReleasedEarly | models/vesting.go:52-73 | Over every run whose releases are made by a time, a grant has released nothing before its start, released * days <= total * midnights passed after it, and its release events add up to that amount. |
| Schedules.FrozenGrantsRest | service/vesting.go:406-465 | Over every run, a slashed active grant keeps every column until its address is restored. |
| Schedules.StepGrants | service/vesting.go:406-465 | One step changes an existing grant only by releasing it if it is active and unslashed, by freezing it if active, with its address slashed or its node, or by thawing it with its address restored. |
| Nodes.LeavingNodesLeave | service/node.go:296-362 | Over every run, a node that asked to pause or quit while it held a task takes no other, and has paused or quit once it no longer holds that one, until it asks to come back. |
| Nodes.TransactMoves | service/node.go:269-362 | Whatever request is answered, a node with a pending pause or quit stays or gives up its task to pause or quit, and only its own requests bring a node back. |
| Guarantees.DeadlinesByStatus | service/start_task.go:72-133 | In every reachable state the deadline column is: queued, creation plus 180 and the timeout for LoRA, else plus the queue timeout or its default; started, or LoRA in any running status, start plus timeout; scored or failed, report plus the validation timeout; validated, validation plus the upload timeout; ended, none. |
| Guarantees.ScanFindsOverdue | service/start_task.go:290-319 | In every reachable state the scan of the deadline column finds exactly the tasks that have outstayed their status by its own times and timeouts. |
| Relay.RunKeeps | service/relay_account.go:740-769 | Any run, from any state in order, keeps the whole invariant, and its end keeps what its start had: rows moved forward, the log and the rejections grew, every folded event moved the database or was rejected, and if none was the database is the old one with the folded events applied one at a time. |
| Relay.StepKeeps | service/validate_task.go:384-540 | Every single step keeps the whole invariant, moves the cache away from the ledger by exactly what it leaks, and keeps balanced books balanced exactly when it leaks nothing. |
| Relay.FoldTakesFifty | service/relay_account.go:740-769 | One fold takes the oldest fifty pending events, or all if there are fewer, applies the accepted ones and keeps the rejected ones apart. |
| Relay.RefusedLeaks | service/task_status.go:703-705 | A refused request changes the cache alone, by the refunds it had posted, and leaves balanced books balanced exactly when these amount to nothing. |
| Relay.CommitKeeps | service/relay_account.go:892-908 | A lifecycle transaction committed with its cache update keeps vesting chains, stale copies, rows and the distance of cache and ledger, and balanced books balanced. |
| Relay.BatchAccepted | service/relay_account.go:556-575 | In a reachable state with balanced books the validator accepts any batch from the front of the queue entirely. |
| Relay.AllAdmissible | service/relay_account.go:379-507 | In a reachable state every pending event passes every check of the validator except the balance one. |
| Relay.DepositKeeps | service/relay_account.go:826-866 | Crediting a deposit once keeps the invariant, the distance of cache and ledger, and balanced books balanced. |
| Relay.WithdrawKeeps | service/withdraw.go:44-121 | A withdrawal request, charged or refused for lack of cached balance, keeps the invariant, the distance of cache and ledger, and balanced books balanced. |
| Relay.FulfillKeeps | service/withdraw.go:123-176 | Fulfilling a withdrawal, or finding it not processed or not pending, keeps the invariant, the distance of cache and ledger, and balanced books balanced. |
| Relay.RejectKeeps | service/withdraw.go:178-225 | Rejecting a withdrawal, with the refund of amount and fee, keeps the invariant, the distance of cache and ledger, and balanced books balanced. |
| Relay.ReleaseStep | service/vesting.go:309-315 | Releasing the next record of a run keeps at most one pending release per record and none beyond the cursor. |
| Steps.TransactKeeps | service/task_status.go:95-871 | Whatever handler runs, on whatever stale copy, the rows keep the invariant and only move forward. |
| Steps.StartStep | service/task_status.go:95-214 | Starting a task on an available node keeps the invariant. |
| Steps.ScoreStep | service/task_status.go:243-282 | Reporting a score keeps the invariant, including the stored deadline. |
| Steps.ErrorStep | service/task_status.go:284-319 | Reporting an error keeps the invariant, including the stored deadline. |
| Steps.AbortStep | service/task_status.go:587-729 | Aborting for any reason keeps the invariant. |
| Steps.SucceedStep | service/task_status.go:731-871 | A success, single or of a group, keeps the invariant and pays every payee of the group once. |
| Steps.SlashStep | service/node.go:452-541 | Slashing a node, with the abort of its current task, keeps the invariant. |
| Steps.RequestStep | service/node.go:213-247 | Join, pause, resume and leave keep the invariant and touch no task. |
| Steps.ValidateSingleStep | service/validate_task.go:111-146 | Validating a single task accepts or aborts it and keeps the invariant. |
| Steps.ValidateGroupStep | service/validate_task.go:328-540 | Validating a group of three keeps the invariant. |
| Steps.CopyIsCurrent | models/inference_task.go:217-237 | A copy read at any earlier time that passes the status compare-and-set is the current row. |
| Steps.RetryIsRefused | models/inference_task.go:193-207 | A copy whose status changed under it, refreshed in status and abort reason only, is refused by every handler that retries with it. |
| Effects.CreateEffect | service/task_status.go:23-64 | Creation is refused for a known id, and otherwise leaves a queued row with its deadline and one payment event. |
| Effects.StartEffect | service/task_status.go:95-214 | From rows in order a start succeeds exactly when the task is and was read queued and the node available; it then sets status, node, start time, timeout, files and deadline of the one, and task of the other, and nothing else. |
| Effects.ScoreEffect | service/task_status.go:243-282 | A score is taken exactly when the task is and was read started; it then sets status, score, report time and deadline, and nothing else. |
| Effects.ErrorEffect | service/task_status.go:284-319 | The same for an error, which leaves the score. |
| Effects.ValidateSingleEffect | service/validate_task.go:111-146 | A single validation succeeds exactly when the task is and was read scored or failed; a scored one becomes validated with a new deadline, a failed one is aborted, its node freed and its fee refunded. |
| Effects.AbortEffect | service/task_status.go:587-729 | An abort succeeds exactly on an aborted copy, without effect, or on a standing one that has not ended, unless a queued one for the creator's delay; it then sets status, reason and deadline, frees the node as its status and the kick-out say, and refunds the fee, or pays it as income for the creator's delay. |
| Effects.AbortElsewhere | service/task_status.go:614-630 | In any rows, a standing copy whose node has another task is aborted without its node and refunded exactly when the reason is none of the three timeouts. |
| Effects.SlashEffect | service/node.go:452-541 | A slash succeeds exactly on a node that has not quit; it makes it quit, aborts and refunds its current task, and freezes exactly the active grants to its address. |
| Effects.RequestEffect | service/node.go:33-247 | Join, pause, resume and leave are granted exactly in the statuses of one table, and change only that node's status by it. |
| Payouts.SucceedEffect | service/task_status.go:731-835 | A success takes exactly a standing validated copy; alone it pays the fee as income, in a group every accepted or refunded member its share by columns, in group order; it sets status and deadline and frees the node. |
| GroupEffects.GroupDecidedIff | service/validate_task.go:280-396 | From rows in order a group is decided exactly when its three ids ascend, no member is revealed, all are scored, failed or aborted, none for the creator's delay, the reports are on the same files, and not all three failed with one type. |
| GroupEffects.GroupEffect | service/validate_task.go:384-540 | A decided group leaves every member with its verdict, score by rank, times, reason and deadline, its node kept, freed or quit, the refunds logged in time order, the active grants to slashed nodes frozen, and everything else as it was. |
| Transactions.AcceptKeeps | service/task_status.go:321-417 | Moving a scored task to Validated or GroupValidated always succeeds on a current copy and keeps rows, links and settlement. |
| Transactions.RefundKeeps | service/task_status.go:491-579 | A group refund on a current copy succeeds, emits exactly one refund, frees the node and keeps rows, links and settlement. |
| Transactions.InvalidateKeeps | service/task_status.go:443-489 | Invalidating a scored or failed member, passively or with a slash, succeeds and leaves neither refund nor income. |
| Transactions.AbortRunningKeeps | service/task_status.go:587-729 | Aborting a running task on a current copy succeeds with exactly one refund, or income for a creator validation timeout. |
| Transactions.SlashKeeps | service/node.go:452-541 | A slash succeeds on any node that has not quit, aborts and refunds its current task, and flags only vesting records. |
| GroupMoves.SucceedGroupKeeps | service/task_status.go:750-835 | The success of a representative pays itself and every refunded member of its group once, and divides by no zero score. |
| GroupMoves.PaymentsNet | service/task_status.go:800-817 | What the payments of a success record about a task adds up to its share, whoever the share is split with. |
| Invariant.IncomeNet | service/relay_account.go:910-990 | One income moves exactly its amount, and only for its task. |
| Verdicts.ValidateGroupIff | service/validate_task.go:423-530 | A loadable group is applied exactly when it is not three failures of one type, and then every member reaches the decided status in one transaction. |
| StuckGroups.StuckGroupExists | service/validate_task.go:423-450 | From any start at which a creator can pay three fees a run reaches three failures of one type; the group loads, every request to decide it is refused, and each leaves two fees in the creator's cached balance. |
| StuckGroups.StuckIsRefused | service/validate_task.go:423-530 | While all three stand failed the group loads, every request is refused, and what it leaves in the cache are exactly the refunds of the two fastest members. |
| StuckGroups.StuckUntilFreed | service/validate_task.go:386-530 | However the run goes on without revealing a member apart from the group, a later request decides the group exactly when it has not been decided, a member was aborted meanwhile, none for the creator's delay, and the others stand failed. |
| StuckGroups.TransactFreesIff | service/node.go:471-541 | Of all transactions that can follow and do not reveal a member apart from the group, exactly slashing a member's node and aborting a member for another reason than the creator's delay free a stuck group at once. |
| Rollback.StuckLeftover | service/task_status.go:610-706 | A refused request to decide three failures of one type has posted the refunds of the two fastest members to the cache and nothing else. |
| Rollback.LeftoverIff | service/validate_task.go:474-529 | Whatever request is refused, what it leaves in the cache lowers no balance, and raises one exactly when it is such a request and the two fastest members cost something. |
| Overdrafts.RejectsIff | service/relay_account.go:379-393 | An event can come to be rejected, without any further leak, exactly when a request of the run so far leaked. |
| Overdrafts.LeakOverdraws | service/relay_account.go:868-890 | After any leak, a task for the whole cached balance it raised, followed by folds, ends with a rejected event. |
| Overdrafts.LeakedFeesAreRejected | service/relay_account.go:379-393 | From any start at which a creator can pay three fees: three failures, one refused request and a fourth task for all that the cache then shows, and the next fold rejects exactly the payment for that task. |
| Overdrafts.OverdraftExample | service/relay_account.go:379-393 | The same at a balance of 3 and a fee of 1. |
| Timing.RepresentativeIff | service/validate_task.go:398-450 | The representative is exactly the scored member with the shortest execution time of those that agree with another. |
| Timing.RefundedIff | service/validate_task.go:398-450 | Unless all three failed alike, the refunded members are exactly those agreeing with the representative. |
| Timing.InvalidatedAtOdds | service/validate_task.go:398-450 | The invalidated members are exactly those of a fully finished group at odds with its fastest agreeing member. |
| Validation.DecisionUnique | service/validate_task.go:417-450 | At most one representative and at most one invalidated member. |
| Validation.RepresentativeHasRefund | service/validate_task.go:417-450 | A representative always leaves a member that agrees with it to refund. |
| Validation.GuardsAcceptIff | service/validate_task.go:470-512 | Every decided status is accepted by its transition's guard exactly when the group is not three failures of one type. |
| Validation.InvalidatedIffOutvoted | service/validate_task.go:163-184 | Where comparison is transitive, a member is invalidated exactly when the other two agree with each other and not with it. |
| Validation.LanguageModelsTransitive | service/validate_task.go:176-178 | Comparison within an all language model group is transitive. |
| Timing.TimesMatterIff | service/validate_task.go:398-450 | Who is invalidated is the same for all execution times exactly when comparison is transitive in the group. |
| Timing.InvalidatedAreOutvoted | service/validate_task.go:163-184 | Where comparison is transitive, the invalidated members of a group are those outvoted by both others, whatever the times. |
| Timing.ChainDependsOnTimes | service/validate_task.go:398-450 | In a chain of close scores whose ends are apart, an end is invalidated if the other end was fastest and not if the middle was. |
| Timing.LanguageModelsIgnoreTimes | service/validate_task.go:176-178 | Execution times never decide who is invalidated among language model tasks. |
| Timing.ImageVerdictDependsOnTimes | service/validate_task.go:148-161 | Three image hashes and two sets of execution times for which the third is invalidated or not. |
| Validation.CheckHammingDistance | service/validate_task.go:148-161 | The loop accepts exactly hashes of equal length in whole 8-byte blocks each pair of which differs in fewer than threshold places, counted as pairs of a byte and a bit j with x / 2^j % 2 different. |
| Validation.DistanceCounts | utils/hamming.go:7-17 | The distance of two hashes is the number of places, byte and bit, at which they differ. |
| Validation.CountDifferences | utils/hamming.go:7-17 | The loop adds up exactly that number. |
| Validation.SameScoreIff | service/validate_task.go:163-184 | Two members compare equal exactly when kind and status agree and, if scored, the texts are the same or every pair of blocks differs in fewer than threshold places. |
| Validation.AssignQosScores | service/validate_task.go:186-204 | Finished members get the reward of their rank, aborted ones zero, and nobody anything if all aborted. |
| Timing.RankedByTime | service/validate_task.go:186-204 | In a loaded group a finished member scores 10, 5 or 2 by the number of finished members with a shorter execution time, or an equal one and a smaller id; an aborted one 0, or nothing if all were aborted. |
| Timing.FasterIs | models/inference_task.go:269-274 | Among reported members the order is by report time less start time, then by id. |
| Validation.FinishedScorePositive | service/validate_task.go:186-204 | A finished member's score is positive. |
| Validation.DecideGroup | service/validate_task.go:408-450 | The status map built up step by step is the decision the results above are about. |
| Settlement.GroupPaymentTotal | service/task_status.go:750-786 | With equal fees F and scores summing to T the payout is F + k(T - 1), where kT is the sum of remainders and k is below the number of payees; never below F, and F exactly when k is 0 or T is 1. |
| Settlement.GroupPaymentWeighted | service/task_status.go:750-786 | For any fees, T times the payout is the score-weighted fee sum plus (T - 1) times the remainders. |
| Settlement.GroupPaymentCanExceedFee | service/task_status.go:773-780 | Two payees with scores 10 and 5 are paid 15 for a fee of 1. |
| Settlement.PaymentAt | service/task_status.go:750-786 | Each payee is paid its fee times its score over the sum of scores, rounded down, the last one the sum of the remainders as well. |
| Settlement.PayGroup | service/task_status.go:750-786 | The payment loops compute these payments. |
| Settlement.IncomeConserved | service/relay_account.go:910-972 | The natural-number amounts of DAO share, operator income and all delegator fees add up to the income exactly, for any list of delegators. |
| Settlement.DelegatorFeesTotal | service/relay_account.go:931-953 | The delegators' fees add up to their pool; each is the rounded-down share of its stake, and the first one's extra is below the number of delegators, in whatever order they come. |
| Settlement.SplitIncome | service/relay_account.go:910-990 | The events of one income: d to the DAO's address with 100 d <= amount * percent < 100 (d + 1); p to the delegators with 100 p <= (amount - d) * share < 100 (p + 1), nothing without a share or delegators, to each by stake rounded down, the rest to the first; amount - d - p to the operator. |
| Settlement.IncomeSplit | service/relay_account.go:910-990 | The same of the function the transactions are stated with. |
| Ledger.FoldBatch | service/relay_account.go:605-665 | Folding a batch through merged sums is applying its events one at a time. |
| Ledger.MergeEvents | service/relay_account.go:540-554 | The merge loop yields each address's signed sum and no other address. |
| Ledger.AddMerged | service/relay_account.go:621-665 | Merged sums are added to existing rows and new rows created for the other addresses. |
| Ledger.FoldKeeps | service/relay_account.go:605-665 | Folding any prefix of the pending events leaves cache and database in step and every remaining prefix covered. |
| Ledger.PostKeeps | service/relay_account.go:868-890 | A debit within the cached balance, or any credit, keeps cache and database in step and every prefix covered. |
| Ledger.RestartIff | service/relay_account.go:87-117 | After a restart the cache is right exactly when the pending events cancel out at every address with a row. |
| Ledger.RestartCanResurrectBalance | service/relay_account.go:87-117 | One unfolded payment leaves a restarted cache holding the spent amount. |
| Audit.Validate | service/relay_account.go:302-512 | The validator, which tracks balances only of debited addresses, accepts exactly the admissible events whose debits are covered by database balance and the events accepted before, and rejects the rest. |
| Audit.AcceptedIff | service/relay_account.go:379-507 | A credit of a batch is accepted exactly when it is founded: refunds and payments of the fee, refunds and incomes only in the statuses that owe them, releases up to the released amount, deposits as the chain has them, withdrawals with a record; an accepted debit is also covered where it stands. |
| Audit.NothingRejected | service/relay_account.go:379-512 | Admissible events with every prefix covered are all accepted. |
| Audit.AcceptedOrRejected | service/relay_account.go:362-512 | The accepted and the rejected events of a batch add up to it at every address, and a batch without rejections is accepted as it is. |
| Audit.AcceptedCovers | service/relay_account.go:379-393 | Whatever is pending, what the validator accepts overdraws no database balance. |
| Vestings.ScheduleMonotone | models/vesting.go:52-73 | The releasable amount never decreases with time and is the whole grant exactly from its last day on, in midnights passed since the start. |
| Vestings.ScheduleExact | models/vesting.go:52-73 | Nothing is releasable before the start, everything from the last day on, and in between r with r * days <= total * midnights < (r + 1) * days. |
| Vestings.ReleaseExact | service/vesting.go:335-386 | A release brings an active, unslashed record up to exactly what is releasable, completes it when that is all, logs the difference, and touches no other record. |
| Vestings.LockedShrinks | models/vesting.go:75-85 | The locked amount only shrinks, is zero exactly when the record is deprecated, grants nothing, or everything is releasable, and otherwise leaves due * days <= total * midnights < (due + 1) * days. |
| Vestings.ReleaseKeeps | service/vesting.go:335-386 | A release fails only for a missing record, so neither the schedule nor the duplicate-range error is reachable, and it extends the chain by at most one range. |
| Vestings.ChainTotal | service/vesting.go:360-384 | A chain of contiguous ranges pays out exactly its end. |
| Vestings.PendingReleaseIsLast | service/relay_account.go:470-507 | The one pending release of a record ends at its released amount, as the validator demands. |
| Vestings.GrantKeeps | service/vesting.go:205-276 | A new grant starts an empty chain and disturbs no other. |
| Vestings.ChainedOthers | service/vesting.go:406-465 | Slashing, restoring and events of other kinds leave every chain as it is. |
| Store.RelayStore.Handle | service/validate_task.go:384-540 | A handler's transaction commits with its cache update exactly as the machine's step, or its rows and events are rolled back and exactly the cache updates of the nested transactions before the refusal remain. |
| Store.RelayStore.CreateTask | service/task_status.go:23-64 | Creation is refused for lack of cached balance or a duplicate, and otherwise charges the fee in both tiers. |
| Store.RelayStore.AbortTaskTx | service/task_status.go:587-660 | The abort steps leave the rows of the abort transaction, or its failure. |
| Store.RelayStore.SucceedTask | service/task_status.go:731-835 | The success steps leave the rows of the success transaction, or its failure. |
| Store.RelayStore.ValidateTaskGroup | service/validate_task.go:386-530 | Sorting, scoring, deciding and applying leave the rows of the group transaction, or its failure, with the cache updates of every member applied. |
| Store.RelayStore.AbortTimedOutTask | service/start_task.go:240-267 | With other steps running before each attempt and each reload: without an error the task is not overdue afterwards, and if aborted here it was overdue as it stood and carries the reason of that status and type; a status changed error means that it advanced under all three attempts, any other error that it has ended. |
| Store.RelayStore.TryUnstaked | service/blockchain_processor.go:608-646 | Under the node's lock, an idle node quits and a busy one is set to quit, also when the status was read before the lock; other statuses are left alone. |
| Store.RelayStore.ProcessPending | service/relay_account.go:556-738 | One batch is validated, folded and its withdrawals marked exactly as the machine's fold. |
| Store.RelayStore.SyncRelayAccounts | service/relay_account.go:740-769 | Syncing ends with nothing pending and every event folded or rejected; from balanced books nothing is rejected, the pending events are applied one at a time, and database and cache are equal. |
| Store.RelayStore.ReleaseOne | service/vesting.go:335-386 | One record's release commits with its cache credit, bringing an active, unslashed record up to exactly what is releasable, or changes nothing. |
| Store.RelayStore.ProcessDueReleases | service/vesting.go:278-316 | A run is skipped while a release is pending; otherwise every active, unslashed record ends with released * days + days > total * midnights passed. |
| Store.RelayStore.DepositRelayAccount | service/relay_account.go:826-866 | A deposit is credited once in both tiers. |
| Store.RelayStore.WithdrawRequest | service/relay_account.go:1020-1051 | A withdrawal is charged exactly when the cached balance covers amount and fee. |
| Store.RelayStore.FulfillWithdraw | service/withdraw.go:123-176 | Fulfilment moves a processed pending record to success and credits a positive fee. |
| Store.RelayStore.RejectWithdraw | service/withdraw.go:178-225 | Rejection moves a processed pending record to failed and refunds amount and fee. |
| Signature.SignatureInjective | service/task_matching.go:43-48 | The signature determines the requirement, even when GPU names contain bars. |
| Signature.VersionHasNoBar | models/inference_task.go:173-191 | A version that parses contains no bar. |
| Signature.VersionRoundTrip | models/inference_task.go:173-191 | Three 64-bit numbers printed with dots parse to themselves, in order. |
| Matching.RunMatchingRound | service/task_matching.go:322-394 | A round pairs live tasks with compatible nodes, each at most once, and, when it meets no error, leaves a live task unmatched only if every node compatible with it went to a task ahead of it; an error means a live task whose hash columns are not whole hashes. |
| Matching.NothingLeft | service/task_matching.go:322-394 | So no compatible pair of a live unmatched task and an unreserved node is left. |
| Matching.NoPriorityInversion | service/task_matching.go:322-394 | So no node went to a task of lower priority, or of the same and a later id, than an unmatched live one that could have used it. |
| Matching.Memoised | service/task_matching.go:359-367 | Reusing a candidate set by signature equals recomputing it. |
| Matching.BuildCandidateSet | service/task_matching.go:163-204 | The candidate set is exactly the compatible nodes, and fails exactly when a hash column does not decode. |
| Matching.CompatibleIff | service/task_matching.go:50-124 | A node is compatible exactly when it is available, idle, healthy and allowed, of the same major version and no older, has the required GPU or memory enough and for a language model is no Mac, runs Linux with CUDA if asked, and holds every file and a file of every source of the task's whole hash columns. |
| Matching.CheckEntry | service/task_matching.go:92-124 | The filters, checked one after another, are those of the result above. |
| Matching.BetterNodeServes | service/task_matching.go:50-124 | A node that serves a task still does with more memory, if no GPU is required, and with a later version of the same major one. |
| Matching.PlatformAt | service/task_matching.go:70-78 | The platform is what follows the first plus sign, trimmed. |
| Matching.TrimIs | service/task_matching.go:70-78 | Trimming cuts spaces at both ends and leaves none there. |
| Matching.AfterIs | service/task_matching.go:285-303 | The keyset page after a task is what follows it in the queue. |
| Matching.MatchFromCandidateSet | service/task_matching.go:245-283 | A choice is an unreserved candidate, and there is none only if all are reserved. |
| Matching.HasUnreservedEligibleNode | service/task_matching.go:305-316 | True exactly when an available idle node is unreserved. |
| Pricing.PricingStore.Calibrate | service/task_execution_calibration.go:480-525 | After a sample every cached price is again the mean recomputed from the records; a failed fit changes no price and no existing record. |
| Pricing.PricingStore.RecomputeAggregates | service/task_execution_calibration.go:458-469 | Exactly the cached keys of the type with demand up to the changed VRAM are refreshed. |
| Pricing.UnservedPriceUnmoved | service/task_execution_calibration.go:458-469 | Whatever a record becomes, it moves no price of another type or of a demand above its VRAM. |
| Pricing.FailedFitIff | service/task_execution_calibration.go:497-520 | A failed fit leaves the records as they were exactly when the configuration already had one, and never changes an existing one. |
| Pricing.FailedFitLeavesRecord | service/task_execution_calibration.go:383-388 | After a first sample that failed to fit an empty store holds one clean record with the initial parameters and no samples or demands. |
| Pricing.PricingStore.GetTaskPricingParameters | service/task_execution_calibration.go:391-411 | The answer is the mean over the candidates among the current records, cached or not, for any GPU and for a required one; only the former is cached. |
| Pricing.PricingStore.CandidateCalibrations | service/task_execution_calibration.go:263-323 | The loops select the required GPU's matching records where these may be used, else all records that match the configuration, else those nearest in demand, of the named GPU if it has any. |
| Pricing.CandidateIff | service/task_execution_calibration.go:242-323 | A record is a candidate exactly when it could run the query and is of the required GPU and model where such records are to be used, else of the model if any is, else of those nearest in demand, of the named GPU if it has any; on the columns. |
| Pricing.NearestPoint | service/task_execution_calibration.go:253-261 | The distance of a demand from a record is that from the nearest demand between its least and its greatest. |
| Pricing.PricingStore.MeanParameters | service/task_execution_calibration.go:325-357 | The sum loop computes the mean of the set, in whatever order the records come. |
| Pricing.MeanIs | service/task_execution_calibration.go:325-357 | A mean has two parameters for images and six otherwise, each times the number of records their total. |
| Pricing.TotalGains | service/task_execution_calibration.go:325-357 | A record adds its own parameter to a total, or nothing if it has none there. |
| Pricing.RangeOfDemands | service/task_execution_calibration.go:471-478 | After any samples of positive demand a record has their number, the last fit, and the least and the greatest of their demands. |
| Flush.NoSampleLost | service/task_execution_calibration.go:884-902 | While flushes exclude one another, a clean record that ever took a sample equals its database row in every state of every run. |
| Flush.StoredIffLastWriteIsLatest | service/task_execution_calibration.go:816-864 | However calibrations and any number of flushers interleave, a clean record that was ever dirty equals its row exactly when the last write to the row carried the record's latest version; otherwise the row has fewer samples. |
| Flush.RunStoresIff | service/task_execution_calibration.go:816-864 | Every state of a run keeps all clean records stored exactly when no write replaces a later version of a clean record and no clear follows another write of its row. |
| Flush.StepStoresIff | service/task_execution_calibration.go:839-863 | A single step does so exactly under the same condition on the state before it; a calibration, a snapshot or a failed write always does. |
| Flush.LateWriteLosesSample | main.go:123-126 | Seven steps of two flushers from an empty store after which a clean record has two samples and its row one. |
| Flush.RunKeeps | service/task_execution_calibration.go:816-864 | Over every run, rows and snapshots are the current record or hold fewer samples, and a clean record that was ever dirty has been written. |
| Flush.QuietFlushCompletes | service/task_execution_calibration.go:816-864 | A flush with nothing in between stores every dirty record, touches no other row, leaves no record dirty and every value as it was. |
| Flush.SnapshotDirty | service/task_execution_calibration.go:821-828 | The snapshot lists every dirty record with its version, once. |
| Flush.ClearIs | service/task_execution_calibration.go:855-863 | Clearing marks clean exactly the records still at the version that was written. |
| Flush.UpsertIs | service/task_execution_calibration.go:839-850 | The upsert stores every snapshotted record and touches no other row. |
| Delegation.DelegationCache.Update | service/user_staking.go:40-67 | An update sets one stake, leaves the others, and keeps the two maps transposed, without empty inner maps, and both totals equal to their sums. |
| Delegation.DelegationCache.Unstake | service/user_staking.go:69-93 | Unstaking removes one stake, leaves the others and keeps the same; it needs both totals to exist. |
| Delegation.DelegationCache.RemoveNode | service/user_staking.go:95-112 | Removing a node removes all its stakes and no others and keeps the same. |
| Delegation.StakedKeeps | service/user_staking.go:40-67 | The value of an update is consistent whenever the cache was. |
| Delegation.UnstakedKeeps | service/user_staking.go:69-93 | The value of an unstake is consistent whenever the cache was. |
| Delegation.DelegationCache.DelegatorTotal | service/user_staking.go:114-122 | A delegator's total is the sum of the delegator's stakes. |
| Delegation.DelegationCache.NodeTotal | service/user_staking.go:124-132 | A node's total is the sum of its stakes. |
| CanonicalJson.Buffer.WriteCanonicalValue | models/model_file.go:161-197 | The writer appends exactly the printed value. |
| CanonicalJson.Buffer.WriteCanonicalString | models/model_file.go:199-226 | The writer appends exactly the quoted, escaped string. |
| CanonicalJson.Buffer.Keys | models/model_file.go:180-184 | The keys of a map come out in ascending order of code points, in whatever order they are visited. |
| CanonicalJson.OrderIndependent | models/model_file.go:180-184 | Any order of visiting the keys leads to the one printed order. |
| CanonicalJson.KeysAscend | models/model_file.go:180-184 | The printed keys are those of the map; of two, the earlier ends or has the smaller code point where they first differ. |
| JsonParser.ParsePrint | models/model_file.go:161-226 | A parser recovers a printed value from in front of any delimiter. |
| JsonParser.ParseStringPrinted | models/model_file.go:199-226 | A parser recovers an escaped string, as section 7 of RFC 8259 writes the escapes. |
| JsonParser.PrintInjective | models/model_file.go:145-197 | Distinct values print differently. |
| HashList.SortedUniqueHashes | models/model_file.go:229-243 | The loop that compacts the sorted copy over itself yields the sorted list without duplicates. |
| HashList.SortedUniqueIs | models/model_file.go:229-243 | The result is strictly ascending with exactly the members of the input. |
| HashList.StoredForm | models/model_file.go:229-254 | The stored form has 32 bytes per distinct hash, in place, in ascending order by the first byte that differs. |
| HashList.DecodeUndoesEncode | models/model_file.go:247-268 | Decoding an encoded list gives it back sorted and without duplicates. |
| HashList.EncodeUndoesDecodeIff | models/model_file.go:247-268 | Encoding a decoded byte string gives it back exactly when its hashes are strictly ascending. |
| HashList.EncodingIsOfTheSet | models/model_file.go:247-254 | Two lists are stored alike exactly when they have the same members. |
| HashList.Encode | models/model_file.go:247-254 | The loop computes the stored form. |
| HashList.Decode | models/model_file.go:257-268 | The loop splits whole hashes and refuses any other length. |
| ModelFiles.DistributionKeyIff | models/model_file_task.go:256-261 | While the hashes at hand do not collide, two requirements share a key exactly when they ask for the same exact files and the same sources. |
| ModelFiles.IdentityIff | models/model_file.go:58-134 | Two entries have one identity exactly when source type, format and arguments agree, the repositories are the same URL or the same name but for case, and the revisions are both empty, the same, or the same commit hash but for case. |
| ModelFiles.ExactAndSourceDisjoint | models/model_file.go:71-114 | No hash required exactly is a hash required by source. |
| ModelFiles.ExactIsNeverSource | models/model_file.go:71-96 | The canonical text of an entry with a revision is never that of one without. |
| ModelFiles.DeriveRequiredHashes | models/model_file_task.go:157-178 | The loop sorts entries into exact and source hashes, each sorted and without duplicates. |
| ModelFiles.ModelFilesCovered | service/node_model_state.go:44-56 | True exactly when every exact file and every source is held. |
| ModelFiles.ResolveExecutionFiles | service/node_model_state.go:299-337 | A start resolves its files exactly when the matching gate lets the node through; the result holds every exact file and, per source, one held file, in memory if possible, the smallest of those. |

## Left out

- HTTP routes, configuration loading, migrations, metrics, logging and trace records: no property beyond plumbing.
- Ethereum calls, contract bindings, signatures, VRF, message authentication codes and Hugging Face calls: their verdicts are inputs.
- Ridge regression, health recovery, stake scores, sampling weights and execution time prediction: their results are inputs, and floating point rounding is not modelled.
- The transaction sender, delegated slash batches and the pending slash queue: any node that has not quit may be slashed at any time.
- Node index locking and removal: a round works on a fixed snapshot of entries.
- Emission tables, charts, history cleanup, whitelists, node name counts and model download distribution.
- Daily withdrawal limits and fee computation of withdrawals.
- Metrics, traces and running task snapshots that a rolled back group request has already updated.
- Failures of the database or the chain client half way through a step: a step happens whole or not at all.
- The unique index on event reasons is not a failing branch; that no task event is emitted twice is proved instead.
- The execution timeout predicted from the candidate records.
- Lower-casing beyond ASCII letters, and UTF-8 as bytes: canonical JSON is a sequence of characters.
- Library sorting is a sorting function; only the code around it is modelled step by step.
- Matching.RunMatchingRound: the abort of a task whose model is no longer allowed is a step of the lifecycle and not repeated here; the task counts as not live.
- StuckGroups.StuckUntilFreed: says nothing of a group with a member that was also validated alone or in another group, because an id is modelled as the list of the tasks it names.
- StuckGroups.TransactFreesIff: leaves out requests that validate a member alone or in another group, for the same reason.
