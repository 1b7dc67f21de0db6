# A verified model of the exchange's money movements

This project models, in Dafny, the parts of the exchange back office whose correctness carries
money, and proves what they promise:

- **Ledger and chart of accounts** (`Prelude`, `Ledger`, `LedgerViews`, `Cover`, `ChartOfAccounts`,
  `GapLaws`, `CoaCheckers`, `Provisioning`, `LedgerRules`). The double-entry ledger is an
  append-only log of direct and two-phase transfers; balances are sums over it. The CLIENT and FIRM
  identities are shown to be out by exactly the net amount posted across a book's border, over every
  run of pending, posted, voided and direct transfers; the three programs that check them are loops
  proved against that, and account provisioning and the opening capital establish and keep what they
  rest on. Accounts may carry the no-overdraft flag, as customer payables do when an administrator
  opens them: `Cover` proves what the flag keeps over every run, exactly when it makes a difference,
  and how documents compete for cover.
- **Swaps** (`Swap*`). A swap is four legs, each a chain of numbered attempts, each a fiat or crypto
  state machine, with voiding, retry, parking for review and resume. One invariant ties rows,
  summary columns, audit entries and ledger together. It holds over every run of a swap whose legs
  can all start; for any other swap the one call that breaks it, the state it leaves, and that
  nothing repairs it are stated exactly (`SwapDivergence`). Swaps created, called and refused on one
  ledger, between foreign postings, do not interfere; every account carries the sum of what the
  swaps' clear legs moved, and every identity holds (`SwapSystem`, `SwapTotals`). `SwapRules` says
  of a swap in order, case by case, what each action does to rows, ledger, summary and audit
  entries. The theorems about one swap are first proved over accounts without the no-overdraft flag;
  `SwapCover` and `SwapCoverRuns` then prove, for flagged payables on the shared ledger, that cover
  matters at creation and at a resume only, and restate each of them with that condition.
  `SwapExamples` runs concrete swaps into each exception.
- **Withdrawals** (`Withdraw*`). Locks at creation, screening gates, payout, settlement,
  compensation and repair. `WithdrawRules` says what each call does, case by case, and what no run
  can do: pay out a declined withdrawal, or one whose gates were not passed. The ledger holds
  exactly what the row says; over any interleaving a customer's pending debits are the open locks of
  that customer's withdrawals. Where the payable is flagged, a withdrawal is created exactly when
  there is cover for net and fee together (`WithdrawLocality`).
- **The whole back office** (`Requests`, `SwapRequests`, `WithdrawRequests`, `Exchange`). Every call
  of either workflow is a run of ledger requests under its document's own number; so swaps and
  withdrawals on one ledger each see the other as foreign postings, both theories hold of the whole,
  and pending debits and identities add up over both.
- **Reconciliation** (`FlowMatch*`, `Mirror*`, `Recon*`, `TbIds`, `RunningBalance`). The two-pass
  matcher, the mirrored statement and its keys, the five injected anomalies and their detection, the
  rotating choice of wallets, the running-balance pass, and both modes of the demo end to end.
- **Cases** (`CaseLifecycle`, `CaseStreaks`, `CaseRules`, `ReconRuns`, `CaseScripts`). Over any
  sequence of engine runs the case table is the list of unbroken streaks of breaks, per wallet and
  date; `CaseRules` says what one run adds to it.
- **Base seed** (`BaseSeed`, `BaseSeeder`). Roles, grants, seed administrators and policies reach a
  fixpoint from any earlier database.

Where the program updates rows in place or loops, the model is imperative (classes `SwapWorkflow`,
`WithdrawWorkflow`, `ReconEngine`, `StatementTable`, `Database`, and methods with loops), and each
method is proved equal to a specification function about which the theorems are then proved.
Amounts are in minor units. A thrown exception is a result (`ok == false`, `Err`, `NoLine`): for a
swap the database part is rolled back and the ledger part is not; for a withdrawal nothing is
rolled back.

`dafny verify dfyconfig.toml` checks the project.

## What turned out differently from what one would expect

Each of these is a theorem below, with the exact condition.

- A crypto leg that is CANCELled is neither a failure nor clear: its pending transfer is never
  voided and resume is refused. A swap in order can still reach SUCCESS if and only if its last
  attempt is not cancelled and all its legs can start (`RecoverableIff`, `CancelledIsReachable`).
- Settling a leg posts it before the next leg is started. If the next leg cannot start, because a
  wallet or an account is missing or its side's kind is guessed wrong, the rows are rolled back and
  the ledger is not; the leg can then never be settled, not even once the missing part is supplied.
  A call is atomic if and only if this is not the case (`StepIsAtomicIff`, `BlockedDiverges`,
  `DivergedForGood`, `CanDivergeIff`, `NoPayableDiverges`).
- The workflow takes the to side for the other kind than the from side, and only fiat against fiat is
  refused beforehand. With every account and wallet present, a swap can succeed if and only if one
  of its assets is fiat and the other is not; one between two crypto assets diverges at its first
  to-side leg (`EquippedSucceedsIffOneFiat`, `TwoChainsDiverge`).
- A creation that is refused halfway keeps what it booked: the customer's amount stays pending under
  the number of a swap that does not exist (`RefusedCreationLeavesNothingIff`, `RefusedCreationLocks`).
- Documents are independent only where no account carries the no-overdraft flag. The reference manual
  (`doc-final/reference/ledger-and-business-flows.md:186`) says every customer payable carries it; the
  seeds open accounts without flags and only the manual route sets it
  (`src/modules/accounting/tigerbeetle/tb-manual-account.service.ts:126-129`), so both kinds are
  modelled. On a flagged payable two swaps that would each be created alone can refuse each other, a
  parked leg can be refused its resume, and nothing else changes as long as the fee does not exceed
  the proceeds (`CompeteForCover`, `SwapsCompeteForCover`, `SecondSwapIsRefused`, `CappedStep`,
  `CappedRecoverableIff`).
- A quote subtracts the fee from the proceeds without comparing them
  (`src/modules/trading/pricing-center/pricing-engine.service.ts:220-235`), and no later step does. If a
  flagged payable cannot bear the fee even with the proceeds, settling leg 3 posts it and throws, and no
  call repairs that, whatever cover arrives later (`FeeSettlesIff`, `UncoveredFeeIsFinal`).
- RETURN of a cleared fiat leg is refused by the ledger, unless the leg's amount is zero in minor
  units; then the leg is tried again behind the current one (`ClearReturnIff`, `DustIsReturned`).
- An administrator's REJECT or CANCEL of a withdrawal, and a FLAG, never release the lock: such a
  lock is held for good (`LeakedForGood`, `LocksAreLiveIffNoLeak`).
- A payout under way is not stopped when its withdrawal is flagged, rejected or cancelled: confirmed, it
  settles nothing; failed or returned, it frees nothing, and the handler throws (`StrayPayoutMoves`).
- If the firm's accounts cannot take the fee, settling spends both locks first and then throws;
  no repair call helps (`SucceedsIffFeeCollectable`, `HalfSettledStays`).
- A withdrawal number whose earlier creation was rolled back can be drawn again; the ledger then
  answers "exists" and the new withdrawal holds nothing (`ReusedNumberHoldsNothing`).
- A faithful mirror reconciles clean in every row order if and only if no two flows share a
  reference and a direction with different amounts, and no unreferenced flow bridges two others
  that are too far apart in time (`CleanInEveryOrder`).
- The comment at `scripts/recon-demo.ts:201-209` says the crossing filter is not applied; the query
  at line 250 applies it. The model follows the query; `MirrorGap` states what that costs.
- The plan pads ledger account ids before looking them up, the balance check does not: an unpadded
  row is mirrored but not counted (`UnpaddedRowOpensGap`).
- Realigning closing balances heals a wallet's case if and only if its flows match cleanly, so after
  the five injections it heals none of the five (`InjectedWalletsStayOpen`).
- Auto-healing looks at one business date; a wallet the run skips counts as recovered; a run stopped
  by the identity gate touches no case (`OpenIffLastRunBroke`).
- The base completeness check looks at neither grants, permission rows, texts nor the rule row, and
  e-mail addresses are not unique (`EnsureFixesGrantsIff`, `DisabledRuleStaysOff`, `SeedCompletesIff`).

## Model

| member | source | states |
|---|---|---|
| LedgerViews.CreateIsLocal | src/modules/accounting/tigerbeetle/accounting.service.ts:78-151 | over accounts opened without the no-overdraft flag, the answer to a transfer request depends only on the transfers of the same business document, and no other document's transfers move; for flagged ones see Cover |
| LedgerViews.ResolveIsLocal | src/modules/accounting/tigerbeetle/accounting.service.ts:220-296 | the same for posting and voiding |
| LedgerViews.MineUpdate | src/modules/accounting/tigerbeetle/utils/tb-id.util.ts:7-16 | rewriting a transfer and looking at one document's part commute, because ids carry their document |
| LedgerViews.ResolveShifts | src/modules/accounting/tigerbeetle/accounting.service.ts:220-334 | any sum over the ledger moves by what the document's own part of it moves |
| Cover.NeverOverdrawn | doc-final/reference/ledger-and-business-flows.md:186 | over every run of requests, postings and voidings, no account opened with the no-overdraft flag is ever overdrawn |
| Cover.FlagRefusesIff | src/modules/accounting/tigerbeetle/tb-manual-account.service.ts:126-129 | the flag changes the answer to a request exactly when it would be recorded anew and its flagged account has less free than the amount |
| Cover.AlikeIffCovered | src/modules/accounting/tigerbeetle/tb-manual-account.service.ts:126-129 | a ledger with flagged accounts answers as one without, all along, exactly over the runs in which no request lacks cover when its turn comes |
| Cover.CompeteForCover | src/modules/accounting/tigerbeetle/tb-manual-account.service.ts:126-129 | two requests of different documents that fit alone: after the first, the second is granted exactly when there is cover for both |
| ChartOfAccounts.GapIsCrossFlow | scripts/verify-realtime-coa.ts:24-40 | assets minus claims of a book in a ledger equal the net amount posted across the book's border, for every registry and every log |
| ChartOfAccounts.DisciplinedIsBalanced | scripts/demo-lib.ts:517-531 | a ledger whose every transfer stays within one book satisfies every identity, whatever was pended, posted or voided |
| ChartOfAccounts.OnePostingShifts | scripts/verify-realtime-coa.ts:24-40 | one posting moves a book's gap by exactly its amount when it enters or leaves the book, and not otherwise |
| GapLaws.GapFollowsPostings | scripts/verify-realtime-coa.ts:24-40 | over every run of pending, posted, voided and direct transfers, a book's gap moves by exactly what the run posts across the book's border |
| GapLaws.PendAndVoidKeepGaps | src/modules/accounting/tigerbeetle/accounting.service.ts:153-296 | pending and voiding never move a gap |
| GapLaws.PostMovesGap | src/modules/accounting/tigerbeetle/accounting.service.ts:220-257 | posting a pending transfer moves a gap as posting it directly would |
| GapLaws.IdentitiesHoldIff | scripts/verify-realtime-coa.ts:24-40 | balanced books stay balanced over a run exactly when its postings cancel out across every book's border |
| GapLaws.IdentitiesSurviveRuns | scripts/demo-lib.ts:517-531 | if every transfer recorded stays within a book, every identity holds after any run |
| CoaCheckers.ProvisionedVerdictsAgree | prisma/seed-tb.helper.ts:91-117 | signing balances by registry code and by ledger code gives the same sums on a provisioned registry |
| CoaCheckers.VerdictsDifferOnMiscodedAccount | scripts/demo-lib.ts:521-531 | without matching codes the two checkers can disagree |
| CoaCheckers.VerifyRealtimeCoa | scripts/verify-realtime-coa.ts:14-40 | the standalone checker counts no failure exactly when every identity holds |
| CoaCheckers.BuildCoaBalanceMap | scripts/demo-lib.ts:475-490 | the nested map accumulates, for every ledger and code, exactly the filtered sum of signed balances; it throws exactly when an account is unknown |
| CoaCheckers.VerifyEndStateCoa | scripts/demo-lib.ts:517-531 | its verdict is that every identity holds |
| CoaCheckers.ComputeInternalIdentity | src/modules/clearing-settle/reconciliation/workflow/wallet-recon-run.service.ts:312-383 | the engine's gate is balanced exactly when every identity holds |
| Provisioning.EnsureRegistered | prisma/seed-tb.helper.ts:23-69 | find or create: the row of the key is there under its derived id, an existing row is not duplicated |
| Provisioning.ProvisionTbAccounts | prisma/seed-tb.helper.ts:76-117 | opens every registered account that is missing and changes none that exists |
| Provisioning.ProvisionsIffAccountsAgree | prisma/seed-tb.helper.ts:91-117 | afterwards ledger codes equal registry codes, one account per row, exactly when every account that was there before agreed with its row |
| Provisioning.ProvisionTwiceIsOnce | prisma/seed-tb.helper.ts:71-117 | a second provisioning opens nothing |
| Provisioning.SeedCapitalInjection | prisma/seed.business.ts:611-672 | the batch of collected transfers has the effect of injecting each currency in turn |
| Provisioning.InjectionKeepsIdentities | prisma/seed.business.ts:656-672 | injecting capital keeps every identity |
| Provisioning.InjectTwiceIsOnce | prisma/seed.business.ts:650-690 | sending the capital again changes nothing, even when two assets share a currency |
| LedgerRules.RepeatedRequest | src/modules/accounting/tigerbeetle/accounting.service.ts:78-151 | a request under a recorded id is granted exactly when debit, credit, amount, ledger and kind are the recorded ones, and then changes nothing |
| LedgerRules.NewRequest | src/modules/accounting/tigerbeetle/accounting.service.ts:78-151 | a new request is granted exactly when it names two different known accounts that are both in its ledger, and is then the last of the log |
| LedgerRules.PendingRequest | src/modules/accounting/tigerbeetle/accounting.service.ts:153-218 | booking pending records an open two-phase transfer; a flagged account needs the amount covered by posted credits less posted and pending debits |
| LedgerRules.DirectRequest | src/modules/accounting/tigerbeetle/accounting.service.ts:78-151 | booking directly records a posted transfer that is not two-phase |
| LedgerRules.ResolvingRequest | src/modules/accounting/tigerbeetle/accounting.service.ts:220-296 | posting and voiding are granted exactly for a recorded two-phase transfer that is still pending, at its full amount, and change its phase to posted or voided and nothing else |
| LedgerRules.BalancesGrow | scripts/demo-lib.ts:475-490 | what one more transfer adds to posted debits, posted credits and pending debits of any account |
| LedgerRules.IdentitiesMean | src/modules/clearing-settle/reconciliation/workflow/wallet-recon-run.service.ts:312-383 | all identities hold exactly when in every registered ledger posted debits less credits over codes 1, 100 and 101 are zero, and over codes 50 and 200 to 203 |
| LedgerRules.InjectionMeans | prisma/seed.business.ts:611-672 | the opening capital of a currency is one posting from the system account 50 to the system account 200 of its ledger, made exactly when both are registered |
| SwapLedger.PlanMovesWithinABook | src/modules/funds-layer/constants/swap-leg-plan.constant.ts:1-49 | every accounting entry of the leg plan debits and credits accounts of one book |
| SwapLedger.InitiateAppends | src/modules/trading/swap-transactions/swap-leg-accounting.ts:292-326 | booking a leg appends exactly its pending transfers, in plan order, under ids of leg and attempt |
| SwapLedger.ResolveRewrites | src/modules/trading/swap-transactions/swap-leg-accounting.ts:330-368 | posting or voiding a leg turns exactly that attempt's pending transfers and nothing else |
| SwapLedger.InitiateBooks | src/modules/trading/swap-transactions/swap-leg-accounting.ts:292-326 | over accounts opened without the no-overdraft flag, booking an attempt under free ids records a pending transfer for each accounting entry up to the first that cannot be recorded, and succeeds exactly when there is none; for flagged ones see SwapCover.CappedCreationIff |
| SwapRuns.SpentCannotResolve | src/modules/accounting/tigerbeetle/accounting.service.ts:220-296 | a leg that was posted or voided cannot be resolved again, and trying changes nothing |
| SwapRuns.StepKeepsInv | src/modules/trading/swap-transactions/swap-workflow.service.ts:357-641 | every operator call except settling a leg whose successor cannot start, accepted or refused, keeps the invariant between rows, summary, audits and ledger, rows only grow, and a refused call changes nothing |
| SwapRuns.RunKeepsInv | scripts/verify-swap-self-heal.ts:69-182 | of a swap all of whose legs can start, so does every run |
| SwapRuns.ExecuteEstablishesInv | src/modules/trading/swap-transactions/swap-workflow.service.ts:116-252 | over accounts opened without the no-overdraft flag, a swap is created exactly when its first leg can start (wallets and accounts found, kind guessed right); it then satisfies the invariant, and in both cases the ledger keeps exactly what was booked; for flagged ones see SwapCover.CappedCreationIff |
| SwapRuns.RefusedCreationLeavesNothingIff | src/modules/trading/swap-transactions/swap-workflow.service.ts:306-349 | over accounts opened without the no-overdraft flag, a refused creation leaves the ledger as it was exactly when the wallets are missing or the first transfer cannot be recorded; for flagged ones see SwapCoverRuns.CappedRefusalLeavesNothingIff |
| SwapRuns.AdvanceEarlierRefused | src/modules/trading/swap-transactions/swap-workflow.service.ts:513-581 | an action on any leg before the current one is refused and changes neither rows nor ledger, RETURN of a cleared fiat leg included, when the leg has an amount in minor units |
| SwapRuns.ClearReturnIff | src/modules/trading/swap-transactions/swap-leg-accounting.ts:357-368 | RETURN of a cleared fiat leg is accepted exactly when its amount is zero in minor units, and then no attempt history explains the rows |
| SwapDivergence.StepIsAtomicIff | src/modules/trading/swap-transactions/swap-workflow.service.ts:428-500 | a call is atomic across database and ledger exactly when it does not settle a leg whose successor cannot start |
| SwapDivergence.BlockedDiverges | src/modules/trading/swap-transactions/swap-workflow.service.ts:428-500 | such a call throws, leaves the rows as they were, and leaves the leg posted together with what its successor booked |
| SwapDivergence.DivergedForGood | src/modules/trading/swap-transactions/swap-workflow.service.ts:513-641 | from then on every call is refused, even after the missing accounts or wallets are supplied |
| SwapDivergence.RunKeepsSound | src/modules/trading/swap-transactions/swap-workflow.service.ts:513-641 | over every run rows and ledger agree, or have parted in exactly this way |
| SwapRuns.VoidingClearFails | src/modules/trading/swap-transactions/swap-workflow.service.ts:357-421 | voiding a cleared leg fails at the ledger |
| SwapTheorems.ReachableIsSound | scripts/verify-swap-self-heal.ts:69-182 | the rows of every reachable swap are a proper history with exact summary and audits, and its ledger agrees unless it diverged, which a swap all of whose legs can start never does |
| SwapTheorems.AttemptStructure | scripts/verify-swap-self-heal.ts:128-155 | attempts of a leg are numbered from 1 without gaps, and every row but the last failed or waits for review |
| SwapTheorems.OneLiveRowPerLeg | scripts/verify-swap-redesign-happy.ts:95-108 | at most one row of a leg is in flight or clear, and a later leg exists only behind a clear one |
| SwapTheorems.SummaryIsExact | scripts/verify-swap-self-heal.ts:114-158 | SUCCESS, stage and needs-review say exactly which legs are clear, which leg is worked on, and whether its last attempt waits for review |
| SwapTheorems.RowsAreAudited | scripts/verify-swap-self-heal.ts:169-182 | the rows of a leg are one more than its retried and resumed audits |
| SwapRules.CreatedSwap | src/modules/trading/swap-transactions/swap-workflow.service.ts:116-252 | a swap just created is PROCESSING in the sell stage with one row, attempt 1 of leg 1, CONFIRMING or SIGNING by the kind of its side, one audit entry, and its transfers pending |
| SwapRules.HopMoves | src/modules/funds-layer/domain/funds-flow.service.ts:28-88 | the listed steps on the way, CANCEL of a crypto leg included, change the current row to the listed status and nothing else |
| SwapRules.FailureRetries | src/modules/trading/swap-transactions/swap-workflow.service.ts:357-393 | each listed failing action at attempt 1 or 2 is accepted: the row gets the listed failure status, its transfers are voided, and the next attempt starts with its own transfers pending, with the retry audited |
| SwapRules.FailureParks | src/modules/trading/swap-transactions/swap-workflow.service.ts:394-421 | from attempt 3 on the row becomes NEEDS_REVIEW, its transfers are voided, and the parking is audited and shown |
| SwapRules.SettleStartsNext | src/modules/trading/swap-transactions/swap-workflow.service.ts:428-500 | settling legs 1 to 3 clears the row, posts its transfers and starts attempt 1 of the next leg with its transfers pending |
| SwapRules.SettleFinishes | src/modules/trading/swap-transactions/swap-workflow.service.ts:428-500 | settling leg 4 clears and posts it and makes the swap a SUCCESS without a stage |
| SwapRules.ResumeRestarts | src/modules/trading/swap-transactions/swap-workflow.service.ts:589-641 | resuming a parked leg starts its next attempt under its own ids, audits it and lowers the review flag |
| SwapRules.OtherActionsRefused | src/modules/funds-layer/domain/funds-flow.service.ts:28-88 | every other action on the current leg is refused and changes neither rows nor ledger |
| SwapRules.ActionIsAnswered | src/modules/trading/swap-transactions/swap-workflow.service.ts:513-581 | any action on the current leg: a step on the way, a retry, a parking, the next leg, SUCCESS or a refusal, by the two tables of steps and failures, the attempt and the leg |
| SwapRules.OtherCallsRefused | src/modules/trading/swap-transactions/swap-workflow.service.ts:513-641 | a finished swap refuses every call, a parked or cancelled leg every action, a leg not yet started every action, and a leg that is not parked its resume |
| SwapRules.OpenLegBlocksLater | src/modules/trading/swap-transactions/swap-workflow.service.ts:513-581 | in any state whatever, no later leg takes an action while the active row of an earlier one is not clear |
| SwapRules.ThreeFailuresAndAResume | scripts/verify-swap-self-heal.ts:69-182 | the run of the self-heal script on any fresh leg: three failures and a resume give exactly the attempts 1 to 4, failed, failed, parked and started, with two retries, one parking and one resume audited |
| SwapRules.StageNames | src/modules/trading/swap-transactions/swap-workflow.service.ts:266-278 | the stage shown is sell, settle, buy or fee for legs 1 to 4 and none after SUCCESS, the review flag is up exactly while the current leg is parked |
| SwapRules.AuditsFollowRows | src/modules/trading/swap-transactions/swap-workflow.service.ts:373-500 | an audit entry exists exactly for every cleared row, every attempt 1 or 2 that was followed by another, every parked attempt from 3 on, every attempt after the third, and the SUCCESS |
| SwapRules.TransfersMean | src/modules/trading/swap-transactions/swap-leg-accounting.ts:292-326 | a leg's transfers: one per plan entry, in order, on the accounts registered for its codes on the leg's side, for the leg's amount and ledger, under an id of swap, event and attempt; none at amount zero |
| SwapRules.LegWallets | src/modules/funds-layer/constants/swap-leg-plan.constant.ts:1-49 | the two wallets that each leg of either plan needs |
| SwapService.SwapWorkflow.InitiateLegPending | src/modules/trading/swap-transactions/swap-leg-accounting.ts:292-326 | the loop over accounting entries equals the specification, including the transfers left behind by a refusal |
| SwapService.SwapWorkflow.ResolveLegPending | src/modules/trading/swap-transactions/swap-leg-accounting.ts:330-368 | the same for posting and voiding |
| SwapService.SwapWorkflow.ActiveLegsBySeq | src/modules/trading/swap-transactions/swap-transactions.service.ts:374-387 | the map holds for every leg its row with the highest attempt |
| SwapService.SwapWorkflow.RecomputeProjections | src/modules/trading/swap-transactions/swap-transactions.service.ts:394-409 | stage is the lowest leg whose active row is not clear, needs-review whether some active row is parked |
| SwapService.SwapWorkflow.CreateAndStartLeg | src/modules/trading/swap-transactions/swap-workflow.service.ts:306-349 | wallet rules, the new attempt's row, booking, audits and summary |
| SwapService.SwapWorkflow.LegCleared | src/modules/trading/swap-transactions/swap-workflow.service.ts:428-500 | post, then start the next leg or succeed |
| SwapService.SwapWorkflow.LegFailedSelfHeal | src/modules/trading/swap-transactions/swap-workflow.service.ts:357-421 | void, then retry before attempt 3 and park from it on |
| SwapService.SwapWorkflow.AdvanceLeg | src/modules/trading/swap-transactions/swap-workflow.service.ts:513-581 | one operator action, with roll-back of the rows on a throw; on the current leg of a swap in order whose next leg can start, every action comes to what SwapRules.ActionIsAnswered says, case by case |
| SwapService.SwapWorkflow.ResumeLeg | src/modules/trading/swap-transactions/swap-workflow.service.ts:589-641 | resuming a parked leg appends its next attempt, started, and audits it |
| SwapService.SwapWorkflow.ExecuteSwap | src/modules/trading/swap-transactions/swap-workflow.service.ts:116-252 | the first leg of a new swap; it succeeds exactly when leg 1 can start, and leaves one row in the sell stage |
| SwapRecovery.CureMakesProgress | scripts/verify-swap-self-heal.ts:84-112 | over accounts opened without the no-overdraft flag, the recovering operator's next call is accepted and strictly nearer to success; for flagged ones see SwapCover.CappedStep |
| SwapRecovery.CureLeadsOn | scripts/verify-swap-self-heal.ts:160-182 | over accounts opened without the no-overdraft flag, from any state without a cancelled last attempt the recovering operator reaches SUCCESS or a leg whose successor cannot start; for flagged ones see SwapCoverRuns.AdvancingLeadsOn |
| SwapRecovery.CancelledIsStuck | src/modules/funds-layer/domain/funds-flow.service.ts:28-63 | a swap whose current attempt was cancelled never changes again |
| SwapRecovery.RecoverableIff | src/modules/trading/swap-transactions/swap-workflow.service.ts:94 | over accounts opened without the no-overdraft flag, SUCCESS is reachable exactly when the last attempt is not cancelled and all four legs can start; for flagged ones see SwapCoverRuns.CappedRecoverableIff |
| SwapRecovery.SwapCanSucceedIff | src/modules/trading/swap-transactions/swap-workflow.service.ts:116-252 | over accounts opened without the no-overdraft flag, a swap can be created and brought to SUCCESS exactly when all four legs can start; for flagged ones see SwapCoverRuns.CappedSucceedsIff |
| SwapRecovery.CanDivergeIff | src/modules/trading/swap-transactions/swap-workflow.service.ts:428-500 | over accounts opened without the no-overdraft flag, a swap can be created and then diverge exactly when its first leg can start and some other leg cannot; for flagged ones see SwapCoverRuns.CappedDivergesIff |
| SwapRecovery.EquippedSucceedsIffOneFiat | src/modules/trading/swap-transactions/swap-workflow.service.ts:291-295 | with every account and wallet present and no account flagged, a swap can be created and succeed exactly when one of its two assets is fiat and the other is not; for flagged ones see SwapCoverRuns.CappedEquippedSucceedsIff |
| SwapCover.CappedCreationIff | src/modules/trading/swap-transactions/swap-workflow.service.ts:116-252 | out of a payable that may be flagged, on the shared ledger, a swap is created exactly when its first leg can start and the payable has the amount free; for want of cover alone it is refused without a trace |
| SwapCover.SwapsCompeteForCover | src/modules/accounting/tigerbeetle/tb-manual-account.service.ts:126-129 | two swaps out of one flagged payable, each of which would be created alone: after the first, the second is created exactly when there is cover for both |
| SwapCover.RetryHasCover | src/modules/trading/swap-transactions/swap-workflow.service.ts:357-421 | what voiding an attempt gives back always covers its retry |
| SwapCover.FeeHasCoverIff | src/modules/trading/swap-transactions/swap-workflow.service.ts:428-500 | the fee leg lacks cover exactly when the fee exceeds the proceeds and what was free before |
| SwapCover.CappedStep | src/modules/trading/swap-transactions/swap-workflow.service.ts:513-641 | of a swap under way the flag changes the outcome of a call exactly when the call is a resume without cover, which is refused without a trace |
| SwapCover.DeniedWouldResume | src/modules/trading/swap-transactions/swap-workflow.service.ts:588-641 | and which would have been accepted without the flag |
| SwapCover.SharedStep | src/modules/trading/swap-transactions/swap-workflow.service.ts:513-641 | a call answers on the shared ledger as on the swap's own part of it, except for that resume, and keeps flagged accounts from being overdrawn |
| SwapCoverRuns.RunProjects | scripts/verify-swap-self-heal.ts:69-182 | whatever a run does over flagged payables, its calls that were not denied do over accounts without the flag |
| SwapCoverRuns.AdvancingLeadsOn | scripts/verify-swap-self-heal.ts:160-182 | over flagged payables, advancing alone takes a swap that is neither parked nor cancelled to SUCCESS or to a leg whose successor cannot start: no cover is asked for on the way |
| SwapCoverRuns.CappedRecoverableIff | src/modules/trading/swap-transactions/swap-workflow.service.ts:94 | over flagged payables, SUCCESS is reachable exactly when the last attempt is not cancelled, all four legs can start, and the swap is not parked without cover for its next attempt |
| SwapCoverRuns.CappedSucceedsIff | src/modules/trading/swap-transactions/swap-workflow.service.ts:116-252 | and a swap can be created and brought to SUCCESS exactly when all four legs can start and the payable has the amount free |
| SwapCoverRuns.CappedDivergesIff | src/modules/trading/swap-transactions/swap-workflow.service.ts:428-500 | it can be created and then diverge exactly when it can be created and some later leg cannot start: want of cover never makes it diverge while the fee does not exceed the proceeds |
| SwapCoverRuns.CappedEquippedSucceedsIff | src/modules/trading/swap-transactions/swap-workflow.service.ts:291-295 | with every account and wallet present, exactly when one asset is fiat, the other is not, and the payable has the amount free |
| SwapCoverRuns.CappedRefusalLeavesNothingIff | src/modules/trading/swap-transactions/swap-workflow.service.ts:306-349 | a refused creation leaves the ledger as it was exactly when the wallets are missing, the first transfer cannot be recorded, or the payable lacks cover |
| SwapCoverRuns.FeeSettlesIff | src/modules/trading/swap-transactions/swap-workflow.service.ts:428-500 | settling leg 3 fails exactly when the flagged payable cannot bear the fee even with the proceeds, and then stays posted while the rows do not move |
| SwapCoverRuns.UncoveredFeeIsFinal | src/modules/trading/swap-transactions/swap-workflow.service.ts:513-641 | after that every call is refused and changes nothing, whatever other documents have posted since |
| SwapRecovery.DriveSwapLegToClear | scripts/demo-lib.ts:293-320 | with one attempt the leg is clear within four calls, so the twelve-step throw is out of reach; the query does not order by attempt, so one attempt is needed |
| SwapRecovery.DriveSwapToSuccess | scripts/demo-lib.ts:323-331 | over legs 1 to 4 the driver takes any processing single-attempt swap to SUCCESS |
| SwapLocality.StepLocal | src/modules/trading/swap-transactions/swap-workflow.service.ts:513-641 | over accounts opened without the no-overdraft flag, a call to one swap answers on the shared ledger as it would alone, and moves no other document's transfers; for flagged ones see SwapCover.SharedStep |
| SwapSystem.SwapsDoNotInterfere | src/modules/trading/swap-transactions/swap-workflow.service.ts:513-641 | over accounts opened without the no-overdraft flag, over every interleaving each swap ends, in rows and ledger, where its own calls alone would have taken it; for flagged ones see SwapSystem.SwapsMeetOnlyOverCover |
| SwapSystem.SwapsMeetOnlyOverCover | src/modules/trading/swap-transactions/swap-workflow.service.ts:513-641 | with flagged payables, over every interleaving each swap ends, in rows and ledger, where its own calls alone would have taken it, less the resumes that lacked cover when they came |
| SwapSystem.EverySwapIsSound | scripts/demo-lib.ts:333-375 | in every system that started without swaps, whatever was created, called and posted in between, every swap has sound rows, and its share of the ledger agrees with them unless it diverged; no flagged account is overdrawn |
| SwapFunds.BalancesFollowLegs | src/modules/trading/swap-transactions/swap-leg-accounting.ts:292-368 | either side of an account carries the clear legs' movement as posted and the attempt in flight as pending |
| SwapFunds.DivergedBalances | src/modules/trading/swap-transactions/swap-workflow.service.ts:428-500 | of a diverged swap it carries one leg more as posted, and what the successor booked as pending |
| SwapFunds.SuccessMovesExactly | src/modules/funds-layer/constants/swap-leg-plan.constant.ts:1-49 | a successful swap moves on every account exactly what the trade intends: from amount out, gross less fee in, the fee to the firm |
| SwapFunds.MoneyFollowsLegs | src/modules/funds-layer/constants/swap-leg-plan.constant.ts:1-49 | at any time the posted net of every account is that of the cleared legs: the customer pays with leg 1 and is paid with leg 3, and in between the money is on the settlement or the operations account, as the plan has it |
| SwapTotals.PostedAddsUp | scripts/demo-lib.ts:475-490 | over every interleaving from a ledger without swaps, what an account carries posted is the sum over all swaps of what their clear legs moved, plus what other documents posted |
| SwapTotals.PendingAddsUp | src/modules/trading/swap-transactions/swap-leg-accounting.ts:292-326 | and pending, the attempts in flight, what rolled-back creations left, and what other documents hold |
| SwapTotals.SystemKeepsIdentities | scripts/demo-lib.ts:517-531 | every interleaving of swaps, failed ones included, with postings that stay within a book keeps every CLIENT and FIRM identity of the shared ledger |
| SwapExamples.TwoChainsDiverge | src/modules/trading/swap-transactions/swap-transactions.service.ts:98-100 | USDT on one chain against USDT on another is accepted, and settling its first leg makes it diverge: the run |
| SwapExamples.NoPayableDiverges | src/modules/trading/swap-transactions/swap-leg-accounting.ts:77-86 | USDT against AED for a customer without an AED account: the run up to divergence at leg 2 |
| SwapExamples.RefusedCreationLocks | src/modules/trading/swap-transactions/swap-workflow.service.ts:140-227 | without a firm operations account the creation is refused, and the customer's amount stays pending |
| SwapExamples.CancelStrands | src/modules/funds-layer/domain/funds-flow.service.ts:28-63 | cancelling the first leg of any crypto swap is reachable and strands it |
| SwapExamples.CancelledIsReachable | src/modules/funds-layer/domain/funds-flow.service.ts:28-63 | a concrete swap whose cancelled leg keeps 100 units of the customer pending for good |
| SwapExamples.DustIsReturned | src/modules/trading/swap-transactions/swap-leg-accounting.ts:357-368 | a concrete swap whose cleared leg 2 is returned and tried again behind leg 3 |
| SwapExamples.SecondSwapIsRefused | src/modules/accounting/tigerbeetle/tb-manual-account.service.ts:126-129 | a customer with 100 USDT on a flagged payable: either of two swaps of 100 is created alone, and the second is refused after the first |
| WithdrawInvariant.CreateLocks | src/modules/trading/withdraw-transactions/withdraw-workflow.service.ts:287-393 | over accounts opened without the no-overdraft flag, a new withdrawal holds exactly net and fee; a creation the database refuses leaves nothing held; for flagged ones see WithdrawLocality.CreatedIffCovered |
| WithdrawInvariant.ReusedNumberHoldsNothing | src/common/utils/no-generator.util.ts:3-12 | on a number drawn before and rolled back, the withdrawal is stored and holds nothing |
| WithdrawInvariant.VoidClosedLocks | src/modules/accounting/tigerbeetle/accounting.service.ts:304-334 | releasing settled or released locks changes nothing |
| WithdrawInvariant.FinalizeSettles | src/modules/trading/withdraw-transactions/withdraw-workflow.service.ts:918-1150 | a confirmed payout posts both locks, collects the fee and settles row and fee fund exactly when the firm's accounts can take the fee; otherwise both locks are spent and the row stays |
| WithdrawInvariant.HalfSettledStays | src/modules/trading/withdraw-transactions/withdraw-workflow.service.ts:1296-1336 | after such a half settlement the repair call fails and changes nothing |
| WithdrawInvariant.StepKeepsInv | src/modules/trading/withdraw-transactions/withdraw-workflow.service.ts:420-1384 | every event, admin call, payout action and repair keeps: the ledger holds exactly the transfers the row implies, the payout fits the status, the fee fund exists from PAYOUT_PENDING on exactly for a positive fee |
| WithdrawInvariant.RunKeepsInv | scripts/verify-withdraw-fee-fund.ts:51-103 | so does every run, so the fee fund ends CLEAR on success and CANCELLED on failure |
| WithdrawInvariant.CreatedRunKeepsInv | scripts/verify-p6-lock-release.ts:56-133 | every run from a creation satisfies it |
| WithdrawRules.CreatedIsRouted | src/modules/trading/withdraw-transactions/withdraw-workflow.service.ts:420-455 | a new withdrawal goes to PENDING_APPROVAL, or to PENDING_COMPLIANCE with KYT pending and the travel rule pending or, for fiat, not required |
| WithdrawRules.ApprovedIsScreened | src/modules/trading/withdraw-transactions/withdraw-workflow.service.ts:536-563 | approved, it goes to PENDING_COMPLIANCE with its locks still pending |
| WithdrawRules.DeclinedIsRejected | src/modules/trading/withdraw-transactions/withdraw-workflow.service.ts:564-586 | declined, it is REJECTED by the workflow and both locks are voided |
| WithdrawRules.DeclinedForGood | src/modules/trading/withdraw-transactions/withdraw-workflow.service.ts:536-590 | no run from there ever leaves REJECTED, opens a payout or touches the voided locks |
| WithdrawRules.LateDecisionIsIgnored | src/modules/trading/withdraw-transactions/withdraw-workflow.service.ts:543-547 | a decision on a withdrawal that is not PENDING_APPROVAL changes nothing |
| WithdrawRules.KytOpensPayoutIff | src/modules/trading/withdraw-transactions/withdraw-workflow.service.ts:717-766 | a KYT result opens the payout, and the fee fund when there is a fee, exactly when compliance is pending, the result is PASSED and the travel rule passed or not required |
| WithdrawRules.TravelRuleOpensPayoutIff | src/modules/trading/withdraw-transactions/withdraw-workflow.service.ts:717-766 | and a travel-rule result exactly when compliance is pending, KYT passed and the result is PASSED or NOT_REQUIRED |
| WithdrawRules.NoPayoutWithoutKyt | src/modules/trading/withdraw-transactions/withdraw-workflow.service.ts:717-766 | no run opens a payout without a passed KYT |
| WithdrawRules.NoPayoutWithoutTravelRule | src/modules/trading/withdraw-transactions/withdraw-workflow.service.ts:717-766 | nor, for a crypto withdrawal, without a travel rule passed or waived |
| WithdrawRules.CreatedNeedsBothGates | src/modules/trading/withdraw-transactions/withdraw-workflow.service.ts:717-766 | a withdrawal that ever came to a payout has passed both gates on the way |
| WithdrawRules.AdminMoves | src/modules/trading/withdraw-transactions/withdraw-transactions.service.ts:265-302 | the eleven moves an administrator has, each of which changes status and operator and nothing else; everything else is refused |
| WithdrawRules.PayoutMoves | src/modules/asset-treasury/payouts/payouts.service.ts:412-659 | while a withdrawal is paid out: the listed steps move the payout; the listed failures make it FAILED, void both locks and cancel the fee fund; CONFIRM settles; anything else is refused |
| WithdrawRules.ReturnAfterSuccess | src/modules/trading/withdraw-transactions/withdraw-workflow.service.ts:1246-1290 | a settled fiat payout can be returned, which makes the withdrawal RETURNED and cancels the fee fund, but moves no money; anything else is refused |
| WithdrawRules.StrayPayoutMoves | src/modules/trading/withdraw-transactions/withdraw-workflow.service.ts:1266-1290 | a payout whose withdrawal was taken back for review, rejected or cancelled meanwhile goes on alone: confirmed it settles nothing, failed or returned it frees nothing and the call fails |
| WithdrawRules.ClosedPayoutRefuses | src/modules/asset-treasury/payouts/payouts.service.ts:412-659 | a failed or returned withdrawal refuses every payout action |
| WithdrawRules.RepairFreesLocks | src/modules/trading/withdraw-transactions/withdraw-workflow.service.ts:1343-1385 | re-compensating a failed payout fails the withdrawal and voids both locks |
| WithdrawRules.RepairSettles | src/modules/trading/withdraw-transactions/withdraw-workflow.service.ts:1296-1340 | re-closing a confirmed payout settles exactly when the fee can be collected |
| WithdrawRules.RepairReturns | src/modules/trading/withdraw-transactions/withdraw-workflow.service.ts:1343-1385 | re-compensating a returned payout makes the settled withdrawal RETURNED and moves no money |
| WithdrawRules.StrayRepairsRefused | src/modules/trading/withdraw-transactions/withdraw-workflow.service.ts:1296-1385 | a withdrawal taken back for review, rejected or cancelled is refused both repairs |
| WithdrawRules.RepairsAreIdle | src/modules/trading/withdraw-transactions/withdraw-workflow.service.ts:1296-1385 | on a withdrawal in step with its payout neither repair changes anything, and each is accepted exactly in the statuses it leads to |
| WithdrawRules.BalancesFollowRow | src/modules/trading/withdraw-transactions/withdraw-workflow.service.ts:918-1168 | on any account: net and fee pending from payable to client assets while the row holds them, posted once it settled, with the fee from the firm to its fee account, and nothing otherwise |
| WithdrawRules.TransfersAre | src/modules/trading/withdraw-transactions/withdraw-workflow.service.ts:124-415 | the locks and the settlement of a withdrawal, transfer by transfer |
| WithdrawRules.CollectMeans | src/modules/trading/withdraw-transactions/withdraw-workflow.service.ts:918-1168 | when the firm's accounts can take the fee |
| WithdrawOutcomes.LeakedForGood | src/modules/trading/withdraw-transactions/withdraw-transactions.service.ts:463-594 | a flagged, cancelled or administratively rejected withdrawal keeps its lock under every further call |
| WithdrawOutcomes.LiveCanSettle | scripts/demo-lib.ts:378-447 | every withdrawal still on its way can reach SUCCESS |
| WithdrawOutcomes.LocksResolveIffLive | src/modules/trading/withdraw-transactions/withdraw-transactions.service.ts:48-94 | an open lock can still be posted or voided exactly when the withdrawal is on its way |
| WithdrawOutcomes.SucceedsIffFeeCollectable | src/modules/trading/withdraw-transactions/withdraw-workflow.service.ts:886-916 | a fresh withdrawal can reach SUCCESS exactly when the firm's accounts can take its fee |
| WithdrawLocality.StepIsWork | src/modules/trading/withdraw-transactions/withdraw-workflow.service.ts:420-1384 | a call to a withdrawal already created, on flagged payables too, answers on the shared ledger as it would alone and moves no other document's transfers |
| WithdrawLocality.CreatedIffCovered | src/modules/trading/withdraw-transactions/withdraw-workflow.service.ts:287-393 | on any shared ledger, under an unused number, a withdrawal is created exactly when the database accepts it, both locks can be recorded, and a flagged payable has net and fee together free |
| WithdrawLocality.RefusedHoldsNothing | src/modules/trading/withdraw-transactions/withdraw-workflow.service.ts:374-395 | and a refused creation, for want of cover, of an account or of the database, leaves nothing pending on any account |
| WithdrawSystem.RunKeepsFunded | doc-final/reference/ledger-and-business-flows.md:186 | over every interleaving of withdrawals and foreign documents no flagged account is overdrawn |
| WithdrawSystem.LocksAreConserved | scripts/verify-p6-lock-release.ts:56-133 | over every interleaving of withdrawals and foreign documents, what withdrawals hold on an account equals the net and fee of the withdrawals whose rows say so |
| WithdrawSystem.PendingIsOpenLocks | scripts/verify-p6-lock-release.ts:56-98 | in every reachable state a customer's pending debits are the open locks plus what other documents hold |
| WithdrawSystem.LocksAreLiveIffNoLeak | src/modules/trading/withdraw-transactions/withdraw-transactions.controller.ts:72-93 | every open lock belongs to a withdrawal still on its way exactly when none with a positive lock was flagged, cancelled or rejected by an administrator |
| WithdrawSystem.FailedHoldsNothing | scripts/verify-p6-lock-release.ts:100-133 | a failed withdrawal holds nothing, whatever ran in between, and its fee fund, if any, is CANCELLED |
| WithdrawSystem.WithdrawalsKeepIdentities | scripts/demo-lib.ts:517-531 | over every interleaving the CLIENT and FIRM identities hold |
| WithdrawService.RequestWithdrawal | src/modules/trading/withdraw-transactions/withdraw-workflow.service.ts:124-411 | lock, store, and void what was locked when anything throws |
| WithdrawService.WithdrawWorkflow.Release | src/modules/trading/withdraw-transactions/withdraw-workflow.service.ts:593-648 | void net, void fee, cancel the fee fund, whatever the ledger answers |
| WithdrawService.WithdrawWorkflow.Screen | src/modules/trading/withdraw-transactions/withdraw-workflow.service.ts:717-854 | with both gates passed: approve, open the payout and the fee fund |
| WithdrawService.WithdrawWorkflow.FinalizeWithdrawal | src/modules/trading/withdraw-transactions/withdraw-workflow.service.ts:918-1150 | settlement step by step, with what had gone through left in the ledger on a throw |
| WithdrawService.WithdrawWorkflow.CompensatePayout | src/modules/trading/withdraw-transactions/withdraw-workflow.service.ts:1266-1287 | move unless already there, then release |
| WithdrawService.WithdrawWorkflow.UpdatePayout | src/modules/asset-treasury/payouts/payouts.service.ts:412-659 | the payout commits, then its event is handled |
| WithdrawService.WithdrawWorkflow.OnLargeValueApprovalDecided | src/modules/trading/withdraw-transactions/withdraw-workflow.service.ts:536-587 | approved, the withdrawal in order goes to PENDING_COMPLIANCE with its locks pending; declined, it is REJECTED with both locks voided; and the call is the specified one |
| WithdrawService.WithdrawWorkflow.HandleWithdrawalCreated | src/modules/trading/withdraw-transactions/withdraw-workflow.service.ts:420-455 | approval gate or screening |
| WithdrawService.WithdrawWorkflow.AdminUpdateStatus | src/modules/trading/withdraw-transactions/withdraw-transactions.service.ts:265-302 | the administrators' four actions, and the statuses they may not reach |
| WithdrawService.WithdrawWorkflow.ReCompensatePayout | src/modules/trading/withdraw-transactions/withdraw-workflow.service.ts:1343-1384 | the failure repair |
| WithdrawService.WithdrawWorkflow.ReCloseoutPayout | src/modules/trading/withdraw-transactions/withdraw-workflow.service.ts:1296-1336 | the success repair: settled already, out of place, or settle again |
| WithdrawService.DriveWithdraw | scripts/demo-lib.ts:378-447 | the driver ends in SUCCESS with everything settled exactly when no approval was needed; its final CLEAR is always refused |
| Exchange.EachSideSeesARun | src/modules/accounting/tigerbeetle/accounting.service.ts:78-334 | whatever swaps, withdrawals and other documents do on one ledger, the swaps' part is a run of the system of swaps with the same calls to each swap, and the withdrawals' part a run of the system of withdrawals |
| Exchange.EveryDocumentIsSound | scripts/demo-lib.ts:333-447 | in every reachable state every swap and every withdrawal has sound rows, its share of the ledger agrees with them unless the swap diverged, and no flagged account is overdrawn |
| Exchange.PendingAddsUp | scripts/verify-p6-lock-release.ts:56-98 | an account's pending debits are the swaps' attempts in flight, what rolled-back creations left, the withdrawals' open locks, and what the other documents hold |
| Exchange.PostedAddsUp | scripts/demo-lib.ts:475-490 | what an account carries posted is what the swaps' clear legs moved plus what other documents, withdrawals among them, posted |
| Exchange.SwapsKeepToThemselves | src/modules/trading/swap-transactions/swap-workflow.service.ts:513-641 | over accounts opened without the no-overdraft flag, a swap ends where its own calls alone would have taken it, whatever swaps, withdrawals and other documents run in between |
| Exchange.SwapsMeetOnlyOverCover | src/modules/accounting/tigerbeetle/tb-manual-account.service.ts:126-129 | with flagged payables, less those of its resumes that lacked cover when they came |
| Exchange.OfficeKeepsIdentities | scripts/demo-lib.ts:517-531 | every interleaving of swaps, withdrawals and postings that stay within a book keeps every CLIENT and FIRM identity |
| SwapRequests.StepAsks | src/modules/trading/swap-transactions/swap-workflow.service.ts:513-641 | what a call to a swap does to the ledger, a run of requests, postings and voidings under the swap's own number does |
| WithdrawRequests.StepAsks | src/modules/trading/withdraw-transactions/withdraw-workflow.service.ts:420-1384 | and of a call to a withdrawal under the withdrawal's |
| FlowMatching.GreedyPartitions | src/modules/clearing-settle/reconciliation/engine/v2/wallet-flow-matcher.service.ts:178-229 | first-fit pairing uses every flow and every line at most once and loses none |
| FlowMatching.GreedyIsMaximal | src/modules/clearing-settle/reconciliation/engine/v2/wallet-flow-matcher.service.ts:178-229 | no leftover flow fits any leftover line |
| FlowMatching.ReportPartitions | src/modules/clearing-settle/reconciliation/engine/v2/wallet-flow-matcher.service.ts:231-248 | matched, mismatched and orphaned entries together are exactly the flows and the lines |
| FlowMatching.ReportIsSound | src/modules/clearing-settle/reconciliation/engine/v2/wallet-flow-matcher.service.ts:178-229 | matched pairs agree in direction and amount, mismatches share a reference and differ in amount, orphans fit nothing left |
| FlowMatching.ReportMeans | src/modules/clearing-settle/reconciliation/engine/v2/wallet-flow-matcher.service.ts:178-251 | matches by reference share a non-empty reference, direction and amount, matches by window share direction and amount within the window, mismatches share reference and direction and differ in amount |
| FlowMatching.LeftoversMean | src/modules/clearing-settle/reconciliation/engine/v2/wallet-flow-matcher.service.ts:190-229 | what the second pass pairs or leaves shares no reference and direction, and what it leaves lies outside the window where direction and amount agree |
| FlowMatching.BreaksExplainDifference | src/modules/clearing-settle/reconciliation/engine/v2/wallet-flow-matcher.service.ts:231-248 | flows less lines equal the mismatches' spread plus orphan flows less orphan lines |
| FlowMatcher.FindFirst | src/modules/clearing-settle/reconciliation/engine/v2/wallet-flow-matcher.service.ts:190-228 | the loop returns the first unused compatible line |
| FlowMatcher.GroupByRef | src/modules/clearing-settle/reconciliation/engine/v2/wallet-flow-matcher.service.ts:178-189 | the map groups lines by non-empty reference, in order |
| FlowMatcher.RefPass | src/modules/clearing-settle/reconciliation/engine/v2/wallet-flow-matcher.service.ts:178-212 | the reference pass through the grouping map is the first-fit pairing by reference |
| FlowMatcher.WindowPass | src/modules/clearing-settle/reconciliation/engine/v2/wallet-flow-matcher.service.ts:214-229 | the second pass is the first-fit pairing by amount, direction and window of what is left |
| FlowMatcher.MatchFlows | src/modules/clearing-settle/reconciliation/engine/v2/wallet-flow-matcher.service.ts:118-251 | the whole matcher |
| MirrorMatching.FirstFitServesAll | src/modules/clearing-settle/reconciliation/engine/v2/wallet-flow-matcher.service.ts:190-229 | when compatibility falls into blocks, first fit pairs everything that can be paired |
| MirrorMatching.SameOrderIsClean | scripts/recon-demo.ts:929-935 | a mirror read in the order it was written reconciles clean, null references included |
| MirrorOrder.AnyOrderIsClean | scripts/recon-demo.ts:314-322 | so does one read in any order, when references are unambiguous and windows transitive |
| MirrorOrder.AmbiguityBreaks | src/modules/clearing-settle/reconciliation/engine/v2/wallet-flow-matcher.service.ts:190-212 | an ambiguous reference makes some order mismatch |
| MirrorOrder.BridgeBreaks | src/modules/clearing-settle/reconciliation/engine/v2/wallet-flow-matcher.service.ts:214-229 | a bridged unreferenced flow makes some order leave orphans |
| MirrorOrder.CleanInEveryOrder | scripts/recon-demo.ts:929-935 | clean in every order exactly when references are unambiguous and windows transitive |
| TbIds.PadKeepsValue | scripts/recon-demo.ts:271-281 | padding keeps the number, fills up to 32 digits and is idempotent |
| TbIds.PaddedEqualIffSameAccount | scripts/recon-demo.ts:271-296 | up to 32 digits, padded ids are equal exactly when they stand for one account |
| MirrorPlan.PlanWallet | scripts/recon-demo.ts:243-326 | the lines are, in order, the entries of exactly the rows that are posted, crossing, dated at or before the cutoff and on a registered account, by padded id, of codes 100 and 101, or 200 to 203 for the firm |
| MirrorPlan.PlanIsMatcherSlice | src/modules/clearing-settle/reconciliation/engine/v2/wallet-flow-matcher.service.ts:118-169 | they are the flows the matcher will look at exactly when no crossing flow of the wallet sits on an owned account of the other book |
| MirrorPlan.CheckBalance | src/modules/clearing-settle/reconciliation/engine/v2/wallet-balance-checker.service.ts:88-203 | the total is incoming less outgoing amounts of exactly the rows that are posted, dated at or before the cutoff and registered, by the id as written, under codes 100 and 101 when some such row has one, else 200 to 203; the class follows |
| MirrorPlan.PlanSelects | scripts/recon-demo.ts:246-300 | the positions the plan selects, in order |
| MirrorPlan.MatcherSelects | src/modules/clearing-settle/reconciliation/engine/v2/wallet-flow-matcher.service.ts:118-169 | the positions the matcher selects, in order |
| MirrorPlan.TotalSelects | src/modules/clearing-settle/reconciliation/engine/v2/wallet-balance-checker.service.ts:88-203 | the positions the closing balance counts |
| MirrorPlan.OthersDoNotMatter | src/modules/clearing-settle/reconciliation/engine/v2/wallet-balance-checker.service.ts:95-103 | leaving out unposted rows and rows after the cutoff changes neither the mirrored lines nor the matcher's flows nor the class nor the closing balance |
| MirrorPlan.MirrorGap | scripts/recon-demo.ts:184-214 | closing balance less mirrored lines is exactly the net of rows counted but not mirrored, less that of rows mirrored but not counted |
| MirrorPlan.GapIsDroppedNet | scripts/recon-demo.ts:246-262 | with padded ids and one kind of account per wallet it is the net of the non-crossing rows the query drops |
| MirrorPlan.NoGapWhenDropsStayInside | scripts/recon-demo.ts:205-214 | it is zero when each dropped transfer moves between two accounts of the wallet |
| MirrorPlan.UnpaddedRowOpensGap | src/modules/clearing-settle/reconciliation/engine/v2/wallet-balance-checker.service.ts:107-127 | a row written without its leading zero is mirrored and not counted |
| MirrorKeys.KeyDecodes | scripts/recon-demo.ts:383-385 | a key decodes to wallet, number and flow although wallet ids hold dashes |
| MirrorKeys.StoredExactly | scripts/recon-demo.ts:380-416 | every plan line is stored under its own key and nothing is overwritten |
| MirrorKeys.WriteMirror | scripts/recon-demo.ts:330-420 | the reported count is the number of stored rows, other rows stay, a second writing is a no-op |
| RunningBalance.StatementTable.FillAccount | scripts/recon-demo.ts:748-767 | each line of the account's day shows opening plus the net of all lines up to it in time order, other rows are untouched |
| RunningBalance.StatementTable.PopulateBalanceAfter | scripts/recon-demo.ts:734-768 | the same for every account with a balance row |
| RunningBalance.FirstLineShows | scripts/recon-demo.ts:757-759 | the day's first line shows the opening balance plus an incoming or less an outgoing amount |
| RunningBalance.NextLineShows | scripts/recon-demo.ts:757-759 | every further line shows what the line before it shows, plus or less its own amount |
| RunningBalance.OtherLinesStay | scripts/recon-demo.ts:742-757 | no line of another account or dated outside the day changes, and no line changes but for what it shows |
| RunningBalance.OrderDoesNotMatter | scripts/recon-demo.ts:736-740 | the order in which accounts are visited makes no difference |
| RunningBalance.SecondPassIsIdle | scripts/recon-demo.ts:728-768 | a second pass changes nothing |
| RunningBalance.LastLineShowsClosingIff | scripts/recon-demo.ts:742-757 | the day's last line shows the closing balance exactly when the lines dated on other days net to nothing |
| ReconInjection.OrphanInternalBalances | scripts/recon-demo.ts:528-552 | deleting a line moves closing by its signed amount and keeps closing less lines |
| ReconInjection.OrphanExternalBalances | scripts/recon-demo.ts:556-588 | a ghost line moves closing by its amount and keeps closing less lines |
| ReconInjection.AmountMismatchBalances | scripts/recon-demo.ts:593-621 | shifting an amount moves closing with the line's direction and keeps closing less lines |
| ReconInjection.PairCancelOrphanBalances | scripts/recon-demo.ts:641-682 | the shifted replacement keeps closing and moves the line sum by exactly the shift, signed by direction |
| ReconInjection.PairCancelMismatchBalances | scripts/recon-demo.ts:687-723 | two compensating shifts keep closing and line sum for all four direction combinations |
| ReconInjection.WhenInjectionsThrow | scripts/recon-demo.ts:522-725 | exactly which wallets each injection throws on |
| ReconInjection.OrphanInternalDeletes | scripts/recon-demo.ts:528-552 | 1A takes out the earliest line, keeps the others in order, takes its amount off the closing balance by direction and records its reference |
| ReconInjection.OrphanExternalAdds | scripts/recon-demo.ts:556-588 | 1B appends an incoming line dated at the cutoff under a new reference and adds its amount to the closing balance |
| ReconInjection.AmountMismatchShifts | scripts/recon-demo.ts:593-621 | 1C adds the shift to the earliest line with a reference and no other, moves the closing balance by direction and records the reference |
| ReconInjection.PairCancelOrphanReplaces | scripts/recon-demo.ts:641-682 | 2A puts in place of the earliest line one of the same direction that is larger by the shift, dated at the cutoff, and leaves the closing balance alone |
| ReconInjection.PairCancelMismatchShifts | scripts/recon-demo.ts:687-723 | 2B shifts the two earliest lines with a reference against each other and leaves all other lines and the closing balance alone |
| ReconDetection.RefJoin | src/modules/clearing-settle/reconciliation/engine/v2/wallet-flow-matcher.service.ts:178-212 | with unique references the reference pass is the join on reference and direction |
| ReconDetection.ReportIsJoin | src/modules/clearing-settle/reconciliation/engine/v2/wallet-flow-matcher.service.ts:118-251 | and the report is what that join leaves |
| ReconDetection.OrphanInternalDetected | scripts/recon-demo.ts:772-800 | on a clean mirror the deleted line is detected exactly when its amount is not zero |
| ReconDetection.OrphanExternalDetected | scripts/recon-demo.ts:556-588 | the ghost is detected exactly when its amount is not zero |
| ReconDetection.AmountMismatchDetected | scripts/recon-demo.ts:593-621 | the shifted line is detected exactly when the shift is not zero |
| ReconDetection.PairCancelOrphanDetected | scripts/recon-demo.ts:624-682 | the replacement is detected exactly when its shift is not zero or it lies outside the window: with the shift it never pairs with the deleted line's flow |
| ReconDetection.PairCancelMismatchDetected | scripts/recon-demo.ts:687-723 | the two compensating shifts are detected exactly when the shift is not zero |
| ReconDetection.HitMeans | scripts/recon-demo.ts:772-860 | what the answer key asks of each kind: the balance off or not, and which orphans or mismatches with which references |
| ReconPicks.SlotsDiffer | scripts/recon-demo.ts:462-468 | within a pass no bucket index comes twice |
| ReconPicks.EverySlot | scripts/recon-demo.ts:462-468 | and every bucket index comes |
| ReconPicks.RoundRobin | scripts/recon-demo.ts:455-478 | the picks are the elements taken slot by slot, bucket after bucket from the rotating cursor, pass after pass; the loop ends with five of them or with all there are; each bucket's elements come in order, and every bucket has supplied as many as passes allow or is empty |
| ReconPicks.OrderMeans | scripts/recon-demo.ts:455-478 | the order step by step: pass c starts at bucket c modulo their number, goes round once, and takes of each bucket its c-th element, if it has one |
| ReconDemo.GroupByBucket | scripts/recon-demo.ts:441-452 | one group per bucket that occurs, in ascending order of keys, each holding exactly its candidates in order |
| ReconDemo.PickWallets | scripts/recon-demo.ts:441-478 | five distinct customer wallets with flows, taken from those groups in the rotating order, or none exactly when there are fewer than five: the second throw is out of reach |
| ReconDemo.InjectAnomalies | scripts/recon-demo.ts:429-726 | it succeeds exactly when every pick has the lines its anomaly needs; then the five picks hold, in order, a deleted line, a ghost line of 5,000,000, a shift by 5,000,000, a replacement larger by 1 and two compensating shifts by 5,000,000, each recorded under its kind with the references touched, and no other wallet changes |
| ReconDemo.VerifyManifest | scripts/recon-demo.ts:772-860 | detected counts the injections whose findings match, missed lists exactly the others, in order |
| ReconDemo.AnomalyDetected | scripts/recon-demo.ts:631-640 | each of the five anomalies is found on its wallet, whatever the order of rows |
| ReconDemo.BreakMode | scripts/recon-demo.ts:943-965 | on a clean mirror the grading returns five detected and none missed, unless it throws for want of five candidates or of a second line on the last pick |
| ReconModes.PassMode | scripts/recon-demo.ts:929-942 | the pass-mode checks hold exactly when no wallet breaks, and so on every faithful mirror of pairable wallets |
| ReconModes.ExactlyThePicksBreak | scripts/recon-demo.ts:943-955 | after the injections exactly the five picked wallets break |
| ReconModes.RunBreakMode | scripts/recon-demo.ts:943-955 | the engine's run has status BREAK and opens exactly five cases |
| CaseStreaks.CasesAreStreaks | src/modules/clearing-settle/reconciliation/workflow/wallet-recon-run.service.ts:489-690 | after any sequence of runs the cases of a wallet and date are its streaks of breaks, in first observer, last observer, measurement, line items and closing run |
| CaseStreaks.StreaksAreMaximal | scripts/t7-autoheal-test.ts:80-98 | streaks begin exactly where breaking begins, are closed exactly by the run that ends them, and only a running last one is open |
| CaseStreaks.OpenIffLastRunBroke | src/modules/clearing-settle/reconciliation/workflow/wallet-recon-run.service.ts:96-245 | an open case exists exactly when the latest run that reached the wallets on that date found the wallet breaking |
| CaseStreaks.AtMostOneOpen | scripts/t7-idempotency-test.ts:46-52 | of two cases of a wallet and date the earlier is closed |
| CaseStreaks.RepeatOnlyMovesLast | scripts/t7-idempotency-test.ts:33-64 | running again over the same findings only moves the last observer |
| CaseStreaks.BookkeepingHolds | src/modules/clearing-settle/reconciliation/workflow/wallet-recon-run.service.ts:551-584 | opener, updater and severity agree with the streak, and the cases of a date are numbered 1, 2, 3, … |
| CaseRules.SeverityMeans | src/modules/clearing-settle/reconciliation/workflow/wallet-recon-run.service.ts:44-53 | HIGH from 10,000 up in either direction, LOW below 100, MEDIUM in between |
| CaseRules.ItemsMean | src/modules/clearing-settle/reconciliation/workflow/wallet-recon-run.service.ts:594-650 | the line items are the orphan flows, the orphan lines and the mismatches, each in order, numbered from 1 |
| CaseRules.BreakIsNoted | src/modules/clearing-settle/reconciliation/workflow/wallet-recon-run.service.ts:489-592 | a run that finds the wallet breaking refreshes its open case, which keeps its opener, or opens one; the case is then open and shows this run, its delta and its items |
| CaseRules.RecoveryIsNoted | src/modules/clearing-settle/reconciliation/workflow/wallet-recon-run.service.ts:660-690 | a run that does not closes its open case and changes nothing else of it |
| CaseRules.OtherRunsAreIdle | src/modules/clearing-settle/reconciliation/workflow/wallet-recon-run.service.ts:104-128 | a run stopped by the identity gate, or of another date, leaves the cases alone |
| CaseRules.CasesShow | src/modules/clearing-settle/reconciliation/workflow/wallet-recon-run.service.ts:551-584 | in every table: opener is first observer, last updater is closer or last observer, and severity follows the delta by those bounds |
| ReconRuns.ReconEngine.WriteLineItems | src/modules/clearing-settle/reconciliation/workflow/wallet-recon-run.service.ts:594-650 | line items are the report's breaks, orphan flows, orphan lines, mismatches, numbered through |
| ReconRuns.ReconEngine.UpsertCaseForWallet | src/modules/clearing-settle/reconciliation/workflow/wallet-recon-run.service.ts:489-592 | refreshes the open case or opens one, and says which |
| ReconRuns.ReconEngine.AutoHealCases | src/modules/clearing-settle/reconciliation/workflow/wallet-recon-run.service.ts:660-690 | closes exactly the open cases of the date whose wallet is not breaking, and counts them |
| ReconRuns.ReconEngine.Run | src/modules/clearing-settle/reconciliation/workflow/wallet-recon-run.service.ts:96-245 | a run's effect on the case table and its own counters; its status is BREAK exactly when the identity holds and some wallet's balance was off or some flow or line was orphaned or mismatched |
| CaseScripts.RunAgain | scripts/t7-idempotency-test.ts:27-64 | however often the engine runs over the same state: no new case, no closed case, first observers stay, the last observer is the last run |
| CaseScripts.RealignHealsIffFlowsClean | scripts/t7-autoheal-test.ts:46-98 | after realigning, the next run closes the case exactly when the flows match cleanly |
| CaseScripts.InjectedWalletsStayOpen | scripts/t7-autoheal-test.ts:1-11 | after any of the five injections it stays open |
| BaseSeed.SeedIsExact | prisma/seed.base.ts:84-192 | after seeding the grants are exactly the catalog's and each seed administrator has exactly one role |
| BaseSeed.SeedWritesRows | prisma/seed.base.ts:38-284 | over any earlier database: roles are exactly the catalog's, active and with their own texts; catalog permissions carry their own texts; seed administrators, policies and the rule are the catalog's; everything else is as it was, but for grants and bindings of roles that are gone |
| BaseSeed.SeedKeepsIntegrity | prisma/seed.base.ts:76-84 | foreign keys survive the deletions |
| BaseSeed.SeedTwiceIsOnce | prisma/seed.base.ts:38-44 | seeding is a fixpoint after one pass |
| BaseSeed.SeedCompletesIff | prisma/seed.base.ts:286-399 | from any earlier database the check accepts the result exactly when no other user carries a seed administrator's address |
| BaseSeed.CompleteMeans | prisma/seed.base.ts:286-399 | the check accepts exactly when no role is missing or inactive, no seed administrator's row, address, status, role or binding is wrong, no other user carries a seed address, and no policy is missing or different |
| BaseSeed.EnsureTwiceIsOnce | prisma/seed.base.ts:46-55 | ensuring twice equals ensuring once |
| BaseSeed.EnsureFixesGrantsIff | prisma/seed.base.ts:344-399 | ensuring leaves the catalog's grants exactly when they were right or something else was incomplete |
| BaseSeed.LostGrantsStayLost | prisma/seed.base.ts:344-399 | a seeded database that has lost its grants is accepted as it is |
| BaseSeed.DisabledRuleStaysOff | prisma/seed.base.ts:216-227 | and so is one whose maker-checker rule was switched off |
| BaseSeeder.Database.DesiredPairs | prisma/seed.base.ts:145-155 | the nested loop collects exactly the catalog's pairs |
| BaseSeeder.Database.SyncPairs | prisma/seed.base.ts:157-189 | adding the missing and deleting the stale leaves exactly the desired pairs |
| BaseSeeder.Database.SeedRbac | prisma/seed.base.ts:84-192 | the tables after the RBAC part: roles active and with their own texts, permissions with their own texts, the catalog's grants, the seed administrators, and everything else as it was |
| BaseSeeder.Database.SeedRoleAdminAccounts | prisma/seed.base.ts:230-284 | rows and bindings of the seed administrators; the missing-role throw is out of reach |
| BaseSeeder.Database.RunSeedBase | prisma/seed.base.ts:38-44 | the whole seed, from any earlier database, writes every row as SeedWritesRows says and equals its specification |
| BaseSeeder.Database.AreRoleSeedAccountsComplete | prisma/seed.base.ts:286-342 | counting carriers of seed addresses and checking each row decides completeness of the accounts |
| BaseSeeder.Database.IsBaseComplete | prisma/seed.base.ts:344-399 | the early-return loops decide completeness |
| BaseSeeder.Database.Ensure | prisma/seed.base.ts:46-55 | the entry point equals its specification |

## Left out

- Concurrency inside one call: event handlers are serialised, one call runs to its end before the next; interleaving is between calls.
- TigerBeetle itself: clients, batching limits, timeouts, connection failures, account flags other than the one against overdrafts, and error codes other than "exists" and refusal. Ids derived by hashing are taken as injective in their inputs.
- The evidence table of ledger transfers: the check in withdrawal settlement that reads it back is implied by the postings that precede it, and its rows are not modelled. Dangling evidence after a rolled-back swap step is not modelled either.
- Decimals: amounts are integers in minor units; a positive decimal fee that rounds to zero minor units is not distinguished from no fee.
- Withdrawals of owners other than customers, and currencies without a ledger: they take no locks.
- Quotes, fee tiers, limits, approval thresholds, compliance and travel-rule decisions: a withdrawal's gates and its need for approval are inputs. Post-broadcast screening only writes audits.
- Which wallet a role resolves to, physical wallet balances, addresses, IBANs, and the order of columns. Whether a swap's wallets are found is an input, and missing ones refuse the leg; other documents' wallets are not modelled.
- Changes of the account and wallet registries in the middle of a swap: one swap sees one registry throughout, except in SwapDivergence.DivergedForGood, which allows any.
- Audit texts, status histories and console output; of audit entries only those counted by the swap checks are kept.
- Legacy withdrawal statuses APPROVED and HELD, which no current call reaches.
- Reference texts, bucket keys, account keys and wallet ids are numbered, in their own order, where they are only compared; `MirrorKeys` and `TbIds` treat texts and digits as such.
- Cases of the legacy layer, and the lookups that fill a case's book, owner and code.
- Line sorting by the database is the stable order by time; ties are as the table has them.
- `clearWalletDemo`, the reset script, command-line parsing, and waiting for events.
- In the base seed: password hashes, and role, permission and rule texts beyond one comparable value.
- React pages, layouts and fetch wrappers: user interface.
- SwapSystem.EverySwapIsSound: assumes that a new swap draws a number the ledger has not seen, that both its amounts are positive in minor units, and, where payables are flagged, that its fee does not exceed its proceeds (SwapCoverRuns.UncoveredFeeIsFinal says what happens otherwise); SwapRuns.ClearReturnIff and SwapExamples.DustIsReturned say what happens otherwise to an amount.
- SwapCover.CappedStep: assumes, as the other theorems over flagged payables do, that only customer payables carry the flag, as the one route that sets it sees to.
- WithdrawSystem.LocksAreConserved: assumes that a new request draws a number the ledger has not seen and that the firm's accounts for its currency exist and carry no flag; the two ways this fails are WithdrawInvariant.ReusedNumberHoldsNothing and WithdrawOutcomes.SucceedsIffFeeCollectable.
