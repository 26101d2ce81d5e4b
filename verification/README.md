# The money path of a payment gateway

This project models the part of the gateway through which money moves, and proves what it keeps.

A payment is a row with a status, four amounts (authorized, captured, refunded, refund pending) and a
version. Requests change it in two transactions with a call to a payment provider (PSP) in between and
no lock held; every change emits an event, and each event becomes a message in the outbox of the same
transaction. A relay puts the messages on a bus, at least once and in any order. The ledger consumes
them: it turns each event that moves money into one balanced double-entry journal, at most once, and
keeps a balance per account. Reconciliation compares settlement files of the PSP with what was recorded,
and webhooks tell merchants about it with a bounded number of retries.

The main results, all for every input and every run:

- In every reachable state of any number of payments, the outbox, the bus and a ledger that also takes
  manual postings and reversals, each account balance plus the worth of the messages not yet processed plus
  the worth of those kept out by manual journals is what the payment rows say plus what the other journals
  did (`MoneyPath.MoneyIsNeverLost`).
- A message a payment sent can be posted exactly under a condition on that payment (`Postable`), and once
  everything is delivered all of it is processed, and the ledger is a plain function of the rows, exactly
  when every payment meets it, given accounts that are not blocked and balances with room (`Settling`).
- Under any interleaving of captures, voids, confirmations, refunds, the authorize saga and expiry, a
  payment's amounts stay nested, its status says how far they got, its refunds add up, at most one attempt
  is open and at most one approved, and its events rebuild it (`PaymentRuns`). The authorize saga refines
  these steps whatever the other requests do in between, and when it ends in error nothing of its last turn
  is kept (`AuthorizeSaga`); every attempt and the payment are as the providers' replies and inquiries say
  (`SagaAnswers`).
- What each request writes, from the check before the provider is called to the answer after it, with anything
  else in between: the whole row, event and message (`Requests`); what each posting by hand and each failed
  refund writes in the ledger (`Postings`, `Linking`); what a reconciliation run reports, line by line and
  record by record (`Findings`).
- However often requests are repeated, a merchant's keys are each used by at most one payment and at most one
  refund, and repeating a request under a used key writes nothing (`Idempotency`).
- For any interleaving of refunds and disputes with any other events, delivered in any order and with any
  repeats, everything is handled if and only if every move was sound, and what the ledger holds back is then
  exactly what is open (`Lifecycles.HoldingsOnceDelivered`).
- Every run of the ledger keeps its keys unique, its journals valid, its balances the exact sum of its
  journals, and its reversal chains unbranched (`LedgerRuns`); the trial balance is in order after any
  journals at all, even when int64 additions wrap around (`Balances`).

## How it is laid out

| module | models |
|---|---|
| `Wrappers`, `Sums`, `Amounts` | results, sums over finite sets, money in int64 minor units |
| `Fee`, `DecimalParser`, `Base62`, `Delivery` | fee arithmetic, decimal amounts, secrets, webhook deliveries |
| `Matcher`, `Findings` | reconciliation of a settlement file, and what it reports |
| `Accounts`, `Journals`, `Balances`, `Templates` | the ledger's domain |
| `LedgerService`, `LedgerRuns`, `Shadowing` | the ledger's transactions, what runs of them keep, and one run in particular |
| `Linking`, `Postings` | what a failed refund reverses, and what is posted by hand |
| `Attempts`, `Payments`, `Messages`, `PaymentStore`, `PaymentRuns`, `AuthorizeSaga` | the payment service |
| `Requests`, `SagaAnswers` | what its requests write, and what its saga makes of the answers |
| `Outbox`, `MoneyPath`, `Idempotency` | the relay, the whole path, repeated requests |
| `Postable`, `Deliveries`, `Settling` | which messages can be posted, which deliveries get through, and when the ledger catches up |
| `Lifecycles` | refund and dispute lifecycles |

What the source changes in place is a class or a method with loops here (`Payments.Payment`,
`PaymentStore.PaymentService`, `LedgerService.Service`, `Balances.Balances`, `Delivery.Delivery`,
`Matcher.Run`, `Outbox.Relay` and the validating, reversing, matching and encoding loops); each is proved
equal to a function on values, and the theorems are about those functions. Concurrency is a state
machine: a request is a pair of steps with what it remembers in between, and the provider's answers are
arbitrary. Identifiers are numbers with 0 for the absent one. Times are nanoseconds.

## What turned out to need a condition

- A captured event is posted only if its fee is at most its amount; the payment side does not check that.
  A payment of 100 captured with a fee of 101 is reachable and its message can never be posted
  (`Postable.CaptureTheLedgerRefuses`). The rule that the ledger equals the rows once everything is delivered
  holds if and only if every payment with captured money has its identifiers, a provider that can qualify an
  account, and a fee between zero and the amount (`Postable.SentMessagesPostExactly`,
  `Settling.AllIsProcessedExactlyWhen`). A message that is not posted is never marked processed, so it stays
  visible as in flight (`MoneyPath.OnlySoundMessagesAreProcessed`). A fee computed by a fee policy always meets
  the condition (`Templates.PolicyFeesPost`).
- A manual journal accepted under an event's id makes that event acknowledged without being posted
  (`LedgerRuns.ManualJournalShadowsTheEvent`; `Shadowing.ShadowingHappens` is such a run). The balance equation
  therefore has a term for what was kept out.
- A dispute that is opened and won leaves every balance of the ledger as it was exactly when the fee charged is
  given back (`Lifecycles.WonDisputeRestoresExactlyWhen`); a refund that is reserved and fails always does
  (`Lifecycles.FailedRefundRestores`).
- A computed fee is marked as clamped exactly when a bound changed it, or when the minimum raised it and the maximum
  brought it back to the same sum (`Fee.CalculateExactly`).
- The stored form of an account code is ambiguous only for a live code that starts with "test:", which no
  valid code does (`Accounts.StorageRoundTrip`).
- Mirroring entries twice gives them back if and only if every direction is debit or credit
  (`Journals.MirrorTwiceExactly`). Every valid journal is like that, so reversing its reversal gives back its
  entries (`Journals.ReversingTwiceGivesBack`) and all balances (`LedgerRuns.ReversingTwiceRestores`).

## Model

| member | source | states |
|---|---|---|
| Amounts.Money.Add | pkg/money/money.go:71-81 | succeeds exactly for equal currencies and a sum that fits int64, and then is that sum |
| Amounts.Money.Sub | pkg/money/money.go:84-92 | the exact difference for amounts that are never negative; for any amounts the difference reduced to int64, or one of the two errors exactly when the currencies differ or the subtrahend is larger |
| Amounts.WrapAdd | internal/ledger/domain/balances.go:21 | int64 wrap-around commutes with addition: reducing early or late gives the same stored sum |
| Amounts.ExponentsExactly | pkg/money/currency.go:5-30 | which currencies have no minor unit, which thousandths, and hundredths for every other supported one |
| Amounts.MulBpsExact | pkg/money/money.go:95-113 | exact half-up rounding of amount times basis points; overflow exactly when the product exceeds MaxInt64 |
| Amounts.MulBpsMonotone | pkg/money/money.go:95-113 | a larger amount never gives a smaller percentage |
| Fee.CalculateSucceeds | internal/ledger/domain/fee.go:33-64 | the exact condition under which a fee is computed |
| Fee.CalculateBounds | internal/ledger/domain/fee.go:33-64 | the fee stays in [0, amount], within the policy's bounds, and is fixed part plus half-up percentage when no bound applied |
| Fee.CalculateExactly | internal/ledger/domain/fee.go:33-64 | the fee case by case: fixed part plus half-up percentage, raised to a positive minimum, lowered to a positive maximum, capped by the amount; marked as clamped exactly when that changed it or the minimum raised it |
| Fee.CalculateRefusesFor | internal/ledger/domain/fee.go:33-64 | which error, when none is computed |
| Fee.CalculateMonotone | internal/ledger/domain/fee.go:33-64 | the fee is monotone in the amount |
| Fee.ProRataExact | internal/ledger/domain/fee.go:68-89 | the share is exact half-up, at most the fee, and its overflow branch is unreachable |
| Fee.ProRataOtherwise | internal/ledger/domain/fee.go:68-89 | zero without a positive fee, part and total, an error for different currencies |
| Fee.ProRataMonotone | internal/ledger/domain/fee.go:68-89 | a larger part never gets a smaller share |
| Fee.SharesAddUp | internal/ledger/domain/fee.go:68-89 | shares of n parts that make up the total sum to within n/2 of the fee |
| DecimalParser.ParseDecimalToMinor | internal/reconciliation/domain/parser.go:69-106 | the scanning loops compute the specified result for every text and currency |
| DecimalParser.ParsedExact | internal/reconciliation/domain/parser.go:69-106 | a result is exactly the decimal's magnitude times 10^exponent; anything that would have to be cut off or does not fit is an error |
| DecimalParser.PrintThenParse | internal/reconciliation/domain/parser.go:69-106 | parsing inverts a reference printer for every non-negative int64 and supported currency |
| DecimalParser.GroupedThenParse | internal/reconciliation/domain/parser.go:69-106 | the same with commas anywhere, either sign or none, and blanks around it |
| DecimalParser.TextReadAs | internal/reconciliation/domain/parser.go:69-106 | every text is blanks, at most one sign, a grouped text and blanks, and is read without its commas, cut at its first dot |
| DecimalParser.RefusedExactly | internal/reconciliation/domain/parser.go:69-106 | which error, when a text is refused |
| Base62.EncodeBase62 | internal/merchant/domain/base62.go:21-39 | the digits decode back to the bytes, padded on the left to at least the asked length and never cut |
| Base62.SecretFits | internal/merchant/domain/base62.go:12-20 | 32 bytes always fit 43 digits, because 62^43 exceeds 2^256 |
| Base62.SecretBody | internal/merchant/domain/base62.go:42-46 | a 32-byte secret becomes exactly 43 digits that decode back to it |
| Delivery.Delivery.Claim | internal/webhook/domain/delivery.go:139-148 | a due, waiting delivery becomes in flight with one more attempt; any other stays as it is |
| Delivery.Delivery.ApplyOutcome | internal/webhook/domain/delivery.go:180-235 | the new state after each kind of outcome: delivered, retried later, or given up |
| Delivery.Delivery.Reap | internal/webhook/domain/delivery.go:238-254 | an abandoned claim goes back to waiting, or is given up after the last attempt |
| Delivery.Delivery.Cancel | internal/webhook/domain/delivery.go:257-268 | cancels unless already ended |
| Delivery.Delivery.ResetForRetry | internal/webhook/domain/delivery.go:276-288 | a failed-for-good delivery starts over with a full budget |
| Delivery.Delivery.Release | internal/webhook/domain/delivery.go:330-346 | a claim given back does not use up an attempt |
| Delivery.NextAttemptWindow | internal/webhook/domain/delivery.go:42-84 | a retry is due between 0.8 and 1.2 times its wait, 1, 5 or 30 minutes, 2, 6, 12 or 24 hours, for every random number and every rounding of the factor up to 2^-50, one nanosecond aside |
| Delivery.RetryBudget | internal/webhook/domain/delivery.go:139-346 | over any run: waiting deliveries have attempts left, in-flight ones between 1 and 10, and at most 10 outcomes occur between manual resets |
| Delivery.CanceledIsAbsorbing | internal/webhook/domain/delivery.go:257-268 | no step leads out of canceled |
| Delivery.RetryWindow | internal/webhook/domain/delivery.go:180-235 | in any run, a scheduled retry lies in that window unless a bounded 429 delay applies |
| Delivery.OutcomeExactly | internal/webhook/domain/delivery.go:180-235 | by the response: 2xx succeeds, 410 cancels, the tenth failure gives up, a 429 with a delay is retried then but within an hour, anything else after its wait of 1 minute to 24 hours |
| Delivery.StepsExactly | internal/webhook/domain/delivery.go:139-346 | the whole row after a claim, an abandonment, a release, a reset and a cancellation |
| Matcher.IndexIsLatest | internal/reconciliation/domain/matcher.go:64-76 | the index holds, for each key, an eligible record of greatest sequence |
| Matcher.IndexRecords | internal/reconciliation/domain/matcher.go:64-76 | the first loop builds that index |
| Matcher.MatchLines | internal/reconciliation/domain/matcher.go:78-107 | the second loop gives each line its verdict, in order, and consumes each known key once |
| Matcher.FindMissing | internal/reconciliation/domain/matcher.go:109-125 | the third loop reports or defers each settleable key no line consumed, once |
| Matcher.RunMatch | internal/reconciliation/domain/matcher.go:58-127 | the whole run is the three parts together, at the time given or else the clock's |
| Matcher.Accumulate | internal/reconciliation/domain/matcher.go:158-175 | one line added to the totals |
| Matcher.TotalsAreSums | internal/reconciliation/domain/matcher.go:158-175 | each total per currency is the sum over the lines, reduced to int64 |
| Matcher.EverythingCountedOnce | internal/reconciliation/domain/matcher.go:58-127 | matched, skipped, deferred and discrepancies add up to the lines plus the open settleable keys |
| Matcher.OpenKeysMean | internal/reconciliation/domain/matcher.go:109-125 | the open keys are exactly those of settleable records that no line consumed |
| Matcher.LinesPartitioned | internal/reconciliation/domain/matcher.go:78-107 | the matchable lines are exactly the lines of pairs and of line discrepancies, counted with multiplicity |
| Matcher.PairsAreRight | internal/reconciliation/domain/matcher.go:70-155 | a pair joins a line to the latest eligible record of its key, the two agree on currency, amount and known fee, and no key is paired twice |
| Matcher.PairedExactlyWhen | internal/reconciliation/domain/matcher.go:78-155 | a line is paired if and only if it is matchable, known, not a repeat, and agrees |
| Findings.VerdictExactly | internal/reconciliation/domain/matcher.go:78-155 | what each line gives, from the input alone: nothing, missing in the ledger, a repeat, or the comparison with the latest record that fits, with the kind of discrepancy for each disagreement |
| Findings.LinesFoundExactly | internal/reconciliation/domain/matcher.go:78-107 | the pairs and line discrepancies of a run are exactly what its lines give; the others are counted as skipped |
| Findings.RecordsFoundExactly | internal/reconciliation/domain/matcher.go:109-125 | reported missing at the provider, once each, are exactly the first settleable records of each key that no line settles and whose grace is over; those still in grace are counted as deferred |
| Matcher.Run.Start | internal/reconciliation/domain/run.go:104-113 | only a pending run starts |
| Matcher.Run.Complete | internal/reconciliation/domain/run.go:116-145 | stores the line total, the duration in milliseconds and the result's counts, kind by kind |
| Matcher.Run.Fail | internal/reconciliation/domain/run.go:148-158 | any run not completed can fail |
| Matcher.KindsAddUp | internal/reconciliation/domain/run.go:116-145 | the counts by kind sum to the number of discrepancies |
| Matcher.CountExactly | internal/reconciliation/domain/run.go:116-145 | each count is the number of discrepancies of its kind |
| Matcher.MillisExactly | internal/reconciliation/domain/run.go:116-145 | a duration is cut to whole milliseconds toward zero |
| Accounts.ParseInvertsCodeFor | internal/ledger/domain/account.go:153-187 | a text parses to a code if and only if the code is valid and the text is the one written for it |
| Accounts.StorageRoundTrip | internal/ledger/domain/account.go:190-203 | the stored form gives back code and mode exactly unless a live code starts with "test:" |
| Accounts.ParsedCodesAreStored | internal/ledger/domain/account.go:190-203 | so every valid code survives storage |
| Accounts.ChartExactly | internal/ledger/domain/account.go:77-121 | the text, the type and the level of every account of the chart |
| Accounts.AccountExactly | internal/ledger/domain/account.go:236-256 | an account is in order exactly when its code is in the chart, at the level it has there, in a supported currency |
| Accounts.QualifierExactly | internal/ledger/domain/account.go:142 | what a qualifier may look like |
| Journals.VerdictPassesValid | internal/ledger/domain/journal.go:146-200 | the checks pass exactly the valid journals: one currency and mode, proper accounts, positive amounts, equal totals in range |
| Journals.Validate | internal/ledger/domain/journal.go:146-200 | the loop reports the first fault in order, and passes exactly the valid journals |
| Journals.RefusedFor | internal/ledger/domain/journal.go:146-200 | why a journal is refused: its header, its first wrong entry and what is wrong with it, or totals that differ |
| Journals.AccountKeys | internal/ledger/domain/journal.go:205-216 | the accounts in order of first appearance |
| Journals.AccountKeysAreKeys | internal/ledger/domain/journal.go:205-216 | they are the accounts of the entries, none twice |
| Journals.ValidateReversal | internal/ledger/domain/journal.go:275-305 | counting lines in a map decides exactly: target exists, is unreversed, is mirrored as a multiset, and is the one named |
| Journals.MirrorsExactly | internal/ledger/domain/journal.go:275-305 | mirrored means every debit of the one is a credit of the other, account by account and amount by amount |
| Journals.Reverse | internal/ledger/domain/journal.go:221-271 | the mirrored journal, or the error |
| Journals.ReverseSucceedsExactlyWhen | internal/ledger/domain/journal.go:221-305 | a valid journal can be reversed exactly when saved, unreversed and given an event id; the result is valid and passes the reversal check |
| Journals.MirrorTwiceExactly | internal/ledger/domain/journal.go:221-271 | mirroring twice gives the entries back, in order, if and only if every direction is debit or credit |
| Journals.ReversingTwiceGivesBack | internal/ledger/domain/journal.go:221-271 | a valid journal reversed, saved and reversed again: the second reversal succeeds and has the first entries, in order |
| Balances.AfterIsEffect | internal/ledger/domain/balances.go:15-24 | a balance after entries is the exact sum, reduced once, whatever wrapped on the way |
| Balances.Balances.Apply | internal/ledger/domain/balances.go:15-24 | applies a valid journal; a refused one changes nothing |
| Balances.Balances.TrialBalances | internal/ledger/domain/balances.go:46-65 | sums by group and type over the whole map, in any order of the walk |
| Balances.Balances.CheckIdentity | internal/ledger/domain/balances.go:68-76 | true if and only if every group is in balance |
| Balances.Balances.Equal | internal/ledger/domain/balances.go:88-100 | true if and only if every account agrees, zero and missing alike |
| Balances.NetZeroBalances | internal/ledger/domain/balances.go:43-76 | a group whose debit-side net is zero modulo 2^64 is in balance in wrapping arithmetic |
| Balances.AfterKeepsNet | internal/ledger/domain/balances.go:15-24 | entries move a group's net by their debits less their credits, modulo 2^64 |
| Balances.IdentityAlwaysHolds | internal/ledger/domain/balances.go:15-76 | after any journals, accepted or refused, every group is in balance |
| Balances.EffectOfMultiset | internal/ledger/domain/balances.go:19-22 | the order of entries does not matter |
| Balances.ReversalRestores | internal/ledger/domain/balances.go:15-24 | a valid journal and any accepted reversal of it restore every balance |
| Templates.TemplateAcceptsExactly | internal/ledger/domain/template.go:30-298 | a template accepts an event if and only if the event has all it needs, and the journal is valid |
| Templates.TemplateDoesExactly | internal/ledger/domain/template.go:129-298 | the journal does to every account exactly what an independent table of effects says |
| Templates.TemplateHeaderExactly | internal/ledger/domain/template.go:30-298 | template, reference, owner and mode of the journal of each event |
| Templates.PolicyFeesPost | internal/ledger/domain/template.go:142-144 | a fee from a fee policy never triggers the fee rejection |
| Templates.SettlementAcceptsExactly | internal/ledger/domain/template.go:302-348 | a settlement is accepted if and only if its parts add up and its accounts can be named |
| Templates.SettlementDoesExactly | internal/ledger/domain/template.go:302-348 | cash up by what was paid, expense by the fees, receivable down by the gross |
| Templates.SettlementHeaderExactly | internal/ledger/domain/template.go:302-348 | the header of a settlement's journal |
| LedgerService.Service.PostJournalTx | internal/ledger/app/service.go:96-198 | the part inside the transaction: replay, reversal check, accounts, insertion, announcement |
| LedgerService.Service.Post | internal/ledger/app/service.go:65-93 | validates, posts in one transaction, rolls back on any error |
| LedgerService.Service.PostManualJournal | internal/ledger/app/service.go:230-304 | the manual posting with all its refusals, its reference taken from the input, else the source id, else the key |
| LedgerService.Service.ReverseById | internal/ledger/app/service.go:307-327 | a reversal on request, replayed by its event id |
| Postings.ManualPostingExactly | internal/ledger/app/service.go:230-304 | every refusal of a posting by hand in order, the answer to a repeated key, and otherwise the one journal posted, field by field |
| Postings.ReversalExactly | internal/ledger/domain/journal.go:221-271 | what a reversal consists of: each entry on the other side, in order, naming the journal |
| Postings.ReversalRefused | internal/ledger/domain/journal.go:221-271 | why it is refused |
| Postings.LinkRefusedFor | internal/ledger/domain/journal.go:275-305 | why a journal may not name another as reversed |
| Postings.PoisonExactly | internal/ledger/app/consumer.go:25-74 | an event that cannot be posted is refused as poison and leaves no trace; one that moves no money is only marked |
| LedgerService.Service.LinkReversal | internal/ledger/app/consumer.go:78-107 | links a failed refund to its newest pending journal when unreversed and mirrored |
| Linking.FailedRefundLinks | internal/ledger/app/consumer.go:78-107 | a failed refund's journal names the last journal that set the refund aside exactly when nothing reversed it and it is mirrored, and none otherwise; that one then counts as reversed and cannot be reversed on request |
| Linking.FailedRefundReverses | internal/ledger/app/consumer.go:78-107 | a refund set aside and then failed for the same money: the second journal reverses the first |
| LedgerService.Service.HandlePaymentEvent | internal/ledger/app/consumer.go:25-74 | inbox mark and journal commit or roll back together |
| LedgerRuns.ReachableInv | internal/ledger/app/service.go:65-327 | in every reachable state: valid journals, unique ids and event ids, reversals mirror an earlier journal, none reversed twice, balances the exact sum of the journals |
| LedgerRuns.EnsuredExactly | internal/ledger/app/service.go:119-132 | accounts are let in exactly when active or newly creatable; missing ones are created active, others untouched |
| LedgerRuns.StoredIsEffect | internal/ledger/app/service.go:165-168 | stored balances move by the exact effect of the entries |
| LedgerRuns.ReversalOpposes | internal/ledger/app/service.go:107-115 | a reversal has the opposite effect of the journal it names |
| LedgerRuns.ChainsCancel | internal/ledger/app/service.go:107-115 | a chain of n journals has the root's effect on every balance if n is odd and none if n is even |
| LedgerRuns.ChainsNeverBranch | internal/ledger/app/service.go:107-115 | no journal is reversed twice, by manual reversal, by request or by linking |
| LedgerRuns.ReverseDoesExactly | internal/ledger/app/service.go:307-327 | a reversal on request works exactly when the journal is unreversed and admitted, takes its effect back from every balance, and marks it reversed |
| LedgerRuns.LinkingIsHarmless | internal/ledger/app/consumer.go:78-107 | linking never makes a postable journal fail |
| LedgerRuns.HandleDoesExactly | internal/ledger/app/consumer.go:25-74 | when a first delivery is refused, what it adds when it is not, and that a refusal changes nothing |
| LedgerRuns.RedeliveryIsHarmless | internal/ledger/app/consumer.go:43-50 | a repeated delivery is acknowledged and changes nothing |
| LedgerRuns.HandleAddsEffect | internal/ledger/app/consumer.go:25-74 | one handled event adds its effect to every balance |
| LedgerRuns.BalancesDependOnEventsAlone | internal/ledger/app/consumer.go:25-74 | balances depend only on the set of handled events, not on order, repeats or failed deliveries |
| LedgerRuns.ManualJournalShadowsTheEvent | internal/ledger/app/service.go:97-104 | after any manual posting accepted under an event's id, the event is refused only if it could not be posted anyway, and otherwise acknowledged with no change but its inbox mark |
| LedgerRuns.AccountFaultExactly | internal/ledger/app/service.go:287-302 | manual entries pass the account check exactly when each account exists and is active |
| LedgerRuns.StoredExactly | internal/ledger/app/service.go:165-168 | entries that never move one account both ways are stored exactly when every resulting balance fits |
| LedgerRuns.AdmitsExactly | internal/ledger/app/service.go:119-168 | a postable event is let in exactly when every account it affects is active or new and has room for the effect |
| LedgerRuns.ReversingTwiceRestores | internal/ledger/app/service.go:307-327 | on any ledger, a reversal that is reversed in turn has the entries of the first journal and leaves every balance as it was |
| Shadowing.ShadowingHappens | internal/ledger/app/service.go:97-104 | a run in which a sound capture is acknowledged and never posted, because an accepted adjustment took its id |
| Attempts.FailoverExactlyWhen | internal/payment/domain/attempt.go:83-119 | failing over is allowed exactly for unavailable providers and whitelisted soft declines, never when the outcome is unknown |
| Attempts.FailureStatusExactly | internal/payment/domain/attempt.go:83-96 | the status each error category leaves: declined, unavailable, or unknown for a timeout and everything else |
| Attempts.AttemptExactly | internal/payment/domain/attempt.go:33-80 | an attempt when made, approved and waiting for the customer |
| Attempts.Attempt.MarkApproved | internal/payment/domain/attempt.go:66-71 | the approved attempt, its error cleared |
| Attempts.Attempt.MarkRequiresAction | internal/payment/domain/attempt.go:74-80 | the attempt waiting for the customer |
| Attempts.Attempt.MarkFailed | internal/payment/domain/attempt.go:83-96 | the failed attempt, by category |
| Payments.NewPaymentInv | internal/payment/domain/payment.go:145-205 | a payment is created exactly for a positive amount in a supported currency with a method, a known capture method or none, and metadata within the limits; it is in order |
| Payments.NewPaymentExactly | internal/payment/domain/payment.go:145-205 | the row and event of a new payment, field by field |
| Payments.CaptureKeeps | internal/payment/domain/payment.go:325-352 | a capture succeeds exactly within the authorization, and keeps the row in order |
| Payments.VoidKeeps | internal/payment/domain/payment.go:364-385 | voiding works exactly from an authorization or a pending action, never after money moved |
| Payments.FailExpireKeep | internal/payment/domain/payment.go:388-418 | failing and expiring work exactly before an authorization |
| Payments.ReserveKeeps | internal/payment/domain/payment.go:448-472 | a refund is reserved exactly when captured and available |
| Payments.SettlingNeverFails | internal/payment/domain/payment.go:475-516 | a reserved refund can always be settled either way: no amount, overflow or status check refuses it |
| Payments.AuthorizeExactly | internal/payment/domain/payment.go:294-322 | when an authorization is refused, and the row and event when it is not: deadline, amount, validity of seven days |
| Payments.RequireActionExactly | internal/payment/domain/payment.go:269-282 | the same for a customer action, open for half an hour |
| Payments.StartExactly | internal/payment/domain/payment.go:255-266 | the same for an attempt |
| Payments.SettleExactly | internal/payment/domain/payment.go:475-516 | row and event of a refund that succeeds or fails |
| Payments.TransitionsExactly | internal/payment/domain/status.go:31-77 | the transition table and the terminal statuses |
| Payments.Payment.Emit | internal/payment/domain/payment.go:208-216 | status, version and event move together |
| Payments.Payment.Transition | internal/payment/domain/payment.go:218-224 | refuses what the table does not allow |
| Payments.Payment.OpenAttempt | internal/payment/domain/payment.go:235-242 | finds the first open attempt, if any |
| Payments.Payment.StartAttempt | internal/payment/domain/payment.go:255-266 | one open attempt at a time, only while created |
| Payments.Payment.RequireAction | internal/payment/domain/payment.go:269-282 | the row and event of a pending customer action |
| Payments.Payment.Authorize | internal/payment/domain/payment.go:294-322 | the row and event of an authorization, refused after the deadline |
| Payments.Payment.Capture | internal/payment/domain/payment.go:325-352 | the row and event of a capture, or the first refusal in order |
| Payments.Payment.Void | internal/payment/domain/payment.go:364-385 | the row and event of a void |
| Payments.Payment.Fail | internal/payment/domain/payment.go:388-404 | the row and event of a failure |
| Payments.Payment.Expire | internal/payment/domain/payment.go:407-418 | the row and event of an expiry |
| Payments.Payment.ReserveRefund | internal/payment/domain/payment.go:448-472 | the amount set aside, status unchanged |
| Payments.Payment.MarkRefunded | internal/payment/domain/payment.go:475-501 | the amount moved from pending to refunded |
| Payments.Payment.ReleaseRefund | internal/payment/domain/payment.go:504-516 | the amount released |
| Payments.Refund.Succeed | internal/payment/domain/refund.go:67-77 | only a pending refund succeeds |
| Payments.Refund.Fail | internal/payment/domain/refund.go:80-90 | only a pending refund fails |
| Messages.SentMessagesAreReadable | internal/ledger/app/proto.go:303-398 | everything the payment side sends can be read back, except a capture with a negative fee |
| Postable.SentMessagesPostExactly | internal/payment/app/events.go:21-100 | every sent message that moves money, of every payment in every reachable state, is postable if and only if the payment has its identifiers, a provider that can qualify an account where one is named, and for a capture a fee between zero and the captured amount |
| Postable.AcceptableExactlyWhenSound | internal/payment/app/events.go:21-100 | all messages of a payment are acceptable to the ledger if and only if the payment has captured nothing or meets that condition |
| Postable.CaptureTheLedgerRefuses | internal/ledger/domain/template.go:142-144 | a reachable payment of 100 captured with a fee of 101, whose message can be posted under no id and no policy |
| Messages.CapturePostsExactly | internal/payment/app/events.go:53-59 | a sent capture is postable if and only if its fee lies between zero and its amount and its identifiers are in order |
| Messages.WorthIsEffect | internal/ledger/app/proto.go:303-398 | a message's worth does not depend on the id it travels under |
| Messages.ReadExactly | internal/ledger/app/proto.go:303-398 | the event the ledger reads off each kind of message, or the refusal |
| PaymentStore.PaymentService.PersistRow | internal/payment/app/service.go:89-99 | the one write path: version-checked, row and events and messages together |
| PaymentStore.PaymentService.AppendEvents | internal/payment/app/service.go:102-120 | one outbox message per event, in order |
| PaymentStore.PaymentService.CommitCapture | internal/payment/app/operations.go:82-98 | second transaction of a capture |
| PaymentStore.PaymentService.CommitVoid | internal/payment/app/operations.go:142-158 | second transaction of a void |
| PaymentStore.PaymentService.CommitFailure | internal/payment/app/operations.go:227-238 | a failed confirmation or authorization written back |
| PaymentStore.PaymentService.ApplyApproved | internal/payment/app/create_payment.go:254-284 | authorization and automatic capture in one write; a failed immediate capture keeps the authorization |
| PaymentStore.PaymentService.BeginRefund | internal/payment/app/operations.go:287-321 | first transaction of a refund: reserve and record |
| PaymentStore.PaymentService.CreateRefund | internal/payment/app/operations.go:271-330 | a refund request up to its first write: a missing key or unknown reason is refused, a used key is answered with its refund and no write, a key taken in the meantime rolls the write back |
| PaymentStore.PaymentService.EndRefund | internal/payment/app/operations.go:362-390 | second transaction of a refund: settle unless the refund row moved on |
| Requests.CaptureWrites | internal/payment/app/operations.go:82-98 | a capture commits exactly when nobody wrote in between and nothing is against it; then the amount given and no other is captured, and the one new event and message carry it and the fee |
| Requests.CaptureRequest | internal/payment/app/operations.go:41-103 | a whole capture request: what is captured is the positive amount the provider reported in that currency, else the amount asked for, else all that is authorized |
| Requests.VoidRequest | internal/payment/app/operations.go:114-163 | a whole void request |
| Requests.ConfirmationFails | internal/payment/app/operations.go:174-240 | a confirmation answered with a failure: the waiting attempt declined, the payment failed |
| Requests.ConfirmationSucceeds | internal/payment/app/operations.go:174-249 | a confirmation answered with an approval |
| Requests.ApprovalWrites | internal/payment/app/create_payment.go:254-284 | when an approval is refused, and what it writes: the authorization, and the capture of the reported amount, else the whole, at the approval's fee |
| Requests.FailureWrites | internal/payment/app/operations.go:227-238 | what a failure writes |
| Requests.ActionWrites | internal/payment/app/create_payment.go:144-157 | what a customer action asked for writes |
| Requests.ExpiryRequest | internal/payment/domain/payment.go:407-418 | what expiry writes |
| Requests.RefundWrites | internal/payment/app/operations.go:287-321 | a refund is set aside exactly when its id and key are new and the amount asked for, or all that is available, is; refund, event and message carry that amount |
| Requests.RefundEndWrites | internal/payment/app/operations.go:362-390 | what the provider's answer writes, exactly if the refund is still pending |
| Requests.RefundRequest | internal/payment/app/operations.go:272-395 | a whole refund request with anything in between |
| Requests.SagaFailureWrites | internal/payment/app/create_payment.go:168-180 | what the saga's steps write when it fails the payment |
| Requests.SagaUnknownWrites | internal/payment/app/create_payment.go:159-166 | an unknown outcome is written without an event |
| Requests.SagaActionWrites | internal/payment/app/create_payment.go:144-157 | what asking for an action writes |
| Requests.SagaApprovalWrites | internal/payment/app/create_payment.go:254-284 | what an approval writes, under the last attempt's provider |
| Requests.SagaGoesOn | internal/payment/app/create_payment.go:181-194 | going on to another provider writes the failed attempt and the new one, exactly if nobody wrote in between |
| PaymentRuns.MessageWorth | internal/payment/app/events.go:21-100 | each message is worth exactly what its event changed in the rows |
| PaymentRuns.CaptureGood | internal/payment/app/operations.go:82-98 | a capture's write keeps every invariant and only adds history |
| PaymentRuns.ApproveGood | internal/payment/app/create_payment.go:254-284 | so does an approval's, with one event or two |
| PaymentRuns.RefundBeginGood | internal/payment/app/operations.go:287-321 | so does reserving a refund, which records it as pending |
| PaymentRuns.RefundEndGood | internal/payment/app/operations.go:362-390 | so does settling, which commits exactly when the refund is still pending |
| PaymentRuns.StepKeepsInv | internal/payment/app/operations.go:41-395 | every step of every request keeps the invariant and what the others remember |
| PaymentRuns.PaymentsStayInOrder | internal/payment/domain/payment.go:145-516 | for any interleaving: nested amounts, statuses fixed by them, pending and refunded equal to the sums of the refunds, messages worth what the rows say |
| PaymentRuns.EventsTellTheWholeStory | internal/payment/app/service.go:89-120 | numbers 1..version without gap, from-status equals previous to-status, the events rebuild the row, at most one authorization and one capture |
| PaymentRuns.HistoryIsKept | internal/payment/domain/status.go:54-77 | history only grows, settled refunds and ended payments never change |
| PaymentRuns.PendingRefundsCanSettle | internal/payment/app/operations.go:362-390 | a pending refund can be settled either way at any time |
| PaymentRuns.WritesAreFresh | internal/payment/app/operations.go:82-163 | a request writes only when what it remembers is what is stored, so no update is lost |
| PaymentRuns.AttemptsStayExclusive | internal/payment/domain/payment.go:235-266 | for any interleaving: at most one attempt open, at most one approved, none approved before the authorization |
| PaymentRuns.SentStaysRight | internal/payment/app/events.go:21-100 | every message keeps naming the payment, its provider, the captured amount and the fee as the rows have them |
| AuthorizeSaga.Route | internal/payment/adapter/provider/provider.go:258-291 | the candidates are mentions found usable, in order of mention and without repeats, and every name found usable is among them; with a token only its provider is mentioned |
| AuthorizeSaga.ResolveUnknown | internal/payment/app/create_payment.go:219-251 | the loop computes the outcome after asking again, which SagaAnswers.ResolvedExactly spells out answer by answer |
| AuthorizeSaga.FirstDecisiveSettles | internal/payment/app/create_payment.go:219-251 | the first decisive answer and no later one settles an unknown outcome; without one it stays |
| SagaAnswers.ResolvedExactly | internal/payment/app/create_payment.go:219-251 | what the first inquiry to say anything makes of the outcome: an approval, captured or not, an unavailable provider, a hard decline; with none, no change |
| AuthorizeSaga.ChooseNext | internal/payment/app/create_payment.go:303-325 | the loop over candidates picks the specified one |
| AuthorizeSaga.ChoiceFollowsTrail | internal/payment/app/create_payment.go:303-325 | with distinct candidates the choice is the next one, or the last again |
| AuthorizeSaga.RunAuthorizeSaga | internal/payment/app/create_payment.go:123-194 | the loop, asking again after each unknown outcome, terminates and computes the specified end |
| AuthorizeSaga.SagaIsBounded | internal/payment/app/create_payment.go:123-194 | at most three authorizations; providers in candidate order, then repeats of the last after unavailable; nothing after an unknown outcome or a final decline; at most one attempt open and one approved |
| AuthorizeSaga.LastAnswerFixesStatus | internal/payment/app/create_payment.go:123-194 | without error, the last answer, and for an approval the capture, fix the payment's status |
| SagaAnswers.SagaTellsTheAnswers | internal/payment/app/create_payment.go:123-325 | by replies and inquiries alone: every attempt shows its answer; each but the last was followed because a provider was left, within limit and time; and without error the payment is as the last answer leaves it, failed only when nothing was left to try |
| AuthorizeSaga.SagaRefinesSteps | internal/payment/app/create_payment.go:123-194 | whatever other requests do before each of its writes, a saga that ends without error leaves stored exactly the payment it ended with, as steps of the concurrent payment |
| AuthorizeSaga.RefusedStepLeavesNoTrace | internal/payment/app/create_payment.go:123-194 | a step of the saga that comes after somebody else's write ends the saga and leaves what is stored as it was |
| AuthorizeSaga.SagaErrorsLeaveNoTrace | internal/payment/app/create_payment.go:123-194 | a saga that ends in error, for whatever reason a write failed or because the payment refused, leaves stored what its last successful write left and what the others did since |
| Outbox.Relay.Publish | pkg/outbox/relay.go:86-99 | publishes every row; one failure does not stop the others |
| Outbox.Relay.ProcessBatch | pkg/outbox/relay.go:131-163 | marks exactly the published rows, and nothing if the transaction fails |
| Outbox.Relay.NextDelay | pkg/outbox/relay.go:102-120 | the wait after a batch, for any poll interval and maximum |
| Outbox.BackoffDoubles | pkg/outbox/relay.go:102-120 | the n-th wait in a row is the poll interval doubled n - 1 times, cut at the maximum |
| Outbox.MarkedAreDelivered | pkg/outbox/relay.go:131-163 | a row is marked published only if its message reached the bus |
| MoneyPath.StepKeepsInv | internal/ledger/app/consumer.go:25-74 | every step of payments, relay, bus and ledger, with manual postings, reversals and status changes, keeps the equation between rows, messages and balances |
| MoneyPath.MoneyIsNeverLost | internal/ledger/app/consumer.go:25-74 | in every reachable state each balance, the worth of unprocessed messages and the worth kept out by other journals make up what the rows say and the other journals did |
| MoneyPath.WhenAllIsProcessed | internal/payment/domain/payment.go:325-516 | when all is processed and nothing was posted by hand: payable is captured less fee, refunded and pending; clearing is pending; receivable is captured less refunded; revenue is the fees |
| Settling.ProcessedExactlyWhen | internal/ledger/app/consumer.go:25-74 | a first delivery is processed exactly when its message is acceptable and its accounts are active or new with room; until then nothing changes |
| Deliveries.HandledExactlyWhen | internal/ledger/app/consumer.go:25-74 | a first delivery of an event gets through exactly when the event moves no money or has what it needs, and the accounts it is to be posted to are open to it; otherwise nothing changes |
| Deliveries.HandledExactly | internal/ledger/app/consumer.go:25-74 | with open accounts and room for what is due, deliveries in any order and with any repeats handle exactly the deliverable events among them |
| Deliveries.AllIsHandledExactlyWhen | internal/ledger/app/consumer.go:25-74 | so delivering a whole catalogue handles it all if and only if every event in it is deliverable |
| Settling.AllIsProcessedExactlyWhen | internal/ledger/app/consumer.go:25-74 | with open accounts and room for what is due, delivering every message in any order and with any repeats processes them all if and only if every payment meets its condition |
| Settling.TheLedgerCatchesUp | internal/ledger/app/consumer.go:25-74 | then, with nothing posted by hand, each balance is what the payment rows say |
| MoneyPath.OnlySoundMessagesAreProcessed | pkg/outbox/relay.go:131-163 | published implies on the bus; processed implies readable and postable |
| Idempotency.KeysAreUsedOnce | internal/payment/app/create_payment.go:43-103 | in every reachable state, no two payments of a merchant share a key, and no two refunds of a merchant on any of its payments do |
| Idempotency.RepeatedCreationWritesNothing | internal/payment/app/create_payment.go:43-121 | a creation request under a used key writes nothing, now or after any further steps, and its answer stays the same payment or the same refusal |
| Idempotency.RepeatedRefundWritesNothing | internal/payment/app/operations.go:272-323 | a refund request under a used key writes nothing, on whichever of the merchant's payments, now or after any further steps |
| Idempotency.AnsweredExactly | internal/payment/app/create_payment.go:43-121 | a missing key is refused, a used one answered with its payment or, for a different request, with a mismatch |
| Idempotency.FirstCreationIsServed | internal/payment/app/create_payment.go:56-95 | a creation under a new key adds the payment, its pending attempt and its message, whenever the payment can be created |
| Idempotency.OtherStepsAreServed | internal/payment/app/service.go:89-120 | every other step of a payment is carried out, and its messages enter the outbox in order |
| Idempotency.RelayIsServed | pkg/outbox/relay.go:86-163 | what is published reaches the bus and is marked if the batch commits |
| Idempotency.LedgerStepsAreServed | internal/ledger/app/service.go:230-327 | postings and reversals by hand are carried out by the ledger and touch nothing else |
| Lifecycles.HoldingsAreWhatIsOpen | internal/ledger/domain/template.go:163-298 | for every interleaving of a merchant's refunds and disputes, over any payments and providers, with captures and other merchants' events: once all is handled, refund_clearing is the pending refunds and chargeback_reserve the open disputes |
| Lifecycles.OpenExactly | internal/ledger/domain/template.go:163-298 | what is open is what was opened and not closed since, with the money it was opened with |
| Lifecycles.PlayDelivers | internal/ledger/domain/template.go:30-298 | the events of such an interleaving can all be posted if and only if every move had its identifiers, amounts and fees in range when it was made |
| Lifecycles.HoldingsOnceDelivered | internal/ledger/app/consumer.go:25-74 | with open accounts and room, delivering those events in any order and with any repeats handles them all if and only if every move was sound, and the holding accounts are then what is open |
| Lifecycles.BothAddUp | internal/ledger/domain/template.go:163-298 | two events a ledger takes one after the other add their effects to every balance |
| Lifecycles.FailedRefundRestores | internal/ledger/domain/template.go:163-224 | on any ledger, a refund reserved and then failed leaves every balance as it was |
| Lifecycles.WonDisputeRestoresExactlyWhen | internal/ledger/domain/template.go:231-298 | on any ledger, a dispute opened and then won leaves every balance as it was if and only if the fee charged is given back |
| Lifecycles.InterleavedPairsRestore | internal/ledger/domain/template.go:163-298 | whatever else both have handled, a ledger that also handled the pair agrees on every balance with one that did not: always for a failed refund, for a won dispute exactly when its fee is given back |

## Left out

- Payments: the dispute statuses are in the transition table but no method enters them, so reachable payments exclude them.
- Payments.Payment.Expire: nothing in the source calls it yet; the model lets it happen at any time as a sweeper's step.
- Payments: the live/test mode is a constant of the payment although it is not stored with the row; customer data, descriptions, metadata once checked, failure details and void reasons are not carried.
- PaymentRuns: attempts are values inside the payment, so sharing of attempt objects is not captured.
- PaymentStore.PaymentService.BeginRefund: the key is compared within the payment; the lookup over all payments of the merchant comes before it in MoneyPath and Idempotency.
- PaymentStore.PaymentService.CreateRefund: what the merchant's other payments hold under the key is an argument, because the class holds one payment; MoneyPath looks it up.
- Messages.SentMessagesAreReadable: merchant and payment identifiers are taken as read, so a text that is no identifier is not modelled beyond the absent one.
- Idempotency: two requests under one new key at the same moment are serial here; in the source the unique index refuses the second insertion, with the same answer.
- MoneyPath: refund events go to their own topic in the source, to which the ledger's consumer is not subscribed; topics are abstracted and the ledger handles whatever its templates cover.
- MoneyPath: event ids are counted instead of drawn at random, which stands for their uniqueness.
- LedgerService: transactions are serial; what two overlapping transactions under a weaker isolation level could do, such as reversing one journal at the same time, is not modelled, nor is the lookup after a lost race for an event id beyond its result.
- LedgerService.Service.PostManualJournal: entries name accounts by their natural key instead of an account id; metadata is not carried.
- LedgerService: "newest" and "first" journal are by order of posting, which stands for the posting time; entry ids, account ids, descriptions and metadata are not carried, and an account is identified with its natural key.
- LedgerService: a balance that would leave the bigint range refuses the posting, as the column does; Balances models the in-memory copy, which wraps around.
- Outbox.Relay: order of delivery per payment is not claimed, because publishing goes on past a failed message.
- AuthorizeSaga: capability caching and the circuit breaker are an arbitrary answer to each usability question; classification of transport errors and response codes into categories is not modelled, the category is part of the answer.
- AuthorizeSaga.RunAuthorizeSaga: the request budget is an arbitrary answer before each further attempt.
- Matcher.RunMatch: the source's one function is three methods here, one for each loop; file import states and the text of discrepancies are not modelled.
- DecimalParser: plain integer fields, currency normalisation and CSV headers, which would only add easy members.
- Delivery: endpoint snapshots, response bodies and the trimming of long texts.
- HTTP, gRPC, SQL, Kafka, telemetry, configuration, signatures and encryption, rate limits and caches: plumbing and libraries around this core.
