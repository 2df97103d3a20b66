# Money path of the TEC services: a verified model

This project models the path of a payment through the TEC microservices - payment handlers, outbox, Redis stream,
wallet consumer, ledger - and the stateful mechanisms around it: reconciliation, the Pi API client, rate limiter,
response cache, idempotency store, refresh-token blacklist, marketplace and order stock. It proves what holds over
every run and every interleaving, and, where the code does not keep a promise, exactly when it does.

Code that updates state step by step is a class whose methods keep the source's statements in their order; each is
proved equal to a step of a specification written as a function on values. What the source promises is then proved
about runs of those steps. Databases are sequences and maps (a row's id is its index), a Redis stream is an append-only
sequence with a consumer group, a JavaScript Map is its list of slots with live iterators (section 24.1 of ECMA-262),
clocks are integers in milliseconds, amounts are integers in units of 10^-8. Configuration, Pi answers, failing writes
and durations are parameters.

| module | covers |
|---|---|
| Prelude | options, sums over sequences |
| WalletLedger, WalletService | the six wallet writers as atomic transactions |
| LedgerInterleaving | the same writers interleaved row update by row update, with rollbacks |
| FirstCredits | wallet lookup and creation apart: two first credits at once |
| PaymentStream, StreamReplay | at-least-once delivery, deduplication, start-up replay |
| Payments, PaymentLifecycle, PaymentController | status table, handlers interleaved around their Pi calls, handler bodies |
| Republication | how often a payment can be completed and published when writes go stale |
| Settlement | payment handlers, stream and wallet as one machine |
| Reconciliation, PiApi, Outbox | cron job, retry loop and circuit breaker, outbox worker |
| RateLimit, ResponseCache, Idempotency, TokenBlacklist | the middleware mechanisms |
| Marketplace, Orders | listings and ownership, stock |

Where code and intent differ, the model follows the code:

- The webhook and resolveIncompletePayment complete payments without publishing: a payment that the webhook completes is
  never credited unless a second approval of it in flight brings it back, and one that resolve completes is credited
  only if completePayment completed it too (Settlement).
- approve, fail, the webhook's failure branch, the reconciliation cron and resolve write without reading again, and a
  stale write of any of them breaks the status table (PaymentLifecycle, Republication).  Only a stale approve can make a
  payment be completed and published twice - not credited twice (Republication, Settlement).
- Two first credits of one user and currency that overlap each create a primary wallet, of which getBalance reads one
  (FirstCredits).  Two overlapping linkWallet calls of one user and
  currency do the same (WalletLedger).
- addFundsInternal writes its audit row from a balance read before its transaction (WalletLedger).
- The start-up pass reads only the first 100 pending entries, and an entry that can never be handled stays in front:
  a hundred of these block what is behind them (StreamReplay).
- The balance checks of withdraw and transfer need serialised transactions (LedgerInterleaving).
- With max_attempts at its default of 5 an outbox row never becomes `failed`: the poll selects fewer than 5 attempts,
  the marking asks for at least max_attempts (Outbox).
- The cache's cleanup loop re-inserts what it looks up while iterating: with an unexpired entry it does not end
  (ResponseCache).
- An order item with a negative quantity passes the stock check and raises stock, and its cancellation can make stock
  negative (Orders).
- refreshToken verifies before it reads the blacklist, which leaves a gap at the expiry; logout lists a refresh token
  with a secret of its own for one day only, and so can shorten an existing listing (TokenBlacklist).
- Two refreshes with one token that overlap can both pass (TokenBlacklist).
- A client told to wait a whole number of seconds exactly finds the in-memory rate-limit window not yet over (RateLimit).

## Model

| member | source | states |
|---|---|---|
| Settlement.BalanceIsCreditedPayments | tec-wallet-service/src/wallet/wallet.service.ts:22-116 | For every interleaving of payment handlers, publishes, deliveries, crashes and replays, a balance is exactly the sum of the amounts of that user's and currency's credited payments, each once, even where a stale write publishes a payment twice |
| Settlement.CreditedWasCompleted | tec-payment-service/src/controllers/payment.controller.ts:359-424 | A credited payment is a Pi payment that completePayment itself moved to Completed, and it is still Completed where every write that is not re-checked, resolve's included, found its status still allowing it |
| Settlement.DrainedCreditsPublished | tec-wallet-service/src/event-bus.ts:47-119 | Once every published event has reached the stream and every entry is delivered and acked, the credited payments are exactly the published ones |
| Settlement.CreditedIffCompletePayment | tec-payment-service/src/controllers/payment.controller.ts:359-424 | In every run, once everything is drained and no publish of it was lost, a Pi payment is credited iff completePayment completed it |
| Settlement.CompletedIsCreditedIff | tec-payment-service/src/controllers/payment.controller.ts:359-424 | Of the Pi payments then Completed and approved only once, a payment is credited iff completePayment completed it once, and, where resolve did not complete it, iff the webhook did not either |
| Settlement.FreshCompletedIsCreditedIff | tec-payment-service/src/controllers/payment.controller.ts:898-927 | Where no blind write is stale, a Completed Pi payment is credited iff neither the webhook nor resolveIncompletePayment completed it |
| Settlement.WebhookCompletionIsNeverCredited | tec-payment-service/src/controllers/webhook.controller.ts:164-215 | A payment that was approved only once and that the webhook completed is never credited: the webhook publishes nothing, and completePayment, having lost the race, does not either |
| Settlement.ApprovedOnce | tec-payment-service/src/controllers/payment.controller.ts:141-271 | A payment is approved only once if no blind write is stale, or if no two approvals of it are in flight together |
| Settlement.CompletedNotCredited | tec-payment-service/src/controllers/payment.controller.ts:898-927 | For the webhook and for resolve, a run that ends drained, with no publish pending, a Pi payment Completed by it, and no credit |
| Settlement.WebhookCompletedYetCredited | tec-payment-service/src/controllers/payment.controller.ts:183-224 | A run with two overlapping approvals in which a payment the webhook completed is revived, completed again by completePayment, and credited |
| Settlement.ResolvedYetCredited | tec-payment-service/src/controllers/payment.controller.ts:916-927 | A run in which a stale fail overwrites a published payment, resolve completes it again, and it is credited: freshness is needed |
| Settlement.PublishedIffCompleted | tec-payment-service/src/controllers/payment.controller.ts:403-424 | Where no publish is lost, the published Pi payments are exactly those that completePayment completed |
| Settlement.StreamIsPublished | tec-payment-service/src/controllers/payment.controller.ts:403-424 | Everything on the stream is an event that completePayment published |
| Settlement.PublishedAreMatched | tec-payment-service/src/controllers/payment.controller.ts:403-424 | A published event carries the user, amount and currency of its payment, at every later time too |
| WalletLedger.RunKeepsInv | tec-wallet-service/src/controllers/wallet.controller.ts:159-467 | After any sequence of the six writers, as atomic transactions: balances equal signed ledger sums, no balance is negative, audit rows chain from 0 to the balance, one primary wallet per user and currency, one CREDIT row per processed payment and none for another |
| WalletLedger.StepConserves | tec-wallet-service/src/controllers/wallet.controller.ts:292-467 | The total over all wallets changes by exactly the external flow of a request: up by a deposit or credit, down by a withdrawal, not at all by a transfer or a refused request |
| WalletLedger.PostKeeps | tec-wallet-service/src/controllers/wallet.controller.ts:184-205 | Audit row, relative update and ledger row together keep ledger agreement and the audit chain |
| WalletLedger.CreditEventKeepsInv | tec-wallet-service/src/wallet/wallet.service.ts:30-86 | Crediting a new event keeps the whole invariant, including one CREDIT row per key |
| WalletLedger.HandleCredits | tec-wallet-service/src/wallet/wallet.service.ts:10-116 | A valid event with a new key raises what getBalance shows for its user in its own currency, or in PI if it names none, by its amount, and changes no other balance |
| WalletLedger.CreditMovesOneBalance | tec-wallet-service/src/wallet/wallet.service.ts:90-116 | The same of the transaction body alone |
| WalletLedger.TransferKeepsInv | tec-wallet-service/src/controllers/wallet.controller.ts:319-381 | A transfer's two postings keep the invariant, non-negativity included |
| WalletLedger.EventKeyInjective | tec-wallet-service/src/wallet/wallet.service.ts:20 | Different payments have different deduplication keys |
| WalletLedger.FindFirst | tec-wallet-service/src/wallet/wallet.service.ts:90-98 | findFirst returns the earliest matching wallet, and nothing only if none matches |
| WalletLedger.EnsurePrimary | tec-wallet-service/src/wallet/wallet.service.ts:90-109 | The wallet returned is the first that matches the user's primary wallet in the currency |
| WalletService.WalletStore.HandlePaymentCompleted | tec-wallet-service/src/wallet/wallet.service.ts:10-88 | Refuses exactly the events without id or user or a positive amount; does nothing for a stored key; else stores the key, writes one CREDIT row and credits the balance of the event's user and currency alone |
| WalletService.WalletStore.FindOrCreateWallet | tec-wallet-service/src/wallet/wallet.service.ts:90-109 | The existing primary wallet, else a new empty one |
| WalletService.WalletStore.GetBalance | tec-wallet-service/src/wallet/wallet.service.ts:111-116 | The balance of the first primary wallet of the user in the currency, else 0 |
| WalletService.WalletStore.DepositFunds | tec-wallet-service/src/controllers/wallet.controller.ts:159-220 | Its error in every case; else the wallet's balance alone rises by the amount, with one ledger row |
| WalletService.WalletStore.WithdrawFunds | tec-wallet-service/src/controllers/wallet.controller.ts:223-289 | Its error in every case, too small a balance among them; else the wallet's balance alone falls by the amount, with one ledger row |
| WalletService.WalletStore.TransferFunds | tec-wallet-service/src/controllers/wallet.controller.ts:292-388 | Its error in every case; else the source's balance falls by the amount, the destination's rises by it, no other changes, and the two ledger rows say so |
| WalletService.WalletStore.AddFundsInternal | tec-wallet-service/src/controllers/wallet.controller.ts:391-467 | Run alone: its error in every case; else one wallet of the user in the currency, new if there was none, gains the amount |
| WalletService.WalletStore.FindOrCreateAnyWallet | tec-wallet-service/src/controllers/wallet.controller.ts:412-428 | Before its transaction: any wallet of the user in the currency, else a new one, primary iff the user has none |
| WalletService.WalletStore.AddFundsTransaction | tec-wallet-service/src/controllers/wallet.controller.ts:433-460 | Its transaction writes the audit row from the balance read before, whatever the balance is by then |
| WalletLedger.StaleAddFundsBreaksAuditIff | tec-wallet-service/src/controllers/wallet.controller.ts:430-460 | If other writers come between that read and the transaction, ledger agreement and solvency still hold; the audit chain holds iff the balance read is still the wallet's |
| WalletService.WalletStore.LinkWallet | tec-wallet-service/src/controllers/wallet.controller.ts:60-88 | Run alone: refused iff the address is held; else adds an empty wallet, primary iff the user had no primary one |
| WalletService.WalletStore.LinkCreate | tec-wallet-service/src/controllers/wallet.controller.ts:78-82 | Its create uses the outcome of the lookup before, whatever wallets there are by then; an address held already is refused by the database |
| WalletLedger.StaleLinkKeepsOnePrimaryIff | tec-wallet-service/src/controllers/wallet.controller.ts:76-82 | If other writers come between that lookup and the create, one primary wallet per user and currency remains iff the wallet is not created as primary or there still is none |
| WalletLedger.OverlappingLinks | tec-wallet-service/src/controllers/wallet.controller.ts:76-82 | Two links that both looked before either created leave two primary wallets |
| WalletService.WalletStore.WriteAuditLog | tec-wallet-service/src/controllers/wallet.controller.ts:13-36 | Appends one audit row with the balance before and after |
| LedgerInterleaving.RunKeepsInv | tec-wallet-service/src/controllers/wallet.controller.ts:180-213 | Row-level updates of any number of transactions, interleaved with commits and rollbacks, keep each balance in step with its ledger rows up to what is in flight |
| LedgerInterleaving.LedgerAgreesAtRest | tec-wallet-service/src/controllers/wallet.controller.ts:319-381 | Whenever no transaction is in flight every balance is the signed sum of its ledger rows, and the total is the external flow of the committed transactions |
| LedgerInterleaving.AloneIsAtomic | tec-wallet-service/src/controllers/wallet.controller.ts:248-276 | An operation run alone on a ledger at rest makes the checks of its handler and moves the balances as it does |
| LedgerInterleaving.ProgramBalanced | tec-wallet-service/src/controllers/wallet.controller.ts:248-276 | Each operation moves a balance by what its ledger rows say, and the total by its external flow |
| LedgerInterleaving.UndoSubtracts | tec-wallet-service/src/controllers/wallet.controller.ts:433-460 | Rolling back takes away exactly what the transaction had added |
| LedgerInterleaving.InterleavedWithdrawalsOverdraw | tec-wallet-service/src/controllers/wallet.controller.ts:248-266 | Without serialised transactions two withdrawals that read the same committed balance overdraw the wallet: Overdraft() is such a run, and it keeps to the row locks |
| LedgerInterleaving.DebitSafeIffFloorCovers | tec-wallet-service/src/controllers/wallet.controller.ts:248-266 | Exactly when a debit admitted on the committed balance may start: no way the transactions in flight go on overdraws its wallet iff the floor (balance less credits that may be rolled back and debits still to come) covers the amount |
| LedgerInterleaving.GuardedIsSolvent | tec-wallet-service/src/controllers/wallet.controller.ts:244-282 | If debits checked the floor instead of the balance, no interleaving would ever overdraw a wallet |
| LedgerInterleaving.FloorIsReached | tec-wallet-service/src/controllers/wallet.controller.ts:244-282 | The floor is attained: the transactions in flight can go on so that the balance becomes it |
| PaymentStream.CreditedExactlyOnce | tec-wallet-service/src/wallet/wallet.service.ts:22-87 | Over every interleaving of duplicate publishes, deliveries to any number of processes, aborts, lost acks, crashes and replays, each payment is credited at most once and each balance is the sum over distinct committed payments |
| PaymentStream.NothingIsLost | tec-wallet-service/src/event-bus.ts:62-90 | An entry appended after the group was created is exactly one of undelivered, pending and acked, and an acked one has its credit |
| PaymentStream.RestartReplays | tec-wallet-service/src/event-bus.ts:92-119 | A process that crashes and starts again is handed the first hundred pending entries |
| PaymentStream.DrainedMeansAllCredited | tec-wallet-service/src/event-bus.ts:47-119 | When everything since the group's creation is valid, delivered and acked, the credited payments are exactly the published ones |
| PaymentStream.CommittedAfterStart | tec-wallet-service/src/event-bus.ts:38-45 | Only entries appended after the group was created are ever credited |
| PaymentStream.RunKeepsInv | tec-wallet-service/src/event-bus.ts:47-119 | The protocol invariant: acked entries are stored, a process past its commit relies on a stored key, balances are the committed sums |
| PaymentStream.CommitKeepsInv | tec-wallet-service/src/wallet/wallet.service.ts:22-87 | The handler's transaction keeps it in all its cases: key seen, key inserted meanwhile by another process, new key |
| FirstCredits.BalanceIsCommittedIff | tec-wallet-service/src/wallet/wallet.service.ts:39-116 | With the wallet lookup and the write apart, a balance is the sum of the committed credits iff no credit that began before the first of them committed was committed later |
| FirstCredits.SecondCreationOverlaps | tec-wallet-service/src/wallet/wallet.service.ts:90-109 | Two credits both create the wallet only if the later one had looked before the earlier one committed |
| FirstCredits.OverlappingFirstCredits | tec-wallet-service/src/wallet/wallet.service.ts:90-109 | A run in which two credits committed and getBalance shows the first alone |
| FirstCredits.RunKeepsInv | tec-wallet-service/src/wallet/wallet.service.ts:39-69 | In every run all the user's primary wallets in the currency together hold what was committed |
| StreamReplay.ReplayIsScript | tec-wallet-service/src/event-bus.ts:92-119 | The start-up pass is a run of the consumer-group machine: start, then look, commit and ack (or less) for each of the first hundred pending entries |
| StreamReplay.ReadIsScript | tec-wallet-service/src/event-bus.ts:62-80 | So is a turn of the loop: read up to ten, then the same for each |
| StreamReplay.WalletConsumer.PublishEvent | tec-wallet-service/src/event-bus.ts:31-36 | Appends one entry |
| StreamReplay.WalletConsumer.EnsureConsumerGroup | tec-wallet-service/src/event-bus.ts:38-45 | Creates the group at the end of the stream; an existing one keeps its position and pending entries |
| StreamReplay.WalletConsumer.HandleMessage | tec-wallet-service/src/event-bus.ts:69-78 | One message is acked iff it has valid data and its handler succeeded; the wallets change as that handler says |
| StreamReplay.WalletConsumer.HandleMessages | tec-wallet-service/src/event-bus.ts:67-80 | A batch acks exactly the messages whose handler succeeded, keeps the rest pending in order, and counts the acks |
| StreamReplay.WalletConsumer.ProcessPendingMessages | tec-wallet-service/src/event-bus.ts:92-119 | The start-up pass handles the first 100 pending entries, and is the script of the machine that carries the exactly-once results |
| StreamReplay.WalletConsumer.ReadAndHandle | tec-wallet-service/src/event-bus.ts:62-80 | One turn reads at most ten new entries, which are pending until acked, and is a script of the same machine |
| StreamReplay.ReplaySplits | tec-wallet-service/src/event-bus.ts:99-116 | A failure-free pass removes exactly the deliverable entries among the first hundred and keeps the order |
| StreamReplay.ReplayProgress | tec-wallet-service/src/event-bus.ts:99-116 | Each pass works off 100 entries less the undeliverable ones, or all that are left |
| StreamReplay.DrainBound | tec-wallet-service/src/event-bus.ts:99-116 | After k restarts at least k * (100 - b) of the deliverable entries are gone, b being the undeliverable ones: n valid entries drain in ceil(n / 100) restarts |
| StreamReplay.DrainsIffNotBlocked | tec-wallet-service/src/event-bus.ts:99-116 | Restarting drains every deliverable entry iff none has a hundred undeliverable entries in front of it |
| Payments.TableShape | tec-payment-service/src/controllers/payment.controller.ts:30-36 | The table allows exactly: leave a live status, for another one that is not Created, and complete only from Approved |
| PaymentLifecycle.TableObeyedIffBlindWritesFresh | tec-payment-service/src/controllers/payment.controller.ts:30-36 | In an arbitrary interleaving of handlers split around their Pi calls, all status updates obey the table iff each update made without a second read still finds an allowing status |
| PaymentLifecycle.RecheckedWritesObeyTable | tec-payment-service/src/controllers/payment.controller.ts:359-387 | complete, cancel and the webhook's success path obey the table whatever runs between their reads and writes |
| Republication.StaleWriteBreaksTable | tec-payment-service/src/controllers/payment.controller.ts:654-746 | For each of approve, fail, webhook failure, reconciliation and resolve, a run in which its stale write overwrites a completed payment against the table |
| PaymentLifecycle.PublishedAtMostPerCompletion | tec-payment-service/src/controllers/payment.controller.ts:403-424 | In every run, events published for a payment and publishes in progress are covered by completePayment's own commits for it |
| PaymentLifecycle.StepUnpublished | tec-payment-service/src/controllers/payment.controller.ts:403-424 | Commits without an event grow by one exactly where a publish is given up or the payment is not in Pi |
| PaymentLifecycle.AdjacentBlindWritesAreFresh | tec-payment-service/src/controllers/payment.controller.ts:141-271 | The condition holds when every blind write directly follows its own read, and that of resolve found a status the table lets it replace, however complete, cancel and the webhook interleave |
| PaymentLifecycle.EveryWriteWasRead | tec-payment-service/src/controllers/payment.controller.ts:141-271 | In every run, torn apart or not, each status update is one whose handler had read a status that allows it: Created for approve, a live one for fail and reconciliation, Approved and a Pi payment id for the webhook, another than the new one and a Pi payment id for resolve |
| PaymentLifecycle.OneTerminalOutcome | tec-payment-service/src/controllers/payment.controller.ts:298-424 | If no blind write, resolve's included, is stale, a payment leaves its live statuses at most once and at most one payment.completed is published, by the completePayment that committed |
| PaymentLifecycle.TerminalIsFinal | tec-payment-service/src/controllers/payment.controller.ts:572-592 | Where all updates obey the table (so resolve overrides no terminal status) terminal statuses are absorbing |
| PaymentLifecycle.RunKeepsExits | tec-payment-service/src/controllers/webhook.controller.ts:164-194 | The number of exits of a payment is 1 or 0 as its status is terminal or not |
| PaymentLifecycle.StepWrites | tec-payment-service/src/controllers/payment.controller.ts:141-271 | Every event updates at most one status, and an update breaks the table exactly if it is a stale blind one |
| Republication.StaleApprovePublishesTwice | tec-payment-service/src/controllers/payment.controller.ts:183-224 | A run in which an approval that read Created before another one wrote brings back the completed payment, which is published twice |
| Republication.CompletesAgainIff | tec-payment-service/src/controllers/payment.controller.ts:141-271 | Exactly when completePayment can complete a payment once more, in any reachable state: if it is not done yet, or an approval of it is in flight whose Pi payment id no other payment holds, or can be made to give up by other approvals in flight; no other stale write matters |
| Republication.PublishesAgainIff | tec-payment-service/src/controllers/payment.controller.ts:403-424 | A Pi payment can be published once more iff a publish of it is pending or completePayment can complete it once more |
| Republication.DoneForGood | tec-payment-service/src/controllers/payment.controller.ts:359-387 | Never again, once a payment is done and no approval of it is in flight |
| Republication.PublishedAtMostInFlight | tec-payment-service/src/controllers/payment.controller.ts:141-424 | Whatever goes stale, a payment is completed by completePayment, and published, at most as often as approvals of it were in flight at one time: once, if no two ever were |
| Republication.SuccessesNeedApprovals | tec-payment-service/src/controllers/payment.controller.ts:221-224 | In every run, completions by completePayment and by the webhook together are at most the approvals written, and a Completed payment was completed by one of them or by resolve |
| Republication.FreshApprovesOnce | tec-payment-service/src/controllers/payment.controller.ts:183-224 | Where no blind write is stale, a payment is approved at most once |
| Republication.FreshCompletesOnce | tec-payment-service/src/controllers/payment.controller.ts:898-927 | and completed at most once, by completePayment, the webhook or resolve |
| Republication.TiedUpForEver | tec-payment-service/src/controllers/payment.controller.ts:221-224 | Approvals that wait for each other's Pi payment ids are never written |
| Republication.ChainCompletes | tec-payment-service/src/controllers/payment.controller.ts:221-224 | An approval at the head of a chain of such waits can be written once the chain is worked off from its end, and the payment completed again |
| Republication.BlockedApprovalRevives | tec-payment-service/src/controllers/payment.controller.ts:221-224 | A reachable state in which only a chain, and no unblocked approval, lets a payment be completed again |
| PaymentController.Controller.CreatePayment | tec-payment-service/src/controllers/payment.controller.ts:42-138 | Adds a Created payment with the given fields iff the amount is within the limit |
| PaymentController.Controller.ApprovePayment | tec-payment-service/src/controllers/payment.controller.ts:141-271 | Its response in every case - outside the sandbox Pi's refusal stops it - and on success that payment alone becomes Approved with its Pi payment id; run alone it is the script read, write |
| PaymentController.Controller.CompletePayment | tec-payment-service/src/controllers/payment.controller.ts:274-478 | Its response in every case - outside the sandbox Pi's refusal stops it - and on success that payment alone becomes Completed and, if it is in Pi, is published with its own fields; run alone it is the script read, transaction, publish |
| PaymentController.Controller.CompleteTransaction | tec-payment-service/src/controllers/payment.controller.ts:359-387 | Makes that payment Completed iff it is still Approved |
| PaymentController.Controller.CancelPayment | tec-payment-service/src/controllers/payment.controller.ts:549-651 | Makes that payment Cancelled iff it is Created or Approved; is the cancel event |
| PaymentController.Controller.FailPayment | tec-payment-service/src/controllers/payment.controller.ts:654-746 | Makes that payment Failed iff it is Created or Approved; run alone it is the script read, write |
| PaymentController.Controller.HandleIncompletePayment | tec-payment-service/src/controllers/webhook.controller.ts:72-239 | If the payment with that non-empty Pi payment id is Approved it becomes Completed iff Pi's complete call succeeds, else Failed; in every other case, and for every other payment, nothing changes; nothing is published; run alone it is its script |
| PaymentController.Controller.WebhookTransaction | tec-payment-service/src/controllers/webhook.controller.ts:164-194 | Completes iff the payment is still Approved |
| PaymentController.Controller.ResolveIncompletePayment | tec-payment-service/src/controllers/payment.controller.ts:854-946 | The payment with that Pi payment id becomes Completed if Pi completed it or can, Cancelled if Pi has it unverified or cancelled, whatever it was; no other changes, nothing is published; run alone it is the script read, write |
| PaymentController.ResolveTarget | tec-payment-service/src/controllers/payment.controller.ts:883-943 | Completed iff Pi has completed it or can be made to, cancelled iff Pi has not and it is unverified or cancelled before its approval |
| PaymentController.FindByPiId | tec-payment-service/src/controllers/webhook.controller.ts:96-98 | The first payment with this Pi payment id, none only if no payment has it |
| Reconciliation.ReconciliationService.ReconcileStalePayments | tec-payment-service/src/services/reconciliation.service.ts:17-107 | Fails exactly the stale payments whose update goes through, and reports them in order, once each, with their former status |
| Reconciliation.SecondRunChangesNothing | tec-payment-service/src/services/reconciliation.service.ts:33-55 | A run changes exactly the stale payments, and a second run at the same instant finds none |
| Reconciliation.RunKeepsInv | tec-payment-service/src/services/reconciliation.service.ts:17-107 | With runs at most a period apart, a payment never stays Created or Approved past its threshold and a period unless its own update is refused while it is stale or a write that did not read again gives it a live status, whatever happens to others |
| Reconciliation.OldPaymentsAreTerminal | tec-payment-service/src/services/reconciliation.service.ts:17-107 | With the same exceptions, every payment older than T_created + T_approved + 2 periods is terminal |
| Reconciliation.BoundIsReached | tec-payment-service/src/services/reconciliation.service.ts:39-45 | The bound is sharp for all thresholds and periods: a run after which a payment created at 0 is still Approved a period before the bound |
| PiApi.PiClient.CallPiApi | tec-payment-service/src/services/payment.service.ts:51-128 | The retry loop refines its pure specification: result, breaker state, clock, number of fetches and time slept |
| PiApi.DecisiveAt | tec-payment-service/src/services/payment.service.ts:81-99 | The first success or non-retryable status decides, after that many attempts |
| PiApi.NeverDecisive | tec-payment-service/src/services/payment.service.ts:114-127 | With none within MAX_RETRIES the last attempt's error is reported |
| PiApi.BackoffDoubles | tec-payment-service/src/services/payment.service.ts:91-108 | Successive sleeps add up to 500 * (2^n - 1) ms |
| PiApi.ExhaustedCallSleeps | tec-payment-service/src/services/payment.service.ts:91-108 | A call is exhausted iff all its attempts fail by abort, network, 429 or 5xx, and then sleeps 500 * (2^(MAX_RETRIES - 1) - 1) ms |
| PiApi.CallEnds | tec-payment-service/src/services/payment.service.ts:64-108 | A call ends after the durations of its attempts and the sleeps between them |
| PiApi.FailuresAreStreak | tec-payment-service/src/services/payment.service.ts:81-118 | For calls one after the other: the failure count is the number of exhausted calls since the last response; from five on the circuit is open for a minute from the end of the last |
| PiApi.CircuitOpenIff | tec-payment-service/src/services/payment.service.ts:59-62 | For calls one after the other: a call meets an open circuit iff five or more were exhausted with no response between them and it starts within a minute of the end of the last |
| PiApi.OutagePaced | tec-payment-service/src/services/payment.service.ts:114-118 | Each exhausted call from the fifth on keeps the circuit open for another minute |
| PiApi.OutageFetchesBounded | tec-payment-service/src/services/payment.service.ts:60-118 | An outage of D ms costs at most MAX_RETRIES * (5 + floor(D / 60000)) fetches, however many calls are made |
| RateLimit.InMemoryStore.Increment | tec-payment-service/src/middlewares/rate-limit.middleware.ts:39-51 | Counts in the key's window, or opens one if it is over |
| RateLimit.RedisStore.Increment | tec-payment-service/src/middlewares/rate-limit.middleware.ts:83-93 | The same with Redis keys, and resetAt computed back from the remaining time |
| RateLimit.Decide | tec-payment-service/src/middlewares/rate-limit.middleware.ts:164-180 | Admits iff the count is within the limit; otherwise Retry-After is the remaining time rounded up to seconds |
| RateLimit.RetryAfterSuffices | tec-payment-service/src/middlewares/rate-limit.middleware.ts:42-43 | A client that waits Retry-After finds the in-memory window over iff the wait was rounded up |
| RateLimit.RunIsBounded | tec-payment-service/src/middlewares/rate-limit.middleware.ts:141-186 | The invariant that ties what an interval admitted to where the current window began |
| RateLimit.WindowBound | tec-payment-service/src/middlewares/rate-limit.middleware.ts:188-217 | Limiters sharing a counter admit together at most the largest limit in a window, and each at most its own |
| RateLimit.SlidingBound | tec-payment-service/src/middlewares/rate-limit.middleware.ts:141-217 | Any closed interval of one window length admits at most 2 * max per key, one less with the in-memory store, for any set of limiters sharing the counter |
| RateLimit.SlidingBoundIsSharp | tec-payment-service/src/middlewares/rate-limit.middleware.ts:141-186 | Both bounds are reached, for every limit and window length |
| ResponseCache.LRUCache.Get | tec-api-gateway/src/middleware/cache.middleware.ts:19-26 | Returns the entry and moves its key to the back |
| ResponseCache.LRUCache.Set | tec-api-gateway/src/middleware/cache.middleware.ts:28-39 | Re-inserts the key last, after evicting the oldest if full |
| ResponseCache.LRUCache.CleanupKey | tec-api-gateway/src/middleware/cache.middleware.ts:65-68 | The loop body drops the front entry if expired and moves it to the back if not |
| ResponseCache.LRUCache.CleanupTurn | tec-api-gateway/src/middleware/cache.middleware.ts:62-70 | One turn over the live iterator is one rotate-or-drop of the queue, and the loop ends iff the queue is empty |
| ResponseCache.LRUCache.Cleanup | tec-api-gateway/src/middleware/cache.middleware.ts:62-70 | n turns of the loop are n turns of the queue |
| ResponseCache.TurnsConsume | tec-api-gateway/src/middleware/cache.middleware.ts:62-70 | A full round leaves what stood behind, then the unexpired entries visited in their old order |
| ResponseCache.CleanupAfter | tec-api-gateway/src/middleware/cache.middleware.ts:62-70 | Within as many turns as there are entries every expired entry is gone, no unexpired one was removed, and the survivors keep their order |
| ResponseCache.CleanupEndsIffAllExpired | tec-api-gateway/src/middleware/cache.middleware.ts:64-69 | The cleanup loop comes to an end iff no entry is unexpired |
| ResponseCache.CacheIsRecency | tec-api-gateway/src/middleware/cache.middleware.ts:11-39 | The cache holds exactly the last max keys in order of last touch |
| ResponseCache.LruExact | tec-api-gateway/src/middleware/cache.middleware.ts:11-39 | A key is held iff it was touched and fewer than max distinct other keys were touched since; the size never exceeds max |
| ResponseCache.EmptyKeyIsNeverEvicted | tec-api-gateway/src/middleware/cache.middleware.ts:33-36 | Why the keys must not be empty: a full cache outgrows its maximum iff its oldest key is the empty string |
| ResponseCache.CacheMiddleware.Serve | tec-api-gateway/src/middleware/cache.middleware.ts:96-110 | For a GET on a cacheable path, the data of the held entry for its key iff it has not expired; else no HIT |
| ResponseCache.CacheMiddleware.Respond | tec-api-gateway/src/middleware/cache.middleware.ts:113-123 | A 200 response becomes the newest entry, to expire its ttl from then; any other response changes nothing |
| ResponseCache.RunHoldsLastStored | tec-api-gateway/src/middleware/cache.middleware.ts:91-134 | Every held entry is the last 200 response stored for its key, through lookups, cleanup turns and invalidations |
| ResponseCache.HitIsFresh | tec-api-gateway/src/middleware/cache.middleware.ts:101-121 | Every HIT equals the last 200 response for the same key, stored less than its ttl ago |
| ResponseCache.HitUntilExpiry | tec-api-gateway/src/middleware/cache.middleware.ts:96-123 | As long as no more than max keys have been stored, a 200 response is a HIT for its key exactly until its ttl is over, unless replaced or invalidated, whatever lookups, responses and cleanup turns happen |
| Marketplace.RunKeepsInv | tec-asset-service/src/modules/marketplace/marketplace.service.ts:68-169 | Over all runs: an asset is on sale iff exactly one active listing names it, whose seller is its owner; the owner is the last in its history, consecutive owners differ, sales and history match in number; sold listings have distinct payments |
| Marketplace.PurchaseTransfers | tec-asset-service/src/modules/marketplace/marketplace.service.ts:122-169 | A purchase succeeds iff the listing is active, its payment new and the buyer not the owner; it hands over the asset, leaves no active listing of it, and cannot be repeated |
| Marketplace.OnlyActiveListing | tec-asset-service/src/modules/marketplace/marketplace.service.ts:68-97 | Two active listings never name the same asset |
| Marketplace.ListingTermsStay | tec-asset-service/src/modules/marketplace/marketplace.service.ts:68-169 | Over any further requests a listing keeps its asset, seller and price, and once sold or cancelled stays as it is |
| Marketplace.StepKeepsListing | tec-asset-service/src/modules/marketplace/marketplace.service.ts:100-169 | A listing leaves Active only by a cancellation by its own seller or a purchase by another user |
| Marketplace.Services.ProvisionAsset | tec-asset-service/src/modules/asset/asset.service.ts:9-47 | Its error in every case, unique transaction first; else the new asset of the user with its first history row |
| Marketplace.Services.CreateListing | tec-asset-service/src/modules/marketplace/marketplace.service.ts:68-97 | Its error in every case in the source's order; else the owner's asset is on sale with a new active listing at the price |
| Marketplace.Services.CancelListing | tec-asset-service/src/modules/marketplace/marketplace.service.ts:100-119 | Its error in every case, Forbidden for all but the seller; else that listing is cancelled and its asset active again |
| Marketplace.Services.BuyListing | tec-asset-service/src/modules/marketplace/marketplace.service.ts:122-169 | Its error in every case; else the listing is sold to the buyer for the payment, and the asset is the buyer's |
| Orders.CountCheck | tec-commerce-service/src/modules/order/order.service.ts:38-45 | Comparing the numbers of products found and requested rejects exactly the missing, inactive and repeated ids |
| Orders.CreateDoes | tec-commerce-service/src/modules/order/order.service.ts:54-101 | An accepted order is the buyer's, Pending, with each item at its product's price and quantity and a total of the sum of price times quantity, and takes exactly those quantities from stock |
| Orders.CostsAddUp | tec-commerce-service/src/modules/order/order.service.ts:54-57 | That sum grows with each item by its price times its quantity |
| Orders.StockIsConserved | tec-commerce-service/src/modules/order/order.service.ts:33-226 | For every product, stock plus the quantities of orders not cancelled is the same after any run |
| Orders.SafeIffQuantitiesNonNegative | tec-commerce-service/src/modules/order/order.service.ts:33-100 | Stock can never go negative iff no negative quantity is ordered |
| Orders.RunKeepsStock | tec-commerce-service/src/modules/order/order.service.ts:33-226 | With non-negative quantities stock stays non-negative in every run |
| Orders.RunKeepsOrders | tec-commerce-service/src/modules/order/order.service.ts:102-226 | Each payment belongs to at most one order, exactly the paid orders have one, the last timeline status is the order's, and totals are those of the items |
| Orders.OrdersService.CreateOrder | tec-commerce-service/src/modules/order/order.service.ts:33-100 | Its error in every case; else the order and the stock as CreateDoes says, its currency that of one of its products (the one the query returns first) |
| Orders.OrdersService.CheckStock | tec-commerce-service/src/modules/order/order.service.ts:47-52 | Holds iff every item is in stock |
| Orders.OrdersService.ComputeTotal | tec-commerce-service/src/modules/order/order.service.ts:54-57 | The reduce is the sum over the requested items of their products' price times quantity |
| Orders.OrdersService.UpdateStocks | tec-commerce-service/src/modules/order/order.service.ts:217-222 | Moves each product's stock by the sum of its items' quantities and changes nothing else |
| Orders.OrdersService.Checkout | tec-commerce-service/src/modules/order/order.service.ts:102-142 | Its error in every case; else that order alone is Paid by the payment, with a timeline entry |
| Orders.OrdersService.CancelOrder | tec-commerce-service/src/modules/order/order.service.ts:184-226 | Its error in every case, not found for all but the buyer; else that order alone is Cancelled and its quantities are back in stock |
| Outbox.OutboxWorker.ProcessOutboxEvents | tec-payment-service/src/services/outbox.worker.ts:10-94 | One poll attempts the ten oldest eligible rows up to the first that finds no publisher; a poll beside another does nothing |
| Outbox.EligibleIds | tec-payment-service/src/services/outbox.worker.ts:16-24 | Exactly the pending rows that are due and have fewer than five attempts, oldest first |
| Outbox.OutboxWorker.ProcessEvents | tec-payment-service/src/services/outbox.worker.ts:38-86 | Of the rows tried, exactly those whose publish and mark went well are published, what was added is on the stream, and no other row changes; the loop is the run of its events |
| Outbox.OutboxWorker.PublishAndMark | tec-payment-service/src/services/outbox.worker.ts:38-86 | The entry with the row's stream, payload and id is added unless xadd fails; the row is Published iff all went well, else counted and delayed if that could be recorded |
| Outbox.OutboxWorker.SaveOutboxEvent | tec-payment-service/src/services/outbox.service.ts:10-26 | Adds a pending row with no attempts |
| Outbox.OutboxWorker.MarkEventPublished | tec-payment-service/src/services/outbox.service.ts:45-52 | Marks that row and no other |
| Outbox.OutboxWorker.MarkEventFailed | tec-payment-service/src/services/outbox.service.ts:55-78 | Counts the attempt, delays the next by 1000 * 2^attempts ms, a minute at most, and fails the row iff the count had reached its maximum |
| Outbox.PublishedIsOnStream | tec-payment-service/src/services/outbox.worker.ts:38-70 | A row marked published has an entry with its id and payload on its stream, whatever fails or crashes |
| Outbox.ProcessingTerminates | tec-payment-service/src/services/outbox.worker.ts:16-86 | Every recorded attempt lowers the sum of 5 - attempts over the rows still to try |
| Outbox.RunKeepsRows | tec-payment-service/src/services/outbox.service.ts:55-78 | In every run, whatever writes fail, a row's counter is its number of recorded attempts, and its next retry lies 1000 * (2^n - 1) ms after the first recorded one |
| Outbox.RetriesBackOff | tec-payment-service/src/services/outbox.service.ts:55-78 | In every run at most 5 attempts of a row are recorded, and an attempt after k recorded ones comes at least 1000 * (2^k - 1) ms after the first of them |
| Outbox.TriesBounded | tec-payment-service/src/services/outbox.worker.ts:71-85 | In every run, whatever writes fail, a row that is not published has been tried as often as its counter says plus as often as a try went unrecorded, and at most five tries are recorded |
| Outbox.ExhaustedIsFailedIff | tec-payment-service/src/services/outbox.service.ts:55-78 | A row out of attempts is marked failed iff its maximum is below 5; with the default of 5 it stays pending for ever |
| Idempotency.Middleware.StoreGet | tec-payment-service/src/middlewares/idempotency.middleware.ts:23-31 | Finds the entry iff it is not past its expiry; the in-memory store drops one it finds expired; no other key is touched |
| Idempotency.Middleware.StoreSet | tec-payment-service/src/middlewares/idempotency.middleware.ts:63-72 | The in-memory store overwrites; the Redis store writes only where no live entry stands |
| Idempotency.Middleware.Begin | tec-payment-service/src/middlewares/idempotency.middleware.ts:117-165 | Missing and invalid keys are refused; a request is replayed iff a live entry is stored |
| Idempotency.Middleware.Finish | tec-payment-service/src/middlewares/idempotency.middleware.ts:167-192 | The handler's reply is stored until its TTL is over |
| Idempotency.CacheKeyInjective | tec-payment-service/src/middlewares/idempotency.middleware.ts:148-149 | Cache keys tell users apart when user ids hold no colon |
| Idempotency.StoredStays | tec-payment-service/src/middlewares/idempotency.middleware.ts:46-73 | What the store holds for a key as long as a stored reply has not expired, whatever overlapping requests do |
| Idempotency.ReplayedWhileStored | tec-payment-service/src/middlewares/idempotency.middleware.ts:117-195 | A request that begins after a reply was stored and before it expires never reaches the handler; with the NX store it gets that first reply |
| Idempotency.MemoryReplaysTheLast | tec-payment-service/src/middlewares/idempotency.middleware.ts:23-35 | In every run the in-memory store replays the reply that finished last, so an earlier one exactly if the two are equal |
| Idempotency.ReplayedWasStored | tec-payment-service/src/middlewares/idempotency.middleware.ts:20-73 | However requests overlap, what is replayed is the reply of a request for that key that finished no longer than a TTL ago |
| Idempotency.OverlappingDuplicates | tec-payment-service/src/middlewares/idempotency.middleware.ts:20-73 | Two overlapping duplicates, of which the in-memory store replays the second and the NX store the first |
| Idempotency.HandlerOncePerWindow | tec-payment-service/src/middlewares/idempotency.middleware.ts:117-195 | Of requests one after the other, the handler runs at most once per key and TTL window |
| Idempotency.HandledIff | tec-payment-service/src/middlewares/idempotency.middleware.ts:117-195 | Of requests one after the other, one reaches the handler iff the replies of all handled ones for its key are past their TTL |
| Idempotency.HandledIsStored | tec-payment-service/src/middlewares/idempotency.middleware.ts:167-192 | A handled request's reply is the key's entry until it expires |
| Idempotency.StoresAgree | tec-payment-service/src/middlewares/idempotency.middleware.ts:20-73 | Away from the expiry instant, sequential requests leave both stores the same |
| Idempotency.HandlersAgree | tec-payment-service/src/middlewares/idempotency.middleware.ts:20-73 | and send exactly the same requests to the handler |
| TokenBlacklist.AuthService.RefreshToken | tec-auth-service/src/modules/auth/auth.service.ts:163-204 | Its outcome in every case - not verified, not a refresh token, listed, no user, accepted - and the listing for the remaining life in the last two |
| TokenBlacklist.AuthService.LogOut | tec-auth-service/src/modules/auth/auth.service.ts:207-238 | Lists the token for its remaining life, or for a day if it does not verify |
| TokenBlacklist.AuthService.UseToken | tec-auth-service/src/middleware/auth.middleware.ts:20-41 | Accepts iff the token is not listed and verifies |
| TokenBlacklist.OutlivesToken | tec-auth-service/src/modules/auth/auth.service.ts:185-188 | A key written for the rest of a token's life is gone no earlier than the token, and less than the write's delay plus a second later |
| TokenBlacklist.SpentStaysSpent | tec-auth-service/src/modules/auth/auth.service.ts:163-238 | However many calls overlap, a token whose key a refresh or logout has written stays listed until it expires, unless a logout cuts the listing short |
| TokenBlacklist.RefreshIsSingleUse | tec-auth-service/src/modules/auth/auth.service.ts:163-204 | However many calls overlap: after a refresh that got past the blacklist has written its key, one with the same token that reads later gets past only in the expiry gap or after a logout cut the listing short |
| TokenBlacklist.SecondRefreshPassesIff | tec-auth-service/src/modules/auth/auth.service.ts:163-204 | Exactly when a second refresh gets past the blacklist; in particular always for a token without an expiry |
| TokenBlacklist.ExpiryGap | tec-auth-service/src/modules/auth/auth.service.ts:163-204 | A run in which a second refresh that verifies just before the expiry and reads the blacklist just after it succeeds |
| TokenBlacklist.LogoutIsPermanent | tec-auth-service/src/middleware/auth.middleware.ts:20-41 | However many calls overlap: a token with an expiry that verified at logout is rejected by every use that reads after the logout wrote its key, with no gap and whatever later logouts do |
| TokenBlacklist.ListedWasWritten | tec-auth-service/src/modules/auth/auth.service.ts:185-238 | However many calls overlap, a token is listed only if a logout, or a refresh that got past the blacklist, wrote it |
| TokenBlacklist.PassedHadRead | tec-auth-service/src/modules/auth/auth.service.ts:163-183 | However many calls overlap, a refresh gets past the blacklist only with an unexpired refresh token, signed as one, that it found unlisted at its read |
| TokenBlacklist.LogoutPermanentIffExpires | tec-auth-service/src/modules/auth/auth.service.ts:213-230 | Logging out a token that verifies locks it out for ever iff it carries an expiry |
| TokenBlacklist.OverlappingRefreshPassesIff | tec-auth-service/src/modules/auth/auth.service.ts:180-188 | Of two overlapping refreshes with one token, the one that reads second passes iff the token verifies and the first one's key is not yet written, never written, or gone |
| TokenBlacklist.OverlappingRefreshesBothPass | tec-auth-service/src/modules/auth/auth.service.ts:180-188 | Two refreshes of any token that verifies, both reading before either has written, both succeed |
| TokenBlacklist.RefreshTokenLogoutPermanentIff | tec-auth-service/src/modules/auth/auth.service.ts:207-238 | Logging out a refresh token signed with its own secret is permanent iff it has at most a day to live (a millisecond more with a store that keeps a key for its last instant) |
| TokenBlacklist.LogoutRevivesSpentToken | tec-auth-service/src/modules/auth/auth.service.ts:207-224 | Such a logout even shortens the listing of a refresh token already used, which then works again |

## Left out

- LedgerInterleaving.DebitSafeIffFloorCovers: takes the transactions in flight as given; a debit that starts later is a case of its own. The ways to go on include some that row locks forbid, so with locks the floor is sufficient; the overdraft itself is shown in a run that keeps to them.
- PaymentStream.CreditedExactlyOnce: a handler's transaction looks up and writes in one step; FirstCredits takes lookup and write apart, without the stream and the deduplication.
- PaymentLifecycle.OneTerminalOutcome: supposes that no write without a second read is stale, and counts as one a resolve that overrides a terminal status on purpose; TableObeyedIffBlindWritesFresh and Republication say what holds otherwise.
- PiApi.OutageFetchesBounded: is about calls that do not overlap; the breaker does not bound calls already in their loop.
- PiApi.CircuitOpenIff: is about calls one after the other, as FailuresAreStreak is: overlapping calls share the counter.
- ResponseCache.HitUntilExpiry: supposes that no more than max keys have been stored; what eviction does beyond that is LruExact.
- Outbox.RetriesBackOff: counts recorded attempts, since a failure that cannot be recorded delays nothing; TriesBounded counts the others.
- TokenBlacklist.RefreshIsSingleUse: takes effect with the first key written; how two refreshes fare that read before is OverlappingRefreshPassesIff, which is about two calls on a given blacklist.
- WalletService.WalletStore.LinkWallet: in the runs of WalletLedger its lookups and its create are one step; what the create does after others came between is StaleLinkKeepsOnePrimaryIff. The wallets that addFundsInternal creates are exposed in the same way.
- Orders.StockIsConserved: takes each operation as one atomic step, as the marketplace model does, and prices and totals as scaled integers.
- ResponseCache.LruExact: is about non-empty keys, as the middleware's keys all are; the empty key is treated beside it.
- HTTP and framework wiring, validators, logging, metrics, audit events of the payment service, JSON encoding of payloads and cache entries.
- Prisma, Redis, fetch and JWT internals; whether a Redis key is still there at its expiry instant is a parameter of the rate limiter, the idempotency store and the blacklist.
- Re-creating the consumer group after NOGROUP, which skips entries: the group is taken to persist.
- Branches that go on when a store fails (rate limiter, logout, audit log), and running without Redis in the authentication service.
- Whether a completed payment gets an outbox row: saveOutboxEvent has no caller in the repository, so only the direct publish, lost or repeated, feeds the settlement machine.
- The publish retries of a payment.completed by the outbox appear in the settlement machine as repeated appends of the same event.
- WalletService.WalletStore.AddFundsInternal: in the runs of WalletLedger its lookup, read and transaction are one step; what its transaction does after others came between is StaleAddFundsBreaksAuditIff.
- A ledger row's currency is the requested asset, already resolved and upper-cased; conservation per currency is not claimed, because it need not be the wallet's own.
- Timestamps and metadata of payments, orders, listings and history rows, response headers replayed with a stored response.
- The table of cacheable paths and the serialisation of cache keys: a request arrives with its key and its ttl.
- The event buses of the other services, which repeat the wallet's loop, and the wallet service's copy of the rate limiter.
- Analytics, notification, realtime, storage, identity, KYC, subscription and product management, pagination.
