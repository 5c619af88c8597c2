# Payment service: a Dafny model and its proofs

The payment service keeps a ledger of transactions and refunds that several
independent writers change while talking to an external gateway: the payment and
refund services, the two sagas built on them, the reservation event subscriber, and
the workers that poll and reconcile. No single function decides the facts that
matter about the ledger. They are proved here as invariants over every run in which
all writers mix.

## How it is modelled

* `Ledger` holds the tables, what can be observed of the dealings with the gateway,
  and how one committed unit of work changes both. Money is integer cents. A row is
  identified by its position in its table, which is also its creation order; this
  stands for the UUID key and the `created_at` column.
* `Gateway` is what a gateway may answer: any status text, any amount, a missing or
  malformed amount, an error of the gateway's own family, or any other exception.
  Answers are parameters of the operations.
* `Payments`, `Refunds`, `Workers`, `Sagas`, `Deliveries` and `Batch` say what each
  operation commits. `Runs` puts them together into runs.
* `Session.dfy`, `PaymentService.dfy`, `RefundService.dfy`, `PaymentSaga.dfy`,
  `RefundSaga.dfy`, `WorkerTasks.dfy` and `ReservationEvents.dfy` follow the source
  statement by statement, on a session that keeps flushed and committed tables
  apart, and are proved to commit what those functions say.
* `Conservation`, `Calls`, `Contract`, `Exposure`, `Activities`, `Termination`,
  `PollVsReconcile`, `CancelLoop` and `IdempotencyProtocol` prove the properties.
  `Activities` carries them from single calls to sagas, batches and event deliveries.
* `PaymentOutcomes`, `RefundOutcomes`, `WorkerOutcomes` and `EventOutcomes` tie what
  the operations come to back to the texts, statuses, amounts and numbers of rows they
  are about, without the functions above.

A gateway call is *lost* when the session that made it rolls back instead of
committing: an exception outside the PaymentGatewayError family, an amount that is
no number, or a gateway identifier that violates its unique index. Lost calls are
what keeps "called at most once" from holding outright, so it is proved with them
counted: calls are lost calls plus at most one, and a further call is possible
exactly while no committed row (for a capture: no guard) forbids it.

## What is assumed

* Operations on one transaction run one after the other; the repository takes no row
  lock. Only `IdempotencyProtocol` works at a finer grain, where an insert waits for
  a session that holds its key and fails once the key is committed.
* An exception that leaves an operation discards what its session has flushed.
* Request amounts are positive, as the schemas demand.
* `Contract` alone assumes anything about the gateway: it reports amounts as they
  are, captured amounts never decrease nor exceed the payment's amount, a lookup
  reports success exactly for captured payments and cancellation only for voided
  ones, a lookup without identifier reports nothing final, and an answered capture
  or cancel has captured or voided. An error or exception may hide either outcome, and
  only answers to calls that are made count (`UnaskedIsHonest`).
  The amount asked of a capture is not checked by the source; that it does not
  exceed the payment's amount is part of the contract.

## Where the code and its descriptions differ

The model follows the code.

* `RefundSaga.retry` is described as reprocessing a request. It never does: a stored
  refund is returned whatever its status (`StoredRefundAnswersForever`).
* `process_refund` is described as synchronizing a refund with the gateway. It only
  sets PROCESSING, so a refund the gateway confirms later is never booked
  (`RefundWriterKeepsToTable`).
* Nothing reserves the amount of a refund that the gateway is still processing, so
  what is asked of it in refunds has no bound, even if it keeps the contract
  (`AskedHasNoBound`, `AskedExceedsCaptured`). The captured amount bounds it over a run
  exactly when every refund accepted and every refund taken back from FAILED or
  CANCELLED fits into captured - asked (`HonestRunStaysWithinIff`).
* `process_payment` is described as leaving the rules to the payment service. It
  writes statuses itself, and overwrites PARTIALLY_REFUNDED and FAILED rows
  (`PollForgetsRefundsIff`, `PollingNeverSettles`).
* Compensation is described as cancelling the authorization at the gateway. A failed
  capture has already been committed as FAILED, so only rows without a gateway
  identifier are ever compensated, locally (`CaptureSagaOutcome`).
* The payments route maps a duplicate key to 409 by an exception that the saga has
  already wrapped.

## Model

| member | source | states |
|---|---|---|
| `IdempotencyProtocol.CallsAreAccounted` | apps/services/payment-service/src/services/payment_service.py:56-128 | for every interleaving of any number of create requests, split at key check, insert, gateway call and end of session: the calls for a key are its lost calls, plus one if a row with the key is committed, plus one if a call is in flight; no two sessions hold a key at once |
| `IdempotencyProtocol.CalledAtMostOnce` | apps/services/payment-service/src/models/transactions.py:103-108 | in every interleaving in which each gateway call ends in a commit, a key is called at most once, and exactly once if its row is stored |
| `IdempotencyProtocol.SafeIffStored` | apps/services/payment-service/src/models/refund.py:79-84 | from any accounted state, no continuation calls the gateway for a key again if and only if a committed row holds the key; otherwise a continuation that does exists |
| `IdempotencyProtocol.RequestsMoveForward` | apps/services/payment-service/src/services/payment_service.py:56-97 | an action moves only its own request, and forward: past the check only while its key is not committed, to a held key only while it is neither held nor committed, to the call only from a held key |
| `IdempotencyProtocol.CheckedCommittedKeyIsOver` | apps/services/payment-service/src/services/payment_service.py:62-65 | a request that finds its key committed is over, in every continuation |
| `IdempotencyProtocol.RunIsProtocolRun` | apps/services/payment-service/src/services/refund_service.py:48-142 | every serial run of the service is one of those interleavings, with the same keys, calls and lost calls, for payments and refunds |
| `Runs.WriterKeepsToTable` | apps/services/payment-service/src/workers/tasks/payment_tasks.py:62-137 | every writer writes only the transaction it addresses, moves its status only along the transition table, and keeps its identity; only a refund changes the refunded amount; a new row is never PENDING or CANCELLED |
| `Runs.RefundWriterKeepsToTable` | apps/services/payment-service/src/workers/tasks/refund_tasks.py:59-101 | a refund is SUCCEEDED at creation or never; no refund task enters or leaves SUCCEEDED or writes anything but the status, the failure code included |
| `Conservation.EveryWriteIsBooked` | apps/services/payment-service/src/services/refund_service.py:112-132 | whatever one unit of work adds to the succeeded refunds of a transaction it adds to that row's refunded amount, and to no other row |
| `Conservation.RunsStaySound` | apps/services/payment-service/src/services/refund_service.py:121-129 | over every run, whatever the gateway answers: refunded amounts equal the sums of succeeded refunds per transaction and in total, REFUNDED holds exactly when refunded >= amount, no committed row is PENDING, and idempotency keys and gateway identifiers are unique in both tables |
| `Conservation.ReachableIsSound` | apps/services/payment-service/src/models/refund.py:79-90 | all of that holds of every database that can be reached from an empty one |
| `Conservation.RefundTakesAtMostTheRemainder` | apps/services/payment-service/src/services/refund_service.py:68-78 | a confirmed refund under a fresh key, on a row whose remainder may be exhausted, is booked exactly when it asks for no more than captured - refunded, and otherwise changes nothing; asking for all of it ends in REFUNDED exactly when at least the whole amount had been captured |
| `Exposure.UnfinishedRefundReservesNothing` | apps/services/payment-service/src/services/refund_service.py:70-78 | a refund left PROCESSING reserves nothing: the same amount is asked of the gateway again under any other fresh key |
| `Exposure.AskedHasNoBound` | apps/services/payment-service/src/services/refund_service.py:70-78 | while one more cent can be refunded, a run under the gateway contract brings the PROCESSING and SUCCEEDED refunds of the transaction to any amount |
| `Exposure.AskedExceedsCaptured` | apps/services/payment-service/src/services/refund_service.py:70-78 | a run under the contract from an empty database in which more is asked back of a transaction than was captured |
| `Exposure.AcceptedRefundStaysWithinIff` | apps/services/payment-service/src/services/refund_service.py:70-78 | after a refund that is accepted and not failed, the asked total is within the captured amount if and only if the request was within captured - asked before |
| `Exposure.HonestStepStaysWithinIff` | apps/services/payment-service/src/workers/tasks/refund_tasks.py:148-157 | under the contract a step keeps every asked total within the captured amount if and only if the refund it accepts, or the FAILED or CANCELLED refund it turns back to PROCESSING, has room |
| `Exposure.HonestRunStaysWithinIff` | apps/services/payment-service/src/workers/tasks/refund_tasks.py:119-163 | a run under the contract stays within the captured amounts at every moment if and only if each of its steps has room when it comes |
| `Calls.RunContinues` | apps/services/payment-service/src/workers/tasks/reconciliation_tasks.py:257-309 | over every run: rows persist with their identity, refunded amounts never fall, AUTHORIZED is never re-entered, CANCELLED is absorbing, REFUNDED rows and succeeded refunds never change at all |
| `Calls.SucceededIsLeftByRefundOnly` | apps/services/payment-service/src/services/refund_service.py:121-129 | SUCCEEDED is left only by an answered refund of that transaction, to REFUNDED or PARTIALLY_REFUNDED, with exactly its amount booked |
| `Calls.WriterSpeaks` | apps/services/payment-service/src/services/payment_service.py:169-220 | what each writer says to the gateway, the flush ahead of it, and when it writes: a create exactly when its call is not lost, a cancel exactly when it is answered, a poll exactly when it is not lost, a reconciliation exactly when the answer is usable and agrees with the row |
| `Calls.CallsAlwaysFollowFlushes` | apps/services/payment-service/src/services/payment_service.py:92-97 | over every run each create and each refund call comes right after the flush of the row that holds its key |
| `Calls.CreateCallsAreAccounted` | apps/services/payment-service/src/services/payment_service.py:92-104 | over every run a key's create calls are its lost ones plus one if its row is stored |
| `Calls.CreateNeverRepeatsIffStored` | apps/services/payment-service/src/services/payment_service.py:56-65 | no continuation creates a key at the gateway again if and only if a row holds the key |
| `Calls.RefundCallsAreAccounted` | apps/services/payment-service/src/services/refund_service.py:48-55 | over every run a key's refund calls are its lost ones plus one if its refund is stored |
| `Calls.CaptureCallsAreAccounted` | apps/services/payment-service/src/services/payment_service.py:169-216 | over every run a transaction's capture calls exceed its lost ones by at most one, and not at all while it is AUTHORIZED |
| `Calls.NeverCapturedAgainIffGuarded` | apps/services/payment-service/src/services/payment_service.py:169-181 | no continuation captures a stored transaction if and only if its status, identifier or provider already stops the call |
| `Contract.HonestRunsStayFaithful` | apps/services/payment-service/src/services/payment_service.py:183-209 | over every run of all writers under the gateway contract: paid statuses are captured at the gateway, CANCELLED rows are voided there or have no identifier, and 0 <= refunded <= captured <= captured at the gateway <= amount |
| `Contract.UnaskedIsHonest` | apps/services/payment-service/src/services/payment_service.py:241-250 | the contract constrains answers to calls that are made and no others |
| `Contract.HonestAmountsAreBooked` | apps/services/payment-service/src/workers/tasks/reconciliation_tasks.py:309-318 | under the contract an amount taken from an answer is booked exactly as the gateway has it, and every other write keeps the captured amount |
| `Contract.HonestLookupIsFaithful` | apps/services/payment-service/src/workers/tasks/payment_tasks.py:98-137 | an honest lookup keeps a row true to the gateway, whichever of the two workers asked, and polling never takes a paid row out of the paid statuses |
| `Contract.NeverCapturedAndVoided` | apps/services/payment-service/src/services/payment_service.py:228-269 | under the contract no run of single calls from an empty database gives one transaction both a successful capture and a successful cancel |
| `Contract.BothHappenWithoutContract` | apps/services/payment-service/src/workers/tasks/payment_tasks.py:62-66 | without the contract a run does both: a partly refunded payment polled as pending becomes PROCESSING and is cancelled |
| `Contract.RefundedMeansAllCaptured` | apps/services/payment-service/src/services/refund_service.py:121-129 | under the contract a transaction is REFUNDED exactly when refunded = captured = amount |
| `PaymentOutcomes.CreateOutcome` | apps/services/payment-service/src/services/payment_service.py:52-160 | which of its six endings create_payment comes to, each if and only if, from the key, the method, the kind of answer, its amount and its identifier |
| `PaymentOutcomes.CreateStoresWhatWasAnswered` | apps/services/payment-service/src/services/payment_service.py:79-97 | a row is stored if and only if the answer is kept or the gateway refused; it has the columns of the request and comes after all others |
| `PaymentOutcomes.KeptAnswerIsRead` | apps/services/payment-service/src/services/payment_service.py:317-339 | a stored answer is FAILED for exactly "failed", "declined", "rejected"; otherwise AUTHORIZED if capture is required; otherwise SUCCEEDED for exactly "succeeded", "paid", "captured", "completed", and PROCESSING for any other text; identifier and amount are the answer's |
| `PaymentOutcomes.RefusedCreateIsStored` | apps/services/payment-service/src/services/payment_service.py:130-160 | a refusal stores a FAILED row with the failure code of its kind |
| `PaymentOutcomes.CaptureOutcome` | apps/services/payment-service/src/services/payment_service.py:162-220 | which of its endings capture_payment comes to, each if and only if |
| `PaymentOutcomes.CaptureStoresWhatWasAnswered` | apps/services/payment-service/src/services/payment_service.py:183-220 | a capture books the reported amount, else a requested one that is not zero, else the whole amount; a refusal stores FAILED with capture_failed; anything else changes nothing, and no other row changes |
| `PaymentOutcomes.CancelOutcome` | apps/services/payment-service/src/services/payment_service.py:222-274 | which of its endings cancel_payment comes to, each if and only if; the row is CANCELLED exactly when it returns, and nothing changes when it raises |
| `PaymentOutcomes.ExecuteOutcome` | apps/services/payment-service/src/services/saga/payment_saga.py:33-54 | execute returns if and only if it stored a row that is SUCCEEDED, AUTHORIZED or PROCESSING; it ends in PaymentSagaError if and only if the key is taken, the method is missing, the gateway refused or the stored row is FAILED; otherwise the exception escapes and nothing is stored |
| `PaymentOutcomes.CaptureSagaEnds` | apps/services/payment-service/src/services/saga/payment_saga.py:56-81 | how the capture saga ends for every row and answer, and that it commits the capture except for a row without identifier, which it cancels |
| `PaymentOutcomes.CancelSagaEnds` | apps/services/payment-service/src/services/saga/payment_saga.py:83-94 | how the cancel saga ends for every row and answer |
| `PaymentOutcomes.ExecuteWithCaptureEnds` | apps/services/payment-service/src/services/saga/payment_saga.py:96-131 | how execute_with_capture ends for every request and pair of answers |
| `RefundOutcomes.RefundOutcome` | apps/services/payment-service/src/services/refund_service.py:44-146 | which of its eight endings create_refund comes to, each if and only if |
| `RefundOutcomes.RefundStoresOnlyAnswers` | apps/services/payment-service/src/services/refund_service.py:82-134 | a refund row is stored if and only if the answer is kept or the gateway refused, and it has the columns of the request |
| `RefundOutcomes.RefundAnswerIsRead` | apps/services/payment-service/src/services/refund_service.py:206-229 | from the text alone: SUCCEEDED and booked if and only if "succeeded", "refunded", "completed" or "processed"; FAILED if and only if "failed", "declined" or "rejected"; PROCESSING otherwise; the transactions change for the first four only |
| `RefundOutcomes.RefusedRefundIsStored` | apps/services/payment-service/src/services/refund_service.py:136-146 | a refusal stores a FAILED refund with gateway_error and leaves the transactions alone |
| `RefundOutcomes.RefundSagaEnds` | apps/services/payment-service/src/services/saga/refund_saga.py:35-81 | how the refund saga ends under a taken and under a fresh key, each ending if and only if |
| `RefundOutcomes.TasksMove` | apps/services/payment-service/src/workers/tasks/refund_tasks.py:59-215 | which statuses each of the three refund tasks moves, and to what; any other refund and every transaction stay as they are |
| `RefundOutcomes.TasksReport` | apps/services/payment-service/src/workers/tasks/refund_tasks.py:23-215 | each task reports processed exactly when it moved the refund, an error exactly when there is none, and the status it has then |
| `WorkerOutcomes.PollReports` | apps/services/payment-service/src/workers/tasks/payment_tasks.py:25-183 | process_payment reports processed exactly when the row is open to polling and the answer can be used, an error exactly when it is open and the answer cannot, and stores nothing unless processed |
| `WorkerOutcomes.PolledTextIsRead` | apps/services/payment-service/src/workers/tasks/payment_tasks.py:98-137 | a usable poll writes the status its text tells, the reported amount of a success only, the failure code of a failure only |
| `WorkerOutcomes.ReconcileReports` | apps/services/payment-service/src/workers/tasks/reconciliation_tasks.py:224-300 | how reconcile_transaction ends for every row and answer, and which discrepancy it reports for every status and text |
| `WorkerOutcomes.ReconciledTextIsRead` | apps/services/payment-service/src/workers/tasks/reconciliation_tasks.py:302-318 | it stores the told status and reported amount exactly when the text fits the stored status and the amount is no malformed one |
| `EventOutcomes.InvalidCreatedIsRefused` | apps/services/payment-service/src/events/subscribers/reservation_events.py:71-99 | a created event is refused, with nothing done, if and only if its amount is not positive, its provider unsupported or its key empty |
| `EventOutcomes.CreatedEventEnds` | apps/services/payment-service/src/events/subscribers/reservation_events.py:71-99 | a valid one stores what creating a payment of the whole amount with capture required stores, and returns if and only if that is an AUTHORIZED row |
| `EventOutcomes.OtherConfirmIsIgnored` | apps/services/payment-service/src/events/subscribers/reservation_events.py:112-120 | a confirmation of an unknown key or of a row that is not AUTHORIZED returns and does nothing |
| `EventOutcomes.ConfirmedEventEnds` | apps/services/payment-service/src/events/subscribers/reservation_events.py:112-124 | a confirmation of an AUTHORIZED row captures all of it, or cancels it locally without identifier, and ends as the capture saga does |
| `EventOutcomes.CancelledEventEffect` | apps/services/payment-service/src/events/subscribers/reservation_events.py:126-163 | whatever is answered and however it ends, a cancelled or expired event makes a row CANCELLED if and only if it is cancellable, of the reservation, has fewer than 100 newer siblings, and neither its cancel nor a newer sibling's is blocked; every other row is unchanged |
| `EventOutcomes.CompletedEventCancels` | apps/services/payment-service/src/events/subscribers/reservation_events.py:134-150 | when it completes, a row becomes CANCELLED if and only if it is cancellable, of the reservation, and has fewer than 100 newer siblings; every other row is unchanged |
| `EventOutcomes.CancelledEventCompletesIff` | apps/services/payment-service/src/events/subscribers/reservation_events.py:142-150 | it completes if and only if no cancel among the hundred newest rows is blocked |
| `EventOutcomes.BlockedEventRaises` | apps/services/payment-service/src/events/subscribers/reservation_events.py:142-150 | otherwise it ends with the exception of the newest blocked cancel |
| `Activities.ActivityIsRun` | apps/services/payment-service/src/services/saga/payment_saga.py:33-131 | a saga, a batch, an event delivery and every single call commit exactly what the service calls they make commit, one after the other, with the answers they got |
| `Activities.HonestActivityIsRun` | apps/services/payment-service/src/services/saga/payment_saga.py:96-131 | any of them whose answers keep the contract is a run under the contract |
| `Activities.HonestActivitiesStayFaithful` | apps/services/payment-service/src/events/subscribers/reservation_events.py:50-69 | after any mixture of calls, sagas, batches and deliveries from an empty database, under the contract: rows claim no more than the gateway has done, amounts are in order, the books balance, and no transaction has had both a successful capture and a successful cancel |
| `Activities.CaptureSagaIsHonestIff` | apps/services/payment-service/src/services/saga/payment_saga.py:56-81 | the contract asks of the capture saga exactly what it asks of the capture call, and nothing where the saga cancels locally |
| `Activities.CompleteSagaIsHonestIff` | apps/services/payment-service/src/services/saga/payment_saga.py:96-131 | of execute_with_capture it asks exactly what it asks of the create and of the capture |
| `Activities.LoopIsHonest` | apps/services/payment-service/src/events/subscribers/reservation_events.py:142-150 | of the cancel loop it is enough that the rows it may ask to be voided are voided if that is answered |
| `Activities.CancelledEventIsHonest` | apps/services/payment-service/src/events/subscribers/reservation_events.py:126-150 | a cancelled or expired event delivered to such a gateway is a run under the contract |
| `Termination.EffectiveStepsAreBounded` | apps/services/payment-service/src/workers/tasks/reconciliation_tasks.py:262-309 | in a run that never polls a payment while it is FAILED or PARTIALLY_REFUNDED, every step that changes its status or books a refund on it spends a budget of rank and refundable cents, so it has at most amount + 3 effective steps |
| `Termination.PollingNeverSettles` | apps/services/payment-service/src/workers/tasks/payment_tasks.py:102-137 | polled in FAILED or PARTIALLY_REFUNDED, no bound exists: for every n some run has 2n effective steps |
| `Termination.NeverSettlesIff` | apps/services/payment-service/src/workers/tasks/payment_tasks.py:62-66 | the effective steps on a payment have no bound if and only if it has a provider and is AUTHORIZED, PROCESSING, FAILED or PARTIALLY_REFUNDED, or SUCCEEDED with an identifier and more than a cent not refunded |
| `Termination.StatusKeepsTellingRefunds` | apps/services/payment-service/src/services/refund_service.py:121-129 | PARTIALLY_REFUNDED goes on meaning 0 < refunded < amount over every run that never polls the payment while it is PARTIALLY_REFUNDED |
| `Termination.PollForgetsRefundsIff` | apps/services/payment-service/src/workers/tasks/payment_tasks.py:62-66 | a poll keeps that meaning for every answer if and only if the row is not PARTIALLY_REFUNDED, or has no provider to ask |
| `PollVsReconcile.NextStatusesAgreeIff` | apps/services/payment-service/src/workers/tasks/reconciliation_tasks.py:224-318 | for every stored row and every answer, lost, malformed or unusable ones included, exactly when polling and reconciliation leave the same status |
| `PollVsReconcile.AgreeOnProcessing` | apps/services/payment-service/src/workers/tasks/payment_tasks.py:98-137 | on PROCESSING rows with provider and identifier the workers agree on the status unless a failure or cancellation brings an amount that is no number, and exactly when they leave the same database |
| `PollVsReconcile.OrderDoesNotMatter` | apps/services/payment-service/src/workers/tasks/reconciliation_tasks.py:257-318 | run in either order on one answer, whatever it is, the workers leave every row in the same status, and the same database exactly unless a stated non-PROCESSING case shows the order in the captured amount |
| `PollVsReconcile.CreationReadsAsWorkersDoIff` | apps/services/payment-service/src/services/payment_service.py:317-339 | exactly for which texts creation reads a gateway status as reconciliation and polling do |
| `Sagas.CaptureSagaOutcome` | apps/services/payment-service/src/services/saga/payment_saga.py:56-81 | the capture saga ends in PaymentSagaError exactly when the row has become FAILED or CANCELLED, leaves it AUTHORIZED exactly when a foreign exception escaped, cancels exactly rows without identifier, and never calls the gateway's cancel |
| `Sagas.ExecuteWithCaptureOutcome` | apps/services/payment-service/src/services/saga/payment_saga.py:96-131 | ending in PaymentSagaError, execute_with_capture has stored nothing or one row that is FAILED, CANCELLED or PROCESSING; returning, one SUCCEEDED row |
| `Sagas.ExecuteWithCaptureNeverCancels` | apps/services/payment-service/src/services/saga/payment_saga.py:145-172 | its compensation never reaches the gateway's cancel |
| `Sagas.ExecuteWithCaptureIsRun` | apps/services/payment-service/src/services/saga/payment_saga.py:96-131 | it commits exactly what a create and one more call of the service commit |
| `Sagas.RefundSagaIsStep` | apps/services/payment-service/src/services/saga/refund_saga.py:35-81 | whatever execute commits, one call of the refund service commits |
| `Sagas.StoredRefundAnswersForever` | apps/services/payment-service/src/services/saga/refund_saga.py:35-107 | once a refund key is stored, after every run every execute or retry with it returns that same row, changes nothing and calls no gateway, FAILED included |
| `Deliveries.DeliverAllIsRun` | apps/services/payment-service/src/events/subscribers/reservation_events.py:50-69 | any sequence of event deliveries commits what some run of the payment service commits |
| `Deliveries.DeliverIsRun` | apps/services/payment-service/src/events/subscribers/reservation_events.py:50-69 | handling one event commits exactly what a named list of service calls commits |
| `Deliveries.EffectsHappenOnce` | apps/services/payment-service/src/events/subscribers/reservation_events.py:71-124 | under any duplication and reordering of events each key has at most one create call and each transaction at most one capture call that was not lost |
| `CancelLoop.CancelAllEffect` | apps/services/payment-service/src/events/subscribers/reservation_events.py:142-150 | the cancel loop cancels exactly the cancellable rows before the first whose cancel raises, in list order, touches no other row, and completes exactly when none raises |
| `CancelLoop.CompletedCancelIsQuiet` | apps/services/payment-service/src/events/subscribers/reservation_events.py:126-150 | a completed cancelled event goes through exactly the rows with fewer than 100 newer siblings, leaves none of them cancellable and changes only their status |
| `CancelLoop.NothingIsLeftIffNoneWasOlder` | apps/services/payment-service/src/events/subscribers/reservation_events.py:134-140 | after it no row of the reservation is cancellable if and only if every row that was has fewer than 100 newer siblings |
| `CancelLoop.SmallReservationIsCancelled` | apps/services/payment-service/src/repositories/transactions_repository.py:79-96 | with at most 100 rows and every cancel answered the event completes, cancels every cancellable row of the reservation and leaves every other row |
| `CancelLoop.PayPalBlocksOlderRows` | apps/services/payment-service/src/services/gateway/paypal_gateway.py:120-129 | because PayPal never cancels, a cancellable PayPal row with fewer than 100 newer siblings makes the event fail, and neither it nor any older row changes |
| `CancelLoop.RedeliveredCancelChangesNothing` | apps/services/payment-service/src/events/subscribers/reservation_events.py:152-163 | redelivering a completed cancelled or expired event changes nothing, with any events of other reservations in between |
| `CancelLoop.RedeliveredConfirmChangesNothing` | apps/services/payment-service/src/events/subscribers/reservation_events.py:112-124 | redelivering a handled confirmation changes nothing, whatever ran in between |
| `CancelLoop.CrashedConfirmIsRepeated` | apps/services/payment-service/src/events/subscribers/reservation_events.py:119-124 | a confirmation that died of a foreign exception left the database unchanged, and its redelivery calls capture again |
| `Batch.ReconcileAllEffect` | apps/services/payment-service/src/workers/tasks/reconciliation_tasks.py:160-181 | the batch does to each selected row what reconciling it alone would do, even when others fail, and writes no other row |
| `Batch.ReconcileAllResults` | apps/services/payment-service/src/workers/tasks/reconciliation_tasks.py:158-183 | it returns one result per selected row in order, the one that row would have alone |
| `Batch.SelectedRowsAreOldest` | apps/services/payment-service/src/workers/tasks/reconciliation_tasks.py:138-152 | the batch selects row t if and only if it is PENDING, AUTHORIZED or PROCESSING and fewer than limit such rows are older |
| `Batch.BatchTakesTheOldest` | apps/services/payment-service/src/workers/tasks/reconciliation_tasks.py:128-152 | a limit outside 1 to 1000 is refused; otherwise row t is reconciled as it would be alone if and only if it is PENDING, AUTHORIZED or PROCESSING and fewer than limit such rows are older; every other row is unchanged |
| `Batch.BatchReportsTheOldest` | apps/services/payment-service/src/workers/tasks/reconciliation_tasks.py:158-183 | one report for each of those rows and no other, oldest first: what reconciling it alone reports, or that this raised |
| `Batch.RowAloneIsIdempotent` | apps/services/payment-service/src/workers/tasks/reconciliation_tasks.py:79-101 | reconciling a row twice with one answer is reconciling it once, and makes no row pending |
| `Batch.SecondBatchChangesNothing` | apps/services/payment-service/src/workers/tasks/reconciliation_tasks.py:138-156 | when the limit covers all pending rows and answers stay the same, a second batch leaves the database unchanged |
| `PayPalCaptures.ExtractCapturedAmount` | apps/services/payment-service/src/services/gateway/paypal_gateway.py:313-344 | the nested loops raise exactly when some entry is null or no number, and otherwise return the sum over the flattened captures |
| `PayPalCaptures.PlainOrderAddsUp` | apps/services/payment-service/src/services/gateway/paypal_gateway.py:313-344 | an order of plain captures comes to the plain sum of their amounts, for every list of lists of amounts |
| `PayPalCaptures.CaptureAdds` | apps/services/payment-service/src/services/gateway/paypal_gateway.py:331-342 | wherever a capture stands, a missing amount or value adds nothing, a number itself, and null or no number raises |
| `PayPalCaptures.UnitAdds` | apps/services/payment-service/src/services/gateway/paypal_gateway.py:319-329 | wherever a unit stands, missing payments or captures add nothing, and null ones raise |
| `PayPalCaptures.OrderWithoutUnits` | apps/services/payment-service/src/services/gateway/paypal_gateway.py:319-322 | missing purchase units come to zero, null ones raise |
| `PayPalCaptures.CapturedIsAdditive` | apps/services/payment-service/src/services/gateway/paypal_gateway.py:319-344 | the sum is additive over concatenated purchase units, and exists if and only if both parts have one |
| `PayPalCaptures.CapturedIgnoresOrder` | apps/services/payment-service/src/services/gateway/paypal_gateway.py:319-344 | permuting the purchase units changes neither the sum nor whether there is one |
| `PayPalCaptures.CapturedAmountReported` | apps/services/payment-service/src/services/gateway/paypal_gateway.py:98-118 | capture fails with a gateway error unless completed and with another exception exactly when an entry cannot be read; it reports something other than the sum exactly when the sum is zero and a non-zero amount was requested, namely that amount |
| `StripeUnits.MinorUnitsRoundTrip` | apps/services/payment-service/src/services/gateway/stripe_gateway.py:237-243 | converting cents to an amount and back gives the same cents |
| `StripeUnits.MinorUnitsAreHundredths` | apps/services/payment-service/src/services/gateway/stripe_gateway.py:237-243 | both conversions count in hundredths of the unit |
| `StripeUnits.AmountRoundTripsIffTwoPlaces` | apps/services/payment-service/src/services/gateway/stripe_gateway.py:237-243 | an amount survives conversion to cents and back if and only if it has two places |
| `StripeUnits.TruncationLosesLessThanACent` | apps/services/payment-service/src/services/gateway/stripe_gateway.py:237-239 | conversion moves any amount toward zero by less than one cent |
| `StripeUnits.CentsOfSum` | apps/services/payment-service/src/services/gateway/stripe_gateway.py:237-239 | the cents sent for a list of two-place amounts are the cents of their sum |
| `Sessions.Session.AddTransaction` | apps/services/payment-service/src/repositories/transactions_repository.py:13-21 | flushing a row appends it, and is observed, exactly when its key and gateway identifier are free |
| `Sessions.Session.UpdateTransaction` | apps/services/payment-service/src/repositories/transactions_repository.py:141-153 | flushing new values replaces the row unless a new gateway identifier is taken |
| `Sessions.Session.Rollback` | apps/services/payment-service/src/core/database.py:32-38 | closing a session drops what it flushed without committing |
| `PaymentServices.PaymentService.CreatePayment` | apps/services/payment-service/src/services/payment_service.py:52-160 | the statements commit exactly what `Payments.CreatePayment` says, error paths included |
| `PaymentServices.PaymentService.Settle` | apps/services/payment-service/src/services/payment_service.py:106-128 | the gateway's answer is committed with its row, or the row is dropped when the amount is no number or the identifier is taken |
| `PaymentServices.PaymentService.MarkFailed` | apps/services/payment-service/src/services/payment_service.py:297-314 | commits the row as FAILED with the given code |
| `PaymentServices.PaymentService.CapturePayment` | apps/services/payment-service/src/services/payment_service.py:162-220 | commits exactly what `Payments.CapturePayment` says |
| `PaymentServices.PaymentService.CancelPayment` | apps/services/payment-service/src/services/payment_service.py:222-274 | commits exactly what `Payments.CancelPayment` says |
| `RefundServices.RefundService.CreateRefund` | apps/services/payment-service/src/services/refund_service.py:44-146 | commits exactly what `Refunds.CreateRefund` says; a refund flushed before an error leaves no trace |
| `RefundServices.RefundService.Settle` | apps/services/payment-service/src/services/refund_service.py:112-134 | the refund and the transaction it is booked on are committed together or not at all |
| `RefundServices.ProcessRefund` | apps/services/payment-service/src/workers/tasks/refund_tasks.py:23-116 | commits what `Refunds.ProcessRefund` says |
| `RefundServices.RetryRefund` | apps/services/payment-service/src/workers/tasks/refund_tasks.py:119-163 | commits what `Refunds.RetryRefund` says |
| `RefundServices.CancelPendingRefund` | apps/services/payment-service/src/workers/tasks/refund_tasks.py:166-215 | commits what `Refunds.CancelPendingRefund` says |
| `PaymentSagas.PaymentSaga.Execute` | apps/services/payment-service/src/services/saga/payment_saga.py:33-54 | equals its closed form in `Sagas` |
| `PaymentSagas.PaymentSaga.Capture` | apps/services/payment-service/src/services/saga/payment_saga.py:56-81 | with its compensation it equals a closed form without any, which does not depend on the gateway's answer to the compensating cancel |
| `PaymentSagas.PaymentSaga.CompensateCaptureFailure` | apps/services/payment-service/src/services/saga/payment_saga.py:145-172 | what compensation does for every row, reachable or not |
| `PaymentSagas.PaymentSaga.Cancel` | apps/services/payment-service/src/services/saga/payment_saga.py:83-94 | equals its closed form in `Sagas` |
| `PaymentSagas.PaymentSaga.ExecuteWithCapture` | apps/services/payment-service/src/services/saga/payment_saga.py:96-131 | equals its closed form in `Sagas`, compensation eliminated |
| `PaymentSagas.CaptureAuthorizedPayment` | apps/services/payment-service/src/workers/tasks/payment_tasks.py:186-257 | commits what the capture saga commits and reports FAILED for every exception |
| `PaymentSagas.CancelPendingPayment` | apps/services/payment-service/src/workers/tasks/payment_tasks.py:260-329 | commits what the cancel saga commits; finished rows are reported as they are |
| `RefundSagas.RefundSaga.Execute` | apps/services/payment-service/src/services/saga/refund_saga.py:35-81 | equals its closed form in `Sagas` |
| `RefundSagas.RefundSaga.Retry` | apps/services/payment-service/src/services/saga/refund_saga.py:83-107 | equals the same closed form: retrying is executing |
| `WorkerTasks.PollPayment` | apps/services/payment-service/src/workers/tasks/payment_tasks.py:25-183 | commits exactly what `Workers.ProcessPayment` says |
| `WorkerTasks.ReconcileOne` | apps/services/payment-service/src/workers/tasks/reconciliation_tasks.py:30-118 | commits exactly what `Workers.ReconcileTransaction` says |
| `WorkerTasks.ReconcilePendingTransactions` | apps/services/payment-service/src/workers/tasks/reconciliation_tasks.py:121-183 | commits and returns exactly what `Batch.ReconcilePending` says |
| `ReservationEvents.ReservationEventHandler.Handle` | apps/services/payment-service/src/events/subscribers/reservation_events.py:50-69 | does exactly what `Deliveries.Deliver` says |
| `ReservationEvents.ReservationEventHandler.HandleReservationCreated` | apps/services/payment-service/src/events/subscribers/reservation_events.py:71-99 | does exactly what `Deliveries.HandleCreated` says |
| `ReservationEvents.ReservationEventHandler.HandleReservationConfirmed` | apps/services/payment-service/src/events/subscribers/reservation_events.py:101-124 | does exactly what `Deliveries.HandleConfirmed` says |
| `ReservationEvents.ReservationEventHandler.HandleReservationCancelled` | apps/services/payment-service/src/events/subscribers/reservation_events.py:126-150 | does exactly what `Deliveries.HandleCancelled` says, leaving the loop at the first exception |

## Left out

- HTTP routes, dependency injection, Pydantic parsing, logging and migrations: plumbing; of the schemas only positivity, a non-empty key and a known provider are kept.
- The HTTP code of the Stripe and PayPal clients, their field mapping, tokens and error texts: replaced by arbitrary answers. `IdempotencyProtocol` and the runs cover any answer these could produce.
- Columns that are stored and never read back by a decision: customer, currency, description, metadata, refund reason, failure messages, timestamps other than creation order.
- The reservation foreign key, column lengths and the rounding of Numeric(18, 2): every amount is a whole number of cents.
- SQLAlchemy's identity map: rows are values in the session's tables, so two references to one row object are not modelled; every operation re-reads the row it works on.
- Interleavings of different operations on one transaction: the code takes no lock, and the ledger bounds do not hold for them.
- Lower-casing of status texts: operations take the text already folded.
- ToMinorUnits: amounts are exact reals; the 28-digit rounding of Python's Decimal, which no amount of at most 18 digits reaches, is not modelled.
- ExtractCapturedAmount: amounts are exact reals; the texts NaN and Infinity, which Python's Decimal takes for numbers, are not modelled, nor is its 28-digit rounding.
- `RefundSaga.handle_gateway_failure` changes an object and commits nothing; `get_status`, `reconcile_refund` and the plain getters and counts only read.
- Fair progress of the batch under a limit: the query always takes the oldest pending rows, and nothing in the code promises it.
- Reservation, auth, hotel, notification and core services and the frontend: outside the ledger.
