# Reliable messaging in shoppingService, in Dafny

shoppingService has two services. OrdersService takes orders. PaymentsService
keeps account ledgers and pays for orders. They talk over RabbitMQ through
two integration events:

- OrderCreatedEvent, on the `order_created` queue;
- PaymentCompletedEvent, on the `payment_completed` queue.

Each service writes its outgoing events to an outbox table in the same
SaveChanges as its business change. Each service's outbox publisher relays
the unpublished rows to the broker. The consumers deduplicate incoming events
through an inbox table keyed by event id.

This project models that core and proves properties of it:

- The domain objects are classes whose methods update fields in place:
  `Order` (Pending, then Paid or Failed for good), `Account` (a ledger that
  never goes negative) and `OutboxMessage` (unpublished, then published).
- The database is a class holding the committed tables. Orders are a map by
  id, accounts a map by user (the unique index on UserId), the inbox a map by
  event id, and the outbox a sequence of rows with unique ids.
- Each service call is a method on a service class. The method loads the
  entity objects from rows, calls their methods, and assigns the tables once
  at its SaveChanges. Each method is proved equal to a value-level function
  (`CreateOrder`, `TopUp`, `TryWithdraw`, `Process`, `Handle`, `Tick`).
  The properties are proved as lemmas about those functions: idempotence,
  exact balance changes, atomic commits, the no-gap delivery invariant and
  the resend after a failed tick.
- One outbox publisher tick is a loop over the batch (`PublishBatch`) inside
  `RunTick`. The loop publishes and marks each routable row. The tick
  commits all marks, or none when it throws. The two services share this
  tick and differ only in their routing table.
- The broker is a log of published messages and a log of acknowledged
  delivery tags.

Modelling conventions:

- Guid.NewGuid() and DateTime.UtcNow are parameters (fresh ids and a clock
  reading).
- A throwing SaveChangesAsync is a `storeFails` flag. A primary key already
  in use makes SaveChanges throw as well.
- Where a publisher tick throws is a `TickFault`: no fault, the connection,
  the k-th publish, or the final save.
- Decimal amounts are integers in minor units. Amounts finer than a minor
  unit are not represented.
- Exceptions are `Error` values in a `Result` or `Outcome`.

## Model

| member | source | states |
|---|---|---|
| Common.SerializeOrderCreated | Contracts.Tests/EventContractsTests.cs:11-30 | serialising an OrderCreatedEvent and reading it back gives the same event; in the model, which has one body shape per event type, the body does not read as a PaymentCompletedEvent |
| Common.SerializePaymentCompleted | Contracts.Tests/EventContractsTests.cs:33-54 | serialising a PaymentCompletedEvent and reading it back gives the same event; in the model, which has one body shape per event type, the body does not read as an OrderCreatedEvent |
| Common.BodyReadsBackAsItsEvent | OrdersService/Application/Messaging/PaymentCompletedConsumerService.cs:55-58 | in the model, a body that reads as an OrderCreatedEvent or a PaymentCompletedEvent is that event's serialisation and reads as no other event |
| Messaging.Broker.Publish | OrdersService/Application/Messaging/OutboxPublisherService.cs:70 | BasicPublish appends exactly one message to the broker log and acknowledges nothing |
| Messaging.Broker.Ack | OrdersService/Application/Messaging/PaymentCompletedConsumerService.cs:68 | BasicAck appends exactly one tag to the ack log and publishes nothing |
| Accounts.Account.constructor | PaymentsService/Domain/Entities/Account.cs:13-19 | a new account belongs to the given user, has the given id and creation time, and balance 0 |
| Accounts.Account.Load | PaymentsService/Domain/Entities/Account.cs:11 | an account materialised from a valid row has exactly that row's fields |
| Accounts.Account.Credit | PaymentsService/Domain/Entities/Account.cs:21-25 | a non-positive amount fails with NonPositiveAmount and leaves the balance; a positive one adds exactly the amount; the identity fields never change and the balance stays non-negative |
| Accounts.Account.TryDebit | PaymentsService/Domain/Entities/Account.cs:29-35 | a non-positive amount fails with NonPositiveAmount; the result is true exactly when 0 < amount <= balance, and then exactly the amount is taken off; otherwise the balance stays; the balance stays non-negative |
| Accounts.LedgerInvariantKept | PaymentsService/Domain/Entities/Account.cs:21-35 | Credit and TryDebit on a valid account keep the balance non-negative and keep Id, UserId and CreatedAt |
| Accounts.CreditRow | PaymentsService/Domain/Entities/Account.cs:21-25 | Credit on a stored row succeeds exactly for a positive amount, otherwise fails with NonPositiveAmount; on success the balance rises by exactly the amount and no other field changes |
| Accounts.DebitRow | PaymentsService/Domain/Entities/Account.cs:29-35 | TryDebit on a stored row is accepted exactly for a positive amount, otherwise fails with NonPositiveAmount; only the balance may change, and a refused debit leaves the row as it was |
| Accounts.DebitNeverOverdraws | PaymentsService/Domain/Entities/Account.cs:31-34 | an accepted debit reports true exactly when the balance covers the amount, and the balance drops by the amount exactly then |
| Accounts.CreditDebitInverse | PaymentsService/Domain/Entities/Account.cs:21-35 | debiting a positive amount right after crediting it gives the account back, and crediting after a covered debit does too |
| Accounts.DebitScenario | PaymentsService/Domain/Entities/Account.cs:29-35 | a ledger at 100.00 debited 50.00 succeeds and keeps 50.00, and a further debit of 100.00 is refused and keeps 50.00 |
| Orders.Order.constructor | OrdersService/Domain/Entities/Order.cs:18-25 | a new order is Pending with no UpdatedAt and carries the given id, user, amount and creation time |
| Orders.Order.Load | OrdersService/Domain/Entities/Order.cs:14-16 | an order materialised from a valid row has exactly that row's fields |
| Orders.Order.MarkPaid | OrdersService/Domain/Entities/Order.cs:27-32 | a Pending order becomes Paid stamped with the clock reading; any other order is left exactly as it was; the UpdatedAt invariant holds |
| Orders.Order.MarkFailed | OrdersService/Domain/Entities/Order.cs:34-39 | a Pending order becomes Failed stamped with the clock reading; any other order is left exactly as it was; the UpdatedAt invariant holds |
| Orders.MarkPaidRow | OrdersService/Domain/Entities/Order.cs:27-32 | MarkPaid on a stored row: a Pending order becomes Paid stamped with the clock reading, a settled one is returned unchanged, the identity fields are kept and the UpdatedAt invariant is preserved |
| Orders.MarkFailedRow | OrdersService/Domain/Entities/Order.cs:34-39 | MarkFailed on a stored row: a Pending order becomes Failed stamped with the clock reading, a settled one is returned unchanged, the identity fields are kept and the UpdatedAt invariant is preserved |
| Orders.SettledOrderIgnoresMarks | OrdersService/Domain/Entities/Order.cs:27-39 | once an order has left Pending, no sequence of MarkPaid and MarkFailed calls changes it, UpdatedAt included |
| Orders.FirstMarkDecides | OrdersService/Domain/Entities/Order.cs:27-39 | from Pending, the first Mark call fixes the final status and UpdatedAt, whatever follows |
| Orders.MarksKeepInvariant | OrdersService/Domain/Entities/Order.cs:7-39 | any sequence of Mark calls keeps UpdatedAt unset exactly while Pending, and keeps Id, UserId, Amount and CreatedAt |
| OutboxMessages.OutboxMessage.constructor | OrdersService/Domain/Entities/OutboxMessage.cs:15-22 | a new message is unpublished, has no PublishedAt, and keeps the given id, type, payload and time |
| OutboxMessages.OutboxMessage.Load | OrdersService/Domain/Entities/OutboxMessage.cs:14 | a message materialised from a valid row has exactly that row's fields |
| OutboxMessages.OutboxMessage.MarkAsPublished | OrdersService/Domain/Entities/OutboxMessage.cs:24-28 | the message becomes published with PublishedAt set to the clock reading; id, type, payload and time are unchanged |
| OutboxMessages.MarkPublishedRow | OrdersService/Domain/Entities/OutboxMessage.cs:24-28 | MarkAsPublished on a stored row keeps id, type, payload and time, and leaves the row published with PublishedAt set to the clock reading |
| OutboxMessages.MarkPublishedFacts | OrdersService/Domain/Entities/OutboxMessage.cs:24-28 | marking keeps the message and leaves it published with PublishedAt set; marking again only moves the timestamp |
| OutboxMessages.AppendKeepsTable | OrdersService/Persistence/OrdersDbContext.cs:20-21 | adding a well-formed row under an unused id keeps the outbox's primary key unique and every row well formed |
| OrdersStore.OrdersDb.constructor | OrdersService/Persistence/OrdersDbContext.cs:10-21 | an empty OrdersService database satisfies its key constraints |
| PaymentsStore.PaymentsDb.constructor | PaymentsService/Persistence/PaymentsDbContext.cs:10-26 | an empty PaymentsService database satisfies its key constraints |
| OutboxRelay.Unpublished | OrdersService/Application/Messaging/OutboxPublisherService.cs:41 | the filtered rows are exactly the table's unpublished rows, none of them more often than it occurs in the table |
| OutboxRelay.InsertByAge | OrdersService/Application/Messaging/OutboxPublisherService.cs:42 | inserting a row into a sequence ordered by OccurredAt keeps it ordered and adds exactly that row |
| OutboxRelay.SortByAge | OrdersService/Application/Messaging/OutboxPublisherService.cs:42 | the result is ordered by OccurredAt and is a permutation of the input |
| OutboxRelay.SelectBatch | OrdersService/Application/Messaging/OutboxPublisherService.cs:40-44 | the batch holds at most 20 rows, oldest first, each an unpublished row of the table and none more often than it occurs in the table |
| OutboxRelay.BatchHoldsOldest | OrdersService/Application/Messaging/OutboxPublisherService.cs:40-44 | an unpublished row left out of the batch means the batch is full and every batch row is at least as old as it |
| OutboxRelay.EmptyBatchMeansAllPublished | OrdersService/Application/Messaging/OutboxPublisherService.cs:40-46 | the batch is empty exactly when every row is published |
| OutboxRelay.Sent | OrdersService/Application/Messaging/OutboxPublisherService.cs:57-78 | a pass over the batch publishes at most one message per row |
| OutboxRelay.Pending | OrdersService/Application/Messaging/OutboxPublisherService.cs:66-73 | every mark the pass keeps for SaveChanges is filed under its own row id and is published at the clock reading |
| OutboxRelay.PassStep | OrdersService/Application/Messaging/OutboxPublisherService.cs:57-78 | one more row of the loop adds its message and its mark exactly when it is routable, and nothing otherwise |
| OutboxRelay.SentPrefix | OrdersService/Application/Messaging/OutboxPublisherService.cs:57-78 | the messages of a partial pass are a prefix of the messages of the full pass, in batch order |
| OutboxRelay.StopsBeforeRoutable | OrdersService/Application/Messaging/OutboxPublisherService.cs:66-70 | a pass cut off at a routable row has sent a proper prefix of the full pass's messages |
| OutboxRelay.PendingMarksRoutable | OrdersService/Application/Messaging/OutboxPublisherService.cs:71 | the pending marks cover exactly the routable rows, each marked as published |
| OutboxRelay.ApplyPending | OrdersService/Application/Messaging/OutboxPublisherService.cs:79 | committing the marks neither adds nor removes rows |
| OutboxRelay.Tick | OrdersService/Application/Messaging/OutboxPublisherService.cs:37-85 | a tick keeps the table's length and every row's id, changes a row only by publishing it at the clock reading, hands at most 20 messages to the broker, and commits nothing when the connection or the save throws |
| OutboxRelay.PublishBatch | OrdersService/Application/Messaging/OutboxPublisherService.cs:57-78 | the loop runs to the end exactly when no publish throws; it then has published the full pass's messages in batch order and kept every routable row's mark; when a publish throws, the broker has exactly the messages before it |
| OutboxRelay.RunTick | OrdersService/Application/Messaging/OutboxPublisherService.cs:37-85 | one tick commits exactly the table `Tick` describes and appends exactly the tick's messages to the broker log, for every fault |
| OutboxRelayFacts.SentOfRoutable | OrdersService/Application/Messaging/OutboxPublisherService.cs:59-72 | every routable batch row's message is published, and every published message is a routable batch row's |
| OutboxRelayFacts.NothingRoutable | OrdersService/Application/Messaging/OutboxPublisherService.cs:74-77 | a pass over rows that are all unroutable publishes and marks nothing |
| OutboxRelayFacts.ApplyPendingRows | OrdersService/Application/Messaging/OutboxPublisherService.cs:71-79 | the commit marks exactly the routable rows of the batch and leaves every other row as it was |
| OutboxRelayFacts.TickRows | OrdersService/Application/Messaging/OutboxPublisherService.cs:37-85 | a tick deletes no row and adds none; it marks exactly the routable batch rows when it reaches its save, and changes nothing when it throws |
| OutboxRelayFacts.TickKeepsTable | OrdersService/Application/Messaging/OutboxPublisherService.cs:37-85 | a tick keeps the outbox ids unique and every row well formed |
| OutboxRelayFacts.TickKeepsDelivered | OrdersService/Application/Messaging/OutboxPublisherService.cs:70-79 | no gaps: if every published row's message is in the broker log before a tick, that still holds after it |
| OutboxRelayFacts.CommittedTickPublishesRoutable | OrdersService/Application/Messaging/OutboxPublisherService.cs:57-79 | a tick that reaches its save publishes every routable batch row's message in batch order and marks each such row published |
| OutboxRelayFacts.FailedTickSendsPrefix | OrdersService/Application/Messaging/OutboxPublisherService.cs:57-85 | a tick that throws commits no change to the table and has handed the broker a prefix of the pass over its batch |
| OutboxRelayFacts.FaultFreeTickSendsPass | OrdersService/Application/Messaging/OutboxPublisherService.cs:57-79 | a tick that does not throw hands the broker the whole pass over its batch |
| OutboxRelayFacts.FailedTickResends | OrdersService/Application/Messaging/OutboxPublisherService.cs:82-85 | a tick that throws persists no mark, and the next tick sends again every message the failed one sent: duplicates are possible |
| OutboxRelayFacts.UnroutableBatchIsStuck | OrdersService/Application/Messaging/OutboxPublisherService.cs:59-77 | when no batch row is routable, every tick publishes nothing and changes nothing, so the same batch comes back |
| OrdersOutboxPublisher.OrdersTickRouting | OrdersService/Application/Messaging/OutboxPublisherService.cs:59-72 | only unpublished OrderCreatedEvent rows are ever changed, each by MarkAsPublished, and every message goes to order_created |
| OrdersOutboxPublisher.ExecuteIteration | OrdersService/Application/Messaging/OutboxPublisherService.cs:35-85 | one loop iteration moves the outbox by one tick, leaves the orders and the inbox, appends the tick's messages to the broker and keeps the store valid and the no-gap invariant |
| PaymentsOutboxPublisher.PaymentsTickRouting | PaymentsService/Application/Messaging/OutboxPublisherService.cs:71-103 | only unpublished rows typed PaymentCompletedEvent or PaymentCompleted are ever changed, each by MarkAsPublished, and every message goes to payment_completed |
| PaymentsOutboxPublisher.ExecuteIteration | PaymentsService/Application/Messaging/OutboxPublisherService.cs:46-112 | one loop iteration moves the outbox by one tick, leaves the accounts and the inbox, appends the tick's messages to the broker and keeps the store valid and the no-gap invariant |
| OutboxMessages.OutboxIds | OrdersService/Persistence/OrdersDbContext.cs:20-21 | the set holds exactly the outbox ids already in use |
| OrderServiceModel.CreateOrder | OrdersService/Application/Services/OrderService.cs:23-41 | the creation commits exactly when the store works and the order id and outbox id are unused; it then returns the order id, adds exactly that order and exactly one outbox row; a failure is StoreFailure and changes nothing; the inbox is untouched |
| OrderServiceModel.OrdersOf | OrdersService/Application/Services/OrderService.cs:43-49 | the result holds every order of the user and only orders of the user |
| OrderServiceModel.StatusOf | OrdersService/Application/Services/OrderService.cs:51-55 | the result is the order's status when the order exists and nothing otherwise |
| OrderServiceModel.CreateOrderCommitsBoth | OrdersService/Application/Services/OrderService.cs:23-41 | the new Pending order and its unpublished OrderCreatedEvent row, whose payload reads back as the event for that order, are committed together or not at all; existing orders and outbox rows are untouched; the store stays valid |
| OrderServiceModel.CreatedOrderIsVisible | OrdersService.Tests/OrderServiceTests.cs:25-105 | after a creation the order's status is Pending, it is listed for its user, and every other user's list and every other order's status are unchanged |
| OrderServiceModel.OrderService.CreateOrderAsync | OrdersService/Application/Services/OrderService.cs:23-41 | the method commits exactly what `CreateOrder` describes, returns its result and keeps the store valid |
| AccountServiceModel.Balance | PaymentsService/Application/Services/AccountService.cs:29-33 | the result is the user's account balance, 0 for a user without an account, and never negative in a valid store |
| AccountServiceModel.CreateAccount | PaymentsService/Application/Services/AccountService.cs:19-27 | the call passes when the user already has an account or the save works, and then the user has an account, a new one with balance 0; an existing account or a failed save leaves the state as it was; no other account changes and the inbox and outbox stay the same |
| AccountServiceModel.TopUp | PaymentsService/Application/Services/AccountService.cs:35-51 | a failed top-up changes nothing; no account is added or removed, no other user's account changes, and the inbox and outbox stay the same |
| AccountServiceModel.TryWithdraw | PaymentsService/Application/Services/AccountService.cs:53-74 | anything but a true result changes nothing; no account is added or removed, no other user's account changes, and the inbox and outbox stay the same |
| AccountServiceModel.CreateAccountIdempotent | PaymentsService/Application/Services/AccountService.cs:19-27 | account creation leaves the user with exactly one account, empty when new; a second call changes nothing; no other user's account is changed, added or removed, and the inbox and outbox stay the same |
| AccountServiceModel.TopUpAddsExactly | PaymentsService/Application/Services/AccountService.cs:35-51 | a top-up succeeds exactly for an existing account, a positive amount and a working store, and then adds exactly the amount to that account and changes no other field of it; otherwise nothing changes, with AccountNotFound before NonPositiveAmount; no other user's account is changed, added or removed, the set of accounts stays the same, and the inbox and outbox stay the same |
| AccountServiceModel.WithdrawNeverOverdraws | PaymentsService/Application/Services/AccountService.cs:53-74 | a withdrawal returns true exactly when an account covers a positive amount and the save succeeds, and then takes off exactly the amount from that account and changes no other field of it; every other outcome changes nothing; no other user's account is changed, added or removed, the set of accounts stays the same, and the inbox and outbox stay the same |
| AccountServiceModel.TopUpThenWithdrawRestores | PaymentsService/Application/Services/AccountService.cs:35-74 | withdrawing what was just topped up succeeds and restores the original state |
| AccountServiceModel.AccountService.CreateAccountAsync | PaymentsService/Application/Services/AccountService.cs:19-27 | the method commits exactly what `CreateAccount` describes and keeps the store valid |
| AccountServiceModel.AccountService.TopUpAsync | PaymentsService/Application/Services/AccountService.cs:35-51 | the method commits exactly what `TopUp` describes and keeps the store valid |
| AccountServiceModel.AccountService.TryWithdrawAsync | PaymentsService/Application/Services/AccountService.cs:53-74 | the method commits exactly what `TryWithdraw` describes and keeps the store valid |
| PaymentProcessorModel.Process | PaymentsService/Application/Messaging/PaymentProcessor.cs:24-72 | a failure changes nothing and a duplicate changes nothing; a success answers for the event's order, user and amount, has the event in the inbox and, for a new event, adds exactly one outbox row; no account is added or removed and no other user's account changes |
| PaymentProcessorModel.ProcessNewEvent | PaymentsService/Application/Messaging/PaymentProcessor.cs:36-71 | a new event adds one inbox row under its id and one unpublished PaymentCompletedEvent row whose payload is the returned reply, for the same order, user and amount; the balance drops by the amount exactly when the reply says success, and no other field of the payer's account changes; a failure changes nothing; no account is added or removed and no other user's account changes |
| PaymentProcessorModel.ProcessDebitOutcome | PaymentsService/Application/Messaging/PaymentProcessor.cs:37-51 | without an account the payment fails and no balance changes; a non-positive amount is an error that saves nothing; otherwise success means the balance covered the amount |
| PaymentProcessorModel.DuplicateEventIsAnsweredWithoutEffect | PaymentsService/Application/Messaging/PaymentProcessor.cs:27-34 | an event already in the inbox changes nothing and is answered with success for the same order, user and amount |
| PaymentProcessorModel.ProcessTwiceIsOnce | PaymentsService/Application/Messaging/PaymentProcessor.cs:27-68 | processing an event a second time leaves the state of the first processing: one debit, one inbox row, one outbox row |
| PaymentProcessorModel.PaymentScenarios | PaymentsService.Tests/PaymentProcessorTests.cs:29-112 | an order of 50.00 is paid from 100.00 leaving 50.00, and is refused at 20.00 leaving 20.00 |
| PaymentProcessorModel.PaymentProcessor.ProcessOrderCreatedAsync | PaymentsService/Application/Messaging/PaymentProcessor.cs:24-72 | the method commits exactly what `Process` describes, returns its reply and keeps the store valid |
| PaymentCompletedConsumer.Handle | OrdersService/Application/Messaging/PaymentCompletedConsumerService.cs:50-96 | the handler never touches the outbox, never adds or removes an order, keeps every order's identity fields, never changes or drops an inbox row, and records a readable event in the inbox whenever the store works |
| PaymentCompletedConsumer.HandleNewEvent | OrdersService/Application/Messaging/PaymentCompletedConsumerService.cs:72-87 | a new event marks its Pending order Paid or Failed by the event's result, leaves a settled order as it is, leaves a missing order missing, always records the event in the inbox, and touches no other order and not the outbox |
| PaymentCompletedConsumer.HandleWithoutEffect | OrdersService/Application/Messaging/PaymentCompletedConsumerService.cs:56-95 | a duplicate, an unreadable body or a store failure changes nothing |
| PaymentCompletedConsumer.HandleTwiceIsOnce | OrdersService/Application/Messaging/PaymentCompletedConsumerService.cs:64-87 | delivering the same message twice gives the same orders and inbox as delivering it once |
| PaymentCompletedConsumer.FirstResultWins | OrdersService/Application/Messaging/PaymentCompletedConsumerService.cs:72-87 | of two different payment results for the same Pending order, the first decides its status and time; both are recorded in the inbox |
| PaymentCompletedConsumer.PaymentCompletedConsumerService.Received | OrdersService/Application/Messaging/PaymentCompletedConsumerService.cs:50-96 | the handler commits exactly what `Handle` describes, acknowledges the delivery tag exactly once on every path and publishes nothing |
| PaymentFlow.NewOrderIsAnnounced | OrdersService/Application/Services/OrderService.cs:30-37 | a new order's outbox row is routed to order_created, and its body reads back as the event announcing that order |
| PaymentFlow.PaymentReplySettlesOrder | PaymentsService/Application/Messaging/PaymentProcessor.cs:45-66 | the reply to an order's event is routed to payment_completed, and handling it marks the Pending order Paid exactly when the account covered the amount, Failed otherwise |

## Left out

- JSON: System.Text.Json is not modelled. A payload is a datatype holding
  the event. Serialising and deserialising are constructor and match.
  Deserialising a body of another shape gives nothing, although the real
  library may fill default values.
- Common.SerializeOrderCreated: states the round trip only for bodies the
  model produces, not for arbitrary JSON text.
- The RabbitMQ client is not modelled: connection factory, QueueDeclare,
  channel lifetime and consumer registration. A connection or publish failure
  is a `TickFault`. QueueDeclare and BasicPublish throw or succeed together.
- OrderCreatedConsumerService is not modelled. It deserialises, calls the
  processor and acknowledges on every path. The processor's reply is only
  logged.
- UserService, the controllers, the DTOs, hosting and the API gateway are not
  part of this model.
- Scheduling, Task.Delay, cancellation, and concurrent services or deliveries
  are not modelled. Only one loop iteration or one delivery is modelled at a
  time. The inbox check and the inbox insert are not atomic in the source;
  under concurrency only the database key protects them.
- The inbox check and the order lookup can throw before SaveChanges. The
  consumer folds that into `storeFails`, which changes nothing, like a failed
  save.
- In PaymentsService, `storeFails` stands only for a throwing SaveChanges. A
  query that throws before SaveChanges is not modelled. Such a failure changes
  no state, exactly like a failed save; the model just returns a different
  reply, as the following lines say:
- AccountServiceModel.CreateAccount: the existence query (AccountService.cs
  line 21) cannot throw. With an existing account the reply is `Pass`.
- AccountServiceModel.Balance: the lookup (AccountService.cs line 31) cannot
  throw. The function is total.
- AccountServiceModel.TopUp: the lookup (AccountService.cs line 37) cannot
  throw. A missing account gives `AccountNotFound`.
- AccountServiceModel.TryWithdraw: the lookup (AccountService.cs line 55)
  cannot throw. A missing account gives `Success(false)`.
- PaymentProcessorModel.Process: the inbox check and the account lookup
  (PaymentProcessor.cs lines 27 and 37) cannot throw. A duplicate is answered
  with success even when the store is down.
- Each DateTime.UtcNow call is a separate reading in the source. The model
  passes one reading per operation, so Order.CreatedAt and the outbox row's
  OccurredAt are equal here.
- Order.Status is a string in the source. The model uses an enumeration. The
  source only ever writes the three values, so nothing is lost.
- OrderServiceModel.OrdersOf: returns a set. The query returns a list in no
  particular order.
- OutboxRelay.SortByAge: rows with equal OccurredAt keep table order. The
  database gives no order for ties.
- Decimal range and precision limits are not modelled. Amounts are unbounded
  integers.
- The PaymentsService OutboxMessage entity file is not part of this model.
  Its rows are assumed to have the same shape and MarkAsPublished as the
  OrdersService entity.
- An account id collision on insert is not modelled. Accounts are keyed by
  user, and new account ids are assumed fresh.
