/** Values shared by both services: identifiers, clock readings, amounts, the
    exceptions the core raises, the two integration events and their wire form,
    the inbox row, and the broker's names for the two queues. */
module Common {

  /** A Guid: only equality between identifiers matters. */
  type Guid = int

  /** A DateTime reading (UtcNow), in ticks. */
  type Timestamp = int

  /** A decimal amount, in minor currency units; decimal arithmetic is exact. */
  type Amount = int

  type QueueName = string

  datatype Option<+T> = None | Some(value: T)

  datatype Result<+T, +E> = Success(value: T) | Failure(error: E)

  datatype Outcome<+E> = Pass | Fail(error: E)

  /** The exceptions thrown on the modelled paths, by kind. */
  datatype Error =
    | NonPositiveAmount   // ArgumentException("Amount must be positive") from Account
    | AccountNotFound     // InvalidOperationException("Account not found.") from TopUpAsync
    | StoreFailure        // a query or SaveChangesAsync threw

  /** Sent by OrdersService when an order is created. */
  datatype OrderCreatedEvent = OrderCreatedEvent(eventId: Guid, orderId: Guid, userId: Guid, amount: Amount)

  /** Sent by PaymentsService once it has tried to pay for an order. */
  datatype PaymentCompletedEvent =
    PaymentCompletedEvent(eventId: Guid, orderId: Guid, userId: Guid, success: bool, amount: Amount)

  /** The body of an outbox row or of a broker message. A serialised event is
      kept as the event itself; any other body is text that deserialises to
      nothing. */
  datatype Payload =
    | OrderCreatedJson(orderCreated: OrderCreatedEvent)
    | PaymentCompletedJson(paymentCompleted: PaymentCompletedEvent)
    | OtherJson(text: string)

  /** Reading a body as an OrderCreatedEvent: nothing when the body is not one. */
  function DeserializeOrderCreated(p: Payload): Option<OrderCreatedEvent>
  {
    if p.OrderCreatedJson? then Some(p.orderCreated) else None
  }

  /** Reading a body as a PaymentCompletedEvent: nothing when the body is not one. */
  function DeserializePaymentCompleted(p: Payload): Option<PaymentCompletedEvent>
  {
    if p.PaymentCompletedJson? then Some(p.paymentCompleted) else None
  }

  /** Serialising an event and reading it back gives every property back. */
  function SerializeOrderCreated(e: OrderCreatedEvent): (p: Payload)
    ensures DeserializeOrderCreated(p) == Some(e)
    ensures DeserializePaymentCompleted(p) == None
  {
    OrderCreatedJson(e)
  }

  /** Serialising an event and reading it back gives every property back. */
  function SerializePaymentCompleted(e: PaymentCompletedEvent): (p: Payload)
    ensures DeserializePaymentCompleted(p) == Some(e)
    ensures DeserializeOrderCreated(p) == None
  {
    PaymentCompletedJson(e)
  }

  /** The other direction of the round trip: a body that reads as an event is
      that event's serialisation, and reads as no other event. */
  lemma BodyReadsBackAsItsEvent(p: Payload)
    ensures DeserializeOrderCreated(p).Some? ==>
      SerializeOrderCreated(DeserializeOrderCreated(p).value) == p && DeserializePaymentCompleted(p).None?
    ensures DeserializePaymentCompleted(p).Some? ==>
      SerializePaymentCompleted(DeserializePaymentCompleted(p).value) == p && DeserializeOrderCreated(p).None?
  {
  }

  /** nameof(OrderCreatedEvent) and nameof(PaymentCompletedEvent). */
  const OrderCreatedEventType: string := "OrderCreatedEvent"
  const PaymentCompletedEventType: string := "PaymentCompletedEvent"

  /** The default queue names of RabbitMqSettings. */
  const OrderCreatedQueue: QueueName := "order_created"
  const PaymentCompletedQueue: QueueName := "payment_completed"

  /** One row of an Inbox table: the event id is the primary key. */
  datatype InboxRow = InboxRow(id: Guid, eventType: string, processedAt: Timestamp)

  /** The inbox is keyed by event id: each key holds the row for that id. */
  ghost predicate InboxKeyed(inbox: map<Guid, InboxRow>)
  {
    forall id :: id in inbox ==> inbox[id].id == id
  }
}
