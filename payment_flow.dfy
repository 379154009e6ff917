/** The saga across the two services: the message that announces a new order,
    once processed by PaymentsService, yields a reply whose message settles the
    order according to the debit. */
module PaymentFlow {
  import opened Common
  import opened Orders
  import opened OutboxMessages
  import opened Messaging
  import opened OutboxRelay
  import OrdersStore
  import PaymentsStore
  import OrderServiceModel
  import PaymentProcessorModel
  import PaymentCompletedConsumer
  import OrdersOutboxPublisher
  import PaymentsOutboxPublisher

  /** A new order's outbox row is routed to order_created, and its body reads
      back as the event announcing that order. */
  lemma NewOrderIsAnnounced(
    so: OrdersStore.OrdersState, userId: Guid, amount: Amount, orderId: Guid, eventId: Guid, outboxId: Guid, t1: Timestamp)
    requires so.Valid()
    requires OrderServiceModel.CreateOrder(so, userId, amount, orderId, eventId, outboxId, t1, false).result.Success?
    ensures
      var so1 := OrderServiceModel.CreateOrder(so, userId, amount, orderId, eventId, outboxId, t1, false).state;
      var m1 := so1.outbox[|so1.outbox| - 1];
      && so1.Valid() && orderId in so1.orders && so1.orders[orderId].status == Pending
      && m1.eventType in OrdersOutboxPublisher.OrderRoutes
      && DeliveryOf(m1, OrdersOutboxPublisher.OrderRoutes).queue == OrderCreatedQueue
      && DeserializeOrderCreated(DeliveryOf(m1, OrdersOutboxPublisher.OrderRoutes).payload)
         == Some(OrderCreatedEvent(eventId, orderId, userId, amount))
  {
    OrderServiceModel.CreateOrderCommitsBoth(so, userId, amount, orderId, eventId, outboxId, t1, false);
  }

  /** Processing an order's event writes a reply row routed to
      payment_completed, and handling the reply's body marks the Pending order
      Paid exactly when the account covered the amount, Failed otherwise. */
  lemma PaymentReplySettlesOrder(
    so: OrdersStore.OrdersState, sp: PaymentsStore.PaymentsState, evt: OrderCreatedEvent,
    replyId: Guid, replyOutboxId: Guid, t2: Timestamp, t3: Timestamp)
    requires so.Valid() && sp.Valid()
    requires evt.orderId in so.orders && so.orders[evt.orderId].status == Pending
    requires evt.eventId !in sp.inbox && FreshId(sp.outbox, replyOutboxId)
    requires replyId !in so.inbox
    requires evt.userId in sp.accounts && evt.amount > 0
    ensures
      var p := PaymentProcessorModel.Process(sp, evt, replyId, replyOutboxId, t2, false);
      && p.result.Success?
      && (p.result.value.success <==> evt.amount <= sp.accounts[evt.userId].balance)
      && var m2 := p.state.outbox[|p.state.outbox| - 1];
         && m2.eventType in PaymentsOutboxPublisher.PaymentRoutes
         && DeliveryOf(m2, PaymentsOutboxPublisher.PaymentRoutes).queue == PaymentCompletedQueue
         && var so2 := PaymentCompletedConsumer.Handle(so, DeliveryOf(m2, PaymentsOutboxPublisher.PaymentRoutes).payload, t3, false);
            && so2.orders[evt.orderId].status == (if evt.amount <= sp.accounts[evt.userId].balance then Paid else Failed)
            && so2.orders[evt.orderId].updatedAt == Some(t3)
  {
    assert replyOutboxId !in OutboxIds(sp.outbox);
    PaymentProcessorModel.ProcessNewEvent(sp, evt, replyId, replyOutboxId, t2, false);
    var p := PaymentProcessorModel.Process(sp, evt, replyId, replyOutboxId, t2, false);
    PaymentCompletedConsumer.HandleNewEvent(so, p.result.value, t3);
  }
}
