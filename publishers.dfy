/** The OrdersService outbox publisher: one iteration of its loop over the
    OrdersService outbox, routing OrderCreatedEvent rows to the order_created
    queue. */
module OrdersOutboxPublisher {
  import opened Common
  import opened OutboxMessages
  import opened Messaging
  import opened OutboxRelay
  import opened OutboxRelayFacts
  import opened OrdersStore

  /** The routing switch: nameof(OrderCreatedEvent) and the literal
      "OrderCreatedEvent" are the same string; every other type routes nowhere. */
  const OrderRoutes: Routes := map[OrderCreatedEventType := OrderCreatedQueue]

  /** Only OrderCreatedEvent rows are ever marked, each by MarkAsPublished, and
      every message goes to the order_created queue. */
  lemma OrdersTickRouting(t: seq<OutboxRow>, fault: TickFault, now: Timestamp)
    requires UniqueIds(t)
    ensures forall i :: 0 <= i < |t| && Tick(t, OrderRoutes, fault, now).table[i] != t[i] ==>
      t[i].eventType == OrderCreatedEventType && !t[i].published
      && Tick(t, OrderRoutes, fault, now).table[i] == MarkPublishedRow(t[i], now)
    ensures forall d :: d in Tick(t, OrderRoutes, fault, now).sent ==> d.queue == OrderCreatedQueue
  {
    var res := Tick(t, OrderRoutes, fault, now);
    var batch := SelectBatch(t);
    TickRows(t, OrderRoutes, fault, now);
    SentOfRoutable(batch, OrderRoutes);
    forall d | d in res.sent ensures d.queue == OrderCreatedQueue {
      var sent := Sent(batch, OrderRoutes);
      if fault.PublishFault? && fault.at < |sent| && batch != [] && fault != ConnectFault {
        assert d in sent;
      }
    }
  }

  /** One iteration of ExecuteAsync: the outbox table moves by one tick, the
      orders and the inbox are untouched, the broker receives the tick's
      messages, and the no-gap invariant is kept. */
  method ExecuteIteration(db: OrdersDb, broker: Broker, fault: TickFault, now: Timestamp)
    requires db.Valid()
    modifies db, broker
    ensures db.Valid()
    ensures db.outbox == Tick(old(db.outbox), OrderRoutes, fault, now).table
    ensures db.orders == old(db.orders) && db.inbox == old(db.inbox)
    ensures broker.log == old(broker.log) + Tick(old(db.outbox), OrderRoutes, fault, now).sent
    ensures broker.acks == old(broker.acks)
    ensures Delivered(old(db.outbox), OrderRoutes, old(broker.log)) ==>
      Delivered(db.outbox, OrderRoutes, broker.log)
  {
    ghost var log0 := broker.log;
    var t := db.outbox;
    TickKeepsTable(t, OrderRoutes, fault, now);
    if Delivered(t, OrderRoutes, log0) {
      TickKeepsDelivered(t, OrderRoutes, fault, now, log0);
    }
    var t' := RunTick(t, OrderRoutes, broker, fault, now);
    db.outbox := t';
  }
}

/** The PaymentsService outbox publisher: one iteration of its loop over the
    PaymentsService outbox, routing PaymentCompletedEvent rows, under either
    of two type names, to the payment_completed queue. */
module PaymentsOutboxPublisher {
  import opened Common
  import opened OutboxMessages
  import opened Messaging
  import opened OutboxRelay
  import opened OutboxRelayFacts
  import opened PaymentsStore

  /** The legacy type name the switch also accepts. */
  const LegacyPaymentCompletedType: string := "PaymentCompleted"

  /** The routing switch: nameof(PaymentCompletedEvent) or "PaymentCompleted";
      every other type routes nowhere. */
  const PaymentRoutes: Routes :=
    map[PaymentCompletedEventType := PaymentCompletedQueue, LegacyPaymentCompletedType := PaymentCompletedQueue]

  /** Only rows of the two payment types are ever marked, each by
      MarkAsPublished, and every message goes to the payment_completed queue. */
  lemma PaymentsTickRouting(t: seq<OutboxRow>, fault: TickFault, now: Timestamp)
    requires UniqueIds(t)
    ensures forall i :: 0 <= i < |t| && Tick(t, PaymentRoutes, fault, now).table[i] != t[i] ==>
      (t[i].eventType == PaymentCompletedEventType || t[i].eventType == LegacyPaymentCompletedType)
      && !t[i].published
      && Tick(t, PaymentRoutes, fault, now).table[i] == MarkPublishedRow(t[i], now)
    ensures forall d :: d in Tick(t, PaymentRoutes, fault, now).sent ==> d.queue == PaymentCompletedQueue
  {
    var res := Tick(t, PaymentRoutes, fault, now);
    var batch := SelectBatch(t);
    assert forall k :: k in PaymentRoutes <==>
      k == PaymentCompletedEventType || k == LegacyPaymentCompletedType;
    assert forall k :: k in PaymentRoutes ==> PaymentRoutes[k] == PaymentCompletedQueue;
    TickRows(t, PaymentRoutes, fault, now);
    SentOfRoutable(batch, PaymentRoutes);
    forall d | d in res.sent ensures d.queue == PaymentCompletedQueue {
      var sent := Sent(batch, PaymentRoutes);
      if fault.PublishFault? && fault.at < |sent| && batch != [] && fault != ConnectFault {
        assert d in sent;
      }
    }
  }

  /** One iteration of ExecuteAsync: the outbox table moves by one tick, the
      accounts and the inbox are untouched, the broker receives the tick's
      messages, and the no-gap invariant is kept. */
  method ExecuteIteration(db: PaymentsDb, broker: Broker, fault: TickFault, now: Timestamp)
    requires db.Valid()
    modifies db, broker
    ensures db.Valid()
    ensures db.outbox == Tick(old(db.outbox), PaymentRoutes, fault, now).table
    ensures db.accounts == old(db.accounts) && db.inbox == old(db.inbox)
    ensures broker.log == old(broker.log) + Tick(old(db.outbox), PaymentRoutes, fault, now).sent
    ensures broker.acks == old(broker.acks)
    ensures Delivered(old(db.outbox), PaymentRoutes, old(broker.log)) ==>
      Delivered(db.outbox, PaymentRoutes, broker.log)
  {
    ghost var log0 := broker.log;
    var t := db.outbox;
    TickKeepsTable(t, PaymentRoutes, fault, now);
    if Delivered(t, PaymentRoutes, log0) {
      TickKeepsDelivered(t, PaymentRoutes, fault, now, log0);
    }
    var t' := RunTick(t, PaymentRoutes, broker, fault, now);
    db.outbox := t';
  }
}
