/** The Received handler of OrdersService's PaymentCompletedConsumerService:
    read the PaymentCompletedEvent, skip it if the inbox has it, otherwise
    settle the order and record the event in one SaveChanges; acknowledge the
    delivery on every path. */
module PaymentCompletedConsumer {
  import opened Common
  import opened Orders
  import opened OrdersStore
  import opened Messaging

  /** The order after a payment result: MarkPaid on success, MarkFailed otherwise. */
  function Settle(o: OrderRow, success: bool, now: Timestamp): OrderRow
  {
    if success then MarkPaidRow(o, now) else MarkFailedRow(o, now)
  }

  /** The handler on the committed state: what SaveChanges commits, or the state
      unchanged when the body does not read as a PaymentCompletedEvent, when the
      event is a duplicate, or when a store call throws (`storeFails`). */
  function Handle(s: OrdersState, body: Payload, now: Timestamp, storeFails: bool): (s': OrdersState)
    ensures s'.outbox == s.outbox && s'.orders.Keys == s.orders.Keys
    ensures forall id :: id in s.orders ==> SameIdentity(s'.orders[id], s.orders[id])
    ensures forall id :: id in s.inbox ==> id in s'.inbox && s'.inbox[id] == s.inbox[id]
    ensures DeserializePaymentCompleted(body).Some? && !storeFails ==>
      DeserializePaymentCompleted(body).value.eventId in s'.inbox
  {
    match DeserializePaymentCompleted(body)
    case None => s
    case Some(evt) =>
      if evt.eventId in s.inbox || storeFails then s
      else
        var orders :=
          if evt.orderId in s.orders then s.orders[evt.orderId := Settle(s.orders[evt.orderId], evt.success, now)]
          else s.orders;
        s.(orders := orders, inbox := s.inbox[evt.eventId := InboxRow(evt.eventId, PaymentCompletedEventType, now)])
  }

  /** A new event settles its order if that order exists, always records the
      event in the inbox, and touches no other order and not the outbox; the
      store stays valid. */
  lemma HandleNewEvent(s: OrdersState, evt: PaymentCompletedEvent, now: Timestamp)
    requires s.Valid() && evt.eventId !in s.inbox
    ensures var s' := Handle(s, SerializePaymentCompleted(evt), now, false);
      && s'.Valid()
      && s'.inbox == s.inbox[evt.eventId := InboxRow(evt.eventId, PaymentCompletedEventType, now)]
      && s'.outbox == s.outbox
      && s'.orders.Keys == s.orders.Keys
      && (forall id :: id in s.orders && id != evt.orderId ==> s'.orders[id] == s.orders[id])
      && (evt.orderId in s.orders && s.orders[evt.orderId].status == Pending ==>
            s'.orders[evt.orderId].status == (if evt.success then Paid else Failed)
            && s'.orders[evt.orderId].updatedAt == Some(now))
      && (evt.orderId in s.orders && s.orders[evt.orderId].status != Pending ==>
            s'.orders[evt.orderId] == s.orders[evt.orderId])
  {
    if evt.orderId in s.orders {
      var o := s.orders[evt.orderId];
      MarksKeepInvariant(o, [if evt.success then MarkPaidCall(now) else MarkFailedCall(now)]);
    }
  }

  /** A delivery that is a duplicate, unreadable or hit by a store failure
      changes nothing; in the last case the event is lost, since the handler
      acknowledges it anyway. */
  lemma HandleWithoutEffect(s: OrdersState, body: Payload, now: Timestamp, storeFails: bool)
    requires storeFails
      || DeserializePaymentCompleted(body).None?
      || DeserializePaymentCompleted(body).value.eventId in s.inbox
    ensures Handle(s, body, now, storeFails) == s
  {
  }

  /** Delivering the same message twice gives the same orders and inbox as
      delivering it once. */
  lemma HandleTwiceIsOnce(s: OrdersState, body: Payload, t1: Timestamp, t2: Timestamp, fails2: bool)
    ensures Handle(Handle(s, body, t1, false), body, t2, fails2) == Handle(s, body, t1, false)
  {
    match DeserializePaymentCompleted(body)
    case None =>
    case Some(evt) =>
      assert evt.eventId in Handle(s, body, t1, false).inbox;
  }

  /** Two different payment results for the same Pending order: the first one
      decides the order's status and time, the second changes nothing. */
  lemma FirstResultWins(s: OrdersState, e1: PaymentCompletedEvent, e2: PaymentCompletedEvent,
                        t1: Timestamp, t2: Timestamp)
    requires e1.orderId == e2.orderId && e1.orderId in s.orders && s.orders[e1.orderId].status == Pending
    requires e1.eventId !in s.inbox && e2.eventId !in s.inbox && e1.eventId != e2.eventId
    ensures var s2 := Handle(Handle(s, SerializePaymentCompleted(e1), t1, false), SerializePaymentCompleted(e2), t2, false);
      && s2.orders[e1.orderId].status == (if e1.success then Paid else Failed)
      && s2.orders[e1.orderId].updatedAt == Some(t1)
      && e1.eventId in s2.inbox && e2.eventId in s2.inbox
  {
    var o := s.orders[e1.orderId];
    var m1 := if e1.success then MarkPaidCall(t1) else MarkFailedCall(t1);
    var m2 := if e2.success then MarkPaidCall(t2) else MarkFailedCall(t2);
    FirstMarkDecides(o, [m1, m2]);
    assert [m1, m2][1..] == [m2];
  }

  /** The consumer: the channel is opened once and shared by every delivery. */
  class PaymentCompletedConsumerService {
    const db: OrdersDb
    const channel: Broker

    constructor (db: OrdersDb, channel: Broker)
      ensures this.db == db && this.channel == channel
    {
      this.db := db;
      this.channel := channel;
    }

    /** Handles one delivery and acknowledges its tag exactly once, whatever
        happens; nothing is published and nothing is requeued. */
    method Received(tag: nat, body: Payload, now: Timestamp, storeFails: bool)
      requires db.Valid()
      modifies db, channel
      ensures db.Valid()
      ensures db.State() == Handle(old(db.State()), body, now, storeFails)
      ensures channel.acks == old(channel.acks) + [tag]
      ensures channel.log == old(channel.log)
    {
      var parsed := DeserializePaymentCompleted(body);
      if parsed.None? {
        channel.Ack(tag);
        return;
      }
      var evt := parsed.value;
      if evt.eventId in db.inbox {
        channel.Ack(tag);
        return;
      }
      HandleNewEvent(db.State(), evt, now);
      var orders := db.orders;
      if evt.orderId in db.orders {
        var order := new Order.Load(db.orders[evt.orderId]);
        if evt.success {
          order.MarkPaid(now);
        } else {
          order.MarkFailed(now);
        }
        orders := orders[evt.orderId := order.Row()];
      }
      var inboxRow := InboxRow(evt.eventId, PaymentCompletedEventType, now);
      if storeFails {
        channel.Ack(tag);
        return;
      }
      db.orders, db.inbox := orders, db.inbox[evt.eventId := inboxRow];
      channel.Ack(tag);
    }
  }
}
