/** OrderService of OrdersService: creating an order together with its
    OrderCreatedEvent outbox row in one SaveChanges, and the two queries. */
module OrderServiceModel {
  import opened Common
  import opened Orders
  import opened OutboxMessages
  import opened OrdersStore

  /** The committed state after a call and what the call returns. */
  datatype CreateReply = CreateReply(state: OrdersState, result: Result<Guid, Error>)

  /** The outbox row that announces a new order. */
  function OrderCreatedRow(outboxId: Guid, eventId: Guid, orderId: Guid, userId: Guid, amount: Amount, now: Timestamp): OutboxRow
  {
    OutboxRow(outboxId, OrderCreatedEventType,
      SerializeOrderCreated(OrderCreatedEvent(eventId, orderId, userId, amount)), now, false, None)
  }

  /** CreateOrderAsync on the committed state. `orderId`, `eventId` and
      `outboxId` stand for the three Guid.NewGuid() calls, `now` for
      DateTime.UtcNow; `storeFails` says that SaveChangesAsync throws. A key
      already in use makes SaveChangesAsync throw as well. */
  function CreateOrder(s: OrdersState, userId: Guid, amount: Amount, orderId: Guid, eventId: Guid,
                       outboxId: Guid, now: Timestamp, storeFails: bool): (r: CreateReply)
    ensures r.result.Success? <==> !storeFails && orderId !in s.orders && FreshId(s.outbox, outboxId)
    ensures r.result.Failure? ==> r.state == s && r.result.error == StoreFailure
    ensures r.result.Success? ==>
      && r.result.value == orderId
      && r.state.orders.Keys == s.orders.Keys + {orderId}
      && |r.state.outbox| == |s.outbox| + 1
    ensures r.state.inbox == s.inbox
  {
    if storeFails || orderId in s.orders || outboxId in OutboxIds(s.outbox) then
      CreateReply(s, Failure(StoreFailure))
    else
      CreateReply(
        s.(orders := s.orders[orderId := OrderRow(orderId, userId, amount, Pending, now, None)],
           outbox := s.outbox + [OrderCreatedRow(outboxId, eventId, orderId, userId, amount, now)]),
        Success(orderId))
  }

  /** GetOrdersAsync: the orders of one user (as a set; the query has no order). */
  function OrdersOf(s: OrdersState, userId: Guid): (r: set<OrderRow>)
    ensures forall id :: id in s.orders && s.orders[id].userId == userId ==> s.orders[id] in r
    ensures forall o :: o in r ==> o.userId == userId && exists id :: id in s.orders && s.orders[id] == o
  {
    set id | id in s.orders && s.orders[id].userId == userId :: s.orders[id]
  }

  /** GetOrderStatusAsync: the status of an order, or nothing when there is no
      such order. */
  function StatusOf(s: OrdersState, orderId: Guid): (r: Option<OrderStatus>)
    ensures r.Some? <==> orderId in s.orders
    ensures r.Some? ==> r.value == s.orders[orderId].status
  {
    if orderId in s.orders then Some(s.orders[orderId].status) else None
  }

  /** The order and its outbox row are committed together or not at all; the
      new order is Pending with the caller's user and amount, the new outbox row
      is an unpublished OrderCreatedEvent whose payload reads back as the event
      for that order; nothing that existed changes; the store stays valid. */
  lemma CreateOrderCommitsBoth(s: OrdersState, userId: Guid, amount: Amount, orderId: Guid, eventId: Guid,
                               outboxId: Guid, now: Timestamp, storeFails: bool)
    requires s.Valid()
    ensures var r := CreateOrder(s, userId, amount, orderId, eventId, outboxId, now, storeFails);
      && r.state.Valid()
      && r.state.inbox == s.inbox
      && (r.result.Failure? ==> r.state == s && r.result.error == StoreFailure)
      && (r.result.Success? <==> !storeFails && orderId !in s.orders && FreshId(s.outbox, outboxId))
      && (r.result.Success? ==>
            && r.result.value == orderId
            && r.state.orders.Keys == s.orders.Keys + {orderId}
            && (forall id :: id in s.orders ==> r.state.orders[id] == s.orders[id])
            && r.state.orders[orderId] == OrderRow(orderId, userId, amount, Pending, now, None)
            && |r.state.outbox| == |s.outbox| + 1
            && r.state.outbox[..|s.outbox|] == s.outbox
            && var m := r.state.outbox[|s.outbox|];
               m.id == outboxId && m.eventType == OrderCreatedEventType && !m.published
               && DeserializeOrderCreated(m.payload) == Some(OrderCreatedEvent(eventId, orderId, userId, amount)))
  {
    var r := CreateOrder(s, userId, amount, orderId, eventId, outboxId, now, storeFails);
    if r.result.Success? {
      var m := OrderCreatedRow(outboxId, eventId, orderId, userId, amount, now);
      AppendKeepsTable(s.outbox, m);
      assert r.state.outbox[..|s.outbox|] == s.outbox;
    }
  }

  /** After a successful creation, the queries see the new order and nothing
      else changes for them: its status is Pending, it is listed for its user
      and for no one else, and every other order keeps its status. */
  lemma CreatedOrderIsVisible(s: OrdersState, userId: Guid, amount: Amount, orderId: Guid, eventId: Guid,
                              outboxId: Guid, now: Timestamp)
    requires CreateOrder(s, userId, amount, orderId, eventId, outboxId, now, false).result.Success?
    requires s.Valid()
    ensures var s' := CreateOrder(s, userId, amount, orderId, eventId, outboxId, now, false).state;
      && StatusOf(s', orderId) == Some(Pending)
      && (forall id :: id != orderId ==> StatusOf(s', id) == StatusOf(s, id))
      && OrdersOf(s', userId) == OrdersOf(s, userId) + {OrderRow(orderId, userId, amount, Pending, now, None)}
      && (forall u :: u != userId ==> OrdersOf(s', u) == OrdersOf(s, u))
  {
    var s' := CreateOrder(s, userId, amount, orderId, eventId, outboxId, now, false).state;
    var o := OrderRow(orderId, userId, amount, Pending, now, None);
    assert s'.orders == s.orders[orderId := o];
    forall u ensures OrdersOf(s', u) == OrdersOf(s, u) + (if u == userId then {o} else {}) {
      forall q | q in OrdersOf(s', u) ensures q in OrdersOf(s, u) + (if u == userId then {o} else {}) {
        var id :| id in s'.orders && s'.orders[id] == q;
        if id != orderId {
          assert q in s.orders.Values;
        }
      }
      forall q | q in OrdersOf(s, u) ensures q in OrdersOf(s', u) {
        var id :| id in s.orders && s.orders[id] == q;
        assert id != orderId;
        assert s'.orders[id] == q;
      }
      if u == userId {
        assert s'.orders[orderId] == o;
      }
    }
  }

  /** The service object: every call works on the one database context. */
  class OrderService {
    const db: OrdersDb

    constructor (db: OrdersDb)
      ensures this.db == db
    {
      this.db := db;
    }

    /** Adds a Pending order and the event announcing it, and saves both at
        once; returns the new order's id. */
    method CreateOrderAsync(userId: Guid, amount: Amount, orderId: Guid, eventId: Guid,
                            outboxId: Guid, now: Timestamp, storeFails: bool)
      returns (r: Result<Guid, Error>)
      requires db.Valid()
      modifies db
      ensures db.Valid()
      ensures db.State() == CreateOrder(old(db.State()), userId, amount, orderId, eventId, outboxId, now, storeFails).state
      ensures r == CreateOrder(old(db.State()), userId, amount, orderId, eventId, outboxId, now, storeFails).result
    {
      CreateOrderCommitsBoth(db.State(), userId, amount, orderId, eventId, outboxId, now, storeFails);
      var order := new Order(orderId, userId, amount, now);
      var evt := OrderCreatedEvent(eventId, order.id, userId, amount);
      var payload := SerializeOrderCreated(evt);
      var message := new OutboxMessage(outboxId, OrderCreatedEventType, payload, now);
      if storeFails || order.id in db.orders || message.id in OutboxIds(db.outbox) {
        return Failure(StoreFailure);
      }
      db.orders := db.orders[order.id := order.Row()];
      db.outbox := db.outbox + [message.Row()];
      r := Success(order.id);
    }
  }
}
