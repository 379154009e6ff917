/** The committed contents of the OrdersService database: orders by id, the
    inbox by event id and the outbox in insertion order. */
module OrdersStore {
  import opened Common
  import opened Orders
  import opened OutboxMessages

  datatype OrdersState = OrdersState(
    orders: map<Guid, OrderRow>, inbox: map<Guid, InboxRow>, outbox: seq<OutboxRow>)
  {
    /** Keys match row ids, every order and outbox row is well formed, outbox
        ids are unique. */
    ghost predicate Valid()
    {
      && (forall id :: id in orders ==> orders[id].id == id && orders[id].WellFormed())
      && InboxKeyed(inbox)
      && TableWellFormed(outbox)
    }
  }

  /** The tables as committed by the last successful SaveChanges. */
  class OrdersDb {
    var orders: map<Guid, OrderRow>
    var inbox: map<Guid, InboxRow>
    var outbox: seq<OutboxRow>

    function State(): OrdersState
      reads this
    {
      OrdersState(orders, inbox, outbox)
    }

    ghost predicate Valid()
      reads this
    {
      State().Valid()
    }

    constructor ()
      ensures Valid() && State() == OrdersState(map[], map[], [])
    {
      orders, inbox, outbox := map[], map[], [];
    }
  }
}

/** The committed contents of the PaymentsService database: accounts by user
    (the unique index on UserId), the inbox by event id and the outbox. */
module PaymentsStore {
  import opened Common
  import opened Accounts
  import opened OutboxMessages

  datatype PaymentsState = PaymentsState(
    accounts: map<Guid, AccountRow>, inbox: map<Guid, InboxRow>, outbox: seq<OutboxRow>)
  {
    /** Each user's account is filed under that user, no balance is negative,
        outbox ids are unique. */
    ghost predicate Valid()
    {
      && (forall u :: u in accounts ==> accounts[u].userId == u && accounts[u].WellFormed())
      && InboxKeyed(inbox)
      && TableWellFormed(outbox)
    }
  }

  /** Every user other than `userId` has the same account, or still none:
      no other account was changed, added or removed. */
  ghost predicate OthersUnchanged(before: map<Guid, AccountRow>, after: map<Guid, AccountRow>, userId: Guid)
  {
    forall u :: u != userId ==> (u in after <==> u in before) && (u in before ==> after[u] == before[u])
  }

  class PaymentsDb {
    var accounts: map<Guid, AccountRow>
    var inbox: map<Guid, InboxRow>
    var outbox: seq<OutboxRow>

    function State(): PaymentsState
      reads this
    {
      PaymentsState(accounts, inbox, outbox)
    }

    ghost predicate Valid()
      reads this
    {
      State().Valid()
    }

    constructor ()
      ensures Valid() && State() == PaymentsState(map[], map[], [])
    {
      accounts, inbox, outbox := map[], map[], [];
    }
  }
}
