/** The order lifecycle of OrdersService: Pending, then Paid or Failed for good. */
module Orders {
  import opened Common

  datatype OrderStatus = Pending | Paid | Failed

  /** An order as stored in the Orders table. */
  datatype OrderRow = OrderRow(
    id: Guid, userId: Guid, amount: Amount, status: OrderStatus,
    createdAt: Timestamp, updatedAt: Option<Timestamp>)
  {
    /** UpdatedAt is unset exactly while the order is still Pending. */
    predicate WellFormed() { (status == Pending) == updatedAt.None? }
  }

  /** The fields that no operation may change. */
  predicate SameIdentity(a: OrderRow, b: OrderRow)
  {
    a.id == b.id && a.userId == b.userId && a.amount == b.amount && a.createdAt == b.createdAt
  }

  /** MarkPaid on a stored order. */
  function MarkPaidRow(o: OrderRow, now: Timestamp): (r: OrderRow)
    ensures SameIdentity(r, o)
    ensures o.status == Pending ==> r.status == Paid && r.updatedAt == Some(now)
    ensures o.status != Pending ==> r == o
    ensures o.WellFormed() ==> r.WellFormed()
  {
    if o.status != Pending then o else o.(status := Paid, updatedAt := Some(now))
  }

  /** MarkFailed on a stored order. */
  function MarkFailedRow(o: OrderRow, now: Timestamp): (r: OrderRow)
    ensures SameIdentity(r, o)
    ensures o.status == Pending ==> r.status == Failed && r.updatedAt == Some(now)
    ensures o.status != Pending ==> r == o
    ensures o.WellFormed() ==> r.WellFormed()
  {
    if o.status != Pending then o else o.(status := Failed, updatedAt := Some(now))
  }

  /** One call of MarkPaid or MarkFailed, with the clock reading it takes. */
  datatype MarkCall = MarkPaidCall(at: Timestamp) | MarkFailedCall(at: Timestamp)

  function ApplyMark(o: OrderRow, m: MarkCall): OrderRow
  {
    match m
    case MarkPaidCall(t) => MarkPaidRow(o, t)
    case MarkFailedCall(t) => MarkFailedRow(o, t)
  }

  /** The order after a sequence of Mark calls, first call first. */
  function ApplyMarks(o: OrderRow, ms: seq<MarkCall>): OrderRow
    decreases |ms|
  {
    if ms == [] then o else ApplyMarks(ApplyMark(o, ms[0]), ms[1..])
  }

  /** Paid and Failed are terminal: once an order has left Pending, no sequence
      of Mark calls changes anything, UpdatedAt included. */
  lemma {:induction false} SettledOrderIgnoresMarks(o: OrderRow, ms: seq<MarkCall>)
    requires o.status != Pending
    ensures ApplyMarks(o, ms) == o
    decreases |ms|
  {
    if ms != [] {
      assert ApplyMark(o, ms[0]) == o;
      SettledOrderIgnoresMarks(o, ms[1..]);
    }
  }

  /** From Pending, the first Mark call decides the outcome and its time; the
      later calls change nothing. */
  lemma {:induction false} FirstMarkDecides(o: OrderRow, ms: seq<MarkCall>)
    requires o.status == Pending && ms != []
    ensures ApplyMarks(o, ms) == ApplyMark(o, ms[0])
    ensures ApplyMarks(o, ms).status == if ms[0].MarkPaidCall? then Paid else Failed
    ensures ApplyMarks(o, ms).updatedAt == Some(ms[0].at)
  {
    SettledOrderIgnoresMarks(ApplyMark(o, ms[0]), ms[1..]);
  }

  /** Any sequence of Mark calls keeps the order well formed and its identity. */
  lemma {:induction false} MarksKeepInvariant(o: OrderRow, ms: seq<MarkCall>)
    requires o.WellFormed()
    ensures ApplyMarks(o, ms).WellFormed() && SameIdentity(ApplyMarks(o, ms), o)
    decreases |ms|
  {
    if ms != [] {
      MarksKeepInvariant(ApplyMark(o, ms[0]), ms[1..]);
    }
  }

  /** An order object: identity fields are fixed at construction; the status and
      UpdatedAt change together, and only once. */
  class Order {
    const id: Guid
    const userId: Guid
    const amount: Amount
    var status: OrderStatus
    const createdAt: Timestamp
    var updatedAt: Option<Timestamp>

    ghost predicate Valid()
      reads this
    {
      Row().WellFormed()
    }

    /** The row SaveChanges would store for this object. */
    function Row(): OrderRow
      reads this
    {
      OrderRow(id, userId, amount, status, createdAt, updatedAt)
    }

    /** A new Pending order. `id` stands for Guid.NewGuid() and `now` for
        DateTime.UtcNow. */
    constructor (id: Guid, userId: Guid, amount: Amount, now: Timestamp)
      ensures Valid()
      ensures status == Pending && updatedAt == None
      ensures Row() == OrderRow(id, userId, amount, Pending, now, None)
    {
      this.id := id;
      this.userId := userId;
      this.amount := amount;
      this.status := Pending;
      this.createdAt := now;
      this.updatedAt := None;
    }

    /** The object the store materialises from a row. */
    constructor Load(row: OrderRow)
      requires row.WellFormed()
      ensures Valid() && Row() == row
    {
      id := row.id;
      userId := row.userId;
      amount := row.amount;
      status := row.status;
      createdAt := row.createdAt;
      updatedAt := row.updatedAt;
    }

    /** A Pending order becomes Paid, stamped `now`; any other order is left as is. */
    method MarkPaid(now: Timestamp)
      requires Valid()
      modifies this
      ensures Valid()
      ensures old(status) == Pending ==> status == Paid && updatedAt == Some(now)
      ensures old(status) != Pending ==> status == old(status) && updatedAt == old(updatedAt)
      ensures Row() == MarkPaidRow(old(Row()), now)
    {
      if status != Pending {
        return;
      }
      status := Paid;
      updatedAt := Some(now);
    }

    /** A Pending order becomes Failed, stamped `now`; any other order is left as is. */
    method MarkFailed(now: Timestamp)
      requires Valid()
      modifies this
      ensures Valid()
      ensures old(status) == Pending ==> status == Failed && updatedAt == Some(now)
      ensures old(status) != Pending ==> status == old(status) && updatedAt == old(updatedAt)
      ensures Row() == MarkFailedRow(old(Row()), now)
    {
      if status != Pending {
        return;
      }
      status := Failed;
      updatedAt := Some(now);
    }
  }
}
