/** The account ledger of PaymentsService: a balance that Credit raises and
    TryDebit lowers, never below zero. */
module Accounts {
  import opened Common

  /** An account as stored in the Accounts table. */
  datatype AccountRow = AccountRow(id: Guid, userId: Guid, balance: Amount, createdAt: Timestamp)
  {
    /** The ledger invariant: the balance is never negative. */
    predicate WellFormed() { balance >= 0 }
  }

  /** What TryDebit reports, with the account it leaves behind. */
  datatype Debit = Debit(ok: bool, account: AccountRow)

  /** Credit on a stored account: a non-positive amount is rejected, any other
      amount is added to the balance. */
  function CreditRow(a: AccountRow, amount: Amount): (r: Result<AccountRow, Error>)
    ensures r.Success? <==> amount > 0
    ensures r.Failure? ==> r.error == NonPositiveAmount
    ensures r.Success? ==> r.value.balance == a.balance + amount && r.value.(balance := a.balance) == a
  {
    if amount <= 0 then Failure(NonPositiveAmount)
    else Success(a.(balance := a.balance + amount))
  }

  /** TryDebit on a stored account: a non-positive amount is rejected, an amount
      above the balance is refused, any other amount is taken off. */
  function DebitRow(a: AccountRow, amount: Amount): (r: Result<Debit, Error>)
    ensures r.Success? <==> amount > 0
    ensures r.Failure? ==> r.error == NonPositiveAmount
    ensures r.Success? ==> r.value.account.(balance := a.balance) == a
    ensures r.Success? && !r.value.ok ==> r.value.account == a
  {
    if amount <= 0 then Failure(NonPositiveAmount)
    else if a.balance < amount then Success(Debit(false, a))
    else Success(Debit(true, a.(balance := a.balance - amount)))
  }

  /** Both operations keep the ledger invariant and the account's identity. */
  lemma LedgerInvariantKept(a: AccountRow, amount: Amount)
    requires a.WellFormed()
    ensures CreditRow(a, amount).Success? ==>
      var c := CreditRow(a, amount).value;
      c.WellFormed() && c.id == a.id && c.userId == a.userId && c.createdAt == a.createdAt
    ensures DebitRow(a, amount).Success? ==>
      var d := DebitRow(a, amount).value.account;
      d.WellFormed() && d.id == a.id && d.userId == a.userId && d.createdAt == a.createdAt
  {
  }

  /** A debit succeeds exactly when the amount is positive and covered, and then
      takes off exactly that amount; otherwise the balance stays. */
  lemma DebitNeverOverdraws(a: AccountRow, amount: Amount)
    requires DebitRow(a, amount).Success?
    ensures DebitRow(a, amount).value.ok <==> a.balance >= amount
    ensures DebitRow(a, amount).value.account.balance ==
      if a.balance >= amount then a.balance - amount else a.balance
    ensures DebitRow(a, amount).value.account.balance >= 0 <== a.balance >= 0
  {
  }

  /** A debit undoes the credit of the same amount, and the other way round. */
  lemma CreditDebitInverse(a: AccountRow, amount: Amount)
    requires a.WellFormed() && amount > 0
    ensures DebitRow(CreditRow(a, amount).value, amount) == Success(Debit(true, a))
    ensures a.balance >= amount ==>
      CreditRow(DebitRow(a, amount).value.account, amount) == Success(a)
  {
    var c := CreditRow(a, amount).value;
    assert c.(balance := c.balance - amount) == a;
  }

  /** An account object: the identity fields are fixed at construction, only the
      balance changes. */
  class Account {
    const id: Guid
    const userId: Guid
    var balance: Amount
    const createdAt: Timestamp

    ghost predicate Valid()
      reads this
    {
      balance >= 0
    }

    /** The row SaveChanges would store for this object. */
    function Row(): AccountRow
      reads this
    {
      AccountRow(id, userId, balance, createdAt)
    }

    /** A new account for the user, empty. `id` stands for Guid.NewGuid() and
        `now` for DateTime.UtcNow. */
    constructor (id: Guid, userId: Guid, now: Timestamp)
      ensures Valid()
      ensures Row() == AccountRow(id, userId, 0, now)
    {
      this.id := id;
      this.userId := userId;
      this.balance := 0;
      this.createdAt := now;
    }

    /** The object the store materialises from a row, through the private
        constructor kept for it. */
    constructor Load(row: AccountRow)
      requires row.WellFormed()
      ensures Valid() && Row() == row
    {
      id := row.id;
      userId := row.userId;
      balance := row.balance;
      createdAt := row.createdAt;
    }

    /** Adds a positive amount; a non-positive one throws and changes nothing. */
    method Credit(amount: Amount) returns (r: Outcome<Error>)
      requires Valid()
      modifies this
      ensures Valid()
      ensures r == (if amount <= 0 then Fail(NonPositiveAmount) else Pass)
      ensures balance == if amount <= 0 then old(balance) else old(balance) + amount
      ensures r.Pass? ==> Row() == CreditRow(old(Row()), amount).value
    {
      if amount <= 0 {
        return Fail(NonPositiveAmount);
      }
      balance := balance + amount;
      r := Pass;
    }

    /** Takes off a positive amount when the balance covers it and reports
        whether it did; a non-positive amount throws and changes nothing. */
    method TryDebit(amount: Amount) returns (r: Result<bool, Error>)
      requires Valid()
      modifies this
      ensures Valid()
      ensures r.Failure? <==> amount <= 0
      ensures r.Failure? ==> r.error == NonPositiveAmount
      ensures r == Success(true) <==> 0 < amount <= old(balance)
      ensures balance == if r == Success(true) then old(balance) - amount else old(balance)
      ensures r.Success? ==> DebitRow(old(Row()), amount) == Success(Debit(r.value, Row()))
    {
      if amount <= 0 {
        return Failure(NonPositiveAmount);
      }
      if balance < amount {
        return Success(false);
      }
      balance := balance - amount;
      r := Success(true);
    }
  }

  /** The scenario of a ledger at 100.00: debiting 50.00 succeeds and leaves
      50.00, then debiting 100.00 is refused and leaves 50.00. */
  lemma DebitScenario(a: AccountRow)
    requires a.balance == 10000
    ensures DebitRow(a, 5000) == Success(Debit(true, a.(balance := 5000)))
    ensures DebitRow(a.(balance := 5000), 10000) == Success(Debit(false, a.(balance := 5000)))
  {
  }
}
