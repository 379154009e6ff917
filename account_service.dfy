/** AccountService of PaymentsService: idempotent account creation, the
    balance query, top-up and withdrawal, each over the Accounts table keyed by
    user. */
module AccountServiceModel {
  import opened Common
  import opened Accounts
  import opened PaymentsStore

  /** The committed state after a call and what the call returns. */
  datatype Reply<+R> = Reply(state: PaymentsState, result: R)

  /** CreateAccountAsync: nothing happens when the user already has an account;
      otherwise an empty account is added. `accountId` stands for
      Guid.NewGuid(), `now` for DateTime.UtcNow, `storeFails` for a throwing
      SaveChangesAsync. */
  function CreateAccount(s: PaymentsState, userId: Guid, accountId: Guid, now: Timestamp, storeFails: bool)
    : (r: Reply<Outcome<Error>>)
    ensures r.result == Pass <==> userId in s.accounts || !storeFails
    ensures r.result == Pass ==> userId in r.state.accounts
    ensures userId in s.accounts || r.result.Fail? ==> r.state == s
    ensures userId !in s.accounts && r.result == Pass ==> r.state.accounts[userId].balance == 0
    ensures OthersUnchanged(s.accounts, r.state.accounts, userId)
    ensures r.state.inbox == s.inbox && r.state.outbox == s.outbox
  {
    if userId in s.accounts then Reply(s, Pass)
    else if storeFails then Reply(s, Fail(StoreFailure))
    else Reply(s.(accounts := s.accounts[userId := AccountRow(accountId, userId, 0, now)]), Pass)
  }

  /** GetBalanceAsync: the user's balance, or 0 when the user has no account. */
  function Balance(s: PaymentsState, userId: Guid): (b: Amount)
    ensures userId !in s.accounts ==> b == 0
    ensures userId in s.accounts ==> b == s.accounts[userId].balance
    ensures s.Valid() ==> b >= 0
  {
    if userId in s.accounts then s.accounts[userId].balance else 0
  }

  /** TopUpAsync: a missing account throws InvalidOperationException, a
      non-positive amount makes Credit throw; otherwise the credited account is
      saved. */
  function TopUp(s: PaymentsState, userId: Guid, amount: Amount, storeFails: bool): (r: Reply<Outcome<Error>>)
    ensures r.result.Fail? ==> r.state == s
    ensures r.state.accounts.Keys == s.accounts.Keys
    ensures OthersUnchanged(s.accounts, r.state.accounts, userId)
    ensures r.state.inbox == s.inbox && r.state.outbox == s.outbox
  {
    if userId !in s.accounts then Reply(s, Fail(AccountNotFound))
    else match CreditRow(s.accounts[userId], amount)
      case Failure(e) => Reply(s, Fail(e))
      case Success(a) =>
        if storeFails then Reply(s, Fail(StoreFailure))
        else Reply(s.(accounts := s.accounts[userId := a]), Pass)
  }

  /** TryWithdrawAsync: false for a missing account or an uncovered amount,
      TryDebit's exception for a non-positive amount, and true after the debited
      account is saved. */
  function TryWithdraw(s: PaymentsState, userId: Guid, amount: Amount, storeFails: bool): (r: Reply<Result<bool, Error>>)
    ensures r.result != Success(true) ==> r.state == s
    ensures r.state.accounts.Keys == s.accounts.Keys
    ensures OthersUnchanged(s.accounts, r.state.accounts, userId)
    ensures r.state.inbox == s.inbox && r.state.outbox == s.outbox
  {
    if userId !in s.accounts then Reply(s, Success(false))
    else match DebitRow(s.accounts[userId], amount)
      case Failure(e) => Reply(s, Failure(e))
      case Success(d) =>
        if !d.ok then Reply(s, Success(false))
        else if storeFails then Reply(s, Failure(StoreFailure))
        else Reply(s.(accounts := s.accounts[userId := d.account]), Success(true))
  }

  /** Creating an account is idempotent: the user ends up with exactly one
      account, empty when it is new, and a second call changes nothing. Other
      users' accounts and the other tables are untouched. */
  lemma CreateAccountIdempotent(s: PaymentsState, userId: Guid, id1: Guid, id2: Guid,
                                t1: Timestamp, t2: Timestamp, fails: bool)
    requires s.Valid()
    ensures var r := CreateAccount(s, userId, id1, t1, false);
      && r.result == Pass && r.state.Valid()
      && userId in r.state.accounts
      && (userId !in s.accounts ==> r.state.accounts[userId] == AccountRow(id1, userId, 0, t1))
      && (userId in s.accounts ==> r.state == s)
      && CreateAccount(r.state, userId, id2, t2, fails) == Reply(r.state, Pass)
      && r.state.inbox == s.inbox && r.state.outbox == s.outbox
      && OthersUnchanged(s.accounts, r.state.accounts, userId)
  {
  }

  /** Top-up adds exactly the amount to the user's balance, or fails and changes
      nothing: AccountNotFound for a missing account (whatever the amount),
      NonPositiveAmount for a non-positive amount. Other users are untouched. */
  lemma TopUpAddsExactly(s: PaymentsState, userId: Guid, amount: Amount, storeFails: bool)
    requires s.Valid()
    ensures var r := TopUp(s, userId, amount, storeFails);
      && r.state.Valid()
      && (r.result == Pass <==> userId in s.accounts && amount > 0 && !storeFails)
      && (r.result == Pass ==> Balance(r.state, userId) == Balance(s, userId) + amount)
      && (r.result == Pass ==>
            r.state.accounts == s.accounts[userId := s.accounts[userId].(balance := s.accounts[userId].balance + amount)])
      && (r.result.Fail? ==> r.state == s)
      && (userId !in s.accounts ==> r.result == Fail(AccountNotFound))
      && (userId in s.accounts && amount <= 0 ==> r.result == Fail(NonPositiveAmount))
      && OthersUnchanged(s.accounts, r.state.accounts, userId)
      && r.state.accounts.Keys == s.accounts.Keys
      && r.state.inbox == s.inbox && r.state.outbox == s.outbox
  {
    if userId in s.accounts {
      LedgerInvariantKept(s.accounts[userId], amount);
    }
  }

  /** Withdrawal returns true exactly when the user has an account covering a
      positive amount and the save succeeds, and then takes off exactly that
      amount; every other outcome changes nothing. No balance goes negative. */
  lemma WithdrawNeverOverdraws(s: PaymentsState, userId: Guid, amount: Amount, storeFails: bool)
    requires s.Valid()
    ensures var r := TryWithdraw(s, userId, amount, storeFails);
      && r.state.Valid()
      && (r.result == Success(true) <==>
            userId in s.accounts && 0 < amount <= Balance(s, userId) && !storeFails)
      && (r.result == Success(true) ==> Balance(r.state, userId) == Balance(s, userId) - amount)
      && (r.result == Success(true) ==>
            r.state.accounts == s.accounts[userId := s.accounts[userId].(balance := s.accounts[userId].balance - amount)])
      && (r.result != Success(true) ==> r.state == s)
      && (r.result == Failure(NonPositiveAmount) <==> userId in s.accounts && amount <= 0)
      && (userId !in s.accounts ==> r.result == Success(false))
      && OthersUnchanged(s.accounts, r.state.accounts, userId)
      && r.state.accounts.Keys == s.accounts.Keys
      && r.state.inbox == s.inbox && r.state.outbox == s.outbox
  {
    if userId in s.accounts {
      LedgerInvariantKept(s.accounts[userId], amount);
    }
  }

  /** A withdrawal of what was just topped up restores the original state. */
  lemma TopUpThenWithdrawRestores(s: PaymentsState, userId: Guid, amount: Amount)
    requires s.Valid() && userId in s.accounts && amount > 0
    ensures TopUp(s, userId, amount, false).result == Pass
    ensures TryWithdraw(TopUp(s, userId, amount, false).state, userId, amount, false) == Reply(s, Success(true))
  {
    var a := s.accounts[userId];
    CreditDebitInverse(a, amount);
    assert s.accounts[userId := a] == s.accounts;
  }

  /** The service object: every call works on the one database context. */
  class AccountService {
    const db: PaymentsDb

    constructor (db: PaymentsDb)
      ensures this.db == db
    {
      this.db := db;
    }

    method CreateAccountAsync(userId: Guid, accountId: Guid, now: Timestamp, storeFails: bool)
      returns (r: Outcome<Error>)
      requires db.Valid()
      modifies db
      ensures db.Valid()
      ensures Reply(db.State(), r) == CreateAccount(old(db.State()), userId, accountId, now, storeFails)
    {
      if userId in db.accounts {
        return Pass;
      }
      var account := new Account(accountId, userId, now);
      if storeFails {
        return Fail(StoreFailure);
      }
      db.accounts := db.accounts[userId := account.Row()];
      r := Pass;
    }

    method TopUpAsync(userId: Guid, amount: Amount, storeFails: bool) returns (r: Outcome<Error>)
      requires db.Valid()
      modifies db
      ensures db.Valid()
      ensures Reply(db.State(), r) == TopUp(old(db.State()), userId, amount, storeFails)
    {
      if userId !in db.accounts {
        return Fail(AccountNotFound);
      }
      var account := new Account.Load(db.accounts[userId]);
      var credited := account.Credit(amount);
      if credited.Fail? {
        return credited;
      }
      if storeFails {
        return Fail(StoreFailure);
      }
      db.accounts := db.accounts[userId := account.Row()];
      r := Pass;
    }

    method TryWithdrawAsync(userId: Guid, amount: Amount, storeFails: bool) returns (r: Result<bool, Error>)
      requires db.Valid()
      modifies db
      ensures db.Valid()
      ensures Reply(db.State(), r) == TryWithdraw(old(db.State()), userId, amount, storeFails)
    {
      if userId !in db.accounts {
        return Success(false);
      }
      var account := new Account.Load(db.accounts[userId]);
      var debited := account.TryDebit(amount);
      if debited.Failure? {
        return debited;
      }
      if !debited.value {
        return Success(false);
      }
      if storeFails {
        return Failure(StoreFailure);
      }
      db.accounts := db.accounts[userId := account.Row()];
      r := Success(true);
    }
  }
}
