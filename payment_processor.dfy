/** PaymentProcessor of PaymentsService: handles an OrderCreatedEvent once,
    debiting the user's account and writing the inbox row and the
    PaymentCompletedEvent outbox row in one SaveChanges. */
module PaymentProcessorModel {
  import opened Common
  import opened Accounts
  import opened OutboxMessages
  import opened PaymentsStore
  import AccountServiceModel

  /** The committed state after a call and what the call returns. */
  datatype Processed = Processed(state: PaymentsState, result: Result<PaymentCompletedEvent, Error>)

  /** The reply to an event, with the outcome of the debit. */
  function ReplyEvent(evt: OrderCreatedEvent, replyId: Guid, success: bool): PaymentCompletedEvent
  {
    PaymentCompletedEvent(replyId, evt.orderId, evt.userId, success, evt.amount)
  }

  /** The outbox row carrying a reply. */
  function PaymentCompletedRow(outboxId: Guid, reply: PaymentCompletedEvent, now: Timestamp): OutboxRow
  {
    OutboxRow(outboxId, PaymentCompletedEventType, SerializePaymentCompleted(reply), now, false, None)
  }

  /** ProcessOrderCreatedAsync on the committed state. `replyId` and `outboxId`
      stand for Guid.NewGuid(), `now` for DateTime.UtcNow, `storeFails` for a
      throwing SaveChangesAsync (an outbox id already in use makes it throw as
      well). An event already in the inbox is answered with success and
      changes nothing; a user without an account gets a failed payment; a
      non-positive amount makes TryDebit throw before anything is saved. */
  function Process(s: PaymentsState, evt: OrderCreatedEvent, replyId: Guid, outboxId: Guid,
                   now: Timestamp, storeFails: bool): (r: Processed)
    ensures r.result.Failure? ==> r.state == s
    ensures r.result.Success? ==>
      && r.result.value.orderId == evt.orderId && r.result.value.userId == evt.userId
      && r.result.value.amount == evt.amount
      && evt.eventId in r.state.inbox
    ensures evt.eventId !in s.inbox && r.result.Success? ==> |r.state.outbox| == |s.outbox| + 1
    ensures evt.eventId in s.inbox ==> r.state == s
    ensures r.state.accounts.Keys == s.accounts.Keys
    ensures OthersUnchanged(s.accounts, r.state.accounts, evt.userId)
  {
    if evt.eventId in s.inbox then Processed(s, Success(ReplyEvent(evt, replyId, true)))
    else
      var debit :=
        if evt.userId !in s.accounts then Success(Debit(false, AccountRow(0, evt.userId, 0, 0)))
        else DebitRow(s.accounts[evt.userId], evt.amount);
      if debit.Failure? then Processed(s, Failure(debit.error))
      else if storeFails || outboxId in OutboxIds(s.outbox) then Processed(s, Failure(StoreFailure))
      else
        var reply := ReplyEvent(evt, replyId, debit.value.ok);
        var accounts := if debit.value.ok then s.accounts[evt.userId := debit.value.account] else s.accounts;
        Processed(
          PaymentsState(accounts,
            s.inbox[evt.eventId := InboxRow(evt.eventId, OrderCreatedEventType, now)],
            s.outbox + [PaymentCompletedRow(outboxId, reply, now)]),
          Success(reply))
  }

  /** A new event is recorded once: one inbox row under its id, one unpublished
      PaymentCompletedEvent outbox row whose payload is the returned reply, and
      the user's balance lowered by the amount exactly when the reply says
      success. A failure changes nothing. Other users are untouched and the
      store stays valid. */
  lemma ProcessNewEvent(s: PaymentsState, evt: OrderCreatedEvent, replyId: Guid, outboxId: Guid,
                        now: Timestamp, storeFails: bool)
    requires s.Valid() && evt.eventId !in s.inbox
    ensures var r := Process(s, evt, replyId, outboxId, now, storeFails);
      && r.state.Valid()
      && (r.result.Failure? ==> r.state == s)
      && (r.result.Success? ==>
            && r.result.value.eventId == replyId && r.result.value.orderId == evt.orderId
            && r.result.value.userId == evt.userId && r.result.value.amount == evt.amount
            && r.state.inbox == s.inbox[evt.eventId := InboxRow(evt.eventId, OrderCreatedEventType, now)]
            && AccountServiceModel.Balance(r.state, evt.userId)
               == (if r.result.value.success then AccountServiceModel.Balance(s, evt.userId) - evt.amount
                   else AccountServiceModel.Balance(s, evt.userId))
            && |r.state.outbox| == |s.outbox| + 1 && r.state.outbox[..|s.outbox|] == s.outbox
            && var m := r.state.outbox[|s.outbox|];
               m.id == outboxId && m.eventType == PaymentCompletedEventType && !m.published
               && DeserializePaymentCompleted(m.payload) == Some(r.result.value))
      && r.state.accounts.Keys == s.accounts.Keys
      && (evt.userId in s.accounts ==>
            r.state.accounts[evt.userId].(balance := s.accounts[evt.userId].balance) == s.accounts[evt.userId])
      && OthersUnchanged(s.accounts, r.state.accounts, evt.userId)
  {
    var r := Process(s, evt, replyId, outboxId, now, storeFails);
    if evt.userId in s.accounts {
      LedgerInvariantKept(s.accounts[evt.userId], evt.amount);
    }
    if r.result.Success? {
      var m := PaymentCompletedRow(outboxId, r.result.value, now);
      AppendKeepsTable(s.outbox, m);
      assert r.state.outbox[..|s.outbox|] == s.outbox;
    }
  }

  /** How the debit decides the reply: without an account the payment fails and
      no balance changes; with one, it succeeds exactly when the balance covers
      the amount, and a non-positive amount is an error that saves nothing. */
  lemma ProcessDebitOutcome(s: PaymentsState, evt: OrderCreatedEvent, replyId: Guid, outboxId: Guid,
                            now: Timestamp, storeFails: bool)
    requires s.Valid() && evt.eventId !in s.inbox
    requires Process(s, evt, replyId, outboxId, now, storeFails).result != Failure(StoreFailure)
    ensures var r := Process(s, evt, replyId, outboxId, now, storeFails);
      && (evt.userId !in s.accounts ==> r.result.Success? && !r.result.value.success && r.state.accounts == s.accounts)
      && (evt.userId in s.accounts && evt.amount <= 0 ==> r == Processed(s, Failure(NonPositiveAmount)))
      && (evt.userId in s.accounts && evt.amount > 0 ==>
            r.result.Success? && (r.result.value.success <==> evt.amount <= s.accounts[evt.userId].balance))
  {
  }

  /** A redelivered event changes nothing and is answered with success for the
      same order, user and amount. */
  lemma DuplicateEventIsAnsweredWithoutEffect(s: PaymentsState, evt: OrderCreatedEvent, replyId: Guid,
                                              outboxId: Guid, now: Timestamp, storeFails: bool)
    requires evt.eventId in s.inbox
    ensures Process(s, evt, replyId, outboxId, now, storeFails) == Processed(s, Success(ReplyEvent(evt, replyId, true)))
  {
  }

  /** Processing the same event twice equals processing it once: the second
      call debits nothing and adds no inbox or outbox row. */
  lemma ProcessTwiceIsOnce(s: PaymentsState, evt: OrderCreatedEvent, reply1: Guid, outbox1: Guid, t1: Timestamp,
                           reply2: Guid, outbox2: Guid, t2: Timestamp, fails2: bool)
    requires Process(s, evt, reply1, outbox1, t1, false).result.Success?
    ensures var once := Process(s, evt, reply1, outbox1, t1, false);
      Process(once.state, evt, reply2, outbox2, t2, fails2).state == once.state
  {
    var once := Process(s, evt, reply1, outbox1, t1, false);
    assert evt.eventId in once.state.inbox;
  }

  /** The scenarios of a ledger at 100.00 and of one at 20.00: an order of
      50.00 is paid and leaves 50.00 in the first, and is refused and leaves
      20.00 in the second. */
  lemma PaymentScenarios(s: PaymentsState, evt: OrderCreatedEvent, replyId: Guid, outboxId: Guid, now: Timestamp)
    requires s.Valid() && evt.eventId !in s.inbox && evt.userId in s.accounts && evt.amount == 5000
    requires FreshId(s.outbox, outboxId)
    ensures s.accounts[evt.userId].balance == 10000 ==>
      var r := Process(s, evt, replyId, outboxId, now, false);
      r.result.Success? && r.result.value.success && AccountServiceModel.Balance(r.state, evt.userId) == 5000
    ensures s.accounts[evt.userId].balance == 2000 ==>
      var r := Process(s, evt, replyId, outboxId, now, false);
      r.result.Success? && !r.result.value.success && AccountServiceModel.Balance(r.state, evt.userId) == 2000
  {
    assert outboxId !in OutboxIds(s.outbox);
  }

  /** The processor object: every call works on the one database context. */
  class PaymentProcessor {
    const db: PaymentsDb

    constructor (db: PaymentsDb)
      ensures this.db == db
    {
      this.db := db;
    }

    method ProcessOrderCreatedAsync(evt: OrderCreatedEvent, replyId: Guid, outboxId: Guid,
                                    now: Timestamp, storeFails: bool)
      returns (r: Result<PaymentCompletedEvent, Error>)
      requires db.Valid()
      modifies db
      ensures db.Valid()
      ensures Processed(db.State(), r) == Process(old(db.State()), evt, replyId, outboxId, now, storeFails)
    {
      if evt.eventId in db.inbox {
        return Success(ReplyEvent(evt, replyId, true));
      }
      ProcessNewEvent(db.State(), evt, replyId, outboxId, now, storeFails);
      var accounts := db.accounts;
      var success := false;
      if evt.userId in db.accounts {
        var account := new Account.Load(db.accounts[evt.userId]);
        var debited := account.TryDebit(evt.amount);
        if debited.Failure? {
          return Failure(debited.error);
        }
        success := debited.value;
        if success {
          accounts := accounts[evt.userId := account.Row()];
        }
      }
      var inboxRow := InboxRow(evt.eventId, OrderCreatedEventType, now);
      var paymentEvent := ReplyEvent(evt, replyId, success);
      var message := new OutboxMessage(outboxId, PaymentCompletedEventType, SerializePaymentCompleted(paymentEvent), now);
      if storeFails || message.id in OutboxIds(db.outbox) {
        return Failure(StoreFailure);
      }
      db.accounts, db.inbox, db.outbox := accounts, db.inbox[evt.eventId := inboxRow], db.outbox + [message.Row()];
      r := Success(paymentEvent);
    }
  }
}
