/** The payment core as it runs: records are read, changed field by field and saved. Every method is
    proved to leave the store the model says it leaves. */
module PaymentCore {
  import opened Options
  import opened PaymentModel
  import opened PaymentOrders
  import opened CardExpiry
  import Sets

  /** A transaction as read from the store, changed in place until it is saved. */
  class TransactionRecord {
    const id: int
    const isFinished: bool
    const idTag: string
    const userTag: Option<string>
    const paymentAmount: int
    var paymentBilled: int
    var paymentOrder: int
    var paymentError: string
    var paymentMethod: Option<Card>
    var paymentOrders: seq<Order>

    constructor (id: int, t: Transaction)
      ensures this.id == id && Value() == t
    {
      this.id := id;
      isFinished, idTag, userTag, paymentAmount := t.isFinished, t.idTag, t.userTag, t.paymentAmount;
      paymentBilled, paymentOrder, paymentError := t.paymentBilled, t.paymentOrder, t.paymentError;
      paymentMethod, paymentOrders := t.paymentMethod, t.paymentOrders;
    }

    function Value(): Transaction
      reads this
    {
      Transaction(isFinished, idTag, userTag, paymentAmount, paymentBilled, paymentOrder, paymentError,
                  paymentMethod, paymentOrders)
    }

    /** Appends the order unless one with its number is already listed. */
    method AddOrder(order: Order)
      modifies this`paymentOrders
      ensures paymentOrders == WithOrder(old(paymentOrders), order)
    {
      for i := 0 to |paymentOrders|
        invariant paymentOrders == old(paymentOrders)
        invariant forall j | 0 <= j < i :: paymentOrders[j].number != order.number
      {
        if paymentOrders[i].number == order.number {
          return;
        }
      }
      paymentOrders := paymentOrders + [order];
    }
  }

  class Core {
    var transactions: map<int, Transaction>
    var orders: map<int, Order>
    var lastOrderId: int
    var retries: map<int, Retry>
    var cards: seq<Card>
    var tags: map<string, string>
    const paymentsDisabled: bool

    ghost function View(): Store
      reads this
    {
      Store(transactions, OrderBook(orders, lastOrderId), retries, cards, tags, paymentsDisabled)
    }

    ghost predicate Ok()
      reads this
    {
      Valid(View())
    }

    constructor (tags: map<string, string>, cards: seq<Card>, paymentsDisabled: bool)
      ensures Ok()
      ensures View() == Store(map[], OrderBook(map[], 0), map[], cards, tags, paymentsDisabled)
    {
      transactions, orders, lastOrderId, retries := map[], map[], 0, map[];
      this.cards, this.tags, this.paymentsDisabled := cards, tags, paymentsDisabled;
    }

    // ---- The repository ----

    method UpdateTransactionPayment(t: TransactionRecord)
      requires t.id in transactions
      requires SameSession(transactions[t.id], t.Value())
      modifies this
      ensures View() == SaveTransaction(old(View()), t.id, t.Value())
    {
      transactions := transactions[t.id := transactions[t.id].(
                        paymentOrder := t.paymentOrder,
                        paymentBilled := t.paymentBilled,
                        paymentError := t.paymentError,
                        paymentOrders := t.paymentOrders,
                        paymentMethod := t.paymentMethod)];
    }

    method SavePaymentOrder(o: Order)
      modifies this
      ensures View() == old(View()).(book := SaveOrder(old(View()).book, o))
    {
      orders := orders[o.number := o];
      if o.number > lastOrderId {
        lastOrderId := o.number;
      }
    }

    method GetPaymentOrderByTransaction(txn: int) returns (r: Option<Order>)
      requires BookOk(View().book) && txn > 0
      ensures r.Some? <==> HasOpenOrder(View().book, txn)
      ensures r.Some? ==> r.value == orders[TheOpenOrder(View().book, txn)]
    {
      var todo := orders.Keys;
      while todo != {}
        invariant todo <= orders.Keys
        invariant forall n | n in orders && n !in todo :: !IsOpen(orders[n], txn)
        decreases |todo|
      {
        var n := Sets.Pick(todo);
        if IsOpen(orders[n], txn) {
          return Some(orders[n]);
        }
        todo := todo - {n};
      }
      return None;
    }

    method GetDefaultPaymentMethod(userId: string) returns (r: Option<Card>)
      ensures r == DefaultCard(cards, userId)
    {
      var i := FirstIndex(cards, (c: Card) => c.userId == userId && c.isDefault && c.failCount <= 0);
      if i < |cards| {
        return Some(cards[i]);
      }
      return FirstSuch(cards, (c: Card) => c.userId == userId && c.failCount <= 0);
    }

    method GetNextOrderNumber() returns (n: int)
      ensures n == NextOrderNumber(View().book)
    {
      n := FIRST_ORDER;
      if lastOrderId != 0 {
        n := lastOrderId + 1;
      }
    }

    // ---- Cards ----

    method UpdatePaymentMethodFailCounter(identifier: string, count: int)
      modifies this
      ensures View() == old(View()).(cards := CountFailure(old(cards), identifier, count))
    {
      if identifier == "" {
        return;
      }
      var i := FirstIndex(cards, (c: Card) => c.identifier == identifier);
      if i == |cards| {
        return;
      }
      var newCount := count;
      if count > 0 {
        newCount := cards[i].failCount + 1;
      }
      cards := cards[i := cards[i].(failCount := newCount)];
    }

    /** One pass over the cards that stops at a fresh default card and remembers the first fresh one. */
    method PickFreshPaymentMethod(userId: string, skip: string, now: int) returns (r: Option<Card>)
      ensures r == PickFresh(cards, userId, skip, now)
    {
      var fallback: Option<Card> := None;
      ghost var isDefault := (c: Card) => c.isDefault && IsFresh(c, userId, skip, now);
      ghost var isFresh := (c: Card) => IsFresh(c, userId, skip, now);
      for i := 0 to |cards|
        invariant forall j | 0 <= j < i :: !isDefault(cards[j])
        invariant fallback.None? ==> forall j | 0 <= j < i :: !isFresh(cards[j])
        invariant fallback.Some? ==>
                    FirstIndex(cards, isFresh) < i && fallback.value == cards[FirstIndex(cards, isFresh)]
      {
        var card := cards[i];
        if card.userId != userId || card.identifier == skip {
          continue;
        }
        if card.failCount > 0 || card.cofTid == "" {
          continue;
        }
        if IsCardExpired(card.expiry, now) {
          continue;
        }
        if card.isDefault {
          assert FirstIndex(cards, isDefault) == i;
          return Some(card);
        }
        if fallback.None? {
          assert FirstIndex(cards, isFresh) == i;
          fallback := Some(card);
        }
      }
      assert FirstIndex(cards, isDefault) == |cards|;
      return fallback;
    }

    /** The card of the transaction or the default one, unless there is a fresh card to replace a
        doubtful one. */
    method ChoosePaymentMethod(t: TransactionRecord, userId: string, now: int) returns (r: Option<Card>)
      ensures r == CardFor(View(), t.Value(), userId, now)
    {
      r := t.paymentMethod;
      if r.None? {
        r := GetDefaultPaymentMethod(userId);
        if r.None? {
          return;
        }
      }
      var card := r.value;
      if card.cofTid == "" || card.failCount > 0 || t.paymentError != "" || IsCardExpired(card.expiry, now) {
        var alternative := PickFreshPaymentMethod(userId, card.identifier, now);
        if alternative.Some? {
          r := alternative;
        }
      }
    }

    // ---- Charging ----

    method PayTransaction(txn: int, now: int) returns (outcome: PayOutcome)
      requires Ok()
      modifies this
      ensures Ok()
      ensures (View(), outcome) == PaymentModel.PayTransaction(old(View()), txn, now)
    {
      hide CardFor, Charge, PickFresh, DefaultCard, CountFailure, IsCardExpired;
      PayAdvances(View(), txn, now);
      hide Valid;
      if txn !in transactions {
        return NotFound;
      }
      var t := new TransactionRecord(txn, transactions[txn]);
      if !t.isFinished {
        return NotFinished;
      }
      var amount := t.paymentAmount - t.paymentBilled;
      if amount <= 0 {
        return NothingDue;
      }
      var userId := "";
      if t.userTag.Some? {
        userId := t.userTag.value;
      } else if t.idTag in tags {
        userId := tags[t.idTag];
      } else {
        return TagMissing;
      }
      if userId == "" {
        t.paymentBilled := t.paymentAmount;
        UpdateTransactionPayment(t);
        return NoUser;
      }
      var choice := ChoosePaymentMethod(t, userId, now);
      if choice.None? {
        t.paymentBilled := t.paymentAmount;
        UpdateTransactionPayment(t);
        return NoMethod;
      }
      var card := choice.value;
      if IsCardExpired(card.expiry, now) {
        t.paymentError := "payment method expired";
        UpdateTransactionPayment(t);
        retries := retries - {txn};
        return PaymentModel.CardExpired;
      }
      outcome := Send(t, userId, card, now);
    }

    /** The part of PayTransaction that follows the choice of the card. */
    method Send(t: TransactionRecord, userId: string, card: Card, now: int) returns (outcome: PayOutcome)
      requires Ok() && t.id in transactions && transactions[t.id] == t.Value()
      modifies this, t
      ensures (View(), outcome) == Charge(old(View()), t.id, old(t.Value()), userId, card, now)
    {
      var amount := t.paymentAmount - t.paymentBilled;
      t.paymentMethod := Some(card);
      UpdateTransactionPayment(t);
      var open := GetPaymentOrderByTransaction(t.id);
      if open.Some? {
        SavePaymentOrder(open.value.(isCompleted := true, result := "closed without response", timeClosed := now));
        UpdatePaymentMethodFailCounter(open.value.identifier, 1);
      }
      if paymentsDisabled {
        t.paymentBilled := t.paymentAmount;
        UpdateTransactionPayment(t);
        return PaidWithoutRequest;
      }
      var number := GetNextOrderNumber();
      var o := Order(number, t.id, userId, amount, card.identifier, false, "", now, 0, 0, 0);
      SavePaymentOrder(o);
      return Charging(PayRequest(number, amount, card.identifier, card.cofTid));
    }

    // ---- Gateway answers ----

    method ProcessPay(number: int, reply: Reply, now: int) returns (refund: Option<RefundRequest>)
      requires Ok()
      modifies this
      ensures Ok()
      ensures (View(), refund) == PaymentModel.ProcessPay(old(View()), number, reply, now)
    {
      ReplyAdvances(View(), number, reply, now);
      refund := None;
      match reply {
        case TransportError(text) =>
          if number in orders {
            CloseOrderOnError(orders[number], text, now);
          }
        case Replied(response) =>
          if !response.success {
            if number in orders {
              CloseOrderOnError(orders[number], ResultCode(response), now);
            }
          } else {
            refund := ProcessPaymentResponse(response, number, now);
          }
      }
    }

    method ProcessRefund(number: int, reply: Reply, now: int) returns (refund: Option<RefundRequest>)
      requires Ok()
      modifies this
      ensures Ok()
      ensures (View(), refund) == PaymentModel.ProcessRefund(old(View()), number, reply, now)
    {
      ReplyAdvances(View(), number, reply, now);
      refund := None;
      match reply {
        case TransportError(_) =>
        case Replied(response) =>
          if !response.success {
            if number in orders {
              CloseOrderOnError(orders[number], ResultCode(response), now);
            }
          } else {
            refund := ProcessPaymentResponse(response, number, now);
          }
      }
    }

    method ProcessNotification(number: int, response: Response, now: int) returns (refund: Option<RefundRequest>)
      requires Ok()
      modifies this
      ensures Ok()
      ensures (View(), refund) == PaymentModel.ProcessNotification(old(View()), number, response, now)
    {
      RefuseAdvances(View(), number, response.responseCode, now);
      ResponseAdvances(View(), response, number, now);
      refund := None;
      if response.success {
        refund := ProcessPaymentResponse(response, number, now);
      } else if number in orders {
        CloseOrderOnError(orders[number], response.responseCode, now);
      }
    }

    method ProcessPaymentResponse(response: Response, number: int, now: int) returns (refund: Option<RefundRequest>)
      requires Ok()
      modifies this
      ensures (View(), refund) == PaymentModel.ProcessPaymentResponse(old(View()), response, number, now)
    {
      hide CountFailure, WithOrder, Valid;
      if number !in orders {
        return None;
      }
      var o := orders[number];
      if !o.isCompleted {
        o := o.(amount := response.amount, isCompleted := true, result := response.responseCode, timeClosed := now);
        SavePaymentOrder(o);
      }
      UpdatePaymentMethodFailCounter(o.identifier, 0);
      if response.transactionType == "3" {
        o := o.(refundAmount := response.amount, refundTime := now);
        SavePaymentOrder(o);
        return None;
      }
      if o.txn > 0 {
        if o.txn in transactions {
          var t := new TransactionRecord(o.txn, transactions[o.txn]);
          t.paymentOrder := o.number;
          t.paymentBilled := t.paymentBilled + o.amount;
          t.paymentError := "";
          t.AddOrder(o);
          UpdateTransactionPayment(t);
          retries := retries - {o.txn};
        }
        return None;
      }
      if response.merchantIdentifier != "" && o.userId != "" && !HasCard(cards, response.merchantIdentifier, o.userId) {
        var card := Card(response.merchantIdentifier, o.userId, response.cofTxnid, response.expiryDate, false, 0);
        cards := cards + [card];
      }
      if o.amount > 0 {
        return Some(RefundRequest(o.number, o.amount));
      }
      return None;
    }

    method CloseOrderOnError(o: Order, reason: string, now: int)
      requires Ok() && o.number in orders && orders[o.number] == o
      modifies this
      ensures View() == PaymentModel.CloseOrderOnError(old(View()), o, reason, now)
    {
      assert RetriesOk(retries);
      hide CountFailure, WithOrder, Valid, RetriesOk, ScheduleRetry;
      var result := reason;
      if result == "" {
        result := "unknown error";
      }
      UpdatePaymentMethodFailCounter(o.identifier, 1);
      var order := o;
      if !order.isCompleted {
        order := order.(isCompleted := true, result := result, timeClosed := now);
        SavePaymentOrder(order);
      }
      if order.txn > 0 && order.txn in transactions {
        var t := new TransactionRecord(order.txn, transactions[order.txn]);
        t.paymentBilled := t.paymentAmount;
        t.paymentOrder := order.number;
        t.paymentError := result;
        t.AddOrder(order);
        UpdateTransactionPayment(t);
        SchedulePaymentRetry(order.txn, result, now);
      }
    }

    /** The attempt is always one the delays have an entry for. */
    method SchedulePaymentRetry(txn: int, lastError: string, now: int)
      requires RetriesOk(retries)
      modifies this
      ensures View() == ScheduleRetry(old(View()), txn, lastError, now)
    {
      var attempt := 1;
      var createdAt := now;
      if txn in retries {
        attempt := retries[txn].attempt + 1;
        createdAt := retries[txn].createdAt;
      }
      if attempt > MAX_RETRY_ATTEMPTS {
        retries := retries - {txn};
        return;
      }
      retries := retries[txn := Retry(attempt, now + RETRY_DELAYS[attempt - 1], lastError, createdAt, now)];
    }

    // ---- Sweeps ----

    method RetryOne(txn: int, now: int) returns (outcome: PayOutcome)
      requires Ok()
      modifies this
      ensures Ok()
      ensures (View(), outcome) == PaymentModel.RetryOne(old(View()), txn, now)
    {
      if txn !in transactions {
        retries := retries - {txn};
        return NotFound;
      }
      var t := new TransactionRecord(txn, transactions[txn]);
      t.paymentBilled := 0;
      t.paymentError := "";
      UpdateTransactionPayment(t);
      outcome := PayTransaction(txn, now);
    }

    method GetUnbilledTransactions() returns (ids: seq<int>)
      ensures forall id :: id in ids <==> IsUnbilled(View(), id)
      ensures forall i, j | 0 <= i < j < |ids| :: ids[i] != ids[j]
    {
      ids := [];
      var todo := transactions.Keys;
      while todo != {}
        invariant todo <= transactions.Keys
        invariant forall id :: id in ids <==> IsUnbilled(View(), id) && id !in todo
        invariant forall i, j | 0 <= i < j < |ids| :: ids[i] != ids[j]
        decreases |todo|
      {
        var id := Sets.Pick(todo);
        todo := todo - {id};
        var t := transactions[id];
        if t.isFinished && t.paymentAmount > 0 && t.paymentBilled < t.paymentAmount {
          ids := ids + [id];
        }
      }
    }

    method GetPendingRetries(now: int) returns (ids: seq<int>)
      ensures forall id :: id in ids <==> IsPending(View(), id, now)
      ensures forall i, j | 0 <= i < j < |ids| :: ids[i] != ids[j]
    {
      ids := [];
      var todo := retries.Keys;
      while todo != {}
        invariant todo <= retries.Keys
        invariant forall id :: id in ids <==> IsPending(View(), id, now) && id !in todo
        invariant forall i, j | 0 <= i < j < |ids| :: ids[i] != ids[j]
        decreases |todo|
      {
        var id := Sets.Pick(todo);
        todo := todo - {id};
        if retries[id].nextRetryTime <= now {
          ids := ids + [id];
        }
      }
    }

    /** Visits every transaction listed when the sweep began; the requests are what it sends. */
    method ProcessUnbilledTransactions(now: int) returns (sent: seq<PayRequest>, ghost ids: seq<int>)
      requires Ok()
      modifies this
      ensures Ok()
      ensures forall id :: id in ids <==> IsUnbilled(old(View()), id)
      ensures forall i, j | 0 <= i < j < |ids| :: ids[i] != ids[j]
      ensures (View(), sent) == SweepUnbilled(old(View()), ids, now)
    {
      sent := [];
      var listed := GetUnbilledTransactions();
      ids := listed;
      for i := 0 to |listed|
        invariant Ok()
        invariant (View(), sent) == SweepUnbilled(old(View()), ids[..i], now)
      {
        assert ids[..i + 1][..i] == ids[..i];
        if listed[i] in retries {
          assert sent + Launched(NothingDue) == sent;
          continue;
        }
        var outcome := PayTransaction(listed[i], now);
        sent := sent + Launched(outcome);
      }
      assert ids[..|ids|] == ids;
    }

    method ProcessPaymentRetries(now: int) returns (sent: seq<PayRequest>, ghost ids: seq<int>)
      requires Ok()
      modifies this
      ensures Ok()
      ensures forall id :: id in ids <==> IsPending(old(View()), id, now)
      ensures forall i, j | 0 <= i < j < |ids| :: ids[i] != ids[j]
      ensures (View(), sent) == SweepRetries(old(View()), ids, now)
    {
      sent := [];
      var listed := GetPendingRetries(now);
      ids := listed;
      for i := 0 to |listed|
        invariant Ok()
        invariant (View(), sent) == SweepRetries(old(View()), ids[..i], now)
      {
        assert ids[..i + 1][..i] == ids[..i];
        var outcome := RetryOne(listed[i], now);
        sent := sent + Launched(outcome);
      }
      assert ids[..|ids|] == ids;
    }

    // ---- Orders opened by clients ----

    /** Only an order without a number is given one, and closes the one still open. */
    method SetOrder(userId: string, draft: Order, now: int) returns (o: Order)
      requires Ok()
      modifies this
      ensures (View(), o) == PaymentModel.SetOrder(old(View()), userId, draft, now)
      ensures draft.number == 0 || FitsBook(old(View()).book, draft) ==> Ok()
    {
      NewOrderAdvances(View(), userId, draft, now);
      if draft.number != 0 {
        ChosenNumberAdvances(View(), userId, draft, now);
      }
      hide Valid;
      o := draft;
      if o.number == 0 {
        if o.txn > 0 {
          var open := GetPaymentOrderByTransaction(o.txn);
          if open.Some? {
            SavePaymentOrder(open.value.(isCompleted := true, result := "closed without response", timeClosed := now));
          }
        }
        var number := GetNextOrderNumber();
        o := o.(number := number, timeOpened := now);
      }
      o := o.(userId := userId);
      SavePaymentOrder(o);
    }
  }

  predicate SameSession(t: Transaction, t': Transaction) {
    && t'.isFinished == t.isFinished && t'.idTag == t.idTag && t'.userTag == t.userTag
    && t'.paymentAmount == t.paymentAmount
  }
}
