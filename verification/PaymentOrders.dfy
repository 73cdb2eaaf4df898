/** What every run of the payment core keeps about orders and retry records, whatever is called
    and whatever the gateway answers, any number of times. */
module PaymentOrders {
  import opened Options
  import opened CardExpiry
  import opened PaymentModel

  // ---- Runs ----

  datatype Action =
    | SweepTurn(txn: int, now: int)
    | RetryTurn(txn: int, now: int)
    | ForceRetry(txn: int, now: int)
    | Pay(txn: int, now: int)
    | Answer(order: int, reply: Reply, now: int)
    | AnswerRefund(order: int, reply: Reply, now: int)
    | Notify(order: int, response: Response, now: int)
    | OpenOrder(userId: string, draft: Order, now: int)
    | ChangeCards(cards: seq<Card>)
    | ChangeTags(tags: map<string, string>)
    | StartSession(txn: int, idTag: string, userTag: Option<string>)
    | FinishSession(txn: int, amount: int)

  /** A transaction as the charging system creates it: nothing billed, no order. */
  function NewSession(idTag: string, userTag: Option<string>): Transaction {
    Transaction(false, idTag, userTag, 0, 0, 0, "", None, [])
  }

  /** The store after one action. A turn of a sweep happens only to a transaction the sweep's query
      selects; a session is started once and finished once. */
  ghost function Step(s: Store, a: Action): Store {
    match a
    case SweepTurn(txn, now) => if IsUnbilled(s, txn) then VisitUnbilled(s, txn, now).0 else s
    case RetryTurn(txn, now) => if IsPending(s, txn, now) then RetryOne(s, txn, now).0 else s
    case ForceRetry(txn, now) => RetryOne(s, txn, now).0
    case Pay(txn, now) => PayTransaction(s, txn, now).0
    case Answer(order, reply, now) => ProcessPay(s, order, reply, now).0
    case AnswerRefund(order, reply, now) => ProcessRefund(s, order, reply, now).0
    case Notify(order, response, now) => ProcessNotification(s, order, response, now).0
    case OpenOrder(userId, draft, now) => SetNewOrder(s, userId, draft, now).0
    case ChangeCards(cards) => s.(cards := cards)
    case ChangeTags(tags) => s.(tags := tags)
    case StartSession(txn, idTag, userTag) =>
      if txn > 0 && txn !in s.transactions then SaveTransaction(s, txn, NewSession(idTag, userTag)) else s
    case FinishSession(txn, amount) =>
      if txn in s.transactions && !s.transactions[txn].isFinished
      then SaveTransaction(s, txn, s.transactions[txn].(isFinished := true, paymentAmount := amount))
      else s
  }

  ghost function Run(s: Store, actions: seq<Action>): Store {
    if actions == [] then s
    else Step(Run(s, actions[..|actions| - 1]), actions[|actions| - 1])
  }

  // ---- What is kept ----

  /** Orders are stored under their own number, the last one has the greatest, and a transaction
      has at most one open order. */
  ghost predicate BookOk(b: OrderBook) {
    && (forall n | n in b.orders :: b.orders[n].number == n && 0 < n <= b.last)
    && (b.last == 0 || b.last in b.orders)
    && (forall m, n | m in b.orders && n in b.orders && b.orders[m].txn > 0
                      && IsOpen(b.orders[m], b.orders[m].txn) && IsOpen(b.orders[n], b.orders[m].txn) :: m == n)
  }

  predicate DistinctNumbers(orders: seq<Order>) {
    forall i, j | 0 <= i < j < |orders| :: orders[i].number != orders[j].number
  }

  /** Transactions have positive numbers and list no order twice. */
  ghost predicate TransactionsOk(transactions: map<int, Transaction>) {
    forall t | t in transactions :: t > 0 && DistinctNumbers(transactions[t].paymentOrders)
  }

  /** The index into the delays is in range, and the delay is the one of the attempt. */
  predicate RetryOk(r: Retry) {
    && 1 <= r.attempt <= MAX_RETRY_ATTEMPTS
    && r.nextRetryTime == r.updatedAt + RETRY_DELAYS[r.attempt - 1]
  }

  ghost predicate RetriesOk(retries: map<int, Retry>) {
    forall t | t in retries :: RetryOk(retries[t])
  }

  ghost predicate Valid(s: Store) {
    BookOk(s.book) && TransactionsOk(s.transactions) && RetriesOk(s.retries)
  }

  /** What never happens to an order: losing its transaction, reopening, changing its outcome. */
  predicate OrderKept(before: Order, after: Order) {
    && after.txn == before.txn
    && (before.isCompleted ==>
          after.isCompleted && after.result == before.result && after.amount == before.amount)
  }

  /** Orders are kept, and the numbers of new ones are past every number there was. */
  ghost predicate Evolves(b: OrderBook, b': OrderBook) {
    && b.last <= b'.last
    && (forall n | n in b.orders :: n in b'.orders && OrderKept(b.orders[n], b'.orders[n]))
    && (forall n | n in b'.orders && n !in b.orders :: n > b.last)
  }

  ghost predicate Advances(b: OrderBook, b': OrderBook) {
    BookOk(b') && Evolves(b, b')
  }

  // ---- The order book ----

  lemma SavesKnownOrder(b: OrderBook, o: Order)
    requires BookOk(b) && o.number in b.orders && OrderKept(b.orders[o.number], o)
    requires o.isCompleted || !b.orders[o.number].isCompleted
    ensures Advances(b, SaveOrder(b, o))
  {
  }

  lemma SavesNewOrder(b: OrderBook, o: Order)
    requires BookOk(b) && o.number == NextOrderNumber(b)
    requires o.txn > 0 ==> !HasOpenOrder(b, o.txn)
    ensures Advances(b, SaveOrder(b, o))
    ensures forall n | n in b.orders :: n < o.number
    ensures 0 < o.number
  {
  }

  lemma ClosesOpenOrder(b: OrderBook, txn: int, now: int)
    requires BookOk(b) && txn > 0
    ensures Advances(b, CloseOpenOrder(b, txn, now))
    ensures !HasOpenOrder(CloseOpenOrder(b, txn, now), txn)
  {
    if HasOpenOrder(b, txn) {
      SavesKnownOrder(b, ClosedUnanswered(b.orders[TheOpenOrder(b, txn)], now));
    }
  }

  lemma ClosesAndSaves(b: OrderBook, o: Order, txn: int, now: int)
    requires BookOk(b) && txn > 0 && o.txn == txn && o.number == NextOrderNumber(CloseOpenOrder(b, txn, now))
    ensures Advances(b, SaveOrder(CloseOpenOrder(b, txn, now), o))
    ensures forall n | n in b.orders :: n < o.number
    ensures 0 < o.number
  {
    ClosesOpenOrder(b, txn, now);
    SavesNewOrder(CloseOpenOrder(b, txn, now), o);
    EvolvesOn(b, CloseOpenOrder(b, txn, now), SaveOrder(CloseOpenOrder(b, txn, now), o));
  }

  lemma ClosesAnswered(b: OrderBook, number: int, amount: int, result: string, now: int)
    requires BookOk(b) && number in b.orders
    ensures var o := b.orders[number];
            var closed := Closed(o, amount, result, now);
            var b' := SaveIfClosing(b, o, closed);
            Advances(b, b') && number in b'.orders && b'.orders[number] == closed && closed.isCompleted
  {
    SavesKnownOrder(b, Closed(b.orders[number], amount, result, now));
  }

  lemma EvolvesOn(b: OrderBook, b1: OrderBook, b2: OrderBook)
    requires Evolves(b, b1) && Evolves(b1, b2)
    ensures Evolves(b, b2)
  {
  }

  // ---- Transactions and retries ----

  lemma ListsOrderOnce(orders: seq<Order>, o: Order)
    requires DistinctNumbers(orders)
    ensures DistinctNumbers(WithOrder(orders, o))
    ensures orders <= WithOrder(orders, o)
    ensures exists p :: p in WithOrder(orders, o) && p.number == o.number
  {
    var r := WithOrder(orders, o);
    if i :| 0 <= i < |orders| && orders[i].number == o.number {
      assert orders[i] in r;
    } else {
      assert r[|orders|] == o;
    }
  }

  lemma SchedulesInRange(s: Store, txn: int, lastError: string, now: int)
    requires RetriesOk(s.retries)
    ensures RetriesOk(ScheduleRetry(s, txn, lastError, now).retries)
  {
  }

  // ---- Steps of the core ----

  /** What a call of PayTransaction can change: its own transaction, and not its orders or amount;
      the orders, by closing the open one and adding the one it sends; and its own retry record,
      which it only ever removes. */
  lemma PayEffect(s: Store, txn: int, now: int)
    ensures var (s', outcome) := PayTransaction(s, txn, now);
            && s'.transactions.Keys == s.transactions.Keys
            && (forall u | u in s.transactions && u != txn :: s'.transactions[u] == s.transactions[u])
            && (txn in s.transactions ==> AfterPay(s.transactions[txn], s'.transactions[txn], outcome))
            && (outcome.NotFound? <==> txn !in s.transactions)
            && s'.retries == (if outcome.CardExpired? then s.retries - {txn} else s.retries)
            && match outcome
               case Charging(request) =>
                 && txn in s.transactions
                 && (exists userId, card :: s'.book == SaveOrder(CloseOpenOrder(s.book, txn, now),
                       ChargeOrder(request.order, txn, s.transactions[txn], userId, card, now)))
                 && request.order == NextOrderNumber(CloseOpenOrder(s.book, txn, now))
                 && request.amount == s.transactions[txn].paymentAmount - s.transactions[txn].paymentBilled
               case PaidWithoutRequest => txn in s.transactions && s'.book == CloseOpenOrder(s.book, txn, now)
               case _ => s'.book == s.book
  {
    hide CloseOpenOrder, BlameOpenOrder, CardFor, IsCardExpired;
    var (s', outcome) := PayTransaction(s, txn, now);
    if outcome.Charging? {
      var t := s.transactions[txn];
      var userId := UserOf(s, t).value;
      var card := CardFor(s, t, userId, now).value;
      assert s'.book == SaveOrder(CloseOpenOrder(s.book, txn, now),
                                  ChargeOrder(outcome.request.order, txn, t, userId, card, now));
    }
  }

  /** What each outcome makes of the transaction; only a finished one with something due is touched. */
  predicate AfterPay(t: Transaction, t': Transaction, outcome: PayOutcome) {
    && (outcome.NotFinished? <==> !t.isFinished)
    && (outcome.NothingDue? <==> t.isFinished && t.paymentAmount <= t.paymentBilled)
    && match outcome
       case Charging(_) => t' == t.(paymentMethod := t'.paymentMethod)
       case NoUser => t' == t.(paymentBilled := t.paymentAmount)
       case NoMethod => t' == t.(paymentBilled := t.paymentAmount)
       case PaidWithoutRequest => t' == t.(paymentBilled := t.paymentAmount, paymentMethod := t'.paymentMethod)
       case CardExpired => t' == t.(paymentError := "payment method expired")
       case _ => t' == t
  }

  lemma CloseKeepsOthers(b: OrderBook, txn: int, now: int)
    requires BookOk(b)
    ensures var b' := CloseOpenOrder(b, txn, now);
            forall n | n in b.orders && b.orders[n].txn != txn :: n in b'.orders && b'.orders[n] == b.orders[n]
  {
  }

  lemma PayAdvances(s: Store, txn: int, now: int)
    requires Valid(s)
    ensures var (s', outcome) := PayTransaction(s, txn, now);
            && Valid(s') && Evolves(s.book, s'.book)
            && (outcome.Charging? ==>
                  && outcome.request.order in s'.book.orders
                  && IsOpen(s'.book.orders[outcome.request.order], txn)
                  && s'.book.orders[outcome.request.order].amount == outcome.request.amount
                  && forall n | n in s.book.orders :: n < outcome.request.order)
            && forall n | n in s.book.orders && s.book.orders[n].txn != txn ::
                 s'.book.orders[n] == s.book.orders[n]
  {
    hide PayTransaction, CloseOpenOrder;
    PayEffect(s, txn, now);
    CloseKeepsOthers(s.book, txn, now);
    var (s', outcome) := PayTransaction(s, txn, now);
    match outcome {
      case Charging(request) =>
        var userId, card :| s'.book == SaveOrder(CloseOpenOrder(s.book, txn, now),
                              ChargeOrder(request.order, txn, s.transactions[txn], userId, card, now));
        ClosesAndSaves(s.book, ChargeOrder(request.order, txn, s.transactions[txn], userId, card, now), txn, now);
      case PaidWithoutRequest => ClosesOpenOrder(s.book, txn, now);
      case _ =>
    }
  }

  lemma RetryAdvances(s: Store, txn: int, now: int)
    requires Valid(s)
    ensures Valid(RetryOne(s, txn, now).0) && Evolves(s.book, RetryOne(s, txn, now).0.book)
  {
    hide PayTransaction;
    if txn in s.transactions {
      var t := s.transactions[txn];
      PayAdvances(SaveTransaction(s, txn, t.(paymentBilled := 0, paymentError := "")), txn, now);
    }
  }

  /** The order as a refusal closes it. */
  function ClosedByRefusal(o: Order, reason: string, now: int): Order {
    Closed(o, o.amount, if reason == "" then "unknown error" else reason, now)
  }

  /** What a refusal writes: the order, and to its transaction, if there is one, the order and a retry. */
  lemma RefuseParts(s: Store, number: int, reason: string, now: int)
    requires number in s.book.orders
    ensures var (s', o) := (Refuse(s, number, reason, now), s.book.orders[number]);
            var closed := ClosedByRefusal(o, reason, now);
            && s'.book == SaveIfClosing(s.book, o, closed)
            && (if o.txn > 0 && o.txn in s.transactions then
                  && o.txn in s'.transactions
                  && s'.transactions == s.transactions[o.txn := s'.transactions[o.txn]]
                  && s'.transactions[o.txn].paymentOrders == WithOrder(s.transactions[o.txn].paymentOrders, closed)
                  && exists lastError :: s'.retries == ScheduleRetry(s, o.txn, lastError, now).retries
                else s'.transactions == s.transactions && s'.retries == s.retries)
  {
    hide CountFailure, WithOrder, SaveIfClosing;
    var result := if reason == "" then "unknown error" else reason;
    var s' := Refuse(s, number, reason, now);
    var o := s.book.orders[number];
    if o.txn > 0 && o.txn in s.transactions {
      assert s'.retries == ScheduleRetry(s, o.txn, result, now).retries;
    }
  }

  lemma RefuseAdvances(s: Store, number: int, reason: string, now: int)
    requires Valid(s)
    ensures Valid(Refuse(s, number, reason, now)) && Evolves(s.book, Refuse(s, number, reason, now).book)
  {
    hide WithOrder, SaveIfClosing, BookOk, DistinctNumbers, RetriesOk, ScheduleRetry;
    if number in s.book.orders {
      var o := s.book.orders[number];
      RefuseParts(s, number, reason, now);
      ClosesAnswered(s.book, number, o.amount, if reason == "" then "unknown error" else reason, now);
      hide Refuse, Closed, Evolves;
      var s' := Refuse(s, number, reason, now);
      if o.txn > 0 && o.txn in s.transactions {
        ListsOrderOnce(s.transactions[o.txn].paymentOrders, ClosedByRefusal(o, reason, now));
        var lastError :| s'.retries == ScheduleRetry(s, o.txn, lastError, now).retries;
        SchedulesInRange(s, o.txn, lastError, now);
      }
    }
  }

  lemma ResponseAdvances(s: Store, r: Response, number: int, now: int)
    requires Valid(s)
    ensures var s' := ProcessPaymentResponse(s, r, number, now).0;
            Valid(s') && Evolves(s.book, s'.book)
  {
    hide CountFailure, WithOrder, SaveIfClosing, Enroll;
    if number in s.book.orders {
      var o := s.book.orders[number];
      var closed := Closed(o, r.amount, r.responseCode, now);
      var b := SaveIfClosing(s.book, o, closed);
      ClosesAnswered(s.book, number, r.amount, r.responseCode, now);
      if r.transactionType == "3" {
        var refunded := closed.(refundAmount := r.amount, refundTime := now);
        SavesKnownOrder(b, refunded);
        EvolvesOn(s.book, b, SaveOrder(b, refunded));
      } else if o.txn > 0 {
        if o.txn in s.transactions {
          ListsOrderOnce(s.transactions[o.txn].paymentOrders, closed);
        }
      } else {
        EnrollKeepsTheRest(s.(book := b, cards := CountFailure(s.cards, o.identifier, 0)), r, o.userId);
      }
    }
  }

  lemma EnrollKeepsTheRest(s: Store, r: Response, userId: string)
    ensures Enroll(s, r, userId) == s.(cards := Enroll(s, r, userId).cards)
  {
  }

  lemma ReplyAdvances(s: Store, number: int, reply: Reply, now: int)
    requires Valid(s)
    ensures Valid(ProcessPay(s, number, reply, now).0)
    ensures Evolves(s.book, ProcessPay(s, number, reply, now).0.book)
  {
    hide Refuse, ProcessPaymentResponse;
    match reply {
      case TransportError(text) => RefuseAdvances(s, number, text, now);
      case Replied(r) =>
        RefuseAdvances(s, number, ResultCode(r), now);
        ResponseAdvances(s, r, number, now);
    }
  }

  lemma NewOrderAdvances(s: Store, userId: string, draft: Order, now: int)
    requires Valid(s)
    ensures var (s', o) := SetNewOrder(s, userId, draft, now);
            && Valid(s') && Evolves(s.book, s'.book)
            && forall n | n in s.book.orders :: n < o.number
  {
    var o := SetNewOrder(s, userId, draft, now).1;
    if draft.txn > 0 {
      ClosesAndSaves(s.book, o, draft.txn, now);
    } else {
      SavesNewOrder(s.book, o);
    }
  }

  /** An order that keeps what is stored under its number, or has a number past all others, and that
      is not open beside another of its transaction. */
  predicate FitsBook(b: OrderBook, o: Order) {
    && (if o.number in b.orders then OrderKept(b.orders[o.number], o) else b.last < o.number)
    && (o.txn > 0 && !o.isCompleted ==> forall n | n in b.orders && n != o.number :: !IsOpen(b.orders[n], o.txn))
  }

  lemma FittingAdvances(b: OrderBook, o: Order)
    requires BookOk(b) && FitsBook(b, o)
    ensures Advances(b, SaveOrder(b, o))
  {
  }

  lemma OnlyFittingAdvances(b: OrderBook, o: Order)
    requires BookOk(b) && Advances(b, SaveOrder(b, o))
    ensures FitsBook(b, o)
  {
    var b' := SaveOrder(b, o);
    assert o.number in b'.orders && b'.orders[o.number] == o;
    if o.txn > 0 && !o.isCompleted {
      forall n | n in b.orders && n != o.number
        ensures !IsOpen(b.orders[n], o.txn)
      {
        assert b'.orders[n] == b.orders[n];
      }
    }
  }

  /** A number chosen by the caller keeps the orders in order if and only if the order fits the book. */
  lemma ChosenNumberAdvances(s: Store, userId: string, draft: Order, now: int)
    requires Valid(s) && draft.number != 0
    ensures var s' := SetOrder(s, userId, draft, now).0;
            Valid(s') && Evolves(s.book, s'.book) <==> FitsBook(s.book, draft)
  {
    var o := draft.(userId := userId);
    assert FitsBook(s.book, o) <==> FitsBook(s.book, draft);
    if FitsBook(s.book, o) {
      FittingAdvances(s.book, o);
    }
    if Advances(s.book, SaveOrder(s.book, o)) {
      OnlyFittingAdvances(s.book, o);
    }
    hide FitsBook, BookOk, Evolves, SaveOrder;
  }

  lemma StepAdvances(s: Store, a: Action)
    requires Valid(s)
    ensures Valid(Step(s, a)) && Evolves(s.book, Step(s, a).book)
  {
    hide PayTransaction, RetryOne, ProcessPay, Refuse, ProcessPaymentResponse, SetNewOrder;
    match a {
      case SweepTurn(txn, now) => PayAdvances(s, txn, now);
      case RetryTurn(txn, now) => RetryAdvances(s, txn, now);
      case ForceRetry(txn, now) => RetryAdvances(s, txn, now);
      case Pay(txn, now) => PayAdvances(s, txn, now);
      case Answer(order, reply, now) => ReplyAdvances(s, order, reply, now);
      case AnswerRefund(order, reply, now) => ReplyAdvances(s, order, reply, now);
      case Notify(order, response, now) =>
        RefuseAdvances(s, order, response.responseCode, now);
        ResponseAdvances(s, response, order, now);
      case OpenOrder(userId, draft, now) => NewOrderAdvances(s, userId, draft, now);
      case ChangeCards(cards) =>
      case ChangeTags(tags) =>
      case StartSession(txn, idTag, userTag) =>
      case FinishSession(txn, amount) =>
    }
  }

  // ---- Whole runs ----

  /** Over every run: order numbers only grow, a transaction has at most one open order, completed
      orders never reopen or change their outcome, no transaction lists an order twice, and every
      stored retry is one of the four with its own delay. */
  lemma {:induction false} RunAdvances(s: Store, actions: seq<Action>)
    requires Valid(s)
    ensures Valid(Run(s, actions)) && Evolves(s.book, Run(s, actions).book)
  {
    if actions != [] {
      var before := Run(s, actions[..|actions| - 1]);
      RunAdvances(s, actions[..|actions| - 1]);
      StepAdvances(before, actions[|actions| - 1]);
      EvolvesOn(s.book, before.book, Run(s, actions).book);
    }
  }

  /** A run is the run of its rest from where its beginning ends, so that everything kept over a
      run is kept between any two moments of it. */
  lemma {:induction false} RunInParts(s: Store, first: seq<Action>, rest: seq<Action>)
    ensures Run(s, first + rest) == Run(Run(s, first), rest)
  {
    if rest == [] {
      assert first + rest == first;
    } else {
      var n := |rest| - 1;
      assert (first + rest)[..|first| + n] == first + rest[..n];
      RunInParts(s, first, rest[..n]);
    }
  }

  /** An order keeps the outcome it had at any moment of a run in which it was completed. */
  lemma OutcomeIsFinal(s: Store, first: seq<Action>, rest: seq<Action>, number: int)
    requires Valid(s)
    requires var orders := Run(s, first).book.orders;
             number in orders && orders[number].isCompleted
    ensures var before, after := Run(s, first).book.orders[number], Run(s, first + rest).book.orders;
            && number in after && after[number].isCompleted
            && after[number].result == before.result && after[number].amount == before.amount
  {
    RunAdvances(s, first);
    RunAdvances(Run(s, first), rest);
    RunInParts(s, first, rest);
  }
}
