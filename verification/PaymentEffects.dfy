/** What the operations of the payment core do, field by field and case by case, as a caller sees it:
    said of the records before and after, not through the functions that make up the operations. */
module PaymentEffects {
  import opened Options
  import opened CardExpiry
  import opened PaymentModel
  import opened PaymentOrders

  // ---- Who is charged, and with which card ----

  predicate IsTheUser(s: Store, t: Transaction, userId: string) {
    t.userTag == Some(userId) || (t.userTag.None? && t.idTag in s.tags && s.tags[t.idTag] == userId)
  }

  /** A stored card of this very user that has not failed. */
  predicate IsSound(cards: seq<Card>, card: Card, userId: string) {
    card in cards && card.userId == userId && card.failCount <= 0
  }

  /** A sound card that can take the place of another now. */
  predicate IsSubstitute(cards: seq<Card>, card: Card, userId: string, other: Card, now: int) {
    && IsSound(cards, card, userId) && card.identifier != other.identifier
    && card.cofTid != "" && !IsCardExpired(card.expiry, now)
  }

  /** A card the transaction may start from: its own, or a sound one of the user, which is a default one
      if the user has a default one that is sound. */
  predicate IsFirstChoice(s: Store, t: Transaction, userId: string, card: Card) {
    t.paymentMethod == Some(card)
    || (t.paymentMethod.None? && IsSound(s.cards, card, userId)
        && (card.isDefault || forall c | c in s.cards :: !(c.isDefault && IsSound(s.cards, c, userId))))
  }

  /** A charge goes to the first choice, unless that has no token, failures, an error behind it or a
      month that is over, and there is a substitute; then to a substitute, a default one if there is
      any. It is never an expired card. */
  predicate IsCharged(s: Store, t: Transaction, userId: string, first: Card, card: Card, now: int) {
    var doubt := first.cofTid == "" || first.failCount > 0 || t.paymentError != "" || IsCardExpired(first.expiry, now);
    && !IsCardExpired(card.expiry, now)
    && if doubt && exists c :: c in s.cards && IsSubstitute(s.cards, c, userId, first, now) then
         && IsSubstitute(s.cards, card, userId, first, now)
         && (card.isDefault
             || forall c | c in s.cards :: !(c.isDefault && IsSubstitute(s.cards, c, userId, first, now)))
       else card == first
  }

  lemma ChoosesForTheUser(s: Store, t: Transaction, userId: string, now: int) returns (first: Option<Card>)
    ensures first.None? <==> t.paymentMethod.None? && forall c | c in s.cards :: !IsSound(s.cards, c, userId)
    ensures CardFor(s, t, userId, now).None? <==> first.None?
    ensures first.Some? ==> IsFirstChoice(s, t, userId, first.value)
    ensures var card := CardFor(s, t, userId, now);
            card.Some? && !IsCardExpired(card.value.expiry, now) ==>
              IsCharged(s, t, userId, first.value, card.value, now)
    ensures var card := CardFor(s, t, userId, now);
            card.Some? && IsCardExpired(card.value.expiry, now) ==>
              card == first && forall c | c in s.cards :: !IsSubstitute(s.cards, c, userId, first.value, now)
  {
    hide IsCardExpired;
    first := t.paymentMethod;
    if first.None? {
      first := DefaultCard(s.cards, userId);
    }
    if first.Some? {
      var own := first.value;
      assert forall c | c in s.cards ::
               IsFresh(c, userId, own.identifier, now) <==> IsSubstitute(s.cards, c, userId, own, now);
    }
  }

  /** The order, the request and the transaction agree on the card; the order is open, for all that is
      due, and the user's. */
  lemma ChargesTheUser(s: Store, txn: int, now: int) returns (userId: string, first: Card, card: Card)
    requires Valid(s) && PayTransaction(s, txn, now).1.Charging?
    ensures txn in s.transactions && IsTheUser(s, s.transactions[txn], userId) && userId != ""
    ensures IsFirstChoice(s, s.transactions[txn], userId, first)
    ensures IsCharged(s, s.transactions[txn], userId, first, card, now)
    ensures var (s', outcome) := PayTransaction(s, txn, now);
            var t := s.transactions[txn];
            var due := t.paymentAmount - t.paymentBilled;
            && outcome.request == PayRequest(outcome.request.order, due, card.identifier, card.cofTid)
            && s'.transactions == s.transactions[txn := t.(paymentMethod := Some(card))]
            && outcome.request.order in s'.book.orders
            && s'.book.orders[outcome.request.order]
               == Order(outcome.request.order, txn, userId, due, card.identifier, false, "", now, 0, 0, 0)
  {
    hide CloseOpenOrder, BlameOpenOrder, Valid, CardFor, IsCharged, IsFirstChoice, IsCardExpired;
    var t := s.transactions[txn];
    userId := UserOf(s, t).value;
    card := CardFor(s, t, userId, now).value;
    var choice := ChoosesForTheUser(s, t, userId, now);
    first := choice.value;
  }

  /** How a call ends is decided by the transaction, its user and the user's cards. */
  lemma OutcomesOfPay(s: Store, txn: int, now: int)
    ensures var outcome := PayTransaction(s, txn, now).1;
            && (outcome.NotFound? <==> txn !in s.transactions)
            && (txn in s.transactions ==>
                  var t := s.transactions[txn];
                  var due := t.isFinished && t.paymentAmount > t.paymentBilled;
                  var noTag := t.userTag.None? && t.idTag !in s.tags;
                  var noCard := t.paymentMethod.None?
                                && forall c | c in s.cards :: !IsTheUser(s, t, c.userId) || c.failCount > 0;
                  && (outcome.NotFinished? <==> !t.isFinished)
                  && (outcome.NothingDue? <==> t.isFinished && t.paymentAmount <= t.paymentBilled)
                  && (outcome.TagMissing? <==> due && noTag)
                  && (outcome.NoUser? <==> due && IsTheUser(s, t, ""))
                  && (outcome.NoMethod? <==> due && !noTag && !IsTheUser(s, t, "") && noCard)
                  && (outcome.PaidWithoutRequest? ==> s.paymentsDisabled)
                  && (outcome.Charging? ==> !s.paymentsDisabled))
  {
    hide CloseOpenOrder, BlameOpenOrder, CardFor, IsCardExpired, Charge;
    if txn in s.transactions && UserOf(s, s.transactions[txn]).Some? {
      var t := s.transactions[txn];
      var userId := UserOf(s, t).value;
      var first := ChoosesForTheUser(s, t, userId, now);
      assert forall c | c in s.cards :: IsTheUser(s, t, c.userId) <==> c.userId == userId;
      if CardFor(s, t, userId, now).Some? {
        ChargeEnds(s, txn, t, userId, CardFor(s, t, userId, now).value, now);
      }
    }
  }

  lemma ChargeEnds(s: Store, txn: int, t: Transaction, userId: string, card: Card, now: int)
    ensures var outcome := Charge(s, txn, t, userId, card, now).1;
            if s.paymentsDisabled then outcome.PaidWithoutRequest? else outcome.Charging?
  {
    hide CloseOpenOrder, BlameOpenOrder;
  }

  /** An order that is still open when its transaction is charged anew is closed without response. */
  lemma ClosesWithoutResponse(s: Store, txn: int, now: int, number: int)
    requires Valid(s) && PayTransaction(s, txn, now).1.Charging?
    requires number in s.book.orders && s.book.orders[number].txn == txn && !s.book.orders[number].isCompleted
    ensures var orders := PayTransaction(s, txn, now).0.book.orders;
            && number in orders
            && orders[number] == s.book.orders[number].(
                                   isCompleted := true, result := "closed without response", timeClosed := now)
  {
    assert BookOk(s.book) && txn > 0;
    hide BlameOpenOrder, CardFor, IsCardExpired, Valid, CloseOpenOrder;
    ClosesTheOne(s.book, txn, now, number);
    PayEffect(s, txn, now);
  }

  lemma ClosesTheOne(b: OrderBook, txn: int, now: int, number: int)
    requires BookOk(b) && txn > 0 && number in b.orders && IsOpen(b.orders[number], txn)
    ensures var b' := CloseOpenOrder(b, txn, now);
            && number in b'.orders && NextOrderNumber(b') != number
            && b'.orders[number] == b.orders[number].(
                                      isCompleted := true, result := "closed without response", timeClosed := now)
  {
    assert HasOpenOrder(b, txn);
    assert TheOpenOrder(b, txn) == number;
  }

  /** The first order of all has the number 1200. */
  lemma FirstNumber(s: Store, txn: int, now: int)
    requires s.book == OrderBook(map[], 0) && PayTransaction(s, txn, now).1.Charging?
    ensures PayTransaction(s, txn, now).1.request.order == 1200
  {
    hide BlameOpenOrder, CardFor, IsCardExpired;
    assert !HasOpenOrder(s.book, txn);
  }

  // ---- What an answer writes ----

  predicate Lists(orders: seq<Order>, number: int) {
    exists i | 0 <= i < |orders| :: orders[i].number == number
  }

  ghost predicate ListsOnce(orders: seq<Order>, number: int) {
    Lists(orders, number)
    && forall i, j | 0 <= i < |orders| && 0 <= j < |orders| && orders[i].number == number == orders[j].number :: i == j
  }

  /** The transaction lists the stored order, once, behind the entries there were. */
  ghost predicate ListsTheStored(s: Store, s': Store, txn: int, number: int)
    requires txn in s.transactions && txn in s'.transactions && number in s'.book.orders
  {
    var (before, after) := (s.transactions[txn].paymentOrders, s'.transactions[txn].paymentOrders);
    && before <= after && ListsOnce(after, number)
    && (if Lists(before, number) then after == before else after == before + [s'.book.orders[number]])
  }

  lemma AddsOnce(orders: seq<Order>, o: Order)
    requires DistinctNumbers(orders)
    ensures var after := WithOrder(orders, o);
            && orders <= after && ListsOnce(after, o.number)
            && (if Lists(orders, o.number) then after == orders else after == orders + [o])
  {
    if Lists(orders, o.number) {
      forall i, j | 0 <= i < |orders| && 0 <= j < |orders| && orders[i].number == o.number == orders[j].number
        ensures i == j
      {
      }
    } else {
      assert (orders + [o])[|orders|].number == o.number;
    }
  }

  /** The order of an answered charge: closed with the answer, unless it was closed before. */
  predicate ClosedWith(before: Order, after: Order, amount: int, result: string, now: int) {
    if before.isCompleted then after == before
    else after == before.(isCompleted := true, amount := amount, result := result, timeClosed := now)
  }

  /** An approval closes the order with amount and code of the response, and its transaction has the
      amount of the order billed, the order listed and named, no error and no retry. */
  lemma ApprovalWrites(s: Store, number: int, r: Response, now: int)
    requires Valid(s) && number in s.book.orders && r.transactionType != "3"
    requires s.book.orders[number].txn > 0 && s.book.orders[number].txn in s.transactions
    ensures var (s', refund) := ProcessPaymentResponse(s, r, number, now);
            var (o, txn) := (s.book.orders[number], s.book.orders[number].txn);
            && refund.None? && number in s'.book.orders && txn in s'.transactions
            && ClosedWith(o, s'.book.orders[number], r.amount, r.responseCode, now)
            && ListsTheStored(s, s', txn, number)
            && s'.transactions == s.transactions[txn := s.transactions[txn].(
                 paymentBilled := s.transactions[txn].paymentBilled + s'.book.orders[number].amount,
                 paymentOrder := number, paymentError := "",
                 paymentOrders := s'.transactions[txn].paymentOrders)]
            && s'.retries == s.retries - {txn}
  {
    hide CountFailure, WithOrder, ListsOnce, Lists;
    var o := s.book.orders[number];
    AddsOnce(s.transactions[o.txn].paymentOrders, Closed(o, r.amount, r.responseCode, now));
  }

  /** The reason of a refusal: the text of the failure, or the first code or message that is given. */
  predicate IsReason(reply: Reply, reason: string) {
    match reply
    case TransportError(text) => reason == if text == "" then "unknown error" else text
    case Replied(r) =>
      if r.responseCode != "" then reason == r.responseCode
      else if r.errorCode != "" then reason == r.errorCode
      else if r.errorMessage != "" then reason == r.errorMessage
      else reason == "unknown error"
  }

  /** The record of the next retry: one attempt more, due after an hour, a day, a week or thirty days;
      after four attempts there is none. */
  predicate IsNextRetry(before: map<int, Retry>, after: map<int, Retry>, txn: int, reason: string, now: int) {
    var attempt := if txn in before then before[txn].attempt + 1 else 1;
    if attempt > 4 then after == before - {txn}
    else
      && attempt >= 1
      && txn in after && after == before[txn := after[txn]]
      && after[txn].attempt == attempt
      && after[txn].nextRetryTime == now + [1, 24, 168, 720][attempt - 1] * 3_600_000_000_000
      && after[txn].lastError == reason && after[txn].updatedAt == now
      && after[txn].createdAt == if txn in before then before[txn].createdAt else now
  }

  lemma SchedulesTheNext(s: Store, txn: int, reason: string, now: int)
    requires RetriesOk(s.retries)
    ensures var s' := ScheduleRetry(s, txn, reason, now);
            s' == s.(retries := s'.retries) && IsNextRetry(s.retries, s'.retries, txn, reason, now)
  {
  }

  /** A refusal closes the order with its reason and the amount it had, and its transaction counts as
      billed, with the order listed and named, the reason as its error, and the next retry. */
  lemma RefusalWrites(s: Store, number: int, reply: Reply, reason: string, now: int)
    requires Valid(s) && number in s.book.orders && IsReason(reply, reason)
    requires reply.TransportError? || !reply.response.success
    requires s.book.orders[number].txn > 0 && s.book.orders[number].txn in s.transactions
    ensures var (s', refund) := ProcessPay(s, number, reply, now);
            var (o, txn) := (s.book.orders[number], s.book.orders[number].txn);
            && refund.None? && number in s'.book.orders && txn in s'.transactions
            && ClosedWith(o, s'.book.orders[number], o.amount, reason, now)
            && ListsTheStored(s, s', txn, number)
            && s'.transactions == s.transactions[txn := s.transactions[txn].(
                 paymentBilled := s.transactions[txn].paymentAmount,
                 paymentOrder := number, paymentError := reason,
                 paymentOrders := s'.transactions[txn].paymentOrders)]
            && IsNextRetry(s.retries, s'.retries, txn, reason, now)
  {
    hide ProcessPay;
    RefusalIsClosing(s, number, reply, reason, now);
    ClosingWrites(s, number, reason, now);
  }

  lemma RefusalIsClosing(s: Store, number: int, reply: Reply, reason: string, now: int)
    requires number in s.book.orders && IsReason(reply, reason)
    requires reply.TransportError? || !reply.response.success
    ensures ProcessPay(s, number, reply, now)
         == (CloseOrderOnError(s, s.book.orders[number], reason, now), None)
  {
    hide CountFailure, WithOrder, ScheduleRetry;
  }

  lemma ClosingWrites(s: Store, number: int, reason: string, now: int)
    requires Valid(s) && number in s.book.orders && reason != ""
    requires s.book.orders[number].txn > 0 && s.book.orders[number].txn in s.transactions
    ensures var (s', o, txn) := (CloseOrderOnError(s, s.book.orders[number], reason, now),
                                 s.book.orders[number], s.book.orders[number].txn);
            && number in s'.book.orders && txn in s'.transactions
            && ClosedWith(o, s'.book.orders[number], o.amount, reason, now)
            && ListsTheStored(s, s', txn, number)
            && s'.transactions == s.transactions[txn := s.transactions[txn].(
                 paymentBilled := s.transactions[txn].paymentAmount,
                 paymentOrder := number, paymentError := reason,
                 paymentOrders := s'.transactions[txn].paymentOrders)]
            && IsNextRetry(s.retries, s'.retries, txn, reason, now)
  {
    hide CountFailure, WithOrder, ListsOnce, Lists, ScheduleRetry, IsNextRetry;
    var o := s.book.orders[number];
    var closed := Closed(o, o.amount, reason, now);
    AddsOnce(s.transactions[o.txn].paymentOrders, closed);
    var t := s.transactions[o.txn];
    var failed := WriteOff(t).(paymentOrder := o.number, paymentError := reason,
                               paymentOrders := WithOrder(t.paymentOrders, closed));
    var s1 := s.(cards := CountFailure(s.cards, o.identifier, 1), book := SaveIfClosing(s.book, o, closed));
    SchedulesTheNext(SaveTransaction(s1, o.txn, failed), o.txn, reason, now);
  }

  /** Whatever happens afterwards, a transaction keeps what it lists, in its place. */
  lemma StepKeepsLists(s: Store, a: Action, txn: int)
    requires Valid(s) && txn in s.transactions
    ensures var s' := Step(s, a);
            txn in s'.transactions && s.transactions[txn].paymentOrders <= s'.transactions[txn].paymentOrders
  {
    hide PayTransaction, ProcessPay, ProcessPaymentResponse, Refuse, SetNewOrder, Valid;
    match a {
      case SweepTurn(u, now) => PayEffect(s, u, now);
      case Pay(u, now) => PayEffect(s, u, now);
      case RetryTurn(u, now) => RetryKeepsLists(s, u, now, txn);
      case ForceRetry(u, now) => RetryKeepsLists(s, u, now, txn);
      case Answer(number, reply, now) => ReplyKeepsLists(s, number, reply, now, txn);
      case AnswerRefund(number, reply, now) => ReplyKeepsLists(s, number, reply, now, txn);
      case Notify(number, r, now) =>
        RefuseKeepsLists(s, number, r.responseCode, now, txn);
        ResponseKeepsLists(s, r, number, now, txn);
      case OpenOrder(userId, draft, now) => OpeningKeepsLists(s, userId, draft, now);
      case _ =>
    }
  }

  lemma RetryKeepsLists(s: Store, u: int, now: int, txn: int)
    requires txn in s.transactions
    ensures var s' := RetryOne(s, u, now).0;
            txn in s'.transactions && s.transactions[txn].paymentOrders == s'.transactions[txn].paymentOrders
  {
    hide PayTransaction;
    if u in s.transactions {
      var reset := SaveTransaction(s, u, s.transactions[u].(paymentBilled := 0, paymentError := ""));
      PayEffect(reset, u, now);
    }
  }

  lemma RefuseKeepsLists(s: Store, number: int, reason: string, now: int, txn: int)
    requires txn in s.transactions
    ensures var s' := Refuse(s, number, reason, now);
            txn in s'.transactions && s.transactions[txn].paymentOrders <= s'.transactions[txn].paymentOrders
  {
    hide CountFailure;
  }

  lemma ResponseKeepsLists(s: Store, r: Response, number: int, now: int, txn: int)
    requires txn in s.transactions
    ensures var s' := ProcessPaymentResponse(s, r, number, now).0;
            txn in s'.transactions && s.transactions[txn].paymentOrders <= s'.transactions[txn].paymentOrders
  {
    hide CountFailure;
  }

  lemma ReplyKeepsLists(s: Store, number: int, reply: Reply, now: int, txn: int)
    requires txn in s.transactions
    ensures var s' := ProcessPay(s, number, reply, now).0;
            txn in s'.transactions && s.transactions[txn].paymentOrders <= s'.transactions[txn].paymentOrders
  {
    hide Refuse, ProcessPaymentResponse;
    match reply {
      case TransportError(text) => RefuseKeepsLists(s, number, text, now, txn);
      case Replied(r) =>
        RefuseKeepsLists(s, number, ResultCode(r), now, txn);
        ResponseKeepsLists(s, r, number, now, txn);
    }
  }

  lemma OpeningKeepsLists(s: Store, userId: string, draft: Order, now: int)
    ensures SetNewOrder(s, userId, draft, now).0.transactions == s.transactions
  {
  }

  lemma {:induction false} RunKeepsLists(s: Store, actions: seq<Action>, txn: int)
    requires Valid(s) && txn in s.transactions
    ensures var s' := Run(s, actions);
            txn in s'.transactions && s.transactions[txn].paymentOrders <= s'.transactions[txn].paymentOrders
  {
    hide Step, Valid;
    if actions != [] {
      var before := actions[..|actions| - 1];
      RunKeepsLists(s, before, txn);
      RunAdvances(s, before);
      StepKeepsLists(Run(s, before), actions[|actions| - 1], txn);
    }
  }

  /** Once answered, and for ever after, an order of a known transaction is listed by it exactly once. */
  lemma AnsweredIsListed(s: Store, first: seq<Action>, number: int, reply: Reply, now: int, rest: seq<Action>)
    requires Valid(s)
    requires var before := Run(s, first);
             && number in before.book.orders && before.book.orders[number].txn > 0
             && before.book.orders[number].txn in before.transactions
             && !(reply.Replied? && reply.response.success && reply.response.transactionType == "3")
    ensures var txn := Run(s, first).book.orders[number].txn;
            var end := Run(s, first + [Answer(number, reply, now)] + rest);
            txn in end.transactions && ListsOnce(end.transactions[txn].paymentOrders, number)
  {
    var (before, answer) := (Run(s, first), Answer(number, reply, now));
    var txn := before.book.orders[number].txn;
    RunAdvances(s, first);
    assert (first + [answer])[..|first|] == first;
    var after := Run(s, first + [answer]);
    assert after == ProcessPay(before, number, reply, now).0;
    hide Run, Step, ProcessPay, Valid;
    AnswerLists(before, number, reply, now);
    RunAdvances(s, first + [answer]);
    RunInParts(s, first + [answer], rest);
    RunKeepsLists(after, rest, txn);
    RunAdvances(after, rest);
    StaysListed(after.transactions[txn].paymentOrders, Run(after, rest), txn, number);
  }

  lemma AnswerLists(s: Store, number: int, reply: Reply, now: int)
    requires Valid(s) && number in s.book.orders
    requires s.book.orders[number].txn > 0 && s.book.orders[number].txn in s.transactions
    requires !(reply.Replied? && reply.response.success && reply.response.transactionType == "3")
    ensures var (s', txn) := (ProcessPay(s, number, reply, now).0, s.book.orders[number].txn);
            txn in s'.transactions && ListsOnce(s'.transactions[txn].paymentOrders, number)
  {
    hide ProcessPaymentResponse, CloseOrderOnError, Valid, ListsOnce;
    if reply.Replied? && reply.response.success {
      ApprovalWrites(s, number, reply.response, now);
    } else {
      var reason := if reply.TransportError? then (if reply.text == "" then "unknown error" else reply.text)
                    else ResultCode(reply.response);
      RefusalWrites(s, number, reply, reason, now);
    }
  }

  lemma StaysListed(before: seq<Order>, s: Store, txn: int, number: int)
    requires TransactionsOk(s.transactions) && txn in s.transactions
    requires ListsOnce(before, number) && before <= s.transactions[txn].paymentOrders
    ensures ListsOnce(s.transactions[txn].paymentOrders, number)
  {
    var orders := s.transactions[txn].paymentOrders;
    var i :| 0 <= i < |before| && before[i].number == number;
    assert orders[i].number == number;
    forall i, j | 0 <= i < |orders| && 0 <= j < |orders| && orders[i].number == number == orders[j].number
      ensures i == j
    {
    }
  }

  // ---- Enrollments, refunds, notifications and clients' orders ----

  /** An approved enrollment gives the user of the order the card of the response, unless it is theirs
      already, and asks for the amount back, if there is any. */
  lemma EnrollmentWrites(s: Store, number: int, r: Response, now: int)
    requires Valid(s) && number in s.book.orders && s.book.orders[number].txn <= 0 && r.transactionType != "3"
    ensures var (s', refund) := ProcessPaymentResponse(s, r, number, now);
            var o := s.book.orders[number];
            var known := exists c :: c in s.cards && c.identifier == r.merchantIdentifier && c.userId == o.userId;
            && number in s'.book.orders && ClosedWith(o, s'.book.orders[number], r.amount, r.responseCode, now)
            && s'.transactions == s.transactions && s'.retries == s.retries
            && (if r.merchantIdentifier != "" && o.userId != "" && !known then
                  && |s'.cards| == |s.cards| + 1
                  && s'.cards[|s.cards|] == Card(r.merchantIdentifier, o.userId, r.cofTxnid, r.expiryDate, false, 0)
                else |s'.cards| == |s.cards|)
            && refund == (var amount := s'.book.orders[number].amount;
                          if amount > 0 then Some(RefundRequest(number, amount)) else None)
  {
    hide WithOrder;
    var o := s.book.orders[number];
    var cards := CountFailure(s.cards, o.identifier, 0);
    SameHolders(s.cards, o.identifier, r.merchantIdentifier, o.userId);
  }

  lemma SameHolders(cards: seq<Card>, counted: string, identifier: string, userId: string)
    ensures HasCard(CountFailure(cards, counted, 0), identifier, userId)
            <==> exists c :: c in cards && c.identifier == identifier && c.userId == userId
  {
    var after := CountFailure(cards, counted, 0);
    assert forall i | 0 <= i < |cards| ::
             after[i].identifier == cards[i].identifier && after[i].userId == cards[i].userId;
    if i :| 0 <= i < |after| && after[i].identifier == identifier && after[i].userId == userId {
      assert cards[i] in cards;
    }
    if c :| c in cards && c.identifier == identifier && c.userId == userId {
      var i :| 0 <= i < |cards| && cards[i] == c;
      assert after[i].identifier == identifier;
    }
  }

  /** An approved refund is written on its order, and nowhere else but in the count of its card; a refund
      that could not be sent changes nothing. */
  lemma RefundWrites(s: Store, number: int, reply: Reply, now: int)
    requires Valid(s) && number in s.book.orders
    ensures reply.TransportError? ==> ProcessRefund(s, number, reply, now) == (s, None)
    ensures reply.Replied? && reply.response.success && reply.response.transactionType == "3" ==>
              var (s', refund) := ProcessRefund(s, number, reply, now);
              var (o, r) := (s.book.orders[number], reply.response);
              && refund.None? && s'.transactions == s.transactions && s'.retries == s.retries
              && number in s'.book.orders
              && s'.book.orders == s.book.orders[number := s'.book.orders[number]]
              && s'.book.orders[number].refundAmount == r.amount && s'.book.orders[number].refundTime == now
              && ClosedWith(o, s'.book.orders[number].(refundAmount := o.refundAmount, refundTime := o.refundTime),
                            r.amount, r.responseCode, now)
  {
    hide CountFailure, WithOrder;
  }

  /** A notification counts as the answer it reports; a refusal in it has its response code for reason. */
  lemma NotificationIsAnswer(s: Store, number: int, r: Response, now: int)
    ensures r.success ==> ProcessNotification(s, number, r, now) == ProcessPay(s, number, Replied(r), now)
    ensures !r.success && number in s.book.orders ==>
              ProcessNotification(s, number, r, now)
              == (CloseOrderOnError(s, s.book.orders[number], r.responseCode, now), None)
  {
    hide CountFailure, WithOrder, ScheduleRetry;
  }

  /** A client's order is stored as it was sent, as the order of the user who sent it; one without a
      number is given one and the time. */
  lemma ClientsOrder(s: Store, userId: string, draft: Order, now: int)
    ensures var (s', o) := SetOrder(s, userId, draft, now);
            && o.userId == userId && o.number in s'.book.orders && s'.book.orders[o.number] == o
            && o == draft.(userId := userId, number := o.number, timeOpened := o.timeOpened)
            && (draft.number != 0 ==> o.number == draft.number && o.timeOpened == draft.timeOpened)
            && (draft.number == 0 ==> o.timeOpened == now)
            && s' == s.(book := s'.book)
  {
    hide CloseOpenOrder;
  }
}
