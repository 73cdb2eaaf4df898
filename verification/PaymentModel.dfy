/** The payment records and, for every operation of the payment core, the store it leaves behind.
    Amounts are in minor units and instants in nanoseconds. */
module PaymentModel {
  import opened Options
  import opened CardExpiry
  import Calendar

  datatype Card = Card(
    identifier: string,
    userId: string,
    cofTid: string,
    expiry: string,
    isDefault: bool,
    failCount: int)

  datatype Order = Order(
    number: int,
    txn: int,
    userId: string,
    amount: int,
    identifier: string,
    isCompleted: bool,
    result: string,
    timeOpened: int,
    timeClosed: int,
    refundAmount: int,
    refundTime: int)

  datatype Transaction = Transaction(
    isFinished: bool,
    idTag: string,
    userTag: Option<string>,
    paymentAmount: int,
    paymentBilled: int,
    paymentOrder: int,
    paymentError: string,
    paymentMethod: Option<Card>,
    paymentOrders: seq<Order>)

  datatype Retry = Retry(attempt: int, nextRetryTime: int, lastError: string, createdAt: int, updatedAt: int)

  /** The stored orders by number, and the greatest of the numbers, zero when there is none. */
  datatype OrderBook = OrderBook(orders: map<int, Order>, last: int)

  /** What the repository holds. Transactions and retries are keyed by the transaction's number;
      tags map an id tag to its user id. */
  datatype Store = Store(
    transactions: map<int, Transaction>,
    book: OrderBook,
    retries: map<int, Retry>,
    cards: seq<Card>,
    tags: map<string, string>,
    paymentsDisabled: bool)

  const MAX_RETRY_ATTEMPTS: int := 4
  const FIRST_ORDER: int := 1200
  const RETRY_DELAYS: seq<int> :=
    [Calendar.HOUR, 24 * Calendar.HOUR, 7 * 24 * Calendar.HOUR, 30 * 24 * Calendar.HOUR]

  function RetryDelay(attempt: int): int {
    if 1 <= attempt <= |RETRY_DELAYS| then RETRY_DELAYS[attempt - 1] else 0
  }

  // ---- Searching ----

  /** The position of the first element that satisfies p, or the length when there is none. */
  function FirstIndex<T>(xs: seq<T>, p: T -> bool): (i: nat)
    ensures i <= |xs|
    ensures i < |xs| ==> p(xs[i])
    ensures forall j | 0 <= j < i :: !p(xs[j])
  {
    if xs == [] then 0
    else if p(xs[0]) then 0
    else 1 + FirstIndex(xs[1..], p)
  }

  function FirstSuch<T>(xs: seq<T>, p: T -> bool): (r: Option<T>)
    ensures r.Some? ==> r.value in xs && p(r.value)
    ensures r.None? ==> forall x | x in xs :: !p(x)
  {
    var i := FirstIndex(xs, p);
    if i < |xs| then Some(xs[i]) else None
  }

  // ---- Cards ----

  predicate IsFresh(card: Card, userId: string, skip: string, now: int) {
    && card.userId == userId
    && card.identifier != skip
    && card.failCount <= 0
    && card.cofTid != ""
    && !IsCardExpired(card.expiry, now)
  }

  /** The first fresh default card of the user, else the first fresh one. */
  function PickFresh(cards: seq<Card>, userId: string, skip: string, now: int): (r: Option<Card>)
    ensures r.Some? ==> r.value in cards && IsFresh(r.value, userId, skip, now)
    ensures r.None? ==> forall c | c in cards :: !IsFresh(c, userId, skip, now)
    ensures r.Some? && !r.value.isDefault ==> forall c | c in cards && c.isDefault :: !IsFresh(c, userId, skip, now)
  {
    match FirstSuch(cards, (c: Card) => c.isDefault && IsFresh(c, userId, skip, now))
    case Some(card) => Some(card)
    case None => FirstSuch(cards, (c: Card) => IsFresh(c, userId, skip, now))
  }

  /** The default card when it has no failures, else any card without failures. */
  function DefaultCard(cards: seq<Card>, userId: string): Option<Card> {
    match FirstSuch(cards, (c: Card) => c.userId == userId && c.isDefault && c.failCount <= 0)
    case Some(card) => Some(card)
    case None => FirstSuch(cards, (c: Card) => c.userId == userId && c.failCount <= 0)
  }

  /** A count of zero resets the failures of the card, any other adds one. */
  function CountFailure(cards: seq<Card>, identifier: string, count: int): (r: seq<Card>)
    ensures |r| == |cards|
  {
    var i := FirstIndex(cards, (c: Card) => c.identifier == identifier);
    if identifier == "" || i == |cards| then cards
    else cards[i := cards[i].(failCount := if count > 0 then cards[i].failCount + 1 else count)]
  }

  /** The card a transaction is charged to: its own or the user's default, replaced by a fresh one
      when there is a reason to doubt it. */
  function CardFor(s: Store, t: Transaction, userId: string, now: int): Option<Card> {
    var own := if t.paymentMethod.Some? then t.paymentMethod else DefaultCard(s.cards, userId);
    if own.None? then None
    else if IsDoubtful(own.value, t, now) then
      match PickFresh(s.cards, userId, own.value.identifier, now)
      case Some(card) => Some(card)
      case None => own
    else own
  }

  predicate IsDoubtful(card: Card, t: Transaction, now: int) {
    card.cofTid == "" || card.failCount > 0 || t.paymentError != "" || IsCardExpired(card.expiry, now)
  }

  // ---- Orders ----

  predicate IsOpen(o: Order, txn: int) {
    o.txn == txn && !o.isCompleted
  }

  ghost predicate HasOpenOrder(b: OrderBook, txn: int) {
    exists n :: n in b.orders && IsOpen(b.orders[n], txn)
  }

  ghost function TheOpenOrder(b: OrderBook, txn: int): (n: int)
    requires HasOpenOrder(b, txn)
    ensures n in b.orders && IsOpen(b.orders[n], txn)
  {
    var n :| n in b.orders && IsOpen(b.orders[n], txn);
    n
  }

  function SaveOrder(b: OrderBook, o: Order): OrderBook {
    OrderBook(b.orders[o.number := o], if o.number > b.last then o.number else b.last)
  }

  function NextOrderNumber(b: OrderBook): int {
    if b.last != 0 then b.last + 1 else FIRST_ORDER
  }

  function ClosedUnanswered(o: Order, now: int): Order {
    o.(isCompleted := true, result := "closed without response", timeClosed := now)
  }

  ghost function CloseOpenOrder(b: OrderBook, txn: int, now: int): OrderBook {
    if HasOpenOrder(b, txn) then SaveOrder(b, ClosedUnanswered(b.orders[TheOpenOrder(b, txn)], now)) else b
  }

  /** Closing an order that went unanswered counts as a failure of its card. */
  ghost function BlameOpenOrder(cards: seq<Card>, b: OrderBook, txn: int): seq<Card> {
    if HasOpenOrder(b, txn) then CountFailure(cards, b.orders[TheOpenOrder(b, txn)].identifier, 1) else cards
  }

  /** The payment orders of a transaction with one more, unless its number is already there. */
  function WithOrder(orders: seq<Order>, o: Order): seq<Order> {
    if exists i | 0 <= i < |orders| :: orders[i].number == o.number then orders else orders + [o]
  }

  // ---- Retries ----

  function ScheduleRetry(s: Store, txn: int, lastError: string, now: int): Store {
    var attempt := if txn in s.retries then s.retries[txn].attempt + 1 else 1;
    if attempt > MAX_RETRY_ATTEMPTS then s.(retries := s.retries - {txn})
    else
      var createdAt := if txn in s.retries then s.retries[txn].createdAt else now;
      s.(retries := s.retries[txn := Retry(attempt, now + RetryDelay(attempt), lastError, createdAt, now)])
  }

  // ---- Charging ----

  datatype PayRequest = PayRequest(order: int, amount: int, cardToken: string, cofTid: string)
  datatype RefundRequest = RefundRequest(order: int, amount: int)

  /** How a call of PayTransaction ends. The last three are the ones without an error. */
  datatype PayOutcome =
    | NotFound
    | NotFinished
    | TagMissing
    | NoUser
    | NoMethod
    | CardExpired
    | NothingDue
    | PaidWithoutRequest
    | Charging(request: PayRequest)

  function UserOf(s: Store, t: Transaction): Option<string> {
    if t.userTag.Some? then t.userTag
    else if t.idTag in s.tags then Some(s.tags[t.idTag])
    else None
  }

  function SaveTransaction(s: Store, txn: int, t: Transaction): Store {
    s.(transactions := s.transactions[txn := t])
  }

  function WriteOff(t: Transaction): Transaction {
    t.(paymentBilled := t.paymentAmount)
  }

  ghost function PayTransaction(s: Store, txn: int, now: int): (Store, PayOutcome) {
    if txn !in s.transactions then (s, NotFound)
    else
      var t := s.transactions[txn];
      if !t.isFinished then (s, NotFinished)
      else if t.paymentAmount - t.paymentBilled <= 0 then (s, NothingDue)
      else match UserOf(s, t)
        case None => (s, TagMissing)
        case Some(userId) =>
          if userId == "" then (SaveTransaction(s, txn, WriteOff(t)), NoUser)
          else match CardFor(s, t, userId, now)
            case None => (SaveTransaction(s, txn, WriteOff(t)), NoMethod)
            case Some(card) =>
              if IsCardExpired(card.expiry, now) then
                (SaveTransaction(s, txn, t.(paymentError := "payment method expired")).(retries := s.retries - {txn}),
                 CardExpired)
              else Charge(s, txn, t, userId, card, now)
  }

  /** The order of a charge of everything still due. */
  function ChargeOrder(number: int, txn: int, t: Transaction, userId: string, card: Card, now: int): Order {
    Order(number, txn, userId, t.paymentAmount - t.paymentBilled, card.identifier, false, "", now, 0, 0, 0)
  }

  /** Closes the order that is still open, and sends a new one unless payments are disabled. */
  ghost function Charge(s: Store, txn: int, t: Transaction, userId: string, card: Card, now: int): (Store, PayOutcome) {
    var charged := t.(paymentMethod := Some(card));
    var book := CloseOpenOrder(s.book, txn, now);
    var s1 := SaveTransaction(s, txn, charged).(book := book, cards := BlameOpenOrder(s.cards, s.book, txn));
    if s.paymentsDisabled then (SaveTransaction(s1, txn, WriteOff(charged)), PaidWithoutRequest)
    else
      var o := ChargeOrder(NextOrderNumber(book), txn, t, userId, card, now);
      (s1.(book := SaveOrder(book, o)), Charging(PayRequest(o.number, o.amount, o.identifier, card.cofTid)))
  }

  // ---- Gateway answers ----

  /** The fields of a gateway response the core looks at; amount is the number its text parses to,
      zero when it does not. */
  datatype Response = Response(
    success: bool,
    responseCode: string,
    errorCode: string,
    errorMessage: string,
    amount: int,
    transactionType: string,
    merchantIdentifier: string,
    cofTxnid: string,
    expiryDate: string)

  datatype Reply = TransportError(text: string) | Replied(response: Response)

  function ResultCode(r: Response): (code: string)
    ensures code != ""
  {
    if r.responseCode != "" then r.responseCode
    else if r.errorCode != "" then r.errorCode
    else if r.errorMessage != "" then r.errorMessage
    else "unknown error"
  }

  /** An order closes once; what it was closed with stays. */
  function Closed(o: Order, amount: int, result: string, now: int): Order {
    if o.isCompleted then o else o.(amount := amount, isCompleted := true, result := result, timeClosed := now)
  }

  function SaveIfClosing(b: OrderBook, o: Order, closed: Order): OrderBook {
    if o.isCompleted then b else SaveOrder(b, closed)
  }

  function CloseOrderOnError(s: Store, o: Order, reason: string, now: int): Store {
    var result := if reason == "" then "unknown error" else reason;
    var closed := Closed(o, o.amount, result, now);
    var s1 := s.(cards := CountFailure(s.cards, o.identifier, 1), book := SaveIfClosing(s.book, o, closed));
    if o.txn > 0 && o.txn in s.transactions then
      var t := s.transactions[o.txn];
      var failed := WriteOff(t).(paymentOrder := o.number, paymentError := result,
                                 paymentOrders := WithOrder(t.paymentOrders, closed));
      ScheduleRetry(SaveTransaction(s1, o.txn, failed), o.txn, result, now)
    else s1
  }

  function ProcessPaymentResponse(s: Store, r: Response, number: int, now: int): (Store, Option<RefundRequest>) {
    if number !in s.book.orders then (s, None)
    else
      var o := s.book.orders[number];
      var closed := Closed(o, r.amount, r.responseCode, now);
      var s1 := s.(book := SaveIfClosing(s.book, o, closed), cards := CountFailure(s.cards, o.identifier, 0));
      if r.transactionType == "3" then
        (s1.(book := SaveOrder(s1.book, closed.(refundAmount := r.amount, refundTime := now))), None)
      else if o.txn > 0 then
        if o.txn !in s.transactions then (s1, None)
        else
          var t := s.transactions[o.txn];
          var paid := t.(paymentOrder := o.number, paymentBilled := t.paymentBilled + closed.amount, paymentError := "",
                         paymentOrders := WithOrder(t.paymentOrders, closed));
          (SaveTransaction(s1, o.txn, paid).(retries := s.retries - {o.txn}), None)
      else (Enroll(s1, r, o.userId), if closed.amount > 0 then Some(RefundRequest(o.number, closed.amount)) else None)
  }

  /** A card enrollment stores the card of the response, unless the user already has it. */
  function Enroll(s: Store, r: Response, userId: string): Store {
    if r.merchantIdentifier == "" || userId == "" || HasCard(s.cards, r.merchantIdentifier, userId) then s
    else s.(cards := s.cards + [Card(r.merchantIdentifier, userId, r.cofTxnid, r.expiryDate, false, 0)])
  }

  predicate HasCard(cards: seq<Card>, identifier: string, userId: string) {
    exists i | 0 <= i < |cards| :: cards[i].identifier == identifier && cards[i].userId == userId
  }

  function Refuse(s: Store, number: int, reason: string, now: int): Store {
    if number in s.book.orders then CloseOrderOnError(s, s.book.orders[number], reason, now) else s
  }

  function ProcessPay(s: Store, number: int, reply: Reply, now: int): (Store, Option<RefundRequest>) {
    match reply
    case TransportError(text) => (Refuse(s, number, text, now), None)
    case Replied(r) =>
      if r.success then ProcessPaymentResponse(s, r, number, now)
      else (Refuse(s, number, ResultCode(r), now), None)
  }

  function ProcessRefund(s: Store, number: int, reply: Reply, now: int): (Store, Option<RefundRequest>) {
    match reply
    case TransportError(_) => (s, None)
    case Replied(r) => ProcessPay(s, number, reply, now)
  }

  /** The notification carries its reason in the response code alone. */
  function ProcessNotification(s: Store, number: int, r: Response, now: int): (Store, Option<RefundRequest>) {
    if r.success then ProcessPaymentResponse(s, r, number, now)
    else (Refuse(s, number, r.responseCode, now), None)
  }

  // ---- Sweeps and orders opened by clients ----

  predicate IsUnbilled(s: Store, txn: int) {
    && txn in s.transactions
    && var t := s.transactions[txn];
       t.isFinished && t.paymentAmount > 0 && t.paymentBilled < t.paymentAmount
  }

  predicate IsPending(s: Store, txn: int, now: int) {
    txn in s.retries && s.retries[txn].nextRetryTime <= now
  }

  /** The record of a transaction that is gone is dropped; otherwise the payment starts over. */
  ghost function RetryOne(s: Store, txn: int, now: int): (Store, PayOutcome) {
    if txn !in s.transactions then (s.(retries := s.retries - {txn}), NotFound)
    else
      var t := s.transactions[txn];
      PayTransaction(SaveTransaction(s, txn, t.(paymentBilled := 0, paymentError := "")), txn, now)
  }

  /** One turn of the sweep over unbilled transactions. */
  ghost function VisitUnbilled(s: Store, txn: int, now: int): (Store, PayOutcome) {
    if txn in s.retries then (s, NothingDue) else PayTransaction(s, txn, now)
  }

  function Launched(outcome: PayOutcome): seq<PayRequest> {
    if outcome.Charging? then [outcome.request] else []
  }

  ghost function SweepUnbilled(s: Store, ids: seq<int>, now: int): (Store, seq<PayRequest>) {
    if ids == [] then (s, [])
    else
      var (s1, sent) := SweepUnbilled(s, ids[..|ids| - 1], now);
      var (s2, outcome) := VisitUnbilled(s1, ids[|ids| - 1], now);
      (s2, sent + Launched(outcome))
  }

  ghost function SweepRetries(s: Store, ids: seq<int>, now: int): (Store, seq<PayRequest>) {
    if ids == [] then (s, [])
    else
      var (s1, sent) := SweepRetries(s, ids[..|ids| - 1], now);
      var (s2, outcome) := RetryOne(s1, ids[|ids| - 1], now);
      (s2, sent + Launched(outcome))
  }

  /** An order sent by a client with number zero: the interrupted one is closed, a number given. */
  ghost function SetNewOrder(s: Store, userId: string, draft: Order, now: int): (Store, Order) {
    var book := if draft.txn > 0 then CloseOpenOrder(s.book, draft.txn, now) else s.book;
    var o := draft.(number := NextOrderNumber(book), timeOpened := now, userId := userId);
    (s.(book := SaveOrder(book, o)), o)
  }

  /** A number chosen by the caller is taken as it is, over whatever order has it. */
  ghost function SetOrder(s: Store, userId: string, draft: Order, now: int): (Store, Order) {
    if draft.number == 0 then SetNewOrder(s, userId, draft, now)
    else
      var o := draft.(userId := userId);
      (s.(book := SaveOrder(s.book, o)), o)
  }
}
