/** Money over whole runs of the two sweeps and the gateway: what is collected, how often and when a
    transaction is charged, and that no transaction is forgotten. */
module PaymentLedger {
  import opened Options
  import opened PaymentModel
  import opened PaymentOrders

  // ---- What an observer writes down ----

  /** The history of one transaction: when it was charged, when a charge was refused, how much the
      gateway approved, whether its last visit wrote it off, and how many retries found the card expired. */
  datatype History = History(sent: seq<int>, refused: seq<int>, collected: int, writtenOff: bool, expired: nat)

  const NO_HISTORY: History := History([], [], 0, false, 0)

  /** The store, the charges still unanswered with their transactions, and the histories. */
  datatype World = World(store: Store, inFlight: map<int, int>, histories: map<int, History>)

  function HistoryOf(w: World, txn: int): History {
    if txn in w.histories then w.histories[txn] else NO_HISTORY
  }

  function Visited(h: History, retried: bool, outcome: PayOutcome, now: int): History {
    match outcome
    case Charging(_) => h.(sent := h.sent + [now], writtenOff := false)
    case NoUser => h.(writtenOff := true)
    case NoMethod => h.(writtenOff := true)
    case PaidWithoutRequest => h.(writtenOff := true)
    case CardExpired => h.(writtenOff := false, expired := if retried then h.expired + 1 else h.expired)
    case _ => h
  }

  function IsApproval(reply: Reply): bool {
    reply.Replied? && reply.response.success
  }

  function Answered(h: History, reply: Reply, now: int): History {
    if IsApproval(reply) then h.(collected := h.collected + reply.response.amount)
    else h.(refused := h.refused + [now])
  }

  function AfterVisit(w: World, txn: int, result: (Store, PayOutcome), now: int): World {
    World(
      result.0,
      if result.1.Charging? then w.inFlight[result.1.request.order := txn] else w.inFlight,
      w.histories[txn := Visited(HistoryOf(w, txn), txn in w.store.retries, result.1, now)])
  }

  ghost function WorldStep(w: World, a: Action): World {
    match a
    case SweepTurn(txn, now) => AfterVisit(w, txn, VisitUnbilled(w.store, txn, now), now)
    case RetryTurn(txn, now) => AfterVisit(w, txn, RetryOne(w.store, txn, now), now)
    case Answer(order, reply, now) =>
      var txn := if order in w.inFlight then w.inFlight[order] else 0;
      World(Step(w.store, a), w.inFlight - {order}, w.histories[txn := Answered(HistoryOf(w, txn), reply, now)])
    case _ => w.(store := Step(w.store, a))
  }

  // ---- Which runs ----

  predicate IsFlying(w: World, txn: int) {
    exists n :: n in w.inFlight && w.inFlight[n] == txn
  }

  /** A sweep turns to a transaction its query selects, once its last charge is answered; a charge is
      answered once, an approval echoes the amount. Cards, tags and sessions change freely, and
      clients open card enrollments, which are orders without a transaction; these are answered, and
      their refunds. */
  predicate Allowed(w: World, a: Action) {
    match a
    case SweepTurn(txn, now) => IsUnbilled(w.store, txn) && txn !in w.store.retries && !IsFlying(w, txn)
    case RetryTurn(txn, now) => IsPending(w.store, txn, now) && !IsFlying(w, txn)
    case Answer(order, reply, now) =>
      && order in w.inFlight
      && (IsApproval(reply) ==>
            && order in w.store.book.orders
            && reply.response.amount == w.store.book.orders[order].amount
            && reply.response.transactionType != "3")
    case OpenOrder(userId, draft, now) => draft.txn <= 0
    case Notify(order, response, now) =>
      order in w.store.book.orders && w.store.book.orders[order].txn <= 0
    case AnswerRefund(order, reply, now) =>
      order in w.store.book.orders && w.store.book.orders[order].txn <= 0
    case ForceRetry(_, _) => false
    case Pay(_, _) => false
    case _ => true
  }

  ghost function RunWorld(w: World, actions: seq<Action>): World {
    if actions == [] then w
    else WorldStep(RunWorld(w, actions[..|actions| - 1]), actions[|actions| - 1])
  }

  ghost predicate Disciplined(w: World, actions: seq<Action>) {
    actions == [] ||
    (Disciplined(w, actions[..|actions| - 1])
     && Allowed(RunWorld(w, actions[..|actions| - 1]), actions[|actions| - 1]))
  }

  /** Nothing has been billed, charged or scheduled yet. */
  ghost predicate Fresh(w: World) {
    && Valid(w.store) && w.inFlight == map[] && w.histories == map[] && w.store.retries == map[]
    && forall t | t in w.store.transactions :: w.store.transactions[t].paymentBilled == 0
  }

  // ---- One transaction ----

  /** Everything the run knows of one transaction. */
  datatype Account = Account(t: Transaction, retry: Option<Retry>, flying: bool, h: History)

  function AccountOf(w: World, txn: int): Account
    requires txn in w.store.transactions
  {
    Account(
      w.store.transactions[txn],
      if txn in w.store.retries then Some(w.store.retries[txn]) else None,
      IsFlying(w, txn),
      HistoryOf(w, txn))
  }

  predicate Chargeable(t: Transaction) {
    t.isFinished && t.paymentAmount > 0
  }

  // Where the money of a chargeable transaction can be; the account is in exactly one of them.

  predicate AwaitsAnswer(a: Account) {
    a.flying
  }

  predicate AwaitsSweep(a: Account) {
    !a.flying && a.retry.None? && a.t.paymentBilled < a.t.paymentAmount
  }

  predicate AwaitsRetry(a: Account) {
    !a.flying && a.retry.Some?
  }

  predicate IsPaid(a: Account) {
    && !a.flying && a.retry.None?
    && a.t.paymentBilled == a.t.paymentAmount == a.h.collected
  }

  predicate IsWrittenOff(a: Account) {
    && !a.flying && a.retry.None?
    && a.t.paymentBilled == a.t.paymentAmount && a.h.collected == 0 && a.h.writtenOff
  }

  /** Refused once more often than there are retries, and the error says so. */
  predicate IsExhausted(a: Account) {
    && !a.flying && a.retry.None?
    && a.t.paymentBilled == a.t.paymentAmount && a.h.collected == 0 && !a.h.writtenOff
    && a.t.paymentError != "" && |a.h.refused| > MAX_RETRY_ATTEMPTS
  }

  function Places(a: Account): nat {
    (if AwaitsAnswer(a) then 1 else 0) + (if AwaitsSweep(a) then 1 else 0) + (if AwaitsRetry(a) then 1 else 0)
    + (if IsPaid(a) then 1 else 0) + (if IsWrittenOff(a) then 1 else 0) + (if IsExhausted(a) then 1 else 0)
  }

  /** How many refusals a transaction can still take before it is given up. */
  function RefusalsLeft(a: Account): int {
    if a.retry.Some? then MAX_RETRY_ATTEMPTS + 1 - a.retry.value.attempt
    else if a.t.paymentBilled < a.t.paymentAmount then MAX_RETRY_ATTEMPTS + 1
    else 0
  }

  /** Charge k + 1 comes no earlier than the delay of attempt k after refusal k. */
  predicate WellSpaced(h: History) {
    && |h.refused| <= |h.sent|
    && forall k | 1 <= k < |h.sent| ::
         k <= |h.refused| && (k <= MAX_RETRY_ATTEMPTS ==> h.sent[k] >= h.refused[k - 1] + RETRY_DELAYS[k - 1])
  }

  predicate MoneyOk(a: Account) {
    if !Chargeable(a.t) then
      a.t.paymentBilled == 0 && a.retry.None? && !a.flying && a.h == NO_HISTORY
    else
      && (a.h.collected == 0 || a.h.collected == a.t.paymentAmount)
      && (a.flying ==> a.t.paymentBilled == 0 && a.h.collected == 0 && !a.h.writtenOff)
      && (a.retry.Some? ==>
            && RetryOk(a.retry.value)
            && a.retry.value.attempt <= |a.h.refused|
            && a.h.collected == 0
            && (a.t.paymentBilled == 0 || a.t.paymentBilled == a.t.paymentAmount))
      && (a.flying || a.retry.Some? || (a.t.paymentBilled == 0 && a.h.collected == 0 && !a.h.writtenOff)
          || IsPaid(a) || IsWrittenOff(a) || IsExhausted(a))
  }

  /** A retry that finds the card expired gives back the attempts there were before it, four at most. */
  predicate AttemptsOk(a: Account) {
    var answered := |a.h.refused| + (if a.h.collected > 0 then 1 else 0);
    && |a.h.sent| == answered + (if a.flying then 1 else 0)
    && |a.h.sent| <= MAX_RETRY_ATTEMPTS + 1 + 4 * a.h.expired
    && |a.h.refused| + RefusalsLeft(a) <= MAX_RETRY_ATTEMPTS + 1 + 4 * a.h.expired
  }

  /** As long as no retry has found the card expired. */
  predicate SpacingOk(a: Account) {
    && WellSpaced(a.h)
    && (a.retry.Some? ==>
          && |a.h.refused| == a.retry.value.attempt
          && |a.h.refused| > 0
          && a.retry.value.updatedAt == a.h.refused[|a.h.refused| - 1])
  }

  predicate AccountOk(a: Account) {
    MoneyOk(a) && AttemptsOk(a) && (a.h.expired == 0 ==> SpacingOk(a))
  }

  /** Every account is in order, and every charge in flight is an open order for the whole amount. */
  ghost predicate LedgerOk(w: World) {
    && Valid(w.store)
    && (forall t | t in w.store.retries :: t in w.store.transactions)
    && (forall t | t in w.histories :: t in w.store.transactions)
    && (forall n | n in w.inFlight :: FlightOk(w, n))
    && (forall t | t in w.store.transactions :: AccountOk(AccountOf(w, t)))
  }

  ghost predicate FlightOk(w: World, n: int)
    requires n in w.inFlight
  {
    && w.inFlight[n] in w.store.transactions
    && n in w.store.book.orders
    && IsOpen(w.store.book.orders[n], w.inFlight[n])
    && w.store.book.orders[n].amount == w.store.transactions[w.inFlight[n]].paymentAmount
  }

  // ---- One visit, one answer, on one account ----

  lemma VisitKeepsAccount(a: Account, t': Transaction, outcome: PayOutcome, now: int)
    requires AccountOk(a) && Chargeable(a.t) && AwaitsSweep(a)
    requires AfterPay(a.t, t', outcome) && !outcome.NotFound?
    ensures AccountOk(Account(t', None, outcome.Charging?, Visited(a.h, false, outcome, now)))
    ensures a.t.paymentBilled == 0
  {
  }

  lemma RetryKeepsAccount(a: Account, t': Transaction, outcome: PayOutcome, now: int)
    requires AccountOk(a) && AwaitsRetry(a) && a.retry.value.nextRetryTime <= now
    requires AfterPay(a.t.(paymentBilled := 0, paymentError := ""), t', outcome) && !outcome.NotFound?
    ensures AccountOk(Account(t', if outcome.CardExpired? then None else a.retry, outcome.Charging?,
                              Visited(a.h, true, outcome, now)))
    ensures Chargeable(a.t)
  {
  }

  /** The account after a refusal of the charge in flight. */
  function Refused(a: Account, t': Transaction, createdAt: int, lastError: string, now: int): Account {
    var attempt := if a.retry.Some? then a.retry.value.attempt + 1 else 1;
    Account(t', if attempt > MAX_RETRY_ATTEMPTS then None
                else Some(Retry(attempt, now + RetryDelay(attempt), lastError, createdAt, now)),
            false, a.h.(refused := a.h.refused + [now]))
  }

  lemma RefusalKeepsAccount(a: Account, t': Transaction, createdAt: int, lastError: string, now: int)
    requires AccountOk(a) && a.flying
    requires t'.isFinished == a.t.isFinished && t'.paymentAmount == a.t.paymentAmount == t'.paymentBilled
    requires t'.paymentError != ""
    ensures AccountOk(Refused(a, t', createdAt, lastError, now))
    ensures RefusalsLeft(Refused(a, t', createdAt, lastError, now)) == RefusalsLeft(a) - 1
  {
  }

  lemma ApprovalKeepsAccount(a: Account, t': Transaction)
    requires AccountOk(a) && a.flying
    requires t'.isFinished == a.t.isFinished && t'.paymentAmount == a.t.paymentAmount == t'.paymentBilled
    ensures var a' := Account(t', None, false, a.h.(collected := a.h.collected + a.t.paymentAmount));
            AccountOk(a') && IsPaid(a')
  {
  }

  // ---- Steps of the world ----

  /** The transaction an action is about, zero when there is none. */
  function Subject(w: World, a: Action): int {
    match a
    case SweepTurn(txn, _) => txn
    case RetryTurn(txn, _) => txn
    case Answer(order, _, _) => if order in w.inFlight then w.inFlight[order] else 0
    case StartSession(txn, _, _) => txn
    case FinishSession(txn, _) => txn
    case _ => 0
  }

  /** Every other account is as it was. */
  ghost predicate OthersKept(w: World, w': World, txn: int) {
    forall u | u in w.store.transactions && u != txn ::
      u in w'.store.transactions && AccountOf(w', u) == AccountOf(w, u)
  }

  lemma FlightsAreOfOneTransaction(w: World, m: int, n: int)
    requires LedgerOk(w) && m in w.inFlight && n in w.inFlight && w.inFlight[m] == w.inFlight[n]
    ensures m == n
  {
    assert FlightOk(w, m) && FlightOk(w, n);
  }

  /** A visit of a sweep, whatever it came to, from the store the visit leaves. */
  lemma VisitKeepsLedger(w: World, txn: int, s: Store, outcome: PayOutcome, now: int)
    requires LedgerOk(w) && txn in w.store.transactions && !IsFlying(w, txn)
    requires Valid(s) && s.transactions.Keys == w.store.transactions.Keys
    requires forall u | u in w.store.transactions && u != txn :: s.transactions[u] == w.store.transactions[u]
    requires s.transactions[txn].paymentAmount == w.store.transactions[txn].paymentAmount
    requires s.retries == if outcome.CardExpired? then w.store.retries - {txn} else w.store.retries
    requires forall n | n in w.store.book.orders && w.store.book.orders[n].txn != txn ::
               n in s.book.orders && s.book.orders[n] == w.store.book.orders[n]
    requires outcome.Charging? ==>
               && outcome.request.order in s.book.orders
               && IsOpen(s.book.orders[outcome.request.order], txn)
               && s.book.orders[outcome.request.order].amount == s.transactions[txn].paymentAmount
               && outcome.request.order !in w.store.book.orders
    requires AccountOk(Account(s.transactions[txn], if txn in s.retries then Some(s.retries[txn]) else None,
                               outcome.Charging?, Visited(HistoryOf(w, txn), txn in w.store.retries, outcome, now)))
    ensures LedgerOk(AfterVisit(w, txn, (s, outcome), now))
    ensures OthersKept(w, AfterVisit(w, txn, (s, outcome), now), txn)
  {
    hide AccountOk, Valid, Visited;
    var w' := AfterVisit(w, txn, (s, outcome), now);
    VisitKeepsFlights(w, txn, s, outcome, now);
    hide FlightOk;
    assert OnlyAbout(w, w', txn);
    assert AccountOk(AccountOf(w', txn));
    hide OnlyAbout, AccountOf, OthersKept;
    OtherAccountsKept(w, w', txn);
  }

  lemma VisitKeepsFlights(w: World, txn: int, s: Store, outcome: PayOutcome, now: int)
    requires LedgerOk(w) && txn in w.store.transactions && !IsFlying(w, txn)
    requires s.transactions.Keys == w.store.transactions.Keys
    requires forall u | u in w.store.transactions && u != txn :: s.transactions[u] == w.store.transactions[u]
    requires forall n | n in w.store.book.orders && w.store.book.orders[n].txn != txn ::
               n in s.book.orders && s.book.orders[n] == w.store.book.orders[n]
    requires outcome.Charging? ==>
               && outcome.request.order in s.book.orders
               && IsOpen(s.book.orders[outcome.request.order], txn)
               && s.book.orders[outcome.request.order].amount == s.transactions[txn].paymentAmount
               && outcome.request.order !in w.store.book.orders
    ensures var w' := AfterVisit(w, txn, (s, outcome), now);
            && (forall n | n in w'.inFlight :: FlightOk(w', n))
            && (forall n | n in w.inFlight :: n in w'.inFlight && w'.inFlight[n] == w.inFlight[n] != txn)
            && (IsFlying(w', txn) <==> outcome.Charging?)
  {
    hide AccountOk, Valid, Visited;
    var w' := AfterVisit(w, txn, (s, outcome), now);
    assert forall n | n in w.inFlight :: FlightOk(w, n) && w.inFlight[n] != txn;
    if outcome.Charging? {
      assert outcome.request.order !in w.inFlight && w'.inFlight[outcome.request.order] == txn;
    }
  }

  /** The worlds differ in one transaction, its retry, its history and its charges in flight. */
  ghost predicate OnlyAbout(w: World, w': World, txn: int) {
    && (forall u | u != txn :: u in w.store.transactions <==> u in w'.store.transactions)
    && (forall u | u != txn && u in w.store.transactions :: w'.store.transactions[u] == w.store.transactions[u])
    && (forall u | u != txn :: u in w.store.retries <==> u in w'.store.retries)
    && (forall u | u != txn && u in w.store.retries :: w'.store.retries[u] == w.store.retries[u])
    && (forall u | u != txn :: HistoryOf(w', u) == HistoryOf(w, u))
    && (forall n | n in w.inFlight && w.inFlight[n] != txn :: n in w'.inFlight && w'.inFlight[n] == w.inFlight[n])
    && (forall n | n in w'.inFlight && w'.inFlight[n] != txn :: n in w.inFlight && w'.inFlight[n] == w.inFlight[n])
  }

  lemma OtherAccountsKept(w: World, w': World, txn: int)
    requires OnlyAbout(w, w', txn)
    requires forall u | u in w.store.transactions :: AccountOk(AccountOf(w, u))
    requires txn in w'.store.transactions ==> AccountOk(AccountOf(w', txn))
    ensures forall u | u in w'.store.transactions :: AccountOk(AccountOf(w', u))
    ensures txn in w'.store.transactions || txn !in w.store.transactions ==> OthersKept(w, w', txn)
  {
    hide AccountOk;
    forall u | u in w'.store.transactions && u != txn
      ensures u in w.store.transactions && AccountOf(w', u) == AccountOf(w, u)
    {
      assert IsFlying(w', u) == IsFlying(w, u);
    }
  }

  lemma SweepTurnKeepsLedger(w: World, txn: int, now: int)
    requires LedgerOk(w) && Allowed(w, SweepTurn(txn, now))
    ensures LedgerOk(WorldStep(w, SweepTurn(txn, now)))
    ensures OthersKept(w, WorldStep(w, SweepTurn(txn, now)), txn)
  {
    hide PayTransaction, AccountOk, Valid, Visited;
    var (s, outcome) := PayTransaction(w.store, txn, now);
    PayAdvances(w.store, txn, now);
    PayEffect(w.store, txn, now);
    var a := AccountOf(w, txn);
    assert AccountOk(a);
    VisitKeepsAccount(a, s.transactions[txn], outcome, now);
    VisitKeepsLedger(w, txn, s, outcome, now);
  }

  lemma RetryTurnKeepsLedger(w: World, txn: int, now: int)
    requires LedgerOk(w) && Allowed(w, RetryTurn(txn, now))
    ensures LedgerOk(WorldStep(w, RetryTurn(txn, now)))
    ensures OthersKept(w, WorldStep(w, RetryTurn(txn, now)), txn)
  {
    hide PayTransaction, AccountOk, Visited;
    var t := w.store.transactions[txn].(paymentBilled := 0, paymentError := "");
    var reset := SaveTransaction(w.store, txn, t);
    var (s, outcome) := PayTransaction(reset, txn, now);
    PayAdvances(reset, txn, now);
    PayEffect(reset, txn, now);
    var a := AccountOf(w, txn);
    assert AccountOk(a);
    RetryKeepsAccount(a, s.transactions[txn], outcome, now);
    VisitKeepsLedger(w, txn, s, outcome, now);
  }

  /** An answer to a charge in flight, from the store it leaves and the account it makes. */
  lemma AnswerKeepsLedger(w: World, number: int, s: Store, h: History)
    requires LedgerOk(w) && number in w.inFlight
    requires var txn := w.inFlight[number];
             && Valid(s) && s.transactions.Keys == w.store.transactions.Keys && txn in s.transactions
             && (forall u | u in s.transactions && u != txn ::
                   s.transactions[u] == w.store.transactions[u]
                   && (u in s.retries <==> u in w.store.retries)
                   && (u in s.retries ==> s.retries[u] == w.store.retries[u]))
             && (forall u | u in s.retries :: u in s.transactions)
             && (forall n | n in w.store.book.orders && n != number ::
                   n in s.book.orders && s.book.orders[n] == w.store.book.orders[n])
             && AccountOk(Account(s.transactions[txn], if txn in s.retries then Some(s.retries[txn]) else None,
                                  false, h))
    ensures LedgerOk(World(s, w.inFlight - {number}, w.histories[w.inFlight[number] := h]))
    ensures OthersKept(w, World(s, w.inFlight - {number}, w.histories[w.inFlight[number] := h]), w.inFlight[number])
  {
    hide AccountOk, Valid;
    var txn := w.inFlight[number];
    var w' := World(s, w.inFlight - {number}, w.histories[txn := h]);
    forall n | n in w'.inFlight
      ensures FlightOk(w', n) && w.inFlight[n] != txn
    {
      assert FlightOk(w, n);
      if w.inFlight[n] == txn {
        FlightsAreOfOneTransaction(w, n, number);
      }
    }
    hide FlightOk;
    assert OnlyAbout(w, w', txn);
    assert AccountOf(w', txn) == Account(s.transactions[txn], AccountOf(w', txn).retry, false, h);
    hide OnlyAbout, AccountOf, OthersKept;
    OtherAccountsKept(w, w', txn);
  }

  lemma FlightIsOpen(w: World, number: int)
    requires LedgerOk(w) && number in w.inFlight
    ensures var txn := w.inFlight[number];
            && txn in w.store.transactions && txn > 0
            && AccountOf(w, txn).flying && AccountOk(AccountOf(w, txn))
            && Chargeable(w.store.transactions[txn]) && w.store.transactions[txn].paymentBilled == 0
            && number in w.store.book.orders
            && var o := w.store.book.orders[number];
               && o.number == number && o.txn == txn && !o.isCompleted
               && o.amount == w.store.transactions[txn].paymentAmount
  {
    assert FlightOk(w, number);
    assert IsFlying(w, w.inFlight[number]);
    assert AccountOk(AccountOf(w, w.inFlight[number]));
  }

  predicate IsRefusedForm(t: Transaction, t': Transaction) {
    && t'.isFinished == t.isFinished
    && t'.paymentAmount == t.paymentAmount == t'.paymentBilled
    && t'.paymentError != ""
  }

  predicate IsApprovedForm(t: Transaction, t': Transaction, amount: int) {
    && t'.isFinished == t.isFinished
    && t'.paymentAmount == t.paymentAmount
    && t'.paymentBilled == t.paymentBilled + amount
  }

  lemma RefuseEffect(s: Store, number: int, reason: string, now: int)
    requires number in s.book.orders
    requires var o := s.book.orders[number];
             o.number == number && !o.isCompleted && o.txn > 0 && o.txn in s.transactions
    ensures var (s', txn) := (Refuse(s, number, reason, now), s.book.orders[number].txn);
            && s'.transactions == s.transactions[txn := s'.transactions[txn]]
            && IsRefusedForm(s.transactions[txn], s'.transactions[txn])
            && s'.book.orders == s.book.orders[number := s'.book.orders[number]]
            && s'.retries == ScheduleRetry(s, txn, s'.transactions[txn].paymentError, now).retries
  {
    hide CountFailure, WithOrder;
  }

  lemma RefusalKeepsLedger(w: World, number: int, reason: string, now: int)
    requires LedgerOk(w) && number in w.inFlight
    ensures var txn := w.inFlight[number];
            var s := Refuse(w.store, number, reason, now);
            var h := HistoryOf(w, txn).(refused := HistoryOf(w, txn).refused + [now]);
            var w' := World(s, w.inFlight - {number}, w.histories[txn := h]);
            && LedgerOk(w') && OthersKept(w, w', txn)
            && txn in w.store.transactions && txn in w'.store.transactions
            && RefusalsLeft(AccountOf(w', txn)) == RefusalsLeft(AccountOf(w, txn)) - 1
  {
    hide AccountOk, Valid, RefusalsLeft, Refuse;
    var txn := w.inFlight[number];
    var a := AccountOf(w, txn);
    var s := Refuse(w.store, number, reason, now);
    FlightIsOpen(w, number);
    RefuseEffect(w.store, number, reason, now);
    RefuseAdvances(w.store, number, reason, now);
    var t' := s.transactions[txn];
    var createdAt := if txn in w.store.retries then w.store.retries[txn].createdAt else now;
    var a' := Refused(a, t', createdAt, t'.paymentError, now);
    RefusalKeepsAccount(a, t', createdAt, t'.paymentError, now);
    assert a' == Account(t', if txn in s.retries then Some(s.retries[txn]) else None, false, a'.h);
    AnswerKeepsLedger(w, number, s, a'.h);
    var w' := World(s, w.inFlight - {number}, w.histories[txn := a'.h]);
    assert !IsFlying(w', txn) by {
      if n :| n in w'.inFlight && w'.inFlight[n] == txn {
        FlightsAreOfOneTransaction(w, n, number);
      }
    }
    assert AccountOf(w', txn) == a';
  }

  lemma ResponseEffect(s: Store, r: Response, number: int, now: int)
    requires number in s.book.orders && r.transactionType != "3"
    requires var o := s.book.orders[number];
             o.number == number && !o.isCompleted && o.txn > 0 && o.txn in s.transactions
    ensures var (s', txn) := (ProcessPaymentResponse(s, r, number, now).0, s.book.orders[number].txn);
            && s'.transactions == s.transactions[txn := s'.transactions[txn]]
            && IsApprovedForm(s.transactions[txn], s'.transactions[txn], r.amount)
            && s'.book.orders == s.book.orders[number := s'.book.orders[number]]
            && s'.retries == s.retries - {txn}
  {
    hide CountFailure, WithOrder;
  }

  lemma ApprovalKeepsLedger(w: World, number: int, r: Response, now: int)
    requires LedgerOk(w) && number in w.inFlight
    requires Allowed(w, Answer(number, Replied(r), now)) && r.success
    ensures var txn := w.inFlight[number];
            var s := ProcessPaymentResponse(w.store, r, number, now).0;
            var h := HistoryOf(w, txn).(collected := HistoryOf(w, txn).collected + r.amount);
            var w' := World(s, w.inFlight - {number}, w.histories[txn := h]);
            LedgerOk(w') && OthersKept(w, w', txn)
  {
    hide AccountOk, Valid, ProcessPaymentResponse;
    var txn := w.inFlight[number];
    var a := AccountOf(w, txn);
    var s := ProcessPaymentResponse(w.store, r, number, now).0;
    FlightIsOpen(w, number);
    ResponseEffect(w.store, r, number, now);
    ResponseAdvances(w.store, r, number, now);
    ApprovalKeepsAccount(a, s.transactions[txn]);
    AnswerKeepsLedger(w, number, s, a.h.(collected := a.h.collected + r.amount));
  }

  /** Orders without a transaction, cards, tags and sessions leave the accounts alone. */
  lemma ElsewhereKeepsLedger(w: World, s: Store)
    requires LedgerOk(w) && Valid(s)
    requires s.transactions == w.store.transactions && s.retries == w.store.retries
    requires forall n | n in w.store.book.orders && w.store.book.orders[n].txn > 0 ::
               n in s.book.orders && s.book.orders[n] == w.store.book.orders[n]
    ensures LedgerOk(w.(store := s)) && OthersKept(w, w.(store := s), 0)
  {
    hide AccountOk, Valid;
    var w' := w.(store := s);
    forall n | n in w'.inFlight
      ensures FlightOk(w', n)
    {
      FlightIsOpen(w, n);
      assert FlightOk(w, n);
    }
    forall u | u in w'.store.transactions
      ensures AccountOk(AccountOf(w', u))
    {
      assert IsFlying(w', u) == IsFlying(w, u);
      assert AccountOf(w', u) == AccountOf(w, u);
    }
  }

  /** Nothing but the order itself, the cards and the book's mark of the last number changes. */
  ghost predicate IsElsewhere(s: Store, s': Store, number: int) {
    && s'.transactions == s.transactions && s'.retries == s.retries
    && number in s.book.orders && number in s'.book.orders
    && s'.book.orders == s.book.orders[number := s'.book.orders[number]]
  }

  lemma EnrollmentApproved(s: Store, number: int, r: Response, now: int)
    requires Valid(s) && number in s.book.orders && s.book.orders[number].txn <= 0
    ensures IsElsewhere(s, ProcessPaymentResponse(s, r, number, now).0, number)
  {
    hide CountFailure, Enroll, WithOrder;
    var o := s.book.orders[number];
    var book := SaveIfClosing(s.book, o, Closed(o, r.amount, r.responseCode, now));
    EnrollKeepsTheRest(s.(book := book, cards := CountFailure(s.cards, o.identifier, 0)), r, o.userId);
  }

  lemma EnrollmentRefused(s: Store, number: int, reason: string, now: int)
    requires Valid(s) && number in s.book.orders && s.book.orders[number].txn <= 0
    ensures IsElsewhere(s, Refuse(s, number, reason, now), number)
  {
    hide CountFailure, WithOrder;
  }

  lemma EnrollmentIsElsewhere(s: Store, number: int, r: Response, now: int)
    requires Valid(s) && number in s.book.orders && s.book.orders[number].txn <= 0
    ensures IsElsewhere(s, ProcessNotification(s, number, r, now).0, number)
  {
    hide ProcessPaymentResponse, Refuse, Valid, IsElsewhere;
    EnrollmentApproved(s, number, r, now);
    EnrollmentRefused(s, number, r.responseCode, now);
  }

  lemma RefundIsElsewhere(s: Store, number: int, reply: Reply, now: int)
    requires Valid(s) && number in s.book.orders && s.book.orders[number].txn <= 0
    ensures IsElsewhere(s, ProcessRefund(s, number, reply, now).0, number)
  {
    hide ProcessPaymentResponse, Refuse, Valid;
    if reply.Replied? {
      EnrollmentApproved(s, number, reply.response, now);
      EnrollmentRefused(s, number, ResultCode(reply.response), now);
    }
  }

  /** A session is started once, with nothing billed, and finished once. */
  ghost predicate IsSession(s: Store, s': Store, txn: int) {
    && s' == s.(transactions := s'.transactions)
    && (forall u | u != txn :: u in s.transactions <==> u in s'.transactions)
    && (forall u | u != txn && u in s.transactions :: s'.transactions[u] == s.transactions[u])
    && (if txn in s.transactions then
          && txn in s'.transactions
          && (s'.transactions[txn] == s.transactions[txn]
              || (!s.transactions[txn].isFinished
                  && s'.transactions[txn] == s.transactions[txn].(
                       isFinished := true, paymentAmount := s'.transactions[txn].paymentAmount)))
        else txn in s'.transactions ==> IsNewSession(s'.transactions[txn]))
  }

  predicate IsNewSession(t: Transaction) {
    !t.isFinished && t.paymentBilled == 0 && t.paymentAmount == 0
  }

  lemma SessionEffect(s: Store, a: Action)
    requires a.StartSession? || a.FinishSession?
    ensures IsSession(s, Step(s, a), a.txn)
  {
  }

  lemma SessionKeepsLedger(w: World, a: Action)
    requires LedgerOk(w) && (a.StartSession? || a.FinishSession?)
    ensures LedgerOk(WorldStep(w, a)) && OthersKept(w, WorldStep(w, a), a.txn)
  {
    var w' := WorldStep(w, a);
    StepAdvances(w.store, a);
    SessionEffect(w.store, a);
    assert w' == w.(store := Step(w.store, a));
    hide AccountOk, Valid, Step, WorldStep, IsSession;
    SessionKeepsFlights(w, w'.store, a.txn);
    SessionIsOk(w, w'.store, a.txn);
    SessionIsOnly(w, w'.store, a.txn);
    hide OnlyAbout, AccountOf, OthersKept;
    OtherAccountsKept(w, w', a.txn);
  }

  lemma SessionIsOnly(w: World, s: Store, txn: int)
    requires LedgerOk(w) && IsSession(w.store, s, txn)
    ensures OnlyAbout(w, w.(store := s), txn)
    ensures forall t | t in w.store.transactions :: t in s.transactions
    ensures s.retries == w.store.retries
  {
    hide AccountOk, FlightOk, Valid;
  }

  lemma SessionKeepsFlights(w: World, s: Store, txn: int)
    requires LedgerOk(w) && IsSession(w.store, s, txn)
    ensures forall n | n in w.inFlight :: FlightOk(w.(store := s), n)
  {
    hide AccountOk, Valid;
    forall n | n in w.inFlight
      ensures FlightOk(w.(store := s), n)
    {
      FlightIsOpen(w, n);
      assert FlightOk(w, n);
    }
  }

  lemma SessionIsOk(w: World, s: Store, txn: int)
    requires LedgerOk(w) && IsSession(w.store, s, txn)
    ensures txn in s.transactions ==> AccountOk(AccountOf(w.(store := s), txn))
  {
    hide AccountOk, Valid;
    var w' := w.(store := s);
    if txn in w.store.transactions {
      assert AccountOk(AccountOf(w, txn));
      SessionKeepsAccount(AccountOf(w, txn), AccountOf(w', txn));
    } else if txn in s.transactions {
      assert forall n | n in w.inFlight :: FlightOk(w, n);
      assert !IsFlying(w, txn);
      NewSessionIsOk(AccountOf(w', txn));
    }
  }

  lemma SessionKeepsAccount(a: Account, a': Account)
    requires AccountOk(a)
    requires || a' == a
             || (!a.t.isFinished && a' == a.(t := a.t.(isFinished := true, paymentAmount := a'.t.paymentAmount)))
    ensures AccountOk(a')
  {
  }

  lemma NewSessionIsOk(a: Account)
    requires !a.t.isFinished && a.t.paymentBilled == 0 && a.t.paymentAmount == 0
    requires a.retry.None? && !a.flying && a.h == NO_HISTORY
    ensures AccountOk(a)
  {
  }

  lemma StepKeepsLedger(w: World, a: Action)
    requires LedgerOk(w) && Allowed(w, a)
    ensures LedgerOk(WorldStep(w, a))
    ensures OthersKept(w, WorldStep(w, a), Subject(w, a))
  {
    hide LedgerOk, OthersKept, PayTransaction, RetryOne, Refuse, ProcessPaymentResponse, ProcessNotification;
    hide ProcessRefund, SetNewOrder;
    match a {
      case SweepTurn(txn, now) => SweepTurnKeepsLedger(w, txn, now);
      case RetryTurn(txn, now) => RetryTurnKeepsLedger(w, txn, now);
      case Answer(order, reply, now) =>
        if IsApproval(reply) {
          ApprovalKeepsLedger(w, order, reply.response, now);
        } else {
          RefusalStep(w, order, reply, now);
          RefusalKeepsLedger(w, order, ReasonOf(reply), now);
        }
      case Notify(order, response, now) => NotificationKeepsLedger(w, order, response, now);
      case AnswerRefund(order, reply, now) => RefundKeepsLedger(w, order, reply, now);
      case OpenOrder(userId, draft, now) => EnrollmentKeepsLedger(w, userId, draft, now);
      case ChangeCards(cards) => OtherKeepsLedger(w, a);
      case ChangeTags(tags) => OtherKeepsLedger(w, a);
      case StartSession(_, _, _) => SessionKeepsLedger(w, a);
      case FinishSession(_, _) => SessionKeepsLedger(w, a);
    }
  }

  lemma NotificationKeepsLedger(w: World, order: int, response: Response, now: int)
    requires LedgerOk(w) && Allowed(w, Notify(order, response, now))
    ensures LedgerOk(WorldStep(w, Notify(order, response, now)))
    ensures OthersKept(w, WorldStep(w, Notify(order, response, now)), 0)
  {
    hide ProcessNotification, AccountOk, Valid;
    EnrollmentIsElsewhere(w.store, order, response, now);
    StepAdvances(w.store, Notify(order, response, now));
    ElsewhereKeepsLedger(w, Step(w.store, Notify(order, response, now)));
  }

  lemma RefundKeepsLedger(w: World, order: int, reply: Reply, now: int)
    requires LedgerOk(w) && Allowed(w, AnswerRefund(order, reply, now))
    ensures LedgerOk(WorldStep(w, AnswerRefund(order, reply, now)))
    ensures OthersKept(w, WorldStep(w, AnswerRefund(order, reply, now)), 0)
  {
    hide ProcessRefund, AccountOk, Valid;
    RefundIsElsewhere(w.store, order, reply, now);
    StepAdvances(w.store, AnswerRefund(order, reply, now));
    ElsewhereKeepsLedger(w, Step(w.store, AnswerRefund(order, reply, now)));
  }

  lemma EnrollmentKeepsLedger(w: World, userId: string, draft: Order, now: int)
    requires LedgerOk(w) && draft.txn <= 0
    ensures LedgerOk(WorldStep(w, OpenOrder(userId, draft, now)))
    ensures OthersKept(w, WorldStep(w, OpenOrder(userId, draft, now)), 0)
  {
    hide AccountOk;
    NewOrderAdvances(w.store, userId, draft, now);
    ElsewhereKeepsLedger(w, SetNewOrder(w.store, userId, draft, now).0);
  }

  lemma OtherKeepsLedger(w: World, a: Action)
    requires LedgerOk(w) && (a.ChangeCards? || a.ChangeTags?)
    ensures LedgerOk(WorldStep(w, a)) && OthersKept(w, WorldStep(w, a), 0)
  {
    hide AccountOk;
    ElsewhereKeepsLedger(w, Step(w.store, a));
  }

  // ---- Whole runs ----

  lemma FreshIsOk(w: World)
    requires Fresh(w)
    ensures LedgerOk(w)
  {
    forall t | t in w.store.transactions
      ensures AccountOk(AccountOf(w, t))
    {
    }
  }

  lemma {:induction false} RunKeepsLedger(w: World, actions: seq<Action>)
    requires LedgerOk(w) && Disciplined(w, actions)
    ensures LedgerOk(RunWorld(w, actions))
  {
    hide LedgerOk, Allowed, WorldStep;
    if actions != [] {
      var n := |actions| - 1;
      RunKeepsLedger(w, actions[..n]);
      StepKeepsLedger(RunWorld(w, actions[..n]), actions[n]);
    }
  }

  /** What the gateway has approved for a transaction is nothing, or exactly its amount; in that
      case it is paid and neither sweep selects it, at any time. */
  lemma CollectedOnceOrNever(w: World, actions: seq<Action>, txn: int)
    requires Fresh(w) && Disciplined(w, actions)
    requires txn in RunWorld(w, actions).store.transactions
    ensures var w' := RunWorld(w, actions);
            var amount := w'.store.transactions[txn].paymentAmount;
            && (HistoryOf(w', txn).collected == 0 || HistoryOf(w', txn).collected == amount)
            && (HistoryOf(w', txn).collected != 0 ==>
                  && IsPaid(AccountOf(w', txn))
                  && !IsUnbilled(w'.store, txn)
                  && forall now :: !IsPending(w'.store, txn, now))
  {
    FreshIsOk(w);
    RunKeepsLedger(w, actions);
    assert AccountOk(AccountOf(RunWorld(w, actions), txn));
  }

  lemma PaidStays(w: World, a: Action, txn: int)
    requires LedgerOk(w) && Allowed(w, a)
    requires txn in w.store.transactions && Chargeable(w.store.transactions[txn]) && IsPaid(AccountOf(w, txn))
    ensures var w' := WorldStep(w, a);
            txn in w'.store.transactions && AccountOf(w', txn) == AccountOf(w, txn)
  {
    hide PayTransaction, RetryOne, ProcessPay, ProcessNotification, SetNewOrder, AccountOk, BookOk;
    StepKeepsLedger(w, a);
    assert a.Answer? && Subject(w, a) == txn ==> IsFlying(w, txn);
  }

  ghost predicate IsPaidIn(w: World, txn: int) {
    txn in w.store.transactions && Chargeable(w.store.transactions[txn]) && IsPaid(AccountOf(w, txn))
  }

  /** Once a transaction is paid nothing more happens to it: no charge, no refusal, no collection. */
  lemma {:induction false} PaidIsFinal(w: World, first: seq<Action>, rest: seq<Action>, txn: int)
    requires Fresh(w) && Disciplined(w, first + rest) && IsPaidIn(RunWorld(w, first), txn)
    ensures var w' := RunWorld(w, first + rest);
            IsPaidIn(w', txn) && AccountOf(w', txn) == AccountOf(RunWorld(w, first), txn)
  {
    hide WorldStep, Allowed, Fresh, LedgerOk;
    if rest == [] {
      assert first + rest == first;
    } else {
      var n := |rest| - 1;
      assert (first + rest)[..|first| + n] == first + rest[..n];
      PaidIsFinal(w, first, rest[..n], txn);
      FreshIsOk(w);
      RunKeepsLedger(w, first + rest[..n]);
      PaidStays(RunWorld(w, first + rest[..n]), rest[n], txn);
    }
  }

  /** A chargeable transaction is never stranded: its charge is in flight, or exactly one of the
      sweeps is to take it up, or it is paid, written off, or given up with the reason recorded; and
      a sweep may take it up as soon as it runs, or as soon as the retry falls due. */
  lemma NeverStranded(w: World, actions: seq<Action>, txn: int)
    requires Fresh(w) && Disciplined(w, actions)
    requires var w' := RunWorld(w, actions);
             txn in w'.store.transactions && Chargeable(w'.store.transactions[txn])
    ensures var w' := RunWorld(w, actions);
            var a := AccountOf(w', txn);
            && Places(a) == 1
            && (AwaitsSweep(a) <==> forall now :: Allowed(w', SweepTurn(txn, now)))
            && (AwaitsRetry(a) <==> a.retry.Some? && forall now | now >= a.retry.value.nextRetryTime ::
                                      Allowed(w', RetryTurn(txn, now)))
            && (a.retry.Some? ==> RetryOk(a.retry.value))
  {
    FreshIsOk(w);
    RunKeepsLedger(w, actions);
    var w' := RunWorld(w, actions);
    var a := AccountOf(w', txn);
    assert AccountOk(a);
    assert AwaitsSweep(a) <==> Allowed(w', SweepTurn(txn, 0));
    if a.retry.Some? {
      assert AwaitsRetry(a) <==> Allowed(w', RetryTurn(txn, a.retry.value.nextRetryTime));
    }
  }

  predicate WaitsForDelays(h: History) {
    && |h.refused| <= |h.sent| <= MAX_RETRY_ATTEMPTS + 1 && |h.sent| <= |h.refused| + 1
    && forall k | 1 <= k < |h.sent| :: h.sent[k] >= h.refused[k - 1] + RETRY_DELAYS[k - 1]
  }

  /** Whatever the gateway answers, a transaction is charged at most once more than there are retries,
      four times more for each retry that found its card expired, and never twice without an answer.
      Where no retry found that, each charge after the first waits for the delay of its attempt after the
      refusal before it. */
  lemma ChargesAreBounded(w: World, actions: seq<Action>, txn: int)
    requires Fresh(w) && Disciplined(w, actions)
    requires txn in RunWorld(w, actions).store.transactions
    ensures var h := HistoryOf(RunWorld(w, actions), txn);
            && |h.sent| <= 5 + 4 * h.expired
            && |h.refused| <= |h.sent| <= |h.refused| + 1
            && (h.expired == 0 ==> WaitsForDelays(h))
  {
    FreshIsOk(w);
    RunKeepsLedger(w, actions);
    assert AccountOk(AccountOf(RunWorld(w, actions), txn));
  }

  /** Every refusal in such a run brings the transaction one step closer to being given up. */
  lemma RefusalsRunOut(w: World, actions: seq<Action>, order: int, reply: Reply, now: int)
    requires Fresh(w) && Disciplined(w, actions)
    requires order in RunWorld(w, actions).inFlight && !IsApproval(reply)
    ensures var before := RunWorld(w, actions);
            var after := WorldStep(before, Answer(order, reply, now));
            var txn := before.inFlight[order];
            && txn in before.store.transactions && txn in after.store.transactions
            && 0 <= RefusalsLeft(AccountOf(after, txn)) == RefusalsLeft(AccountOf(before, txn)) - 1
  {
    FreshIsOk(w);
    RunKeepsLedger(w, actions);
    var before := RunWorld(w, actions);
    hide RefusalsLeft, Refuse, Fresh, Disciplined, RunWorld, LedgerOk, OthersKept, WorldStep;
    RefusalStep(before, order, reply, now);
    RefusalKeepsLedger(before, order, ReasonOf(reply), now);
    LeftIsNeverNegative(WorldStep(before, Answer(order, reply, now)), before.inFlight[order]);
  }

  function ReasonOf(reply: Reply): string {
    match reply
    case TransportError(text) => text
    case Replied(r) => ResultCode(r)
  }

  lemma RefusalStep(w: World, order: int, reply: Reply, now: int)
    requires order in w.inFlight && !IsApproval(reply)
    ensures var txn := w.inFlight[order];
            var h := HistoryOf(w, txn);
            WorldStep(w, Answer(order, reply, now))
            == World(Refuse(w.store, order, ReasonOf(reply), now), w.inFlight - {order},
                     w.histories[txn := h.(refused := h.refused + [now])])
  {
    hide Refuse;
  }

  /** A retry that finds the card expired hands the transaction back to the other sweep, with all its
      attempts before it. */
  lemma ExpiryRenewsAttempts(w: World, txn: int, now: int)
    requires LedgerOk(w) && Allowed(w, RetryTurn(txn, now)) && RetryOne(w.store, txn, now).1.CardExpired?
    ensures txn in w.store.transactions && txn in WorldStep(w, RetryTurn(txn, now)).store.transactions
    ensures var (a, a') := (AccountOf(w, txn), AccountOf(WorldStep(w, RetryTurn(txn, now)), txn));
            && AwaitsRetry(a) && AwaitsSweep(a')
            && RefusalsLeft(a) < RefusalsLeft(a') == MAX_RETRY_ATTEMPTS + 1
            && a'.h.sent == a.h.sent && a'.h.expired == a.h.expired + 1
  {
    hide PayTransaction, Valid;
    var t := w.store.transactions[txn].(paymentBilled := 0, paymentError := "");
    PayEffect(SaveTransaction(w.store, txn, t), txn, now);
    assert AccountOk(AccountOf(w, txn));
    RetryKeepsAccount(AccountOf(w, txn), RetryOne(w.store, txn, now).0.transactions[txn], CardExpired, now);
  }

  lemma LeftIsNeverNegative(w: World, txn: int)
    requires LedgerOk(w) && txn in w.store.transactions
    ensures RefusalsLeft(AccountOf(w, txn)) >= 0
  {
    assert AccountOk(AccountOf(w, txn));
  }

  /** Such runs do collect: a charge of a transaction not billed before, approved with its amount,
      leaves it paid. */
  lemma ApprovedChargeIsCollected(w: World, txn: int, now: int, r: Response, later: int)
    requires Fresh(w) && txn in w.store.transactions && Chargeable(w.store.transactions[txn])
    requires PayTransaction(w.store, txn, now).1.Charging?
    requires r.success && r.transactionType != "3" && r.amount == w.store.transactions[txn].paymentAmount
    ensures var order := PayTransaction(w.store, txn, now).1.request.order;
            var actions := [SweepTurn(txn, now), Answer(order, Replied(r), later)];
            && Disciplined(w, actions)
            && IsPaidIn(RunWorld(w, actions), txn)
            && HistoryOf(RunWorld(w, actions), txn).collected == w.store.transactions[txn].paymentAmount
  {
    var order := PayTransaction(w.store, txn, now).1.request.order;
    var (sweep, answer) := (SweepTurn(txn, now), Answer(order, Replied(r), later));
    FreshIsOk(w);
    NothingIsDisciplined(w);
    assert Allowed(w, sweep);
    ExtendRun(w, [], sweep);
    SweepTurnKeepsLedger(w, txn, now);
    ChargeIsInFlight(w, txn, now);
    var charged := WorldStep(w, sweep);
    hide Fresh, PayTransaction, LedgerOk, Disciplined, RunWorld, WorldStep;
    assert [] + [sweep] == [sweep];
    FlightIsOpen(charged, order);
    ExtendRun(w, [sweep], answer);
    assert [sweep] + [answer] == [sweep, answer];
    ApprovalCollects(charged, order, r, later);
  }

  lemma ChargeIsInFlight(w: World, txn: int, now: int)
    requires txn in w.store.transactions && txn !in w.store.retries
    requires PayTransaction(w.store, txn, now).1.Charging? && HistoryOf(w, txn) == NO_HISTORY
    requires IsUnbilled(w.store, txn)
    ensures var charged := WorldStep(w, SweepTurn(txn, now));
            var order := PayTransaction(w.store, txn, now).1.request.order;
            && order in charged.inFlight && charged.inFlight[order] == txn
            && txn in charged.store.transactions
            && charged.store.transactions[txn].paymentAmount == w.store.transactions[txn].paymentAmount
            && HistoryOf(charged, txn).collected == 0
  {
    PayEffect(w.store, txn, now);
    hide PayTransaction, RetryOne, ProcessPay, ProcessNotification, SetNewOrder;
  }

  lemma ApprovalCollects(w: World, order: int, r: Response, now: int)
    requires LedgerOk(w) && order in w.inFlight && Allowed(w, Answer(order, Replied(r), now)) && r.success
    ensures var txn := w.inFlight[order];
            var w' := WorldStep(w, Answer(order, Replied(r), now));
            && txn in w.store.transactions && IsPaidIn(w', txn)
            && HistoryOf(w', txn).collected == HistoryOf(w, txn).collected + r.amount
  {
    var txn := w.inFlight[order];
    var answer := Answer(order, Replied(r), now);
    StepKeepsLedger(w, answer);
    FlightIsOpen(w, order);
    ResponseEffect(w.store, r, order, now);
    var w' := WorldStep(w, answer);
    hide ProcessPaymentResponse, PayTransaction, RetryOne, ProcessNotification, SetNewOrder;
    assert AccountOk(AccountOf(w, txn)) && AccountOk(AccountOf(w', txn));
    hide LedgerOk;
  }

  // ---- Why the answers have to be disciplined ----

  /** An approval of the charge in flight settles the transaction exactly when it echoes the amount. */
  lemma EchoSettles(w: World, order: int, r: Response, now: int)
    requires LedgerOk(w) && order in w.inFlight && r.success && r.transactionType != "3"
    ensures var txn := w.inFlight[order];
            var s := ProcessPay(w.store, order, Replied(r), now).0;
            && txn in s.transactions && order in w.store.book.orders
            && (s.transactions[txn].paymentBilled == s.transactions[txn].paymentAmount
                <==> r.amount == w.store.book.orders[order].amount)
  {
    hide ProcessPaymentResponse;
    FlightIsOpen(w, order);
    ResponseEffect(w.store, r, order, now);
  }

  /** An approval of any order of a transaction, in any state of its account, leaves it billed with its
      amount if and only if nothing was billed and the order counts for everything, or everything was
      billed and it counts for nothing. An order counts with the amount it was closed with, or, when
      it is open, with the one approved. */
  lemma ApprovalSettles(w: World, order: int, r: Response, now: int)
    requires LedgerOk(w) && order in w.store.book.orders && r.transactionType != "3"
    requires var o := w.store.book.orders[order];
             o.txn > 0 && o.txn in w.store.transactions && Chargeable(w.store.transactions[o.txn])
    ensures var o := w.store.book.orders[order];
            var (t, s) := (w.store.transactions[o.txn], ProcessPaymentResponse(w.store, r, order, now).0);
            var counts := if o.isCompleted then o.amount else r.amount;
            && o.txn in s.transactions
            && (t.paymentBilled == 0 || t.paymentBilled == t.paymentAmount)
            && (s.transactions[o.txn].paymentBilled == t.paymentAmount
                <==> counts == if t.paymentBilled == 0 then t.paymentAmount else 0)
  {
    hide CountFailure, WithOrder, Valid;
    assert AccountOk(AccountOf(w, w.store.book.orders[order].txn));
  }

  /** An approval of an order that is already closed bills the order's amount once more. */
  lemma SecondApprovalBillsAgain(s: Store, order: int, r: Response, now: int)
    requires order in s.book.orders && r.transactionType != "3"
    requires var o := s.book.orders[order]; o.isCompleted && o.txn > 0 && o.txn in s.transactions
    ensures var o := s.book.orders[order];
            var s' := ProcessPaymentResponse(s, r, order, now).0;
            && o.txn in s'.transactions
            && s'.transactions[o.txn].paymentBilled == s.transactions[o.txn].paymentBilled + o.amount
            && s'.book == s.book
  {
  }

  // ---- A sweep is a run ----

  /** The turns of one sweep over the listed transactions; those with a retry record are passed over. */
  function SweepTurns(ids: seq<int>, retries: map<int, Retry>, now: int): seq<Action> {
    if ids == [] then []
    else
      var id := ids[|ids| - 1];
      SweepTurns(ids[..|ids| - 1], retries, now) + (if id in retries then [] else [SweepTurn(id, now)])
  }

  function RetryTurns(ids: seq<int>, now: int): seq<Action> {
    seq(|ids|, i requires 0 <= i < |ids| => RetryTurn(ids[i], now))
  }

  predicate Distinct(ids: seq<int>) {
    forall i, j | 0 <= i < j < |ids| :: ids[i] != ids[j]
  }

  lemma ExtendRun(w: World, actions: seq<Action>, a: Action)
    requires Disciplined(w, actions) && Allowed(RunWorld(w, actions), a)
    ensures Disciplined(w, actions + [a])
    ensures RunWorld(w, actions + [a]) == WorldStep(RunWorld(w, actions), a)
  {
    assert (actions + [a])[..|actions|] == actions;
  }

  /** A sweep over what its query lists is a disciplined run of its turns, so everything said of
      runs is said of the sweeps themselves. */
  lemma {:induction false} SweepIsRun(w: World, ids: seq<int>, now: int)
    requires LedgerOk(w) && Distinct(ids)
    requires forall id | id in ids :: IsUnbilled(w.store, id) && !IsFlying(w, id)
    ensures var turns := SweepTurns(ids, w.store.retries, now);
            var w' := RunWorld(w, turns);
            && Disciplined(w, turns) && LedgerOk(w')
            && w'.store == SweepUnbilled(w.store, ids, now).0
            && forall u | u in w.store.transactions && u !in ids ::
                 u in w'.store.transactions && AccountOf(w', u) == AccountOf(w, u)
  {
    hide LedgerOk, PayTransaction, Disciplined, AfterVisit;
    if ids == [] {
      assert Disciplined(w, []) by { NothingIsDisciplined(w); }
    } else {
      var n := |ids| - 1;
      var id, turns := ids[n], SweepTurns(ids[..n], w.store.retries, now);
      SweepIsRun(w, ids[..n], now);
      var w1 := RunWorld(w, turns);
      assert id in ids && id !in ids[..n];
      assert AccountOf(w1, id) == AccountOf(w, id);
      if id in w.store.retries {
        assert SweepTurns(ids, w.store.retries, now) == turns;
      } else {
        assert Allowed(w1, SweepTurn(id, now));
        ExtendRun(w, turns, SweepTurn(id, now));
        StepKeepsLedger(w1, SweepTurn(id, now));
        SweepTurnStore(w1, id, now);
      }
    }
  }

  lemma NothingIsDisciplined(w: World)
    ensures Disciplined(w, []) && RunWorld(w, []) == w
  {
  }

  lemma SweepTurnStore(w: World, txn: int, now: int)
    ensures WorldStep(w, SweepTurn(txn, now)).store == VisitUnbilled(w.store, txn, now).0
  {
  }

  lemma {:induction false} RetrySweepIsRun(w: World, ids: seq<int>, now: int)
    requires LedgerOk(w) && Distinct(ids)
    requires forall id | id in ids :: IsPending(w.store, id, now) && !IsFlying(w, id)
    ensures var turns := RetryTurns(ids, now);
            var w' := RunWorld(w, turns);
            && Disciplined(w, turns) && LedgerOk(w')
            && w'.store == SweepRetries(w.store, ids, now).0
            && forall u | u in w.store.transactions && u !in ids ::
                 u in w'.store.transactions && AccountOf(w', u) == AccountOf(w, u)
  {
    hide LedgerOk, RetryOne, Disciplined, AfterVisit;
    if ids == [] {
      assert RetryTurns(ids, now) == [];
      NothingIsDisciplined(w);
    } else {
      var n := |ids| - 1;
      var id, turns := ids[n], RetryTurns(ids[..n], now);
      RetrySweepIsRun(w, ids[..n], now);
      var w1 := RunWorld(w, turns);
      assert RetryTurns(ids, now) == turns + [RetryTurn(id, now)];
      assert id in ids && id !in ids[..n];
      PendingIsKnown(w, id, now);
      assert AccountOf(w1, id) == AccountOf(w, id);
      assert Allowed(w1, RetryTurn(id, now));
      ExtendRun(w, turns, RetryTurn(id, now));
      StepKeepsLedger(w1, RetryTurn(id, now));
      RetryTurnStore(w1, id, now);
    }
  }

  lemma PendingIsKnown(w: World, txn: int, now: int)
    requires LedgerOk(w) && IsPending(w.store, txn, now)
    ensures txn in w.store.transactions
  {
  }

  lemma RetryTurnStore(w: World, txn: int, now: int)
    ensures WorldStep(w, RetryTurn(txn, now)).store == RetryOne(w.store, txn, now).0
  {
  }
}
