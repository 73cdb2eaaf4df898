/** Which card a charge goes to, and what answers do to the failure counts of cards. */
module PaymentCards {
  import opened Options
  import opened CardExpiry
  import opened PaymentModel
  import opened PaymentOrders

  function OwnCard(s: Store, t: Transaction, userId: string): Option<Card> {
    if t.paymentMethod.Some? then t.paymentMethod else DefaultCard(s.cards, userId)
  }

  predicate HasFresh(cards: seq<Card>, userId: string, skip: string, now: int) {
    exists i | 0 <= i < |cards| :: IsFresh(cards[i], userId, skip, now)
  }

  predicate HasFreshDefault(cards: seq<Card>, userId: string, skip: string, now: int) {
    exists i | 0 <= i < |cards| :: cards[i].isDefault && IsFresh(cards[i], userId, skip, now)
  }

  /** A charge never goes to an expired card. It goes to the transaction's own card, or to the
      default one, unless that is doubtful and a fresh one exists; then to a fresh one, a default one
      if there is any. */
  predicate IsRightCard(s: Store, t: Transaction, userId: string, card: Card, now: int) {
    var own := OwnCard(s, t, userId);
    && own.Some?
    && !IsCardExpired(card.expiry, now)
    && if IsDoubtful(own.value, t, now) && HasFresh(s.cards, userId, own.value.identifier, now) then
         && card in s.cards && IsFresh(card, userId, own.value.identifier, now)
         && (HasFreshDefault(s.cards, userId, own.value.identifier, now) ==> card.isDefault)
       else card == own.value
  }

  /** The card of a charge is the right one; the request and the order name it, the transaction
      remembers it, and the order is the user's. */
  lemma ChargesTheRightCard(s: Store, txn: int, now: int)
    requires Valid(s)
    ensures var (s', outcome) := PayTransaction(s, txn, now);
            outcome.Charging? ==>
              && txn in s'.transactions && s'.transactions[txn].paymentMethod.Some?
              && UserOf(s, s.transactions[txn]).Some?
              && var card := s'.transactions[txn].paymentMethod.value;
                 var userId := UserOf(s, s.transactions[txn]).value;
                 && IsRightCard(s, s.transactions[txn], userId, card, now)
                 && outcome.request.cardToken == card.identifier
                 && outcome.request.cofTid == card.cofTid
                 && outcome.request.order in s'.book.orders
                 && s'.book.orders[outcome.request.order].identifier == card.identifier
                 && s'.book.orders[outcome.request.order].userId == userId
  {
    hide CloseOpenOrder, BlameOpenOrder, Valid;
    PayAdvances(s, txn, now);
    var (s', outcome) := PayTransaction(s, txn, now);
    if outcome.Charging? {
      var t := s.transactions[txn];
      ChoosesTheRightCard(s, t, UserOf(s, t).value, now);
    }
  }

  lemma ChoosesTheRightCard(s: Store, t: Transaction, userId: string, now: int)
    ensures var card := CardFor(s, t, userId, now);
            card.Some? && !IsCardExpired(card.value.expiry, now) ==> IsRightCard(s, t, userId, card.value, now)
  {
    hide IsFresh, IsCardExpired;
    var own := OwnCard(s, t, userId);
    if own.Some? {
      PicksFreshIfAny(s.cards, userId, own.value.identifier, now);
    }
  }

  lemma PicksFreshIfAny(cards: seq<Card>, userId: string, skip: string, now: int)
    ensures PickFresh(cards, userId, skip, now).Some? <==> HasFresh(cards, userId, skip, now)
    ensures PickFresh(cards, userId, skip, now).Some? && HasFreshDefault(cards, userId, skip, now) ==>
              PickFresh(cards, userId, skip, now).value.isDefault
  {
    hide IsFresh;
    var r := PickFresh(cards, userId, skip, now);
    if r.Some? {
      var i :| 0 <= i < |cards| && cards[i] == r.value;
    }
  }

  // ---- Retries and the card that was refused ----

  /** A retry forgets the error, so it changes the card exactly when the card as the transaction
      remembers it is itself doubtful and a fresh one exists. */
  lemma RetrySwitchesCard(s: Store, txn: int, now: int)
    requires txn in s.transactions && s.transactions[txn].paymentMethod.Some?
    requires RetryOne(s, txn, now).1.Charging?
    ensures UserOf(s, s.transactions[txn]).Some?
    ensures var own := s.transactions[txn].paymentMethod.value;
            var userId := UserOf(s, s.transactions[txn]).value;
            RetryOne(s, txn, now).1.request.cardToken != own.identifier
            <==> (own.cofTid == "" || own.failCount > 0 || IsCardExpired(own.expiry, now))
                 && HasFresh(s.cards, userId, own.identifier, now)
  {
    hide CloseOpenOrder, BlameOpenOrder, IsCardExpired;
    var t := s.transactions[txn];
    var own := t.paymentMethod.value;
    PicksFreshIfAny(s.cards, UserOf(s, t).value, own.identifier, now);
  }

  /** A card without failures that is charged and refused is charged again by the retry, whatever
      cards the user has added in between: the transaction remembers it as it was when chosen. */
  lemma RefusedCardIsRetried(s: Store, txn: int, paid: int, reason: string, refused: int, cards: seq<Card>, now: int)
    requires Valid(s) && PayTransaction(s, txn, paid).1.Charging?
    requires var charged := PayTransaction(s, txn, paid).0.transactions;
             txn in charged && charged[txn].paymentMethod.Some?
             && var card := charged[txn].paymentMethod.value;
                card.cofTid != "" && card.failCount <= 0 && !IsCardExpired(card.expiry, now)
    ensures var (s1, outcome) := PayTransaction(s, txn, paid);
            var s2 := Refuse(s1, outcome.request.order, reason, refused).(cards := cards);
            var retried := RetryOne(s2, txn, now).1;
            && (retried.Charging? ==> retried.request.cardToken == outcome.request.cardToken)
            && (s.transactions[txn].paymentAmount > 0 ==> retried.Charging?)
  {
    hide RetryOne, PayTransaction, Valid, IsCardExpired;
    PayAdvances(s, txn, paid);
    ChargesTheRightCard(s, txn, paid);
    var (s1, outcome) := PayTransaction(s, txn, paid);
    RefusalKeepsTheCard(s1, txn, outcome.request.order, reason, refused);
    ChargingAgain(s, txn, paid);
    var s2 := Refuse(s1, outcome.request.order, reason, refused).(cards := cards);
    if RetryOne(s2, txn, now).1.Charging? {
      RetrySwitchesCard(s2, txn, now);
    }
    if s.transactions[txn].paymentAmount > 0 {
      RetryCharges(s2, txn, now);
    }
  }

  /** What a charge shows of the transaction, and keeps. */
  lemma ChargingAgain(s: Store, txn: int, now: int)
    requires PayTransaction(s, txn, now).1.Charging?
    ensures var s' := PayTransaction(s, txn, now).0;
            && !s'.paymentsDisabled && s'.tags == s.tags
            && txn in s.transactions && txn in s'.transactions
            && s'.transactions[txn].isFinished
            && s'.transactions[txn].paymentAmount == s.transactions[txn].paymentAmount
            && UserOf(s', s'.transactions[txn]).Some? && UserOf(s', s'.transactions[txn]).value != ""
  {
    hide CardFor, CloseOpenOrder, BlameOpenOrder, IsCardExpired;
  }

  lemma RetryCharges(s: Store, txn: int, now: int)
    requires txn in s.transactions && s.transactions[txn].isFinished && s.transactions[txn].paymentAmount > 0
    requires !s.paymentsDisabled && UserOf(s, s.transactions[txn]).Some? && UserOf(s, s.transactions[txn]).value != ""
    requires s.transactions[txn].paymentMethod.Some?
    requires var own := s.transactions[txn].paymentMethod.value;
             own.cofTid != "" && own.failCount <= 0 && !IsCardExpired(own.expiry, now)
    ensures RetryOne(s, txn, now).1.Charging?
  {
    hide CloseOpenOrder, BlameOpenOrder, IsCardExpired;
  }

  /** So it goes with a session of one euro and a user who, told of the refusal, adds a card and makes
      it the default: the retry charges the old card, though the new one is fresh. */
  lemma NewCardIsPassedOver(paid: int, refused: int, now: int)
    ensures var first, added := Card("old", "user", "cof", "", false, 0), Card("new", "user", "cof", "", true, 0);
            var t := Transaction(true, "tag", Some("user"), 100, 0, 0, "", None, []);
            var s := Store(map[1 := t], OrderBook(map[], 0), map[], [first], map[], false);
            var (s1, outcome) := PayTransaction(s, 1, paid);
            && outcome.Charging?
            && var s2 := Refuse(s1, outcome.request.order, "0190", refused).(cards := [first.(failCount := 1), added]);
               var retried := RetryOne(s2, 1, now).1;
               && HasFreshDefault(s2.cards, "user", "old", now)
               && retried.Charging? && retried.request.cardToken == "old"
  {
    var first, added := Card("old", "user", "cof", "", false, 0), Card("new", "user", "cof", "", true, 0);
    var t := Transaction(true, "tag", Some("user"), 100, 0, 0, "", None, []);
    var s := Store(map[1 := t], OrderBook(map[], 0), map[], [first], map[], false);
    var cards := [first.(failCount := 1), added];
    NoExpiry(paid);
    NoExpiry(now);
    assert FirstIndex([first], (c: Card) => c.userId == "user" && !c.isDefault && c.failCount <= 0) == 0;
    assert !HasOpenOrder(s.book, 1);
    var own := DefaultCard(s.cards, "user");
    assert own == Some(first);
    assert PayTransaction(s, 1, paid).1.Charging?;
    assert PayTransaction(s, 1, paid).0.transactions[1].paymentMethod == Some(first);
    assert PayTransaction(s, 1, paid).1.request.cardToken == "old";
    assert Valid(s);
    assert IsFresh(cards[1], "user", "old", now);
    hide PayTransaction, RetryOne, Refuse, IsCardExpired;
    RefusedCardIsRetried(s, 1, paid, "0190", refused, cards, now);
  }

  lemma NoExpiry(now: int)
    ensures !IsCardExpired("", now)
  {
  }

  lemma RefusalKeepsTheCard(s: Store, txn: int, number: int, reason: string, now: int)
    requires txn in s.transactions
    ensures var s' := Refuse(s, number, reason, now);
            txn in s'.transactions && s'.transactions[txn].paymentMethod == s.transactions[txn].paymentMethod
  {
    hide CountFailure, WithOrder;
  }

  // ---- Failure counts ----

  /** Only the count of the first card of that identifier changes: a refusal adds one, an approval
      makes it zero. */
  predicate Counted(before: seq<Card>, after: seq<Card>, identifier: string, refused: bool) {
    && |after| == |before|
    && forall i | 0 <= i < |before| ::
         if identifier != "" && before[i].identifier == identifier
            && forall j | 0 <= j < i :: before[j].identifier != identifier
         then after[i] == before[i].(failCount := if refused then before[i].failCount + 1 else 0)
         else after[i] == before[i]
  }

  lemma CountsTheFirst(cards: seq<Card>, identifier: string, refused: bool)
    ensures Counted(cards, CountFailure(cards, identifier, if refused then 1 else 0), identifier, refused)
  {
    var k := FirstIndex(cards, (c: Card) => c.identifier == identifier);
    assert k < |cards| ==> cards[k].identifier == identifier;
    assert forall j | 0 <= j < k :: ((c: Card) => c.identifier == identifier)(cards[j]) == false;
    forall i | 0 <= i < |cards|
      ensures i < k ==> cards[i].identifier != identifier
      ensures i > k ==> exists j | 0 <= j < i :: cards[j].identifier == identifier
    {
      if i > k {
        assert cards[k].identifier == identifier;
      }
    }
  }

  /** An answer to an order counts for the card of the order and for no other; an approved enrollment
      may add a card behind them. */
  lemma AnswersCount(s: Store, number: int, reply: Reply, now: int)
    requires number in s.book.orders
    ensures var s' := ProcessPay(s, number, reply, now).0;
            && |s.cards| <= |s'.cards| <= |s.cards| + 1
            && Counted(s.cards, s'.cards[..|s.cards|], s.book.orders[number].identifier,
                       reply.TransportError? || !reply.response.success)
            && (s.book.orders[number].txn > 0 ==> |s'.cards| == |s.cards|)
  {
    hide WithOrder, Counted, FirstIndex;
    var (o, refused) := (s.book.orders[number], reply.TransportError? || !reply.response.success);
    CountsTheFirst(s.cards, o.identifier, refused);
    hide CountFailure;
    var cards := CountFailure(s.cards, o.identifier, if refused then 1 else 0);
    var s' := ProcessPay(s, number, reply, now).0;
    assert s'.cards[..|s.cards|] == cards;
  }

  /** So does closing, for a new charge, the order that was never answered. */
  lemma SilenceCounts(s: Store, txn: int, now: int)
    ensures var (s', outcome) := PayTransaction(s, txn, now);
            if (outcome.Charging? || outcome.PaidWithoutRequest?) && HasOpenOrder(s.book, txn) then
              Counted(s.cards, s'.cards, s.book.orders[TheOpenOrder(s.book, txn)].identifier, true)
            else s'.cards == s.cards
  {
    hide CountFailure, Counted, CardFor, CloseOpenOrder, IsCardExpired;
    if HasOpenOrder(s.book, txn) {
      CountsTheFirst(s.cards, s.book.orders[TheOpenOrder(s.book, txn)].identifier, true);
    }
  }
}
