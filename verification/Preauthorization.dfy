/** Preauthorizations: their order numbers as keys of twelve digits, and the amounts they hold over
    creation, answers from the gateway, capture and updates. */
module Preauthorization {
  import opened Options
  import Sets

  // ---- Order numbers as text ----

  const MAX_INT: int := 0x7FFF_FFFF_FFFF_FFFF

  predicate FitsInt(n: int) {
    -MAX_INT - 1 <= n <= MAX_INT
  }

  /** One more, as 64-bit integers count. */
  function Increment(n: int): int {
    if n == MAX_INT then -MAX_INT - 1 else n + 1
  }

  predicate IsDigit(c: char) {
    '0' <= c <= '9'
  }

  predicate AllDigits(text: string) {
    forall i | 0 <= i < |text| :: IsDigit(text[i])
  }

  /** Spaces as the scanner knows them, the line feed excepted. */
  predicate IsSpace(c: char) {
    var code := c as int;
    || code == 0x20 || code == 0x09 || 0x0B <= code <= 0x0D || code == 0x85 || code == 0xA0
    || code == 0x1680 || 0x2000 <= code <= 0x200A || code == 0x2028 || code == 0x2029
    || code == 0x202F || code == 0x205F || code == 0x3000
  }

  /** The text beyond leading spaces; a line feed there is an error. */
  function SkipSpaces(text: string): Option<string> {
    if text == "" then Some("")
    else if text[0] == '\n' then None
    else if IsSpace(text[0]) then SkipSpaces(text[1..])
    else Some(text)
  }

  function DigitRun(text: string): (run: string)
    ensures AllDigits(run) && run <= text
    ensures |run| < |text| ==> !IsDigit(text[|run|])
  {
    if text != "" && IsDigit(text[0]) then [text[0]] + DigitRun(text[1..]) else ""
  }

  function Value(digits: string): nat
    requires AllDigits(digits)
  {
    if digits == "" then 0
    else Value(digits[..|digits| - 1]) * 10 + (digits[|digits| - 1] as int - '0' as int)
  }

  function Signed(negative: bool, value: nat): int {
    if negative then 0 - value else value
  }

  /** A scan of one decimal integer; a scan that fails leaves zero. */
  function ScanInt(text: string): (n: int)
    ensures FitsInt(n)
  {
    match SkipSpaces(text)
    case None => 0
    case Some(rest) =>
      var signed := rest != "" && (rest[0] == '-' || rest[0] == '+');
      var run := DigitRun(if signed then rest[1..] else rest);
      var n := Signed(signed && rest[0] == '-', Value(run));
      if run != "" && FitsInt(n) then n else 0
  }

  function Digits(n: nat): (text: string)
    ensures text != "" && AllDigits(text)
  {
    if n < 10 then [('0' as int + n) as char] else Digits(n / 10) + [('0' as int + n % 10) as char]
  }

  function Zeros(k: nat): (text: string)
    ensures |text| == k && AllDigits(text)
    ensures forall c | c in text :: c == '0'
  {
    seq(k, _ => '0')
  }

  function Pad(text: string, width: nat): string {
    if |text| < width then Zeros(width - |text|) + text else text
  }

  /** At least twelve characters, the sign counted. */
  function Format12(n: int): string {
    if n < 0 then "-" + Pad(Digits(-n), 11) else Pad(Digits(n), 12)
  }

  function NormalizeOrderNumber(orderNumber: string): string {
    Format12(ScanInt(orderNumber))
  }

  lemma {:induction false} DigitsHaveValue(n: nat)
    ensures Value(Digits(n)) == n
  {
    if n >= 10 {
      DigitsHaveValue(n / 10);
      assert Digits(n)[..|Digits(n)| - 1] == Digits(n / 10);
    }
  }

  lemma {:induction false} LeadingZeros(k: nat, digits: string)
    requires AllDigits(digits)
    ensures AllDigits(Zeros(k) + digits)
    ensures Value(Zeros(k) + digits) == Value(digits)
  {
    var all := Zeros(k) + digits;
    if digits != "" {
      LeadingZeros(k, digits[..|digits| - 1]);
      assert all[..|all| - 1] == Zeros(k) + digits[..|digits| - 1];
    } else if k > 0 {
      LeadingZeros(k - 1, "");
      assert all[..k - 1] == Zeros(k - 1) + "";
      assert all[k - 1] == '0';
    }
  }

  lemma PaddedValue(n: nat, width: nat)
    ensures var text := Pad(Digits(n), width); text != "" && AllDigits(text) && Value(text) == n
  {
    DigitsHaveValue(n);
    if |Digits(n)| < width {
      LeadingZeros(width - |Digits(n)|, Digits(n));
    }
  }

  lemma {:induction false} RunOfDigits(digits: string, tail: string)
    requires AllDigits(digits) && (tail != "" ==> !IsDigit(tail[0]))
    ensures DigitRun(digits + tail) == digits
  {
    if digits != "" {
      RunOfDigits(digits[1..], tail);
      assert (digits + tail)[1..] == digits[1..] + tail;
    } else {
      assert digits + tail == tail;
    }
  }

  lemma {:induction false} SpacesSkipped(spaces: string, rest: string)
    requires forall c | c in spaces :: IsSpace(c)
    requires rest != "" && rest[0] != '\n' && !IsSpace(rest[0])
    ensures SkipSpaces(spaces + rest) == Some(rest)
  {
    var all := spaces + rest;
    if spaces != "" {
      SpacesSkipped(spaces[1..], rest);
      assert all[0] == spaces[0] && all[1..] == spaces[1..] + rest;
      assert IsSpace(all[0]);
      assert SkipSpaces(all) == SkipSpaces(all[1..]);
    } else {
      assert all == rest;
    }
  }

  /** A sign, or none, digits, and anything after them. */
  lemma Scanned(spaces: string, sign: string, digits: string, tail: string)
    requires forall c | c in spaces :: IsSpace(c)
    requires sign in {"", "+", "-"}
    requires digits != "" && AllDigits(digits) && (tail != "" ==> !IsDigit(tail[0]))
    ensures var n := Signed(sign == "-", Value(digits));
            ScanInt(spaces + (sign + (digits + tail))) == if FitsInt(n) then n else 0
  {
    hide SkipSpaces, DigitRun, Value;
    var rest := sign + (digits + tail);
    SpacesSkipped(spaces, rest);
    RunOfDigits(digits, tail);
    if sign == "" {
      assert rest == digits + tail;
    } else {
      assert rest[1..] == digits + tail;
    }
  }

  /** Every decimal form of a number (spaces, a plus sign, leading zeros, text after it) becomes the
      key of that number; a form too large for an integer becomes the key of zero. */
  lemma EveryFormIsOneKey(spaces: string, sign: string, zeros: nat, n: nat, tail: string)
    requires forall c | c in spaces :: IsSpace(c)
    requires sign in {"", "+"} && (tail != "" ==> !IsDigit(tail[0]))
    ensures NormalizeOrderNumber(spaces + (sign + ((Zeros(zeros) + Digits(n)) + tail)))
         == Format12(if n <= MAX_INT then n else 0)
  {
    DigitsHaveValue(n);
    LeadingZeros(zeros, Digits(n));
    Scanned(spaces, sign, Zeros(zeros) + Digits(n), tail);
  }

  /** Reading a written number gives it back. */
  lemma ScanFormat(n: int)
    requires FitsInt(n)
    ensures ScanInt(Format12(n)) == n
  {
    hide ScanInt, Value, Pad;
    var m := if n < 0 then -n else n;
    var text := Pad(Digits(m), if n < 0 then 11 else 12);
    PaddedValue(m, if n < 0 then 11 else 12);
    Scanned("", if n < 0 then "-" else "", text, "");
    assert text + "" == text;
    assert "" + ("" + text) == text && "" + ("-" + text) == "-" + text;
  }

  /** Normalizing twice is normalizing once. */
  lemma NormalizeIdempotent(orderNumber: string)
    ensures NormalizeOrderNumber(NormalizeOrderNumber(orderNumber)) == NormalizeOrderNumber(orderNumber)
  {
    ScanFormat(ScanInt(orderNumber));
  }

  lemma KeysTellNumbersApart(n: int, m: int)
    requires FitsInt(n) && FitsInt(m)
    ensures Format12(n) == Format12(m) <==> n == m
  {
    ScanFormat(n);
    ScanFormat(m);
  }

  // ---- Records ----

  datatype Status = Pending | Authorized | Captured | Cancelled | Failed

  datatype Preauth = Preauth(
    orderNumber: string, preauthorizedAmount: int, capturedAmount: int, status: Status,
    transactionId: int, paymentMethodId: string, userId: string,
    authorizationCode: string, errorCode: string, errorMessage: string, merchantData: string,
    createdAt: int, updatedAt: int)

  type Store = map<string, Preauth>

  datatype User = User(id: string, isPower: bool)

  datatype Answer =
    | NoAnswer(error: string)
    | Approval(authorizationCode: string)
    | Refusal(errorCode: string, errorMessage: string)

  datatype Outcome = Done | Unanswered | NotFound | Denied | NotAuthorized | TooMuch | InvalidStatus

  /** The most recently created record, any one of them on a tie. */
  predicate IsLatest(store: Store, last: Option<string>) {
    match last
    case None => store == map[]
    case Some(key) => key in store && forall k | k in store :: store[k].createdAt <= store[key].createdAt
  }

  function NextNumber(store: Store, last: Option<string>): int
    requires IsLatest(store, last)
  {
    match last
    case None => 3000
    case Some(key) => Increment(ScanInt(store[key].orderNumber))
  }

  datatype Action =
    | Create(user: User, amount: int, transactionId: int, card: string, last: Option<string>, answer: Answer)
    | Save(
        user: User, orderNumber: string, status: string, code: string, errorCode: string, error: string, data: string)
    | Capture(orderNumber: string, amount: int, answer: Answer)
    | Update(user: User, orderNumber: string, status: string)

  function Opened(a: Action, number: int, now: int): Preauth
    requires a.Create?
  {
    Preauth(Format12(number), a.amount, 0, Pending, a.transactionId, a.card, a.user.id, "", "", "", "", now, now)
  }

  function Answered(p: Preauth, answer: Answer, now: int): Preauth {
    match answer
    case NoAnswer(error) => p.(status := Failed, errorMessage := error, updatedAt := now)
    case Approval(code) => p.(status := Authorized, authorizationCode := code, updatedAt := now)
    case Refusal(code, error) => p.(status := Failed, errorCode := code, errorMessage := error, updatedAt := now)
  }

  /** A status reported with a payment; what is not known is a failure. */
  function Reported(status: string): Status {
    if status == "AUTHORIZED" then Authorized else if status == "CANCELLED" then Cancelled else Failed
  }

  function Requested(status: string): Option<Status> {
    if status == "AUTHORIZED" then Some(Authorized)
    else if status == "CAPTURED" then Some(Captured)
    else if status == "CANCELLED" then Some(Cancelled)
    else if status == "FAILED" then Some(Failed)
    else None
  }

  function Step(store: Store, a: Action, now: int): (Store, Outcome)
    requires a.Create? ==> IsLatest(store, a.last)
  {
    match a
    case Create(_, _, _, _, last, answer) =>
      var p := Opened(a, NextNumber(store, last), now);
      (store[p.orderNumber := Answered(p, answer, now)], Done)
    case Save(user, number, status, code, errorCode, error, data) =>
      var key := NormalizeOrderNumber(number);
      if key !in store then (store, NotFound)
      else if store[key].userId != user.id then (store, Denied)
      else (store[key := store[key].(status := Reported(status), authorizationCode := code, errorCode := errorCode,
                                     errorMessage := error, merchantData := data, updatedAt := now)], Done)
    case Capture(number, amount, answer) =>
      var key := NormalizeOrderNumber(number);
      if key !in store then (store, NotFound)
      else if store[key].status != Authorized then (store, NotAuthorized)
      else if amount > store[key].preauthorizedAmount then (store, TooMuch)
      else (match answer
            case NoAnswer(_) => (store, Unanswered)
            case Approval(_) =>
              (store[key := store[key].(status := Captured, capturedAmount := amount, updatedAt := now)], Done)
            case Refusal(code, error) =>
              (store[key := store[key].(errorCode := code, errorMessage := error, updatedAt := now)], Done))
    case Update(user, number, status) =>
      var key := NormalizeOrderNumber(number);
      if key !in store then (store, NotFound)
      else if store[key].userId != user.id && !user.isPower then (store, Denied)
      else (match Requested(status)
            case None => (store, InvalidStatus)
            case Some(s) => (store[key := store[key].(status := s, updatedAt := now)], Done))
  }

  // ---- Runs ----

  datatype Event = Event(action: Action, now: int)

  /** Requested amounts are at least one. The clock may say anything. */
  predicate Allowed(store: Store, e: Event) {
    match e.action
    case Create(_, amount, _, _, last, _) => amount >= 1 && IsLatest(store, last)
    case Capture(_, amount, _) => amount >= 1
    case _ => true
  }

  function After(store: Store, e: Event): Store
    requires Allowed(store, e)
  {
    Step(store, e.action, e.now).0
  }

  /** Every key is that of its record and names a number. */
  ghost predicate Keyed(store: Store) {
    forall k | k in store :: store[k].orderNumber == k && k == Format12(ScanInt(k))
  }

  /** Moreover later records have larger numbers. */
  ghost predicate Numbered(store: Store) {
    && Keyed(store)
    && (forall j, k | j in store && k in store && j != k ::
          store[j].createdAt < store[k].createdAt <==> ScanInt(j) < ScanInt(k))
  }

  ghost predicate AmountsHeld(store: Store) {
    forall k | k in store :: 0 <= store[k].capturedAmount <= store[k].preauthorizedAmount
  }

  /** The record created last has the greatest number, and that is not the largest integer. */
  predicate PicksGreatest(store: Store, e: Event) {
    e.action.Create? && e.action.last.Some? ==>
      ScanInt(e.action.last.value) < MAX_INT && forall k | k in store :: ScanInt(k) <= ScanInt(e.action.last.value)
  }

  /** A new number is larger than all in the store, and its key is new, exactly when the record
      created last has the greatest number, and not the largest there is. */
  lemma NewNumberIsLarger(store: Store, e: Event)
    requires Keyed(store) && Allowed(store, e) && e.action.Create?
    ensures var n := NextNumber(store, e.action.last);
            (Format12(n) !in store && forall k | k in store :: ScanInt(k) < n) <==> PicksGreatest(store, e)
    ensures FitsInt(NextNumber(store, e.action.last))
  {
    hide ScanInt, Format12;
    var n := NextNumber(store, e.action.last);
    ScanFormat(n);
    assert Format12(n) in store ==> ScanInt(Format12(n)) == n;
  }

  /** The clock stands later at a creation than at all before. */
  predicate ClockAdvances(store: Store, e: Event) {
    e.action.Create? ==> forall k | k in store :: store[k].createdAt < e.now
  }

  /** The largest integer is not yet taken. */
  ghost predicate NumbersLeft(store: Store) {
    forall k | k in store :: ScanInt(k) < MAX_INT
  }

  /** Where numbers grow with time the record created last has the greatest. */
  lemma LatestIsGreatest(store: Store, e: Event)
    requires Numbered(store) && Allowed(store, e) && e.action.Create?
    ensures PicksGreatest(store, e) <==> (e.action.last.Some? ==> ScanInt(e.action.last.value) < MAX_INT)
  {
    hide ScanInt, Format12;
    if e.action.last.Some? {
      var last := e.action.last.value;
      forall k | k in store
        ensures ScanInt(k) <= ScanInt(last)
      {
        if k != last {
          assert store[last].createdAt < store[k].createdAt <==> ScanInt(last) < ScanInt(k);
        }
      }
    }
  }

  /** The same records, but for the fields that updates write. */
  ghost predicate Continues(store: Store, next: Store) {
    && store.Keys <= next.Keys
    && (forall k | k in store ::
          && next[k].orderNumber == store[k].orderNumber
          && next[k].preauthorizedAmount == store[k].preauthorizedAmount
          && next[k].transactionId == store[k].transactionId
          && next[k].paymentMethodId == store[k].paymentMethodId
          && next[k].userId == store[k].userId
          && next[k].createdAt == store[k].createdAt)
  }

  lemma UpdatesContinue(store: Store, e: Event)
    requires Allowed(store, e) && !e.action.Create?
    ensures Continues(store, After(store, e)) && After(store, e).Keys == store.Keys
  {
    hide NormalizeOrderNumber, NextNumber, ScanInt, Format12, Opened, Answered, Reported, Requested;
  }

  lemma StepKeepsKeys(store: Store, e: Event)
    requires Keyed(store) && Allowed(store, e) && PicksGreatest(store, e)
    ensures Keyed(After(store, e)) && Continues(store, After(store, e))
  {
    if e.action.Create? {
      NewNumberIsLarger(store, e);
      CreateKeepsKeys(store, e);
    } else {
      UpdatesContinue(store, e);
      hide ScanInt, Format12, After, Allowed;
    }
  }

  lemma CreateKeepsKeys(store: Store, e: Event)
    requires Keyed(store) && Allowed(store, e) && e.action.Create?
    requires var n := NextNumber(store, e.action.last); FitsInt(n) && Format12(n) !in store
    ensures Keyed(After(store, e)) && Continues(store, After(store, e))
    ensures var (n, next) := (NextNumber(store, e.action.last), After(store, e));
            && ScanInt(Format12(n)) == n && Format12(n) in next
            && next == store[Format12(n) := next[Format12(n)]] && next[Format12(n)].createdAt == e.now
  {
    hide ScanInt, Format12, NextNumber;
    var n := NextNumber(store, e.action.last);
    ScanFormat(n);
    var next, key := After(store, e), Format12(n);
    assert next == store[key := next[key]] && next[key].orderNumber == key && next[key].createdAt == e.now;
    hide After, Step;
  }

  lemma StepKeepsNumbers(store: Store, e: Event)
    requires Numbered(store) && NumbersLeft(store) && Allowed(store, e) && ClockAdvances(store, e)
    ensures PicksGreatest(store, e)
    ensures Numbered(After(store, e)) && Continues(store, After(store, e))
  {
    if e.action.Create? {
      LatestIsGreatest(store, e);
      NewNumberIsLarger(store, e);
      CreateKeepsKeys(store, e);
      hide ScanInt, Format12, NextNumber, After, Allowed, PicksGreatest;
    } else {
      UpdatesContinue(store, e);
      hide ScanInt, Format12, After, Allowed;
    }
  }

  lemma StepHoldsAmounts(store: Store, e: Event)
    requires AmountsHeld(store) && Allowed(store, e)
    ensures AmountsHeld(After(store, e))
  {
    hide ScanInt, Format12, NormalizeOrderNumber, NextNumber;
  }

  predicate Possible(store: Store, events: seq<Event>)
    decreases |events|
  {
    events != [] ==> Allowed(store, events[0]) && Possible(After(store, events[0]), events[1..])
  }

  function Run(store: Store, events: seq<Event>): Store
    requires Possible(store, events)
    decreases |events|
  {
    if events == [] then store else Run(After(store, events[0]), events[1..])
  }

  predicate PicksThroughout(store: Store, events: seq<Event>)
    requires Possible(store, events)
    decreases |events|
  {
    events != [] ==> PicksGreatest(store, events[0]) && PicksThroughout(After(store, events[0]), events[1..])
  }

  /** The clock advances, and the largest integer is not taken, all the time. */
  ghost predicate NumbersLast(store: Store, events: seq<Event>)
    requires Possible(store, events)
    decreases |events|
  {
    NumbersLeft(store)
    && (events != [] ==> ClockAdvances(store, events[0]) && NumbersLast(After(store, events[0]), events[1..]))
  }

  /** In every run what is captured lies between nothing and what was preauthorized. */
  lemma {:induction false} RunHoldsAmounts(store: Store, events: seq<Event>)
    requires AmountsHeld(store) && Possible(store, events)
    ensures AmountsHeld(Run(store, events))
    decreases |events|
  {
    hide AmountsHeld, Allowed, After;
    if events != [] {
      StepHoldsAmounts(store, events[0]);
      RunHoldsAmounts(After(store, events[0]), events[1..]);
    }
  }

  /** Whatever the clock says, as long as creations pick the greatest number no record is lost or takes
      the place of another. */
  lemma {:induction false} RunKeepsKeys(store: Store, events: seq<Event>)
    requires Keyed(store) && Possible(store, events) && PicksThroughout(store, events)
    ensures Keyed(Run(store, events)) && Continues(store, Run(store, events))
    decreases |events|
  {
    hide Keyed, Allowed, After, PicksGreatest;
    if events != [] {
      StepKeepsKeys(store, events[0]);
      RunKeepsKeys(After(store, events[0]), events[1..]);
    }
  }

  /** With a clock that advances they do so, and numbers grow with the time of creation. */
  lemma {:induction false} RunKeepsNumbers(store: Store, events: seq<Event>)
    requires Numbered(store) && Possible(store, events) && NumbersLast(store, events)
    ensures PicksThroughout(store, events)
    ensures Numbered(Run(store, events)) && Continues(store, Run(store, events))
    decreases |events|
  {
    hide Numbered, Allowed, After, NumbersLeft, ClockAdvances, PicksGreatest;
    if events != [] {
      StepKeepsNumbers(store, events[0]);
      RunKeepsNumbers(After(store, events[0]), events[1..]);
    }
  }

  // ---- Money taken ----

  /** What the gateway confirms to have taken for a key. */
  function TakenBy(store: Store, e: Event, key: string): int {
    if e.action.Capture? && NormalizeOrderNumber(e.action.orderNumber) == key && e.action.answer.Approval?
       && key in store && store[key].status == Authorized && e.action.amount <= store[key].preauthorizedAmount
    then e.action.amount
    else 0
  }

  function Taken(store: Store, events: seq<Event>, key: string): int
    requires Possible(store, events)
    decreases |events|
  {
    if events == [] then 0
    else TakenBy(store, events[0], key) + Taken(After(store, events[0]), events[1..], key)
  }

  /** An approved capture meets a record that is authorized although money was captured for it. */
  predicate Recaptures(store: Store, e: Event, key: string) {
    TakenBy(store, e, key) > 0 && store[key].capturedAmount > 0
  }

  /** A creation takes the place of a record with money captured for it. */
  predicate Overwrites(store: Store, e: Event, key: string)
    requires Allowed(store, e)
  {
    e.action.Create? && Format12(NextNumber(store, e.action.last)) == key && CapturedFor(store, key) > 0
  }

  predicate NeverForgets(store: Store, events: seq<Event>, key: string)
    requires Possible(store, events)
    decreases |events|
  {
    events != [] ==>
      && !Recaptures(store, events[0], key) && !Overwrites(store, events[0], key)
      && NeverForgets(After(store, events[0]), events[1..], key)
  }

  predicate NeverRecaptured(store: Store, events: seq<Event>, key: string)
    requires Possible(store, events)
    decreases |events|
  {
    events != [] ==>
      !Recaptures(store, events[0], key) && NeverRecaptured(After(store, events[0]), events[1..], key)
  }

  function CapturedFor(store: Store, key: string): int {
    if key in store then store[key].capturedAmount else 0
  }

  lemma StepRecordsMoney(store: Store, e: Event, key: string)
    requires AmountsHeld(store) && Allowed(store, e)
    ensures CapturedFor(After(store, e), key) <= CapturedFor(store, key) + TakenBy(store, e, key)
    ensures CapturedFor(After(store, e), key) == CapturedFor(store, key) + TakenBy(store, e, key)
            <==> !Recaptures(store, e, key) && !Overwrites(store, e, key)
  {
    hide ScanInt, Format12, NormalizeOrderNumber, NextNumber;
  }

  /** A record never says more than the gateway has taken, and it says all of it if and only if no
      approved capture met a record with money captured already, and no creation took its place. */
  lemma {:induction false} MoneyIsRecorded(store: Store, events: seq<Event>, key: string)
    requires AmountsHeld(store) && Possible(store, events)
    ensures CapturedFor(Run(store, events), key) <= CapturedFor(store, key) + Taken(store, events, key)
    ensures CapturedFor(Run(store, events), key) == CapturedFor(store, key) + Taken(store, events, key)
            <==> NeverForgets(store, events, key)
    decreases |events|
  {
    hide Allowed, After, TakenBy, Recaptures, Overwrites, CapturedFor;
    if events != [] {
      StepRecordsMoney(store, events[0], key);
      StepHoldsAmounts(store, events[0]);
      MoneyIsRecorded(After(store, events[0]), events[1..], key);
    }
  }

  /** Creations that pick the greatest number take no record's place. */
  lemma {:induction false} OnlyRecapturesForget(store: Store, events: seq<Event>, key: string)
    requires Keyed(store) && Possible(store, events) && PicksThroughout(store, events)
    ensures NeverForgets(store, events, key) <==> NeverRecaptured(store, events, key)
    decreases |events|
  {
    hide Keyed, Allowed, After, PicksGreatest, Recaptures;
    if events != [] {
      StepKeepsKeys(store, events[0]);
      if events[0].action.Create? {
        NewNumberIsLarger(store, events[0]);
      }
      OnlyRecapturesForget(After(store, events[0]), events[1..], key);
    }
  }

  /** Where nothing is forgotten the gateway has taken no more than was preauthorized. */
  lemma NoMoreThanPreauthorized(store: Store, events: seq<Event>, key: string)
    requires AmountsHeld(store) && Possible(store, events) && NeverForgets(store, events, key)
    ensures key in Run(store, events) ==>
              CapturedFor(store, key) + Taken(store, events, key) <= Run(store, events)[key].preauthorizedAmount
  {
    MoneyIsRecorded(store, events, key);
    RunHoldsAmounts(store, events);
  }

  /** Reopened and captured again, a record keeps the second amount only: twice the preauthorized
      money may be gone. */
  lemma ReopenedIsTakenTwice(store: Store, key: string, user: User, now: int)
    requires key in store && key == NormalizeOrderNumber(key)
    requires store[key].status == Authorized && store[key].userId == user.id && store[key].preauthorizedAmount >= 1
    ensures var amount := store[key].preauthorizedAmount;
            var capture := Event(Capture(key, amount, Approval("")), now);
            var reopen := Event(Update(user, key, "AUTHORIZED"), now);
            var once := After(store, capture);
            var again := After(once, reopen);
            && Recaptures(again, capture, key)
            && TakenBy(store, capture, key) + TakenBy(once, reopen, key) + TakenBy(again, capture, key) == 2 * amount
            && CapturedFor(After(again, capture), key) == amount
  {
    hide NormalizeOrderNumber;
  }

  // ---- In place ----

  class Preauthorizations {
    var store: Store

    constructor ()
      ensures store == map[]
    {
      store := map[];
    }

    method GetLastPreauthorizationOrder() returns (latest: Option<string>)
      ensures IsLatest(store, latest)
    {
      latest := None;
      var left := store.Keys;
      while left != {}
        invariant left <= store.Keys
        invariant latest.None? ==> left == store.Keys
        invariant latest.Some? ==>
                    && latest.value in store
                    && forall k | k in store && k !in left :: store[k].createdAt <= store[latest.value].createdAt
        decreases |left|
      {
        var key := Sets.Pick(left);
        if latest.None? || store[key].createdAt > store[latest.value].createdAt {
          latest := Some(key);
        }
        left := left - {key};
      }
    }

    method CreatePreauthorizationOrder(
        user: User, amount: int, transactionId: int, card: string, answer: Answer, now: int)
      returns (orderNum: int, ghost last: Option<string>)
      modifies this
      ensures IsLatest(old(store), last) && orderNum == NextNumber(old(store), last)
      ensures store == Step(old(store), Create(user, amount, transactionId, card, last, answer), now).0
    {
      var lastOrder := GetLastPreauthorizationOrder();
      last := lastOrder;
      if lastOrder.Some? {
        orderNum := Increment(ScanInt(store[lastOrder.value].orderNumber));
      } else {
        orderNum := 3000;
      }
      var orderNumber := Format12(orderNum);
      var preauth := Preauth(orderNumber, amount, 0, Pending, transactionId, card, user.id, "", "", "", "", now, now);
      store := store[orderNumber := preauth];
      match answer {
        case NoAnswer(error) =>
          preauth := preauth.(status := Failed, errorMessage := error);
        case Approval(code) =>
          preauth := preauth.(status := Authorized, authorizationCode := code);
        case Refusal(code, error) =>
          preauth := preauth.(status := Failed, errorCode := code, errorMessage := error);
      }
      preauth := preauth.(updatedAt := now);
      store := store[orderNumber := preauth];
    }

    method SavePreauthorization(
        user: User, number: string, status: string, code: string, errorCode: string, error: string, data: string,
        now: int)
      returns (outcome: Outcome)
      modifies this
      ensures (store, outcome) == Step(old(store), Save(user, number, status, code, errorCode, error, data), now)
    {
      var orderNumber := NormalizeOrderNumber(number);
      if orderNumber !in store {
        return NotFound;
      }
      var preauth := store[orderNumber];
      if preauth.userId != user.id {
        return Denied;
      }
      if status == "AUTHORIZED" {
        preauth := preauth.(status := Authorized);
      } else if status == "FAILED" {
        preauth := preauth.(status := Failed);
      } else if status == "CANCELLED" {
        preauth := preauth.(status := Cancelled);
      } else {
        preauth := preauth.(status := Failed);
      }
      preauth := preauth.(authorizationCode := code, errorCode := errorCode, errorMessage := error);
      preauth := preauth.(merchantData := data, updatedAt := now);
      store := store[orderNumber := preauth];
      return Done;
    }

    method CapturePreauthorization(number: string, amount: int, answer: Answer, now: int) returns (outcome: Outcome)
      modifies this
      ensures (store, outcome) == Step(old(store), Capture(number, amount, answer), now)
    {
      var orderNumber := NormalizeOrderNumber(number);
      if orderNumber !in store {
        return NotFound;
      }
      var preauth := store[orderNumber];
      if preauth.status != Authorized {
        return NotAuthorized;
      }
      if amount > preauth.preauthorizedAmount {
        return TooMuch;
      }
      match answer {
        case NoAnswer(_) =>
          return Unanswered;
        case Approval(_) =>
          preauth := preauth.(status := Captured, capturedAmount := amount);
        case Refusal(code, error) =>
          preauth := preauth.(errorCode := code, errorMessage := error);
      }
      preauth := preauth.(updatedAt := now);
      store := store[orderNumber := preauth];
      return Done;
    }

    method UpdatePreauthorization(user: User, number: string, status: string, now: int) returns (outcome: Outcome)
      modifies this
      ensures (store, outcome) == Step(old(store), Update(user, number, status), now)
    {
      var orderNumber := NormalizeOrderNumber(number);
      if orderNumber !in store {
        return NotFound;
      }
      var preauth := store[orderNumber];
      if preauth.userId != user.id && !user.isPower {
        return Denied;
      }
      if status == "AUTHORIZED" {
        preauth := preauth.(status := Authorized);
      } else if status == "CAPTURED" {
        preauth := preauth.(status := Captured);
      } else if status == "CANCELLED" {
        preauth := preauth.(status := Cancelled);
      } else if status == "FAILED" {
        preauth := preauth.(status := Failed);
      } else {
        return InvalidStatus;
      }
      preauth := preauth.(updatedAt := now);
      store := store[orderNumber := preauth];
      return Done;
    }
  }
}
