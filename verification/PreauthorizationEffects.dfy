/** What the preauthorization operations do to the records, field by field and case by case, and whose
    records they may touch. */
module PreauthorizationEffects {
  import opened Options
  import opened Preauthorization

  // ---- Numbers as text ----

  lemma {:induction false} DigitsStart(n: nat)
    ensures n > 0 ==> Digits(n)[0] != '0'
    ensures Value(Digits(n)) == n
  {
    DigitsHaveValue(n);
    if n >= 10 {
      DigitsStart(n / 10);
    }
  }

  /** Twelve digits, or as many more as the number needs; eleven behind a minus sign. */
  lemma TwelveDigits(n: int)
    ensures var (text, sign) := (Format12(n), if n < 0 then 1 else 0);
            && |text| >= 12
            && (n < 0 ==> text[0] == '-')
            && AllDigits(text[sign..])
            && (if n < 0 then 0 - Value(text[1..]) else Value(text)) == n
            && (|text| > 12 ==> text[sign] != '0')
  {
    var m := if n < 0 then -n else n;
    assert |Digits(0)| == 1;
    hide Digits, Value;
    DigitsStart(m);
    PaddedValue(m, if n < 0 then 11 else 12);
    var text := Pad(Digits(m), if n < 0 then 11 else 12);
    if n < 0 {
      assert Format12(n)[1..] == text;
    } else {
      assert Format12(n)[0..] == text;
    }
  }

  /** The number that decimal digits write. */
  lemma DecimalValue(digits: string, c: char)
    requires AllDigits(digits) && '0' <= c <= '9'
    ensures Value("") == 0 && Value(digits + [c]) == 10 * Value(digits) + (c as int - 48)
  {
    assert (digits + [c])[..|digits|] == digits;
  }

  lemma SpacesByCode(c: char)
    ensures forall i | 0 <= i < 7 :: IsSpace(" \t\r\U{000B}\U{000C}\U{00A0}\U{3000}"[i])
    ensures IsSpace(c) ==> c != '\n' && (c == ' ' || c < '!' || c > '~')
  {
  }

  lemma {:induction false} SkipsAll(spaces: string, rest: string)
    requires forall c | c in spaces :: IsSpace(c)
    requires rest == "" || rest[0] == '\n' || !IsSpace(rest[0])
    ensures SkipSpaces(spaces + rest) == if rest != "" && rest[0] == '\n' then None else Some(rest)
  {
    if spaces == "" {
      assert spaces + rest == rest;
    } else {
      SkipsAll(spaces[1..], rest);
      assert (spaces + rest)[1..] == spaces[1..] + rest && (spaces + rest)[0] == spaces[0];
      assert IsSpace(spaces[0]);
    }
  }

  /** Text without digits at its beginning, spaces and a sign aside, counts as zero, and so does text whose
      first line is empty. */
  lemma NoNumberIsZero(spaces: string, rest: string)
    requires forall c | c in spaces :: IsSpace(c)
    requires || rest == "" || rest == "+" || rest == "-" || rest[0] == '\n'
             || (!IsSpace(rest[0]) && !IsDigit(rest[0]) && rest[0] != '+' && rest[0] != '-')
             || ((rest[0] == '+' || rest[0] == '-') && |rest| > 1 && !IsDigit(rest[1]))
    ensures ScanInt(spaces + rest) == 0
    ensures NormalizeOrderNumber(spaces + rest) == "000000000000"
  {
    SkipsAll(spaces, rest);
    hide SkipSpaces;
    assert ScanInt(spaces + rest) == 0;
    hide ScanInt;
    assert Pad("0", 12) == "000000000000";
  }

  // ---- What each operation writes ----

  /** The first number is 3000; another is one more than that of the record created last, or, after the
      largest there is, the smallest. */
  lemma NumbersCount(store: Store, last: Option<string>)
    requires Keyed(store) && IsLatest(store, last)
    ensures var n := NextNumber(store, last);
            && (store == map[] ==> Format12(n) == "000000003000")
            && (last.Some? ==>
                  ScanInt(last.value) == if n == -0x8000_0000_0000_0000 then 0x7FFF_FFFF_FFFF_FFFF else n - 1)
  {
    hide ScanInt;
    if store == map[] {
      assert last.None?;
      assert Digits(3000) == "3000" by { ThreeThousand(); }
      assert Pad("3000", 12) == "000000003000";
    }
  }

  lemma ThreeThousand()
    ensures Digits(3000) == "3000"
  {
    assert Digits(3) == "3";
    assert Digits(30) == "30";
    assert Digits(300) == "300";
  }

  lemma CreateWrites(store: Store, a: Action, now: int)
    requires a.Create? && IsLatest(store, a.last)
    ensures var (next, outcome) := Step(store, a, now);
            var key := Format12(NextNumber(store, a.last));
            && outcome == Done && key in next && next == store[key := next[key]]
            && var p := next[key];
               && p.orderNumber == key && p.userId == a.user.id && p.transactionId == a.transactionId
               && p.paymentMethodId == a.card && p.preauthorizedAmount == a.amount && p.capturedAmount == 0
               && p.createdAt == now && p.updatedAt == now && p.merchantData == ""
               && match a.answer
                  case NoAnswer(error) =>
                    p.status == Failed && p.errorMessage == error && p.errorCode == "" && p.authorizationCode == ""
                  case Approval(code) =>
                    p.status == Authorized && p.authorizationCode == code && p.errorCode == "" && p.errorMessage == ""
                  case Refusal(code, error) =>
                    && p.status == Failed && p.errorCode == code && p.errorMessage == error
                    && p.authorizationCode == ""
  {
    hide NextNumber, Format12;
  }

  /** A payment reported by a client: its own record gets the status and what came with it. */
  lemma SaveWrites(store: Store, a: Action, now: int)
    requires a.Save?
    ensures var ((next, outcome), key) := (Step(store, a, now), NormalizeOrderNumber(a.orderNumber));
            && (outcome.NotFound? <==> key !in store)
            && (outcome.Denied? <==> key in store && store[key].userId != a.user.id)
            && (outcome.Done? <==> key in store && store[key].userId == a.user.id)
            && (if !outcome.Done? then next == store
                else
                  && key in next && next == store[key := next[key]]
                  && next[key] == store[key].(status := next[key].status, authorizationCode := a.code,
                                              errorCode := a.errorCode, errorMessage := a.error,
                                              merchantData := a.data, updatedAt := now)
                  && (next[key].status == Authorized <==> a.status == "AUTHORIZED")
                  && (next[key].status == Cancelled <==> a.status == "CANCELLED")
                  && (next[key].status == Failed <==> a.status != "AUTHORIZED" && a.status != "CANCELLED"))
  {
    hide NormalizeOrderNumber;
  }

  /** A capture needs an authorized record with enough preauthorized, and the gateway's approval. */
  lemma CaptureWrites(store: Store, a: Action, now: int)
    requires a.Capture?
    ensures var ((next, outcome), key) := (Step(store, a, now), NormalizeOrderNumber(a.orderNumber));
            var mayCapture := && key in store && store[key].status == Authorized
                              && a.amount <= store[key].preauthorizedAmount;
            && (outcome.NotFound? <==> key !in store)
            && (outcome.NotAuthorized? <==> key in store && store[key].status != Authorized)
            && (outcome.Unanswered? <==> mayCapture && a.answer.NoAnswer?)
            && (outcome.Done? <==> mayCapture && !a.answer.NoAnswer?)
            && (outcome.TooMuch? <==>
                  key in store && store[key].status == Authorized && a.amount > store[key].preauthorizedAmount)
            && (if !outcome.Done? then next == store
                else if a.answer.Approval? then
                  next == store[key := store[key].(status := Captured, capturedAmount := a.amount, updatedAt := now)]
                else
                  next == store[key := store[key].(errorCode := a.answer.errorCode,
                                                   errorMessage := a.answer.errorMessage, updatedAt := now)])
  {
    hide NormalizeOrderNumber;
  }

  /** An update sets the status by its name, and nothing else but the time. */
  lemma UpdateWrites(store: Store, a: Action, now: int)
    requires a.Update?
    ensures var ((next, outcome), key) := (Step(store, a, now), NormalizeOrderNumber(a.orderNumber));
            var mayUpdate := key in store && (store[key].userId == a.user.id || a.user.isPower);
            var known := a.status in ["AUTHORIZED", "CAPTURED", "CANCELLED", "FAILED"];
            && (outcome.NotFound? <==> key !in store)
            && (outcome.Denied? <==> key in store && !mayUpdate)
            && (outcome.InvalidStatus? <==> mayUpdate && !known)
            && (outcome.Done? <==> mayUpdate && known)
            && (if !outcome.Done? then next == store
                else
                  && key in next && next == store[key := store[key].(status := next[key].status, updatedAt := now)]
                  && (next[key].status == Authorized <==> a.status == "AUTHORIZED")
                  && (next[key].status == Captured <==> a.status == "CAPTURED")
                  && (next[key].status == Cancelled <==> a.status == "CANCELLED")
                  && (next[key].status == Failed <==> a.status == "FAILED"))
  {
    hide NormalizeOrderNumber;
  }

  // ---- Whose records ----

  /** The event is of this user, or of one who may change the records of others, or a capture. */
  predicate MayTouch(e: Event, userId: string) {
    match e.action
    case Create(user, _, _, _, _, _) => user.id == userId
    case Save(user, _, _, _, _, _, _) => user.id == userId
    case Update(user, _, _) => user.id == userId || user.isPower
    case Capture(_, _, _) => true
  }

  /** Over a run a record of a user stays just as it is as long as all others do is create records that
      take no record's place, save theirs and, without power, update theirs. */
  lemma {:induction false} OthersLeaveAlone(store: Store, events: seq<Event>, key: string)
    requires Keyed(store) && Possible(store, events) && PicksThroughout(store, events) && key in store
    requires forall e | e in events :: !MayTouch(e, store[key].userId)
    ensures key in Run(store, events) && Run(store, events)[key] == store[key]
    decreases |events|
  {
    hide Keyed, Allowed, After, PicksGreatest, MayTouch;
    if events != [] {
      StepKeepsKeys(store, events[0]);
      OtherLeavesAlone(store, events[0], key);
      OthersLeaveAlone(After(store, events[0]), events[1..], key);
    }
  }

  lemma OtherLeavesAlone(store: Store, e: Event, key: string)
    requires Keyed(store) && Allowed(store, e) && PicksGreatest(store, e) && key in store
    requires !MayTouch(e, store[key].userId)
    ensures key in After(store, e) && After(store, e)[key] == store[key]
  {
    hide ScanInt, Format12, NormalizeOrderNumber, NextNumber, Keyed, Step;
    match e.action {
      case Create(_, _, _, _, _, _) =>
        NewNumberIsLarger(store, e);
        CreateWrites(store, e.action, e.now);
      case Save(_, _, _, _, _, _, _) => SaveWrites(store, e.action, e.now);
      case Update(_, _, _) => UpdateWrites(store, e.action, e.now);
      case Capture(_, _, _) =>
    }
  }
}
