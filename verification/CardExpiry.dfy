/** Card expiry dates as Redsys writes them: YYMM, valid to the end of the month. */
module CardExpiry {
  import opened Options
  import opened Calendar

  function Digit(c: char): Option<int> {
    if '0' <= c <= '9' then Some(c as int - '0' as int) else None
  }

  /** strconv.Atoi on two characters: two digits, or a sign and a digit. */
  function TwoCharNumber(a: char, b: char): Option<int> {
    match (Digit(a), Digit(b))
    case (Some(x), Some(y)) => Some(10 * x + y)
    case (None, Some(y)) => if a == '-' then Some(-y) else if a == '+' then Some(y) else None
    case _ => None
  }

  /** The month the card is last valid in, when the text has the YYMM form. */
  function ExpiryMonth(expiry: string): Option<int> {
    if |expiry| != 4 then None
    else match (TwoCharNumber(expiry[0], expiry[1]), TwoCharNumber(expiry[2], expiry[3]))
      case (Some(yy), Some(mm)) => if 1 <= mm <= 12 then Some(12 * (2000 + yy) + mm - 1) else None
      case _ => None
  }

  /** The last instant of the expiry month. */
  function ParseCardExpiry(expiry: string): Option<int> {
    match ExpiryMonth(expiry)
    case Some(month) => Some(Midnight(FirstOfMonth(month + 1)) - 1)
    case None => None
  }

  /** Text that cannot be parsed never expires. */
  predicate IsCardExpired(expiry: string, now: int) {
    match ParseCardExpiry(expiry)
    case Some(end) => now > end
    case None => false
  }

  /** A card is expired exactly from the first day after its expiry month on. */
  lemma ExpiredAfterItsMonth(expiry: string, now: int)
    ensures IsCardExpired(expiry, now)
            <==> ExpiryMonth(expiry).Some? && MonthOf(DayOf(now)) > ExpiryMonth(expiry).value
  {
    hide FirstOfMonth, Midnight, DayOf;
    match ExpiryMonth(expiry) {
      case Some(month) =>
        var day := DayOf(now);
        MidnightOrder(now, FirstOfMonth(month + 1));
        if MonthOf(day) > month + 1 {
          LaterMonthStartsLater(month + 1, MonthOf(day));
        } else if MonthOf(day) < month {
          LaterMonthStartsLater(MonthOf(day) + 1, month + 1);
        }
      case None =>
    }
  }

  /** Two digits are the last of the year, from 2000 on, and two the month; the first of either pair may
      be a sign. The card expires with the first day after that month, by the date. */
  lemma DigitsNameTheMonth(expiry: string, now: int)
    requires |expiry| == 4 && '0' <= expiry[1] <= '9' && '0' <= expiry[3] <= '9'
    requires (expiry[0] in "+-" || '0' <= expiry[0] <= '9') && (expiry[2] == '+' || '0' <= expiry[2] <= '9')
    ensures var (years, months) := (expiry[1] as int - 48, expiry[3] as int - 48);
            var year := if expiry[0] == '-' then 2000 - years
                        else if expiry[0] == '+' then 2000 + years
                        else 2000 + 10 * (expiry[0] as int - 48) + years;
            var month := if expiry[2] == '+' then months else 10 * (expiry[2] as int - 48) + months;
            var today := CivilOf(now / 86_400_000_000_000);
            IsCardExpired(expiry, now)
            <==> 1 <= month <= 12 && (today.year > year || (today.year == year && today.month > month))
  {
    ExpiredAfterItsMonth(expiry, now);
    hide IsCardExpired, MonthOf, DayOfMonth;
  }

  /** Any other text never expires; nor does a month with a minus. */
  lemma OtherTextsNeverExpire(expiry: string, now: int)
    requires |expiry| != 4
             || !('0' <= expiry[1] <= '9') || !('0' <= expiry[3] <= '9')
             || !(expiry[0] in "+-" || '0' <= expiry[0] <= '9') || !(expiry[2] == '+' || '0' <= expiry[2] <= '9')
    ensures !IsCardExpired(expiry, now)
  {
    ExpiredAfterItsMonth(expiry, now);
    hide IsCardExpired, MonthOf;
  }
}
