/** The hourly energy report: sparse totals per date and hour made into a dense table. A date is the
    number of its day, which sorts like its year-month-day text. */
module HourTotals {
  import opened Aggregation
  import opened Calendar
  import opened Sorting
  import Sets

  datatype Session = Session(timeStop: int, meterStart: int, meterStop: int)
  datatype Line = Line(date: int, hour: int, consumed: int)
  datatype Row = Row(date: int, hour: int, consumed: real)

  function HourOf(instant: int): int {
    instant / 3_600_000_000_000 % 24
  }

  predicate IsCounted(s: Session, from: int, to: int) {
    from <= s.timeStop <= to && s.meterStop > s.meterStart
  }

  predicate IsIn(s: Session, date: int, hour: int) {
    DayOf(s.timeStop) == date && HourOf(s.timeStop) == hour
  }

  function Watts(s: Session): int {
    s.meterStop - s.meterStart
  }

  /** The energy of the counted sessions that stopped in one hour. */
  function SlotTotal(sessions: seq<Session>, from: int, to: int, date: int, hour: int): int {
    if sessions == [] then 0
    else
      var s := sessions[|sessions| - 1];
      SlotTotal(sessions[..|sessions| - 1], from, to, date, hour)
      + (if IsCounted(s, from, to) && IsIn(s, date, hour) then Watts(s) else 0)
  }

  /** The energy of all counted sessions. */
  function Total(sessions: seq<Session>, from: int, to: int): int {
    if sessions == [] then 0
    else
      var s := sessions[|sessions| - 1];
      Total(sessions[..|sessions| - 1], from, to) + (if IsCounted(s, from, to) then Watts(s) else 0)
  }

  predicate HasLine(lines: seq<Line>, date: int, hour: int) {
    exists i | 0 <= i < |lines| :: lines[i].date == date && lines[i].hour == hour
  }

  predicate SomeCounted(sessions: seq<Session>, from: int, to: int, date: int, hour: int) {
    exists i | 0 <= i < |sessions| :: IsCounted(sessions[i], from, to) && IsIn(sessions[i], date, hour)
  }

  /** What the group stage of the query returns: one line for each hour some session stopped in. */
  ghost predicate IsGrouping(lines: seq<Line>, sessions: seq<Session>, from: int, to: int) {
    && (forall i, j | 0 <= i < j < |lines| :: lines[i].date != lines[j].date || lines[i].hour != lines[j].hour)
    && (forall i | 0 <= i < |lines| :: 0 <= lines[i].hour < 24
          && lines[i].consumed == SlotTotal(sessions, from, to, lines[i].date, lines[i].hour))
    && (forall date, hour :: HasLine(lines, date, hour) <==> SomeCounted(sessions, from, to, date, hour))
  }

  // ---- The table ----

  /** The dates, at an offset from UTC, reached by stepping days from the first instant to the last. */
  predicate IsStepped(date: int, from: int, to: int, offset: int) {
    DayOf(from + offset) <= date && from + Midnight(date - DayOf(from + offset)) <= to
  }

  predicate HasDate(lines: seq<Line>, date: int) {
    exists i | 0 <= i < |lines| :: lines[i].date == date
  }

  function CellOf(lines: seq<Line>, date: int, hour: int): real {
    if lines == [] then 0.0
    else
      var last := lines[|lines| - 1];
      if last.date == date && last.hour == hour then last.consumed as real / 1000.0
      else CellOf(lines[..|lines| - 1], date, hour)
  }

  /** A cell holds the total of its own line, and zero when it has none. */
  lemma {:induction false} CellHoldsItsLine(lines: seq<Line>, date: int, hour: int)
    ensures !HasLine(lines, date, hour) ==> CellOf(lines, date, hour) == 0.0
    ensures HasLine(lines, date, hour) ==> exists i | 0 <= i < |lines| ::
              lines[i].date == date && lines[i].hour == hour
              && CellOf(lines, date, hour) == lines[i].consumed as real / 1000.0
  {
    if lines != [] {
      var n := |lines| - 1;
      CellHoldsItsLine(lines[..n], date, hour);
      if lines[n].date == date && lines[n].hour == hour {
      } else if HasLine(lines, date, hour) {
        assert HasLine(lines[..n], date, hour);
        var i :| 0 <= i < n && lines[..n][i].date == date && lines[..n][i].hour == hour
                 && CellOf(lines[..n], date, hour) == lines[..n][i].consumed as real / 1000.0;
        assert lines[i] == lines[..n][i];
      }
    }
  }

  /** The hours 0 to 23 of each date. */
  function Dense(dates: seq<int>, lines: seq<Line>): seq<Row> {
    seq(24 * |dates|, k requires 0 <= k < 24 * |dates| =>
      Row(dates[k / 24], k % 24, CellOf(lines, dates[k / 24], k % 24)))
  }

  predicate StrictlyIncreasing(dates: seq<int>) {
    forall i, j | 0 <= i < j < |dates| :: dates[i] < dates[j]
  }

  method SteppedDates(from: int, to: int, offset: int) returns (dates: seq<int>)
    ensures forall d :: d in dates <==> IsStepped(d, from, to, offset)
    ensures StrictlyIncreasing(dates)
  {
    dates := [];
    var d := from;
    ghost var n := 0;
    while d <= to
      invariant n >= 0 && d == from + Midnight(n) && DayOf(d + offset) == DayOf(from + offset) + n
      invariant n > 0 ==> from + Midnight(n - 1) <= to
      invariant forall date :: date in dates <==> DayOf(from + offset) <= date < DayOf(from + offset) + n
      invariant StrictlyIncreasing(dates)
      decreases (to - d)
    {
      OneDayLater(d + offset, n);
      assert forall i | 0 <= i < |dates| :: dates[i] in dates;
      dates := dates + [DayOf(d + offset)];
      d := d + DAY;
      n := n + 1;
    }
  }

  /** The date of every 24th row. */
  function DatesOf(rows: seq<Row>): seq<int> {
    seq(|rows| / 24, i requires 0 <= i < |rows| / 24 => rows[24 * i].date)
  }

  /** A table of exactly the stepped dates and the dates with data, in order, without repetition,
      each with its 24 hours, every total in its own cell and zero everywhere else. */
  ghost predicate IsTable(rows: seq<Row>, lines: seq<Line>, from: int, to: int, offset: int) {
    var dates := DatesOf(rows);
    && StrictlyIncreasing(dates)
    && (forall d :: d in dates <==> IsStepped(d, from, to, offset) || HasDate(lines, d))
    && rows == Dense(dates, lines)
  }

  lemma DatesOfDense(dates: seq<int>, lines: seq<Line>)
    ensures DatesOf(Dense(dates, lines)) == dates
  {
  }

  method TotalsByHour(lines: seq<Line>, from: int, to: int, offset: int) returns (rows: seq<Row>)
    ensures IsTable(rows, lines, from, to, offset)
  {
    var hourly := FillHours(lines);
    var found := SteppedDates(from, to, offset);
    var todo := hourly.Keys;
    while todo != {}
      invariant todo <= hourly.Keys
      invariant forall d :: d in found <==> IsStepped(d, from, to, offset) || (d in hourly && d !in todo)
      invariant forall i, j | 0 <= i < j < |found| :: found[i] != found[j]
      decreases |todo|
    {
      var date := Sets.Pick(todo);
      todo := todo - {date};
      if date !in found {
        found := found + [date];
      }
    }
    var sorted := SortDates(found);
    rows := [];
    for i := 0 to |sorted|
      invariant rows == Dense(sorted[..i], lines)
    {
      var date := sorted[i];
      for h := 0 to 24
        invariant |rows| == 24 * i + h
        invariant forall k | 0 <= k < 24 * i :: rows[k] == Dense(sorted[..i], lines)[k]
        invariant forall k | 0 <= k < h :: rows[24 * i + k] == Row(date, k, CellOf(lines, date, k))
      {
        var consumed := 0.0;
        if date in hourly && h in hourly[date] {
          consumed := hourly[date][h];
        }
        assert consumed == Lookup(hourly, date, h);
        rows := rows + [Row(date, h, consumed)];
      }
      NextDate(sorted[..i], date, lines, rows);
      assert sorted[..i + 1] == sorted[..i] + [date];
    }
    assert sorted[..|sorted|] == sorted;
    DatesOfDense(sorted, lines);
  }

  lemma NextDate(dates: seq<int>, date: int, lines: seq<Line>, rows: seq<Row>)
    requires |rows| == 24 * |dates| + 24
    requires forall k | 0 <= k < 24 * |dates| :: rows[k] == Dense(dates, lines)[k]
    requires forall k | 0 <= k < 24 :: rows[24 * |dates| + k] == Row(date, k, CellOf(lines, date, k))
    ensures rows == Dense(dates + [date], lines)
  {
    var more := dates + [date];
    forall k | 0 <= k < |rows|
      ensures rows[k] == Row(more[k / 24], k % 24, CellOf(lines, more[k / 24], k % 24))
    {
      if k >= 24 * |dates| {
        assert rows[24 * |dates| + (k - 24 * |dates|)] == rows[k];
        assert k / 24 == |dates| && k % 24 == k - 24 * |dates|;
      }
    }
  }

  function Lookup(hourly: map<int, map<int, real>>, date: int, hour: int): real {
    if date in hourly && hour in hourly[date] then hourly[date][hour] else 0.0
  }

  method FillHours(lines: seq<Line>) returns (hourly: map<int, map<int, real>>)
    ensures forall d :: d in hourly <==> HasDate(lines, d)
    ensures forall d, h :: Lookup(hourly, d, h) == CellOf(lines, d, h)
  {
    hourly := map[];
    for i := 0 to |lines|
      invariant forall d :: d in hourly <==> HasDate(lines[..i], d)
      invariant forall d, h :: Lookup(hourly, d, h) == CellOf(lines[..i], d, h)
    {
      var line := lines[i];
      assert lines[..i + 1][..i] == lines[..i];
      var hours := if line.date in hourly then hourly[line.date] else map[];
      hourly := hourly[line.date := hours[line.hour := line.consumed as real / 1000.0]];
    }
    assert lines[..|lines|] == lines;
  }

  predicate DateLeq(a: int, b: int) {
    a <= b
  }

  method SortDates(dates: seq<int>) returns (sorted: seq<int>)
    requires DistinctKeys(dates, (d: int) => d)
    ensures StrictlyIncreasing(sorted)
    ensures forall d :: d in sorted <==> d in dates
  {
    sorted := Sort(dates, DateLeq);
    SortSorts(dates, DateLeq);
    RearrangedKeys(dates, sorted, (d: int) => d);
    forall i, j | 0 <= i < j < |sorted|
      ensures sorted[i] < sorted[j]
    {
      assert DateLeq(sorted[i], sorted[j]);
    }
  }

  // ---- Nothing is lost ----

  function SumRows(rows: seq<Row>): real {
    if rows == [] then 0.0 else SumRows(rows[..|rows| - 1]) + rows[|rows| - 1].consumed
  }

  /** The totals of the first n cells of the table, in watt-hours. */
  function CellSum(dates: seq<int>, sessions: seq<Session>, from: int, to: int, n: nat): int
    requires n <= 24 * |dates|
  {
    if n == 0 then 0
    else CellSum(dates, sessions, from, to, n - 1)
         + SlotTotal(sessions, from, to, dates[(n - 1) / 24], (n - 1) % 24)
  }

  lemma CellIsSlotTotal(lines: seq<Line>, sessions: seq<Session>, from: int, to: int, date: int, hour: int)
    requires IsGrouping(lines, sessions, from, to)
    ensures CellOf(lines, date, hour) == SlotTotal(sessions, from, to, date, hour) as real / 1000.0
  {
    CellHoldsItsLine(lines, date, hour);
    if !HasLine(lines, date, hour) {
      EmptySlot(sessions, from, to, date, hour);
    }
  }

  lemma {:induction false} EmptySlot(sessions: seq<Session>, from: int, to: int, date: int, hour: int)
    requires !SomeCounted(sessions, from, to, date, hour)
    ensures SlotTotal(sessions, from, to, date, hour) == 0
  {
    if sessions != [] {
      EmptySlot(sessions[..|sessions| - 1], from, to, date, hour);
    }
  }

  lemma {:induction false} SumOfPrefix(
      dates: seq<int>, lines: seq<Line>, sessions: seq<Session>, from: int, to: int, n: nat)
    requires IsGrouping(lines, sessions, from, to) && n <= 24 * |dates|
    ensures SumRows(Dense(dates, lines)[..n]) == CellSum(dates, sessions, from, to, n) as real / 1000.0
  {
    if n > 0 {
      SumOfPrefix(dates, lines, sessions, from, to, n - 1);
      assert Dense(dates, lines)[..n][..n - 1] == Dense(dates, lines)[..n - 1];
      CellIsSlotTotal(lines, sessions, from, to, dates[(n - 1) / 24], (n - 1) % 24);
    }
  }

  /** One more session adds its energy to the cells once its own cell is among them. */
  lemma {:induction false} OneMoreSession(dates: seq<int>, sessions: seq<Session>, s: Session, from: int, to: int,
                                          n: nat, d: nat)
    requires n <= 24 * |dates| && d < |dates| && StrictlyIncreasing(dates)
    requires dates[d] == DayOf(s.timeStop) && IsCounted(s, from, to)
    ensures CellSum(dates, sessions + [s], from, to, n)
            == CellSum(dates, sessions, from, to, n) + (if n > 24 * d + HourOf(s.timeStop) then Watts(s) else 0)
  {
    if n > 0 {
      OneMoreSession(dates, sessions, s, from, to, n - 1, d);
      var i, h := (n - 1) / 24, (n - 1) % 24;
      assert n - 1 == 24 * i + h;
      assert (sessions + [s])[..|sessions|] == sessions;
      assert IsIn(s, dates[i], h) <==> i == d && h == HourOf(s.timeStop);
    }
  }

  lemma {:induction false} CellsHoldEverything(dates: seq<int>, sessions: seq<Session>, from: int, to: int)
    requires StrictlyIncreasing(dates)
    requires forall s | s in sessions && IsCounted(s, from, to) :: DayOf(s.timeStop) in dates
    ensures CellSum(dates, sessions, from, to, 24 * |dates|) == Total(sessions, from, to)
  {
    if sessions == [] {
      EmptyCells(dates, from, to, 24 * |dates|);
    } else {
      var n := |sessions| - 1;
      var before, s := sessions[..n], sessions[n];
      assert sessions == before + [s];
      CellsHoldEverything(dates, before, from, to);
      if IsCounted(s, from, to) {
        var d :| 0 <= d < |dates| && dates[d] == DayOf(s.timeStop);
        OneMoreSession(dates, before, s, from, to, 24 * |dates|, d);
        assert 24 * d + HourOf(s.timeStop) < 24 * |dates|;
      } else {
        UncountedSession(dates, before, s, from, to, 24 * |dates|);
      }
    }
  }

  lemma {:induction false} EmptyCells(dates: seq<int>, from: int, to: int, n: nat)
    requires n <= 24 * |dates|
    ensures CellSum(dates, [], from, to, n) == 0
  {
    if n > 0 {
      EmptyCells(dates, from, to, n - 1);
    }
  }

  lemma {:induction false} UncountedSession(
      dates: seq<int>, sessions: seq<Session>, s: Session, from: int, to: int, n: nat)
    requires n <= 24 * |dates| && !IsCounted(s, from, to)
    ensures CellSum(dates, sessions + [s], from, to, n) == CellSum(dates, sessions, from, to, n)
  {
    if n > 0 {
      UncountedSession(dates, sessions, s, from, to, n - 1);
      assert (sessions + [s])[..|sessions|] == sessions;
    }
  }

  /** The energy of the table is the energy of the sessions. */
  lemma EnergyConserved(
      rows: seq<Row>, sessions: seq<Session>, lines: seq<Line>, from: int, to: int, offset: int)
    requires IsGrouping(lines, sessions, from, to) && IsTable(rows, lines, from, to, offset)
    ensures SumRows(rows) == Total(sessions, from, to) as real / 1000.0
  {
    var dates := DatesOf(rows);
    forall s | s in sessions && IsCounted(s, from, to)
      ensures DayOf(s.timeStop) in dates
    {
      var i :| 0 <= i < |sessions| && sessions[i] == s;
      assert IsIn(sessions[i], DayOf(s.timeStop), HourOf(s.timeStop));
      assert SomeCounted(sessions, from, to, DayOf(s.timeStop), HourOf(s.timeStop));
      assert HasLine(lines, DayOf(s.timeStop), HourOf(s.timeStop));
    }
    CellsHoldEverything(dates, sessions, from, to);
    SumOfPrefix(dates, lines, sessions, from, to, 24 * |dates|);
    assert Dense(dates, lines)[..24 * |dates|] == rows;
  }

  // ---- What a row holds ----

  lemma HourOfDay(instant: int)
    ensures var start := DayOf(instant) * 86_400_000_000_000 + HourOf(instant) * 3_600_000_000_000;
            0 <= HourOf(instant) < 24 && start <= instant < start + 3_600_000_000_000
  {
  }

  /** The energies of the sessions that stopped within the time asked for and within one stretch of time,
      by their positions; a session that used no energy does not count. */
  ghost function Energies(sessions: seq<Session>, from: int, to: int, start: int, end: int): map<int, nat> {
    map i | 0 <= i < |sessions| && sessions[i].meterStop > sessions[i].meterStart
            && from <= sessions[i].timeStop <= to && start <= sessions[i].timeStop < end
      :: sessions[i].meterStop - sessions[i].meterStart
  }

  lemma EnergiesWithLast(sessions: seq<Session>, from: int, to: int, date: int, hour: int)
    requires sessions != [] && 0 <= hour < 24
    ensures var start := date * 86_400_000_000_000 + hour * 3_600_000_000_000;
            var (n, s) := (|sessions| - 1, sessions[|sessions| - 1]);
            var (before, all) := (Energies(sessions[..n], from, to, start, start + 3_600_000_000_000),
                                  Energies(sessions, from, to, start, start + 3_600_000_000_000));
            if IsCounted(s, from, to) && IsIn(s, date, hour) then n in all && all[n] == Watts(s) && all - {n} == before
            else n !in all && all == before
  {
    HourOfDay(sessions[|sessions| - 1].timeStop);
    hide DayOf, HourOf;
  }

  lemma SlotTotalWithLast(sessions: seq<Session>, from: int, to: int, date: int, hour: int)
    ensures sessions == [] ==> SlotTotal(sessions, from, to, date, hour) == 0
    ensures sessions != [] ==>
              var (before, s) := (sessions[..|sessions| - 1], sessions[|sessions| - 1]);
              SlotTotal(sessions, from, to, date, hour)
              == SlotTotal(before, from, to, date, hour)
                 + (if IsCounted(s, from, to) && IsIn(s, date, hour) then Watts(s) else 0)
  {
    hide IsCounted, IsIn, Watts;
  }

  lemma NoEnergies(from: int, to: int, start: int, end: int)
    ensures SumOf(Energies([], from, to, start, end)) == 0
  {
    assert Energies([], from, to, start, end) == map[];
  }

  /** The total of an hour is the sum of the energies of the sessions that stopped in it. */
  lemma {:induction false} SlotTotalHolds(sessions: seq<Session>, from: int, to: int, date: int, hour: int)
    requires 0 <= hour < 24
    ensures var start := date * 86_400_000_000_000 + hour * 3_600_000_000_000;
            SlotTotal(sessions, from, to, date, hour)
            == SumOf(Energies(sessions, from, to, start, start + 3_600_000_000_000))
  {
    hide SlotTotal, Energies, IsIn, IsCounted, SumOf, Watts;
    var start := date * 86_400_000_000_000 + hour * 3_600_000_000_000;
    var energies := Energies(sessions, from, to, start, start + 3_600_000_000_000);
    SlotTotalWithLast(sessions, from, to, date, hour);
    if sessions == [] {
      NoEnergies(from, to, start, start + 3_600_000_000_000);
    } else {
      var n := |sessions| - 1;
      EnergiesWithLast(sessions, from, to, date, hour);
      SlotTotalHolds(sessions[..n], from, to, date, hour);
      if n in energies {
        SumTakes(energies, n);
      }
    }
  }

  /** The rows go through the hours of one date after the other; each holds, in thousands, the energy of
      the sessions that stopped in its hour. */
  lemma RowHolds(rows: seq<Row>, sessions: seq<Session>, lines: seq<Line>, from: int, to: int, offset: int, k: nat)
    requires IsGrouping(lines, sessions, from, to) && IsTable(rows, lines, from, to, offset) && k < |rows|
    ensures |rows| % 24 == 0 && rows[k].hour == k % 24
    ensures k > 0 ==> if k % 24 == 0 then rows[k - 1].date < rows[k].date else rows[k - 1].date == rows[k].date
    ensures var start := rows[k].date * 86_400_000_000_000 + rows[k].hour * 3_600_000_000_000;
            rows[k].consumed * 1000.0 == SumOf(Energies(sessions, from, to, start, start + 3_600_000_000_000)) as real
  {
    hide IsGrouping, CellOf, SlotTotal, Energies, SumOf;
    RowsInTurn(rows, lines, from, to, offset, k);
    hide IsTable;
    CellIsSlotTotal(lines, sessions, from, to, rows[k].date, rows[k].hour);
    SlotTotalHolds(sessions, from, to, rows[k].date, rows[k].hour);
  }

  lemma RowsInTurn(rows: seq<Row>, lines: seq<Line>, from: int, to: int, offset: int, k: nat)
    requires IsTable(rows, lines, from, to, offset) && k < |rows|
    ensures |rows| % 24 == 0 && rows[k].hour == k % 24
    ensures rows[k].consumed == CellOf(lines, rows[k].date, rows[k].hour)
    ensures k > 0 ==> if k % 24 == 0 then rows[k - 1].date < rows[k].date else rows[k - 1].date == rows[k].date
  {
    hide CellOf, IsStepped, HasDate;
    var dates := DatesOf(rows);
    assert rows[k] == Row(dates[k / 24], k % 24, CellOf(lines, dates[k / 24], k % 24));
    if k > 0 {
      assert rows[k - 1].date == dates[(k - 1) / 24];
    }
  }

  /** A date has rows if and only if it is a whole number of days after the first one, not past the end, or
      a counted session stopped on it. */
  lemma DateHasRows(
      rows: seq<Row>, sessions: seq<Session>, lines: seq<Line>, from: int, to: int, offset: int, date: int)
    requires IsGrouping(lines, sessions, from, to) && IsTable(rows, lines, from, to, offset)
    ensures (exists k :: 0 <= k < |rows| && rows[k].date == date)
            <==> || (exists n: nat :: IsDaysAfter(date, n, from, to, offset))
                 || exists s :: s in sessions && StopsOn(s, date, from, to)
  {
    hide IsGrouping;
    var dates := DatesOf(rows);
    if k :| 0 <= k < |rows| && rows[k].date == date {
      assert rows[k].date == dates[k / 24];
      assert date in dates;
    }
    if date in dates {
      var i :| 0 <= i < |dates| && dates[i] == date;
      assert rows[24 * i].date == date;
    }
    hide IsTable, DatesOf;
    SteppedByDays(date, from, to, offset);
    DateHasSession(lines, sessions, from, to, date);
  }

  predicate IsDaysAfter(date: int, n: nat, from: int, to: int, offset: int) {
    date == (from + offset) / 86_400_000_000_000 + n && from + n * 86_400_000_000_000 <= to
  }

  predicate StopsOn(s: Session, date: int, from: int, to: int) {
    && s.meterStop > s.meterStart && from <= s.timeStop && s.timeStop <= to
    && date * 86_400_000_000_000 <= s.timeStop < (date + 1) * 86_400_000_000_000
  }

  lemma SteppedByDays(date: int, from: int, to: int, offset: int)
    ensures IsStepped(date, from, to, offset) <==> exists n: nat :: IsDaysAfter(date, n, from, to, offset)
  {
    var n := date - DayOf(from + offset);
    assert n >= 0 ==> (IsStepped(date, from, to, offset) <==> IsDaysAfter(date, n, from, to, offset));
  }

  lemma DateHasSession(lines: seq<Line>, sessions: seq<Session>, from: int, to: int, date: int)
    requires IsGrouping(lines, sessions, from, to)
    ensures HasDate(lines, date) <==> exists s :: s in sessions && StopsOn(s, date, from, to)
  {
    if i :| 0 <= i < |lines| && lines[i].date == date {
      var hour := lines[i].hour;
      assert HasLine(lines, date, hour);
      var j :| 0 <= j < |sessions| && IsCounted(sessions[j], from, to) && IsIn(sessions[j], date, hour);
      assert sessions[j] in sessions && StopsOn(sessions[j], date, from, to);
    }
    if s :| s in sessions && StopsOn(s, date, from, to) {
      var j :| 0 <= j < |sessions| && sessions[j] == s;
      assert IsCounted(sessions[j], from, to) && IsIn(sessions[j], date, HourOf(s.timeStop));
      assert SomeCounted(sessions, from, to, date, HourOf(s.timeStop));
      assert HasLine(lines, date, HourOf(s.timeStop));
    }
  }
}
