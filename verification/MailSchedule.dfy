/** The report mail scheduler: the daily 06:00 tick, the periods due on a tick, the range each
    period reports on, and the per-group report cache of one batch. */
module MailSchedule {
  import opened Calendar
  import opened Options

  datatype Period = Daily | Weekly | Monthly

  /** The half-open range of instants [from, to). */
  datatype Range = Range(from: int, to: int)

  const MONDAY: int := 1
  const TICK: int := 6 * HOUR

  function NextTick(now: int): int {
    var tick := Midnight(DayOf(now)) + TICK;
    if now < tick then tick else tick + DAY
  }

  /** The latest Monday, or first of a month, or midnight, at or before the day. */
  function PeriodStart(day: int, period: Period): int {
    match period
    case Daily => day
    case Weekly =>
      var offset := Weekday(day) - MONDAY;
      day - (if offset < 0 then offset + 7 else offset)
    case Monthly => FirstOfMonth(MonthOf(day))
  }

  function PeriodDays(day: int, period: Period): Range {
    var to := PeriodStart(day, period);
    match period
    case Daily => Range(to - 1, to)
    case Weekly => Range(to - 7, to)
    case Monthly => Range(FirstOfMonth(MonthOf(day) - 1), to)
  }

  function PeriodRange(now: int, period: Period): Range {
    var days := PeriodDays(DayOf(now), period);
    Range(Midnight(days.from), Midnight(days.to))
  }

  predicate IsDue(now: int, period: Period) {
    match period
    case Daily => true
    case Weekly => Weekday(DayOf(now)) == MONDAY
    case Monthly => DayOfMonth(DayOf(now)) == 1
  }

  /** The periods of one tick, in the order they are run. */
  method DuePeriods(now: int) returns (periods: seq<Period>)
    ensures periods == [Daily] + (if IsDue(now, Weekly) then [Weekly] else [])
                               + (if IsDue(now, Monthly) then [Monthly] else [])
    ensures forall p :: p in periods <==> IsDue(now, p)
  {
    hide MonthOf, FirstOfMonth, DayOf;
    periods := [Daily];
    if Weekday(DayOf(now)) == MONDAY {
      periods := periods + [Weekly];
    }
    if DayOfMonth(DayOf(now)) == 1 {
      periods := periods + [Monthly];
    }
  }

  // ---- One tick ----

  /** The next tick is the first 06:00 strictly after now, and no other 06:00 lies in between. */
  lemma NextTickIsFirst(now: int)
    ensures now < NextTick(now) <= now + DAY
    ensures NextTick(now) == Midnight(DayOf(NextTick(now))) + TICK
    ensures forall day :: now < Midnight(day) + TICK ==> NextTick(now) <= Midnight(day) + TICK
  {
  }

  /** The days of a month: the first of the month before, and the first of this month. */
  lemma MonthDays(day: int)
    ensures var days := PeriodDays(day, Monthly);
            && days.from < days.to <= day < FirstOfMonth(MonthOf(day) + 1)
            && MonthOf(days.to) == MonthOf(day) && DayOfMonth(days.to) == 1
            && MonthOf(days.from) == MonthOf(day) - 1 && DayOfMonth(days.from) == 1
  {
    hide FirstOfMonth, MonthLength;
    var month := MonthOf(day);
    MonthsTile(month - 1);
    MonthsTile(month);
    CivilRoundTrip(month, 1);
    CivilRoundTrip(month - 1, 1);
  }

  lemma WeekStart(day: int)
    ensures var monday := PeriodStart(day, Weekly);
            monday <= day < monday + 7 && Weekday(monday) == MONDAY
  {
  }

  lemma MidnightsInOrder(days: Range)
    requires days.from < days.to
    ensures Midnight(days.from) < Midnight(days.to)
  {
  }

  // The reported period has ended by now, and the period that follows it has not.

  lemma ReportsYesterday(now: int)
    ensures var r := PeriodRange(now, Daily);
            r.from < r.to <= now < r.to + DAY == r.from + 2 * DAY
  {
    DayBounds(now);
    hide DayOf;
  }

  lemma ReportsLastWeek(now: int)
    ensures var r := PeriodRange(now, Weekly);
            && r.from < r.to <= now < r.to + 7 * DAY == r.from + 14 * DAY
            && Weekday(DayOf(r.to)) == MONDAY
  {
    var monday := PeriodStart(DayOf(now), Weekly);
    DayBounds(now);
    WeekStart(DayOf(now));
    MidnightOpensDay(monday, 0);
    assert Midnight(monday + 7) == Midnight(monday) + 7 * DAY;
    hide DayOf, PeriodStart, Weekday;
  }

  lemma ReportsLastMonth(now: int)
    ensures var r, month := PeriodRange(now, Monthly), MonthOf(DayOf(now));
            && r.from < r.to <= now < Midnight(FirstOfMonth(month + 1))
            && MonthOf(DayOf(r.to)) == month && DayOfMonth(DayOf(r.to)) == 1
            && MonthOf(DayOf(r.from)) == month - 1 && DayOfMonth(DayOf(r.from)) == 1
  {
    hide DayOf, Midnight, MonthOf, FirstOfMonth, DayOfMonth, PeriodDays;
    var day := DayOf(now);
    var days := PeriodDays(day, Monthly);
    MonthDays(day);
    MidnightsInOrder(days);
    MidnightOrder(now, days.to);
    MidnightOrder(now, FirstOfMonth(MonthOf(day) + 1));
    MidnightOpensDay(days.from, 0);
    MidnightOpensDay(days.to, 0);
  }

  /** In numbers and dates: the tick is 21 600 seconds after a midnight, weekly reports are due on
      Mondays and monthly ones on the first. */
  lemma DueByTheDate(now: int)
    ensures NextTick(now) % 86_400_000_000_000 == 21_600_000_000_000
    ensures now < NextTick(now) <= now + 86_400_000_000_000
    ensures IsDue(now, Daily)
    ensures IsDue(now, Weekly) <==> CivilOf(now / 86_400_000_000_000).weekday == 1
    ensures IsDue(now, Monthly) <==> CivilOf(now / 86_400_000_000_000).day == 1
  {
    hide MonthOf, DayOfMonth, FirstOfMonth;
  }

  /** The ranges run from midnight to midnight; the monthly one from the first of the month before to
      the first of this month. */
  lemma RangesByTheDate(now: int, period: Period)
    ensures var r := PeriodRange(now, period);
            && r.from % 86_400_000_000_000 == 0 && r.to % 86_400_000_000_000 == 0
            && (var (today, from, to) := (now / 86_400_000_000_000, r.from / 86_400_000_000_000,
                                          r.to / 86_400_000_000_000);
                match period
                case Daily => from == today - 1 && to == today
                case Weekly => from == to - 7 && to <= today < to + 7 && CivilOf(to).weekday == 1
                case Monthly =>
                  var (date, start) := (CivilOf(today), CivilOf(from));
                  && CivilOf(to) == date.(day := 1, weekday := CivilOf(to).weekday)
                  && to <= today
                  && start.day == 1
                  && (if date.month == 1 then start.month == 12 && start.year == date.year - 1
                      else start.month == date.month - 1 && start.year == date.year))
  {
    hide MonthOf, DayOfMonth, FirstOfMonth, PeriodDays;
    var day := DayOf(now);
    var days := PeriodDays(day, period);
    MidnightOpensDay(days.from, 0);
    MidnightOpensDay(days.to, 0);
    match period {
      case Daily => DaysByTheDate(day);
      case Weekly => DaysByTheDate(day);
      case Monthly =>
        MonthDays(day);
        NextMonth(MonthOf(days.from));
    }
  }

  lemma DaysByTheDate(day: int)
    ensures PeriodDays(day, Daily) == Range(day - 1, day)
    ensures var days := PeriodDays(day, Weekly);
            days.from == days.to - 7 && days.to <= day < days.to + 7 && Weekday(days.to) == 1
  {
    WeekStart(day);
  }

  lemma NextDayOfWeek(day: int)
    ensures var today, tomorrow := PeriodDays(day, Weekly), PeriodDays(day + 1, Weekly);
            if Weekday(day + 1) == MONDAY then tomorrow.from == today.to else tomorrow == today
  {
  }

  lemma NextDayOfMonth(day: int)
    ensures var today, tomorrow := PeriodDays(day, Monthly), PeriodDays(day + 1, Monthly);
            && today.from < today.to
            && (if DayOfMonth(day + 1) == 1 then tomorrow.from == today.to else tomorrow == today)
  {
    hide FirstOfMonth, MonthLength;
    var month := MonthOf(day);
    MonthDays(day);
    MonthsTile(month);
    if day + 1 == FirstOfMonth(month + 1) {
      MonthsTile(month + 1);
      CivilRoundTrip(month + 1, 1);
    } else {
      MonthUnique(day + 1, month);
    }
  }

  /** From one day to the next a period that is due starts where the last one ended; one that is
      not due keeps its range. */
  lemma NextDay(day: int, period: Period)
    ensures var today, tomorrow := PeriodDays(day, period), PeriodDays(day + 1, period);
            && today.from < today.to
            && (if IsDue(Midnight(day + 1), period) then tomorrow.from == today.to else tomorrow == today)
  {
    hide DayOf, Midnight, MonthOf, FirstOfMonth, DayOfMonth;
    MidnightOpensDay(day + 1, 0);
    match period {
      case Daily =>
      case Weekly => NextDayOfWeek(day);
      case Monthly => NextDayOfMonth(day);
    }
  }

  // ---- Runs of the scheduler ----

  /** One turn of the scheduler loop: the tick slept for, the clock when it woke, the clock each
      report read for its range, and the clock when the loop came round again. */
  datatype Pass = Pass(tick: int, wake: int, reading: Period -> int, done: int)

  predicate PassOk(p: Pass) {
    && p.tick <= p.wake <= p.done
    && forall period :: p.wake <= p.reading(period) <= p.done
  }

  /** The clock when the loop computes the tick of pass i. */
  function ClockBefore(start: int, passes: seq<Pass>, i: nat): int
    requires i <= |passes|
  {
    if i == 0 then start else passes[i - 1].done
  }

  predicate SchedulerRun(start: int, passes: seq<Pass>) {
    && (forall i | 0 <= i < |passes| :: PassOk(passes[i]))
    && (forall i | 0 <= i < |passes| ::
          passes[i].tick == NextTick(ClockBefore(start, passes, i)))
  }

  /** Every pass that has a successor ends before the tick of the next day. */
  predicate InTime(passes: seq<Pass>) {
    forall i | 0 <= i < |passes| - 1 :: passes[i].done < Midnight(DayOf(passes[i].tick) + 1) + TICK
  }

  /** The passes tick at 06:00 on consecutive days. */
  predicate TicksDaily(start: int, passes: seq<Pass>) {
    forall i | 0 <= i < |passes| :: passes[i].tick == Midnight(DayOf(NextTick(start)) + i) + TICK
  }

  /** The clocks that decide what is due and what is reported are read on the UTC day of the tick. */
  ghost predicate ReadsOnItsDay(p: Pass) {
    DayOf(p.wake) == DayOf(p.tick) && forall period :: DayOf(p.reading(period)) == DayOf(p.tick)
  }

  ghost predicate Prompt(passes: seq<Pass>) {
    InTime(passes) && forall i | 0 <= i < |passes| :: ReadsOnItsDay(passes[i])
  }

  /** The ranges reported for one period, in the order of the passes. */
  function Reported(passes: seq<Pass>, period: Period): seq<Range>
  {
    if passes == [] then []
    else
      var last := passes[|passes| - 1];
      Reported(passes[..|passes| - 1], period)
      + (if IsDue(last.wake, period) then [PeriodRange(last.reading(period), period)] else [])
  }

  predicate Tiles(ranges: seq<Range>) {
    && (forall i | 0 <= i < |ranges| :: ranges[i].from < ranges[i].to)
    && (forall i | 0 < i < |ranges| :: ranges[i].from == ranges[i - 1].to)
  }

  /** A pass is followed by the tick of the next day if and only if it ends before it. */
  lemma TickOf(before: int, done: int)
    requires NextTick(before) <= done
    ensures var next := Midnight(DayOf(NextTick(before)) + 1) + TICK;
            && (NextTick(done) == next <==> done < next)
            && (done < next <==> DayOf(NextTick(done)) == DayOf(NextTick(before)) + 1)
  {
  }

  /** Passes that end in time tick at 06:00 on consecutive days. */
  lemma {:induction false} OneTickPerDay(start: int, passes: seq<Pass>, i: nat)
    requires SchedulerRun(start, passes) && InTime(passes) && i < |passes|
    ensures passes[i].tick == Midnight(DayOf(NextTick(start)) + i) + TICK
    ensures DayOf(passes[i].tick) == DayOf(NextTick(start)) + i
  {
    hide NextTick, DayOf, Midnight;
    assert passes[i].tick == NextTick(ClockBefore(start, passes, i));
    if i == 0 {
      NextTickIsFirst(start);
    } else {
      OneTickPerDay(start, passes, i - 1);
      assert PassOk(passes[i - 1]);
      TickOf(ClockBefore(start, passes, i - 1), passes[i - 1].done);
    }
  }

  /** A run ticks once a day, at 06:00, if and only if every pass that has a successor ends before the
      tick of the next day. */
  lemma DailyIfInTime(start: int, passes: seq<Pass>)
    requires SchedulerRun(start, passes)
    ensures TicksDaily(start, passes) <==> InTime(passes)
  {
    hide NextTick, DayOf, Midnight;
    if InTime(passes) {
      forall i | 0 <= i < |passes|
        ensures passes[i].tick == Midnight(DayOf(NextTick(start)) + i) + TICK
      {
        OneTickPerDay(start, passes, i);
      }
    }
    if TicksDaily(start, passes) {
      forall i | 0 <= i < |passes| - 1
        ensures passes[i].done < Midnight(DayOf(passes[i].tick) + 1) + TICK
      {
        var day := DayOf(NextTick(start)) + i;
        assert passes[i].tick == Midnight(day) + TICK && passes[i + 1].tick == Midnight(day + 1) + TICK;
        assert passes[i + 1].tick == NextTick(ClockBefore(start, passes, i + 1)) == NextTick(passes[i].done);
        MidnightOpensDay(day, TICK);
        NextTickIsFirst(passes[i].done);
      }
    }
  }

  predicate PassOnDay(p: Pass, day: int) {
    && PassOk(p)
    && DayOf(p.wake) == day
    && forall period :: DayOf(p.reading(period)) == day
  }

  lemma DueByDay(now: int, period: Period)
    ensures IsDue(now, period) == IsDue(Midnight(DayOf(now)), period)
  {
    hide DayOf, Midnight, MonthOf, FirstOfMonth;
    MidnightOpensDay(DayOf(now), 0);
  }

  lemma TileStep(before: seq<Range>, day: int, p: Pass, period: Period)
    requires Tiles(before) && PassOnDay(p, day)
    requires before != [] ==> before[|before| - 1].to == Midnight(PeriodDays(day - 1, period).to)
    ensures var ranges := before + (if IsDue(p.wake, period) then [PeriodRange(p.reading(period), period)] else []);
            && Tiles(ranges)
            && (ranges != [] ==> ranges[|ranges| - 1].to == Midnight(PeriodDays(day, period).to))
  {
    hide DayOf, Midnight, PeriodDays, IsDue;
    DueByDay(p.wake, period);
    NextDay(day - 1, period);
    NextDay(day, period);
    if IsDue(p.wake, period) {
      MidnightsInOrder(PeriodDays(day, period));
      AppendTile(before, PeriodRange(p.reading(period), period));
    }
  }

  lemma {:induction false} DailyPassesTile(day: int, passes: seq<Pass>, period: Period)
    requires forall i | 0 <= i < |passes| :: PassOnDay(passes[i], day + i)
    ensures Tiles(Reported(passes, period))
    ensures var ranges := Reported(passes, period);
            ranges != [] ==> ranges[|ranges| - 1].to == Midnight(PeriodDays(day + |passes| - 1, period).to)
  {
    hide DayOf, Midnight, PeriodDays, IsDue, PeriodRange, PassOnDay;
    if passes != [] {
      var n := |passes| - 1;
      DailyPassesTile(day, passes[..n], period);
      TileStep(Reported(passes[..n], period), day + n, passes[n], period);
    }
  }

  lemma AppendTile(ranges: seq<Range>, next: Range)
    requires Tiles(ranges) && next.from < next.to
    requires ranges != [] ==> ranges[|ranges| - 1].to == next.from
    ensures Tiles(ranges + [next])
  {
  }

  /** Over a prompt run the ranges mailed for each period leave no gap and never overlap. */
  lemma ReportsTile(start: int, passes: seq<Pass>, period: Period)
    requires SchedulerRun(start, passes) && Prompt(passes)
    ensures Tiles(Reported(passes, period))
  {
    var day := DayOf(NextTick(start));
    forall i | 0 <= i < |passes|
      ensures PassOnDay(passes[i], day + i)
    {
      OneTickPerDay(start, passes, i);
      assert PassOk(passes[i]) && ReadsOnItsDay(passes[i]);
    }
    DailyPassesTile(day, passes, period);
  }

  /** What tiling is for: every instant between the first range and the last is in exactly one. */
  lemma {:induction false} TilesCoverOnce(ranges: seq<Range>, t: int) returns (k: nat)
    requires Tiles(ranges) && ranges != []
    requires ranges[0].from <= t < ranges[|ranges| - 1].to
    ensures k < |ranges|
    ensures forall i | 0 <= i < |ranges| :: ranges[i].from <= t < ranges[i].to <==> i == k
  {
    k := 0;
    while ranges[k].to <= t
      invariant k < |ranges| && ranges[k].from <= t
      decreases |ranges| - k
    {
      k := k + 1;
    }
    forall i | 0 <= i < |ranges| && i != k
      ensures !(ranges[i].from <= t < ranges[i].to)
    {
      if i < k { TilesInOrder(ranges, i, k); } else { TilesInOrder(ranges, k, i); }
    }
  }

  lemma {:induction false} TilesInOrder(ranges: seq<Range>, i: nat, j: nat)
    requires Tiles(ranges) && i < j < |ranges|
    ensures ranges[i].to <= ranges[j].from
    decreases j - i
  {
    if i + 1 < j {
      TilesInOrder(ranges, i, j - 1);
    }
  }

  /** Without promptness the daily ranges of neighbouring passes meet exactly when the reports
      were read on neighbouring days. */
  lemma DailyRangesMeet(p: Pass, q: Pass)
    requires PassOk(p) && PassOk(q)
    ensures PeriodRange(q.reading(Daily), Daily).from == PeriodRange(p.reading(Daily), Daily).to
            <==> DayOf(q.reading(Daily)) == DayOf(p.reading(Daily)) + 1
  {
  }

  // ---- One batch ----

  datatype Subscription = Subscription(email: string, group: string)
  datatype Mail<T> = Mail(email: string, group: string, range: Range, lines: T)

  /** One mail per subscriber whose group's report loads, each loading its own report. */
  function Batch<T>(subs: seq<Subscription>, range: Range, load: (Range, string) -> Option<T>): seq<Mail<T>> {
    if subs == [] then []
    else
      var last := subs[|subs| - 1];
      Batch(subs[..|subs| - 1], range, load)
      + (match load(range, last.group)
         case Some(lines) => [Mail(last.email, last.group, range, lines)]
         case None => [])
  }

  predicate IsMailTo<T(==)>(mail: Mail<T>, sub: Subscription, range: Range, load: (Range, string) -> Option<T>) {
    && mail.email == sub.email && mail.group == sub.group && mail.range == range
    && load(range, sub.group) == Some(mail.lines)
  }

  /** The mails go to the subscribers whose group's report loads, in their order, each with that report. */
  lemma {:induction false} MailPerSubscriber<T>(
      subs: seq<Subscription>, range: Range, load: (Range, string) -> Option<T>) returns (to: seq<nat>)
    ensures |to| == |Batch(subs, range, load)|
    ensures forall j, k | 0 <= j < k < |to| :: to[j] < to[k]
    ensures forall i :: i in to <==> 0 <= i < |subs| && load(range, subs[i].group).Some?
    ensures forall k | 0 <= k < |to| ::
              to[k] < |subs| && IsMailTo(Batch(subs, range, load)[k], subs[to[k]], range, load)
  {
    to := [];
    if subs != [] {
      var n := |subs| - 1;
      var sub := subs[n];
      var mail := match load(range, sub.group)
                  case Some(lines) => [Mail(sub.email, sub.group, range, lines)]
                  case None => [];
      assert Batch(subs, range, load) == Batch(subs[..n], range, load) + mail;
      hide Batch;
      var before := MailPerSubscriber(subs[..n], range, load);
      to := before + (if load(range, sub.group).Some? then [n] else []);
    }
  }

  /** The cache holds the groups that have loaded; only a failed load is repeated. */
  ghost predicate Caches<T>(
      cache: map<string, T>, loads: seq<string>, range: Range, load: (Range, string) -> Option<T>) {
    && (forall g :: g in cache <==> g in loads && load(range, g).Some?)
    && (forall g | g in cache :: load(range, g) == Some(cache[g]))
    && (forall j, k | 0 <= j < k < |loads| && loads[j] == loads[k] :: load(range, loads[j]).None?)
  }

  ghost predicate LoadsGroups(loads: seq<string>, subs: seq<Subscription>) {
    forall g :: g in loads <==> exists sub :: sub in subs && sub.group == g
  }

  lemma CachesLoad<T>(
      cache: map<string, T>, loads: seq<string>, range: Range, load: (Range, string) -> Option<T>, group: string)
    requires Caches(cache, loads, range, load) && group !in cache
    ensures var cache' := if load(range, group).Some? then cache[group := load(range, group).value] else cache;
            Caches(cache', loads + [group], range, load)
  {
    assert group in loads ==> load(range, group).None?;
  }

  lemma LoadsMore(loads: seq<string>, subs: seq<Subscription>, sub: Subscription)
    requires LoadsGroups(loads, subs)
    ensures LoadsGroups(loads + [sub.group], subs + [sub])
    ensures sub.group in loads ==> LoadsGroups(loads, subs + [sub])
  {
    assert forall g :: g in loads + [sub.group] <==> g in loads || g == sub.group;
    assert forall other :: other in subs + [sub] <==> other in subs || other == sub;
  }

  lemma BatchMore<T>(subs: seq<Subscription>, sub: Subscription, range: Range, load: (Range, string) -> Option<T>)
    ensures Batch(subs + [sub], range, load) == Batch(subs, range, load)
              + (match load(range, sub.group)
                 case Some(lines) => [Mail(sub.email, sub.group, range, lines)]
                 case None => [])
  {
    assert (subs + [sub])[..|subs|] == subs;
  }

  /** Loads each group's report at most once, apart from failed loads, and sends the same mails as
      loading it for every subscriber. */
  method RunOnce<T>(subs: seq<Subscription>, period: Period, now: int, load: (Range, string) -> Option<T>)
    returns (mails: seq<Mail<T>>, loads: seq<string>)
    ensures mails == Batch(subs, PeriodRange(now, period), load)
    ensures forall i, j | 0 <= i < j < |loads| && loads[i] == loads[j] ::
              load(PeriodRange(now, period), loads[i]).None?
    ensures forall g :: g in loads <==> exists sub :: sub in subs && sub.group == g
  {
    hide PeriodRange, Batch;
    mails, loads := [], [];
    var range := PeriodRange(now, period);
    var cache: map<string, T> := map[];
    assert Batch(subs[..0], range, load) == [] by { NoBatch(range, load); }
    for i := 0 to |subs|
      invariant mails == Batch(subs[..i], range, load)
      invariant Caches(cache, loads, range, load)
      invariant LoadsGroups(loads, subs[..i])
    {
      hide LoadsGroups;
      var sub := subs[i];
      assert subs[..i + 1] == subs[..i] + [sub];
      BatchMore(subs[..i], sub, range, load);
      LoadsMore(loads, subs[..i], sub);
      if sub.group in cache {
        mails := mails + [Mail(sub.email, sub.group, range, cache[sub.group])];
      } else {
        CachesLoad(cache, loads, range, load, sub.group);
        hide Caches;
        loads := loads + [sub.group];
        match load(range, sub.group) {
          case Some(lines) =>
            cache := cache[sub.group := lines];
            mails := mails + [Mail(sub.email, sub.group, range, lines)];
          case None =>
        }
      }
    }
    assert subs[..|subs|] == subs;
  }

  lemma NoBatch<T>(range: Range, load: (Range, string) -> Option<T>)
    ensures Batch([], range, load) == []
  {
  }
}
