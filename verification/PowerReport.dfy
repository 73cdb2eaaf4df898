/** The power report: rows per session and per charger, and the fleet timeline per hour and per day.
    Sessions are keyed by transaction number, minutes, hours and days by their number since the epoch. */
module PowerReport {
  import opened Options
  import opened Aggregation

  datatype Sample = Sample(time: Option<int>, power: int)

  datatype Session = Session(
    charger: string,
    userGroup: Option<string>,
    isFinished: bool,
    timeStart: int,
    timeStop: int,
    meterStart: int,
    meterStop: int,
    samples: seq<Sample>)

  datatype Query = Query(from: int, to: int, charger: string, userGroup: string)

  predicate Matches(s: Session, q: Query) {
    && s.isFinished
    && q.from <= s.timeStop <= q.to
    && s.meterStop > s.meterStart
    && (q.charger == "" || s.charger == q.charger)
    && (q.userGroup == "" || s.userGroup == Some(q.userGroup))
  }

  ghost function Selected(sessions: map<int, Session>, q: Query): map<int, Session> {
    map t | t in sessions && Matches(sessions[t], q) :: sessions[t]
  }

  // ---- Sessions and chargers ----

  /** The figures of a session, or the joined figures of several. */
  datatype Figures = Figures(sessions: nat, consumed: nat, duration: int, maxPower: nat, powerSum: nat, samples: nat)

  const NO_FIGURES: Figures := Figures(0, 0, 0, 0, 0, 0)

  function Max(a: nat, b: nat): nat {
    if a >= b then a else b
  }

  function JoinFigures(a: Figures, b: Figures): Figures {
    Figures(a.sessions + b.sessions, a.consumed + b.consumed, a.duration + b.duration,
            Max(a.maxPower, b.maxPower), a.powerSum + b.powerSum, a.samples + b.samples)
  }

  /** The figures of one sample: one that draws no power counts for nothing. */
  function SampleFigures(s: Sample): Figures {
    if s.power > 0 then Figures(0, 0, 0, s.power, s.power, 1) else NO_FIGURES
  }

  function ChargingFigures(samples: seq<Sample>): Figures {
    if samples == [] then NO_FIGURES
    else JoinFigures(ChargingFigures(samples[..|samples| - 1]), SampleFigures(samples[|samples| - 1]))
  }

  function Second(instant: int): int {
    instant / 1_000_000_000
  }

  function SessionFigures(s: Session): Figures
    requires s.meterStop > s.meterStart
  {
    ChargingFigures(s.samples).(
      sessions := 1, consumed := s.meterStop - s.meterStart, duration := Second(s.timeStop) - Second(s.timeStart))
  }

  ghost function SessionRows(sessions: map<int, Session>, q: Query): map<(int, string), Figures> {
    map t | t in Selected(sessions, q) :: (t, sessions[t].charger) := SessionFigures(sessions[t])
  }

  function ChargerOf(key: (int, string)): string {
    key.1
  }

  ghost function ChargerRows(sessions: map<int, Session>, q: Query): map<string, Figures> {
    GroupBy(SessionRows(sessions, q), ChargerOf, NO_FIGURES, JoinFigures)
  }

  function AvgChargingPower(f: Figures): real {
    if f.samples > 0 then f.powerSum as real / f.samples as real else 0.0
  }

  function AvgSessionPower(f: Figures): real {
    if f.duration > 0 then f.consumed as real / f.duration as real * 3600.0 else 0.0
  }

  lemma FiguresJoin()
    ensures Monoid(NO_FIGURES, JoinFigures)
  {
  }

  /** The powers of the samples lie between zero and the peak. */
  predicate FiguresOk(f: Figures) {
    f.powerSum <= f.samples * f.maxPower
  }

  lemma JoinKeepsOk(a: Figures, b: Figures)
    requires FiguresOk(a) && FiguresOk(b)
    ensures FiguresOk(JoinFigures(a, b))
  {
    ProductsJoin(a.samples, a.maxPower, b.samples, b.maxPower);
  }

  lemma ProductsJoin(m: nat, a: nat, n: nat, b: nat)
    ensures m * a + n * b <= (m + n) * Max(a, b)
  {
    var max := Max(a, b);
    assert m * a <= m * max && n * b <= n * max;
    assert (m + n) * max == m * max + n * max;
  }

  lemma {:induction false} ChargingIsOk(samples: seq<Sample>)
    ensures FiguresOk(ChargingFigures(samples))
  {
    if samples != [] {
      ChargingIsOk(samples[..|samples| - 1]);
      JoinKeepsOk(ChargingFigures(samples[..|samples| - 1]), SampleFigures(samples[|samples| - 1]));
    }
  }

  function PlusReal(a: real, b: real): real {
    a + b
  }

  lemma RealsAdd()
    ensures Monoid(0.0, PlusReal)
  {
  }

  function MeanWeight(f: Figures): real {
    AvgChargingPower(f) * f.samples as real
  }

  ghost function Weighted<K>(m: map<K, Figures>): map<K, real> {
    map k | k in m :: MeanWeight(m[k])
  }

  lemma MeanTimesCount(f: Figures)
    requires FiguresOk(f)
    ensures MeanWeight(f) == f.powerSum as real
    ensures AvgChargingPower(f) <= f.maxPower as real
  {
    if f.samples > 0 {
      assert f.powerSum as real <= f.samples as real * f.maxPower as real;
      Quotient(f.powerSum as real, f.samples as real, f.maxPower as real);
    }
  }

  lemma Quotient(a: real, b: real, max: real)
    requires b > 0.0 && a <= b * max
    ensures a / b * b == a
    ensures a / b <= max
  {
  }

  /** Joined figures keep to their peak, which is the greatest of the peaks joined. */
  lemma {:induction false} FoldedPeak<K>(m: map<K, Figures>)
    requires forall k | k in m :: FiguresOk(m[k])
    ensures var f := Fold(m, NO_FIGURES, JoinFigures);
            && FiguresOk(f)
            && (forall k | k in m :: m[k].maxPower <= f.maxPower)
            && (f.maxPower > 0 ==> exists k :: k in m && m[k].maxPower == f.maxPower)
    decreases |m|
  {
    hide FiguresOk;
    if |m| > 0 {
      var k := SomeKey(m);
      FoldedPeak(m - {k});
      JoinKeepsOk(m[k], Fold(m - {k}, NO_FIGURES, JoinFigures));
      assert forall j | j in m && j != k :: j in m - {k};
    } else {
      assert FiguresOk(NO_FIGURES) by { ChargingIsOk([]); }
    }
  }

  /** The mean of joined figures, weighted with its samples, is the sum of the means weighted with theirs. */
  lemma {:induction false} FoldedMean<K>(m: map<K, Figures>)
    requires forall k | k in m :: FiguresOk(m[k])
    ensures Fold(m, NO_FIGURES, JoinFigures).powerSum as real == Fold(Weighted(m), 0.0, PlusReal)
    decreases |m|
  {
    hide FiguresOk, MeanWeight, Max;
    if |m| > 0 {
      var k := SomeKey(m);
      RealsAdd();
      hide Monoid;
      FoldTakes(Weighted(m), k, 0.0, PlusReal);
      assert Weighted(m) - {k} == Weighted(m - {k});
      FoldedMean(m - {k});
      MeanTimesCount(m[k]);
    } else {
      assert m == map[];
      assert Weighted(m) == map[];
    }
  }

  lemma RowsAreOk(sessions: map<int, Session>, q: Query)
    ensures forall k | k in SessionRows(sessions, q) :: FiguresOk(SessionRows(sessions, q)[k])
  {
    forall k | k in SessionRows(sessions, q)
      ensures FiguresOk(SessionRows(sessions, q)[k])
    {
      ChargingIsOk(sessions[k.0].samples);
    }
  }

  /** A charger row is the roll-up of the rows of its sessions: its mean is their sample-weighted
      mean, its peak the greatest of theirs, and no mean exceeds its peak. */
  lemma ChargerRowIsRollUp(sessions: map<int, Session>, q: Query, charger: string)
    requires charger in ChargerRows(sessions, q)
    ensures var (row, own) := (ChargerRows(sessions, q)[charger], Fiber(SessionRows(sessions, q), ChargerOf, charger));
            && row == Fold(own, NO_FIGURES, JoinFigures)
            && MeanWeight(row) == Fold(Weighted(own), 0.0, PlusReal)
            && AvgChargingPower(row) <= row.maxPower as real
            && (forall k | k in own ::
                  own[k].maxPower <= row.maxPower && AvgChargingPower(own[k]) <= own[k].maxPower as real)
            && (row.maxPower > 0 ==> exists k :: k in own && own[k].maxPower == row.maxPower)
  {
    hide SessionRows, FiguresOk, AvgChargingPower, MeanWeight, Weighted, Fold;
    RowsAreOk(sessions, q);
    var own := Fiber(SessionRows(sessions, q), ChargerOf, charger);
    FoldedPeak(own);
    FoldedMean(own);
    MeanTimesCount(ChargerRows(sessions, q)[charger]);
    forall k | k in own
      ensures AvgChargingPower(own[k]) <= own[k].maxPower as real
    {
      MeanTimesCount(own[k]);
    }
  }

  lemma {:induction false} SessionsCounted<K>(m: map<K, Figures>)
    requires forall k | k in m :: m[k].sessions == 1
    ensures Fold(m, NO_FIGURES, JoinFigures).sessions == |m|
    decreases |m|
  {
    if |m| > 0 {
      var k := SomeKey(m);
      FiguresJoin();
      hide Monoid;
      FoldTakes(m, k, NO_FIGURES, JoinFigures);
      SessionsCounted(m - {k});
      assert |m - {k}| == |m| - 1;
    }
  }

  function SessionWeight(f: Figures): real {
    AvgSessionPower(f) * f.duration as real
  }

  ghost function SessionWeights<K>(m: map<K, Figures>): map<K, real> {
    map k | k in m :: SessionWeight(m[k])
  }

  lemma WeightIsEnergy(f: Figures)
    requires f.duration > 0
    ensures SessionWeight(f) == f.consumed as real * 3600.0
  {
    var (e, d) := (f.consumed as real, f.duration as real);
    assert e / d * 3600.0 * d == e / d * d * 3600.0;
    assert e / d * d == e;
  }

  /** Durations add, and so do the means weighted with them. */
  lemma {:induction false} FoldedSessionMean<K>(m: map<K, Figures>)
    requires forall k | k in m :: m[k].duration > 0
    ensures var f := Fold(m, NO_FIGURES, JoinFigures);
            && f.duration >= |m|
            && f.consumed as real * 3600.0 == Fold(SessionWeights(m), 0.0, PlusReal)
    decreases |m|
  {
    hide SessionWeight, Max;
    if |m| > 0 {
      var k := SomeKey(m);
      RealsAdd();
      hide Monoid;
      FoldTakes(SessionWeights(m), k, 0.0, PlusReal);
      assert SessionWeights(m) - {k} == SessionWeights(m - {k});
      FoldedSessionMean(m - {k});
      WeightIsEnergy(m[k]);
    } else {
      assert m == map[];
      assert SessionWeights(m) == map[];
    }
  }

  /** Where every session takes time, the session power of a charger is the mean of those of its
      sessions, weighted with their durations. */
  lemma ChargerSessionPower(sessions: map<int, Session>, q: Query, charger: string)
    requires charger in ChargerRows(sessions, q)
    requires var own := Fiber(SessionRows(sessions, q), ChargerOf, charger); forall k | k in own :: own[k].duration > 0
    ensures var (row, own) := (ChargerRows(sessions, q)[charger], Fiber(SessionRows(sessions, q), ChargerOf, charger));
            row.duration > 0 && SessionWeight(row) == Fold(SessionWeights(own), 0.0, PlusReal)
  {
    hide SessionRows, SessionWeight, Fold, SessionWeights;
    var own := Fiber(SessionRows(sessions, q), ChargerOf, charger);
    var k :| k in SessionRows(sessions, q) && ChargerOf(k) == charger;
    assert k in own;
    FoldedSessionMean(own);
    WeightIsEnergy(ChargerRows(sessions, q)[charger]);
  }

  /** The charger rows count each selected session once, and together hold all of their energy, time
      and samples. */
  lemma ChargersHoldAllSessions(sessions: map<int, Session>, q: Query)
    ensures var all := Fold(ChargerRows(sessions, q), NO_FIGURES, JoinFigures);
            && all == Fold(SessionRows(sessions, q), NO_FIGURES, JoinFigures)
            && all.sessions == |Selected(sessions, q)|
  {
    FiguresJoin();
    GroupsMakeWhole(SessionRows(sessions, q), ChargerOf, NO_FIGURES, JoinFigures);
    SessionsCounted(SessionRows(sessions, q));
    RowPerSession(sessions, q);
    hide Monoid, Fold;
  }

  /** Every selected session is in the row of exactly one charger, its own. */
  lemma SessionHasOneCharger(sessions: map<int, Session>, q: Query, t: int, charger: string)
    requires t in Selected(sessions, q)
    ensures charger in ChargerRows(sessions, q)
            && (exists key :: key in Fiber(SessionRows(sessions, q), ChargerOf, charger) && key.0 == t)
            <==> charger == sessions[t].charger
  {
    hide Fold, SessionFigures;
    var key := (t, sessions[t].charger);
    assert key in SessionRows(sessions, q);
    assert ChargerOf(key) in Image(SessionRows(sessions, q), ChargerOf);
    assert key in Fiber(SessionRows(sessions, q), ChargerOf, sessions[t].charger);
  }

  /** A charger row counts the sessions of its charger. */
  lemma ChargerRowCounts(sessions: map<int, Session>, q: Query, charger: string)
    requires charger in ChargerRows(sessions, q)
    ensures ChargerRows(sessions, q)[charger].sessions == |Fiber(SessionRows(sessions, q), ChargerOf, charger)|
  {
    SessionsCounted(Fiber(SessionRows(sessions, q), ChargerOf, charger));
  }

  lemma RowPerSession(sessions: map<int, Session>, q: Query)
    ensures |SessionRows(sessions, q)| == |Selected(sessions, q)|
  {
    var keys := Selected(sessions, q).Keys;
    SameSize(keys, SessionRows(sessions, q).Keys, sessions);
  }

  lemma {:induction false} SameSize(ts: set<int>, keys: set<(int, string)>, sessions: map<int, Session>)
    requires ts <= sessions.Keys && keys == set t | t in ts :: (t, sessions[t].charger)
    ensures |keys| == |ts|
    decreases |ts|
  {
    if |ts| > 0 {
      var t := SomeElement(ts);
      var key := (t, sessions[t].charger);
      assert key in keys;
      assert keys - {key} == set u | u in ts - {t} :: (u, sessions[u].charger);
      SameSize(ts - {t}, keys - {key}, sessions);
    } else {
      assert ts == {};
      assert keys == {};
    }
  }

  // ---- The fleet timeline ----

  function Minute(instant: int): int {
    instant / 60_000_000_000
  }

  predicate InWindow(s: Sample, q: Query) {
    s.power > 0 && s.time.Some? && q.from <= s.time.value <= q.to
  }

  /** The greatest power a session drew in one minute. */
  function PowerAt(samples: seq<Sample>, q: Query, minute: int): nat {
    if samples == [] then 0
    else
      var s := samples[|samples| - 1];
      Max(PowerAt(samples[..|samples| - 1], q, minute),
          if InWindow(s, q) && Minute(s.time.value) == minute then s.power else 0)
  }

  ghost function MinutesOf(s: Session, q: Query): set<int> {
    set i | 0 <= i < |s.samples| && InWindow(s.samples[i], q) :: Minute(s.samples[i].time.value)
  }

  /** The power of a set of sessions at one minute. */
  datatype Draw = Draw(power: nat, txns: set<int>)

  function JoinDraws(a: Draw, b: Draw): Draw {
    Draw(a.power + b.power, a.txns + b.txns)
  }

  const NO_DRAW: Draw := Draw(0, {})

  /** One row per session and minute in which it drew power. */
  ghost function SessionMinutes(sessions: map<int, Session>, q: Query): map<(int, int), Draw> {
    map t, minute | t in Selected(sessions, q) && minute in MinutesOf(sessions[t], q) ::
      (t, minute) := Draw(PowerAt(sessions[t].samples, q, minute), {t})
  }

  function MinuteOf(key: (int, int)): int {
    key.1
  }

  ghost function FleetMinutes(draws: map<(int, int), Draw>): map<int, Draw> {
    GroupBy(draws, MinuteOf, NO_DRAW, JoinDraws)
  }

  /** The minutes of an hour or a day: the greatest fleet power, its sum, the number of minutes and
      the sessions. */
  datatype Bucket = Bucket(maxPower: nat, powerSum: nat, samples: nat, txns: set<int>)

  const EMPTY: Bucket := Bucket(0, 0, 0, {})

  function JoinBuckets(a: Bucket, b: Bucket): Bucket {
    Bucket(Max(a.maxPower, b.maxPower), a.powerSum + b.powerSum, a.samples + b.samples, a.txns + b.txns)
  }

  ghost function MinuteRows(draws: map<(int, int), Draw>): map<int, Bucket> {
    map m | m in FleetMinutes(draws) ::
      Bucket(FleetMinutes(draws)[m].power, FleetMinutes(draws)[m].power, 1, FleetMinutes(draws)[m].txns)
  }

  function HourOfMinute(minute: int): int {
    minute / 60
  }

  function DayOfMinute(minute: int): int {
    minute / 1440
  }

  function DayOfHour(hour: int): int {
    hour / 24
  }

  ghost function Hours(draws: map<(int, int), Draw>): map<int, Bucket> {
    GroupBy(MinuteRows(draws), HourOfMinute, EMPTY, JoinBuckets)
  }

  ghost function Days(draws: map<(int, int), Draw>): map<int, Bucket> {
    GroupBy(MinuteRows(draws), DayOfMinute, EMPTY, JoinBuckets)
  }

  lemma SetsJoin(a: set<int>, b: set<int>, c: set<int>)
    ensures a + {} == a && a + b == b + a && a + b + c == a + (b + c)
  {
  }

  lemma BucketsJoin()
    ensures Monoid(EMPTY, JoinBuckets)
  {
    forall x ensures JoinBuckets(x, EMPTY) == x {
      SetsJoin(x.txns, {}, {});
    }
    forall x, y ensures JoinBuckets(x, y) == JoinBuckets(y, x) {
      SetsJoin(x.txns, y.txns, {});
    }
    forall x, y, z ensures JoinBuckets(JoinBuckets(x, y), z) == JoinBuckets(x, JoinBuckets(y, z)) {
      SetsJoin(x.txns, y.txns, z.txns);
    }
  }

  lemma DrawsJoin()
    ensures Monoid(NO_DRAW, JoinDraws)
  {
    forall x ensures JoinDraws(x, NO_DRAW) == x {
      SetsJoin(x.txns, {}, {});
    }
    forall x, y ensures JoinDraws(x, y) == JoinDraws(y, x) {
      SetsJoin(x.txns, y.txns, {});
    }
    forall x, y, z ensures JoinDraws(JoinDraws(x, y), z) == JoinDraws(x, JoinDraws(y, z)) {
      SetsJoin(x.txns, y.txns, z.txns);
    }
  }

  /** Grouping the hour rows by day gives the day rows: minute to hour to day is minute to day. */
  lemma HoursRollUpToDays(draws: map<(int, int), Draw>)
    ensures GroupBy(Hours(draws), DayOfHour, EMPTY, JoinBuckets) == Days(draws)
  {
    BucketsJoin();
    forall m
      ensures DayOfMinute(m) == DayOfHour(HourOfMinute(m))
    {
    }
    GroupTwice(MinuteRows(draws), HourOfMinute, DayOfHour, DayOfMinute, EMPTY, JoinBuckets);
  }

  ghost function PowerSums<K>(m: map<K, Bucket>): map<K, nat> {
    map k | k in m :: m[k].powerSum
  }

  ghost function SampleCounts<K>(m: map<K, Bucket>): map<K, nat> {
    map k | k in m :: m[k].samples
  }

  ghost function SessionCounts<K>(m: map<K, Bucket>): map<K, nat> {
    map k | k in m :: |m[k].txns|
  }

  // What joining rows does to each column.

  /** Powers and samples add. */
  lemma {:induction false} FoldedSums<K>(m: map<K, Bucket>)
    ensures var f := Fold(m, EMPTY, JoinBuckets);
            f.powerSum == SumOf(PowerSums(m)) && f.samples == SumOf(SampleCounts(m))
    decreases |m|
  {
    if |m| > 0 {
      var k := SomeKey(m);
      FoldedSums(m - {k});
      SumTakes(PowerSums(m), k);
      SumTakes(SampleCounts(m), k);
      assert PowerSums(m) - {k} == PowerSums(m - {k});
      assert SampleCounts(m) - {k} == SampleCounts(m - {k});
      hide SumOf;
    } else {
      assert PowerSums(m) == map[] && SampleCounts(m) == map[];
    }
  }

  /** The peak is the greatest peak. */
  lemma {:induction false} FoldedMax<K>(m: map<K, Bucket>)
    ensures var f := Fold(m, EMPTY, JoinBuckets);
            && (forall k | k in m :: m[k].maxPower <= f.maxPower)
            && (f.maxPower > 0 ==> exists k :: k in m && m[k].maxPower == f.maxPower)
    decreases |m|
  {
    if |m| > 0 {
      var k := SomeKey(m);
      FoldedMax(m - {k});
      assert forall j | j in m && j != k :: j in m - {k};
    }
  }

  /** The distinct sessions are the union, between the greatest number of sessions and the sum. */
  lemma {:induction false} FoldedSessions(m: map<int, Bucket>)
    ensures var f := Fold(m, EMPTY, JoinBuckets);
            && (forall t :: t in f.txns <==> exists k :: k in m && t in m[k].txns)
            && (forall k | k in m :: |m[k].txns| <= |f.txns|)
            && |f.txns| <= SumOf(SessionCounts(m))
    decreases |m|
  {
    if |m| > 0 {
      var k := SomeKey(m);
      var m' := m - {k};
      FoldedSessions(m');
      SumTakes(SessionCounts(m), k);
      assert SessionCounts(m) - {k} == SessionCounts(m');
      hide SumOf;
      UnionSize(m[k].txns, Fold(m', EMPTY, JoinBuckets).txns);
      assert forall j | j in m && j != k :: j in m' && m'[j] == m[j];
    } else {
      assert SessionCounts(m) == map[];
    }
  }

  lemma UnionSize(a: set<int>, b: set<int>)
    ensures |a| <= |a + b| && |b| <= |a + b| <= |a| + |b|
  {
    assert a + b == a + (b - a);
    assert |a + b| == |a| + |b - a|;
    assert a + b == b + (a - b);
    assert |a + b| == |b| + |a - b|;
  }

  /** The day row of a date and the hour rows of its hours. */
  lemma DayOfHours(draws: map<(int, int), Draw>, day: int)
    requires day in Days(draws)
    ensures var (row, hours) := (Days(draws)[day], Fiber(Hours(draws), DayOfHour, day));
            && row.powerSum == SumOf(PowerSums(hours))
            && row.samples == SumOf(SampleCounts(hours))
            && (forall h | h in hours :: hours[h].maxPower <= row.maxPower)
            && (row.maxPower > 0 ==> exists h :: h in hours && hours[h].maxPower == row.maxPower)
            && (forall h | h in hours :: |hours[h].txns| <= |row.txns|)
            && |row.txns| <= SumOf(SessionCounts(hours))
  {
    hide Hours, Days, SumOf, Fold, PowerSums, SampleCounts, SessionCounts;
    HoursRollUpToDays(draws);
    FoldedSums(Fiber(Hours(draws), DayOfHour, day));
    FoldedMax(Fiber(Hours(draws), DayOfHour, day));
    FoldedSessions(Fiber(Hours(draws), DayOfHour, day));
  }

  // ---- Bounds of the timeline ----

  lemma {:induction false} PowerAtIsMax(samples: seq<Sample>, q: Query, minute: int)
    ensures forall s | s in samples && InWindow(s, q) && Minute(s.time.value) == minute ::
              s.power <= PowerAt(samples, q, minute)
    ensures PowerAt(samples, q, minute) > 0 ==>
              exists s :: s in samples && InWindow(s, q) && Minute(s.time.value) == minute
                          && s.power == PowerAt(samples, q, minute)
  {
    if samples != [] {
      var n := |samples| - 1;
      PowerAtIsMax(samples[..n], q, minute);
      assert forall s | s in samples :: s in samples[..n] || s == samples[n];
      assert samples[n] in samples;
    }
  }

  /** Rows of instants: one minute each, whose power is its own peak. */
  lemma {:induction false} FoldedInstants<K>(m: map<K, Bucket>)
    requires forall k | k in m :: m[k].samples == 1 && m[k].powerSum == m[k].maxPower
    ensures var f := Fold(m, EMPTY, JoinBuckets);
            f.samples == |m| && f.powerSum <= f.samples * f.maxPower
    decreases |m|
  {
    if |m| > 0 {
      var k := SomeKey(m);
      var f := Fold(m - {k}, EMPTY, JoinBuckets);
      FoldedInstants(m - {k});
      ProductsJoin(1, m[k].maxPower, f.samples, f.maxPower);
      assert |m - {k}| == |m| - 1;
    }
  }

  /** Energy in watt-hours, one sixtieth of the summed power; mean power over the charging minutes. */
  function Energy(b: Bucket): real {
    b.powerSum as real / 60.0
  }

  function MeanPower(b: Bucket): real {
    if b.samples > 0 then b.powerSum as real / b.samples as real else 0.0
  }

  lemma BucketBounds(b: Bucket, minutes: nat)
    requires b.powerSum <= b.samples * b.maxPower && b.samples <= minutes
    ensures MeanPower(b) <= b.maxPower as real
    ensures Energy(b) <= b.maxPower as real * (minutes as real / 60.0)
  {
    assert b.samples * b.maxPower <= minutes * b.maxPower;
    assert b.powerSum as real <= minutes as real * b.maxPower as real;
    if b.samples > 0 {
      assert b.powerSum as real <= b.samples as real * b.maxPower as real;
      Quotient(b.powerSum as real, b.samples as real, b.maxPower as real);
    }
  }

  /** An hour has at most 60 minutes of charging, its mean is at most its peak, and its energy at
      most its peak for the whole hour. */
  lemma HourRowBounds(draws: map<(int, int), Draw>, hour: int)
    requires hour in Hours(draws)
    ensures var row := Hours(draws)[hour];
            row.samples <= 60 && MeanPower(row) <= row.maxPower as real && Energy(row) <= row.maxPower as real
  {
    hide MeanPower, Energy, Fold, FleetMinutes;
    var minutes := Fiber(MinuteRows(draws), HourOfMinute, hour);
    FoldedInstants(minutes);
    IntervalSize(minutes.Keys, 60 * hour, 60);
    BucketBounds(Hours(draws)[hour], 60);
  }

  lemma DayRowBounds(draws: map<(int, int), Draw>, day: int)
    requires day in Days(draws)
    ensures var row := Days(draws)[day];
            row.samples <= 1440 && MeanPower(row) <= row.maxPower as real && Energy(row) <= row.maxPower as real * 24.0
  {
    hide MeanPower, Energy, Fold, FleetMinutes;
    var minutes := Fiber(MinuteRows(draws), DayOfMinute, day);
    FoldedInstants(minutes);
    IntervalSize(minutes.Keys, 1440 * day, 1440);
    BucketBounds(Days(draws)[day], 1440);
  }

  // ---- Fleet peak and session peaks ----

  /** The powers of the sessions drawing at one minute. */
  ghost function At(draws: map<(int, int), Draw>, minute: int): map<int, nat> {
    map key | key in draws && key.1 == minute :: key.0 := draws[key].power
  }

  /** The fleet power of a minute is the sum over the sessions drawing at it. */
  lemma {:induction false} FoldedPowers(draws: map<(int, int), Draw>, minute: int)
    requires forall key | key in draws :: key.1 == minute
    ensures Fold(draws, NO_DRAW, JoinDraws).power == SumOf(At(draws, minute))
    decreases |draws|
  {
    if |draws| > 0 {
      var key := SomeKey(draws);
      FoldedPowers(draws - {key}, minute);
      TakesFromMinute(draws, minute, key);
      SumTakes(At(draws, minute), key.0);
      hide SumOf, At;
    } else {
      assert At(draws, minute) == map[];
    }
  }

  lemma TakesFromMinute(draws: map<(int, int), Draw>, minute: int, key: (int, int))
    requires key in draws && forall key | key in draws :: key.1 == minute
    ensures key.0 in At(draws, minute) && At(draws, minute)[key.0] == draws[key].power
    ensures At(draws, minute) - {key.0} == At(draws - {key}, minute)
  {
    assert forall j | j in draws && j.0 == key.0 :: j == key;
  }

  /** The sessions of a minute are the ones drawing at it. */
  lemma {:induction false} FoldedTxns(draws: map<(int, int), Draw>)
    ensures forall t ::
              t in Fold(draws, NO_DRAW, JoinDraws).txns <==> exists key :: key in draws && t in draws[key].txns
    decreases |draws|
  {
    if |draws| > 0 {
      var key := SomeKey(draws);
      FoldedTxns(draws - {key});
      assert forall j | j in draws && j != key :: j in draws - {key};
    }
  }

  /** The greatest power of one session within a bucket. */
  ghost function PeakOf(draws: map<(int, int), Draw>, bucketOf: int -> int, bucket: int, t: int): nat {
    Fold(map key | key in draws && key.0 == t && bucketOf(key.1) == bucket :: draws[key].power, 0, Max)
  }

  ghost function Peaks(draws: map<(int, int), Draw>, bucketOf: int -> int, bucket: int): map<int, nat> {
    map key | key in draws && bucketOf(key.1) == bucket :: key.0 := PeakOf(draws, bucketOf, bucket, key.0)
  }

  lemma MaxIsMonoid()
    ensures Monoid(0 as nat, Max)
  {
  }

  lemma BelowPeak(draws: map<(int, int), Draw>, bucketOf: int -> int, key: (int, int))
    requires key in draws
    ensures draws[key].power <= PeakOf(draws, bucketOf, bucketOf(key.1), key.0)
  {
    var own: map<(int, int), nat> :=
      map j | j in draws && j.0 == key.0 && bucketOf(j.1) == bucketOf(key.1) :: draws[j].power;
    MaxIsMonoid();
    FoldTakes(own, key, 0, Max);
    hide Fold, Monoid;
  }

  /** The peak load of a bucket is at most what its sessions would draw together if each were at its
      own peak in the bucket. */
  lemma FleetPeakBound(draws: map<(int, int), Draw>, bucketOf: int -> int, bucket: int)
    requires bucket in GroupBy(MinuteRows(draws), bucketOf, EMPTY, JoinBuckets)
    ensures GroupBy(MinuteRows(draws), bucketOf, EMPTY, JoinBuckets)[bucket].maxPower
            <= SumOf(Peaks(draws, bucketOf, bucket))
  {
    var minutes := Fiber(MinuteRows(draws), bucketOf, bucket);
    FoldedMax(minutes);
    if Fold(minutes, EMPTY, JoinBuckets).maxPower > 0 {
      var m :| m in minutes && minutes[m].maxPower == Fold(minutes, EMPTY, JoinBuckets).maxPower;
      MinuteBelowPeaks(draws, bucketOf, m);
    }
  }

  lemma MinuteBelowPeaks(draws: map<(int, int), Draw>, bucketOf: int -> int, m: int)
    requires m in FleetMinutes(draws)
    ensures FleetMinutes(draws)[m].power <= SumOf(Peaks(draws, bucketOf, bucketOf(m)))
  {
    var fiber := Fiber(draws, MinuteOf, m);
    FoldedPowers(fiber, m);
    var at, peaks := At(fiber, m), Peaks(draws, bucketOf, bucketOf(m));
    forall t | t in at
      ensures t in peaks && at[t] <= peaks[t]
    {
      assert (t, m) in fiber && at[t] == fiber[(t, m)].power;
      BelowPeak(draws, bucketOf, (t, m));
    }
    SumGrows(at, peaks);
  }

  /** The sessions of a fleet minute are those of the rows of that minute. */
  lemma TxnsOfFleetMinute(draws: map<(int, int), Draw>, m: int, t: int)
    requires m in FleetMinutes(draws)
    ensures t in FleetMinutes(draws)[m].txns <==> exists key :: key in draws && key.1 == m && t in draws[key].txns
  {
    var fiber := Fiber(draws, MinuteOf, m);
    FoldedTxns(fiber);
    hide Fold;
    if key :| key in draws && key.1 == m && t in draws[key].txns {
      assert key in fiber && t in fiber[key].txns;
    }
    if key :| key in fiber && t in fiber[key].txns {
      assert key in draws && key.1 == m;
    }
  }

  lemma TxnsOfMinute(sessions: map<int, Session>, q: Query, m: int, t: int)
    requires m in FleetMinutes(SessionMinutes(sessions, q))
    ensures t in FleetMinutes(SessionMinutes(sessions, q))[m].txns <==> (t, m) in SessionMinutes(sessions, q)
  {
    hide FleetMinutes, MinutesOf, PowerAt, Matches;
    var draws := SessionMinutes(sessions, q);
    TxnsOfFleetMinute(draws, m, t);
    assert (t, m) in draws ==> t in draws[(t, m)].txns;
  }

  /** The sessions of a bucket are the ones that drew power in one of its minutes. */
  lemma SessionsOfBucket(sessions: map<int, Session>, q: Query, bucketOf: int -> int, bucket: int, t: int)
    requires bucket in GroupBy(MinuteRows(SessionMinutes(sessions, q)), bucketOf, EMPTY, JoinBuckets)
    ensures t in GroupBy(MinuteRows(SessionMinutes(sessions, q)), bucketOf, EMPTY, JoinBuckets)[bucket].txns
            <==> exists m :: (t, m) in SessionMinutes(sessions, q) && bucketOf(m) == bucket
  {
    hide SessionMinutes, Fold, SumOf, FleetMinutes;
    var draws := SessionMinutes(sessions, q);
    var minutes := Fiber(MinuteRows(draws), bucketOf, bucket);
    FoldedSessions(minutes);
    var row := Fold(minutes, EMPTY, JoinBuckets);
    if t in row.txns {
      var m :| m in minutes && t in minutes[m].txns;
      TxnsOfMinute(sessions, q, m, t);
      assert (t, m) in draws && bucketOf(m) == bucket;
    }
    if m :| (t, m) in draws && bucketOf(m) == bucket {
      MinuteIsListed(draws, (t, m));
      TxnsOfMinute(sessions, q, m, t);
      assert m in minutes && t in minutes[m].txns;
      assert t in row.txns;
    }
  }

  lemma MinuteIsListed(draws: map<(int, int), Draw>, key: (int, int))
    requires key in draws
    ensures key.1 in FleetMinutes(draws)
  {
    assert MinuteOf(key) in Image(draws, MinuteOf);
  }

  /** The energy of the hours is the energy of the session minutes. */
  lemma HoursHoldAllPower(draws: map<(int, int), Draw>)
    ensures Fold(Hours(draws), EMPTY, JoinBuckets).powerSum == Fold(draws, NO_DRAW, JoinDraws).power
    ensures Fold(Days(draws), EMPTY, JoinBuckets) == Fold(Hours(draws), EMPTY, JoinBuckets)
  {
    hide Fold, Monoid;
    BucketsJoin();
    DrawsJoin();
    GroupsMakeWhole(MinuteRows(draws), HourOfMinute, EMPTY, JoinBuckets);
    GroupsMakeWhole(MinuteRows(draws), DayOfMinute, EMPTY, JoinBuckets);
    GroupsMakeWhole(draws, MinuteOf, NO_DRAW, JoinDraws);
    FoldedRows(FleetMinutes(draws), MinuteRows(draws));
  }

  lemma {:induction false} FoldedRows(minutes: map<int, Draw>, rows: map<int, Bucket>)
    requires rows.Keys == minutes.Keys && forall m | m in rows :: rows[m].powerSum == minutes[m].power
    ensures Fold(rows, EMPTY, JoinBuckets).powerSum == Fold(minutes, NO_DRAW, JoinDraws).power
    decreases |rows|
  {
    if |rows| > 0 {
      var m := SomeKey(rows);
      BucketsJoin();
      DrawsJoin();
      hide Monoid;
      FoldTakes(rows, m, EMPTY, JoinBuckets);
      FoldTakes(minutes, m, NO_DRAW, JoinDraws);
      FoldedRows(minutes - {m}, rows - {m});
    } else {
      assert minutes == map[];
    }
  }
}
