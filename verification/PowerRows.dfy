/** What the rows of the power report hold, said of the sessions and their samples: who is in a row, and
    each of its figures as a count, a sum or a greatest value. */
module PowerRows {
  import opened Options
  import opened Aggregation
  import opened PowerReport

  // ---- Sessions ----

  /** The powers of the samples that draw any, by their positions. */
  ghost function PowersOf(samples: seq<Sample>): map<int, nat> {
    map i | 0 <= i < |samples| && samples[i].power > 0 :: samples[i].power
  }

  lemma PowersWithLast(samples: seq<Sample>)
    requires samples != []
    ensures var (n, before) := (|samples| - 1, PowersOf(samples[..|samples| - 1]));
            if samples[n].power > 0 then
              n in PowersOf(samples) && PowersOf(samples)[n] == samples[n].power && PowersOf(samples) - {n} == before
            else PowersOf(samples) == before
  {
  }

  lemma {:induction false} SamplesCount(samples: seq<Sample>)
    ensures ChargingFigures(samples).samples == |PowersOf(samples)|
    ensures ChargingFigures(samples).powerSum == SumOf(PowersOf(samples))
  {
    if samples == [] {
      NoSum<int>();
      assert PowersOf(samples) == map[];
    } else {
      hide PowersOf, SumOf;
      var n := |samples| - 1;
      PowersWithLast(samples);
      SamplesCount(samples[..n]);
      if samples[n].power > 0 {
        SumTakes(PowersOf(samples), n);
        OneKeyLess(PowersOf(samples), n);
      }
    }
  }

  lemma NoSum<K>()
    ensures SumOf<K>(map[]) == 0
  {
  }

  lemma OneKeyLess<K, V>(m: map<K, V>, k: K)
    requires k in m
    ensures |m| == |m - {k}| + 1
  {
    assert (m - {k}).Keys == m.Keys - {k};
  }

  lemma {:induction false} PeakOfSamples(samples: seq<Sample>)
    ensures var peak := ChargingFigures(samples).maxPower;
            && (forall i | 0 <= i < |samples| :: samples[i].power <= peak)
            && (peak == 0 || exists i :: 0 <= i < |samples| && samples[i].power == peak)
  {
    hide ChargingFigures;
    var peak := ChargingFigures(samples).maxPower;
    PeakWithLast(samples);
    if samples != [] {
      var n := |samples| - 1;
      var before := samples[..n];
      PeakOfSamples(before);
      forall i | 0 <= i < |samples|
        ensures samples[i].power <= peak
      {
        assert i < n ==> samples[i] == before[i];
      }
      if peak != 0 && peak != samples[n].power {
        var i :| 0 <= i < |before| && before[i].power == peak;
        assert samples[i].power == peak;
      }
    }
  }

  lemma PeakWithLast(samples: seq<Sample>)
    ensures samples == [] ==> ChargingFigures(samples).maxPower == 0
    ensures samples != [] ==>
              var (before, last) := (ChargingFigures(samples[..|samples| - 1]), samples[|samples| - 1].power);
              ChargingFigures(samples).maxPower == if last > before.maxPower then last else before.maxPower
  {
  }

  /** A session has a row if and only if it is finished, stopped within the time asked for, used energy,
      and belongs to the charger and the group asked for, if any. */
  lemma SessionHasRow(sessions: map<int, Session>, q: Query, t: int, charger: string)
    ensures (t, charger) in SessionRows(sessions, q)
            <==> && t in sessions && charger == sessions[t].charger
                 && sessions[t].isFinished && q.from <= sessions[t].timeStop && sessions[t].timeStop <= q.to
                 && sessions[t].meterStart < sessions[t].meterStop
                 && (q.charger == charger || q.charger == "")
                 && (sessions[t].userGroup == Some(q.userGroup) || q.userGroup == "")
  {
    hide SessionFigures;
  }

  /** The row counts the samples that draw power, adds their powers and has the greatest for peak; the
      energy is the difference of the meter, the time that of the whole seconds. */
  lemma SessionRowHolds(sessions: map<int, Session>, q: Query, key: (int, string))
    requires key in SessionRows(sessions, q)
    ensures var (row, s) := (SessionRows(sessions, q)[key], sessions[key.0]);
            var powers: map<int, nat> := map i | 0 <= i < |s.samples| && s.samples[i].power > 0 :: s.samples[i].power;
            && row.sessions == 1
            && row.consumed == s.meterStop - s.meterStart
            && row.duration == s.timeStop / 1_000_000_000 - s.timeStart / 1_000_000_000
            && row.samples == |powers|
            && row.powerSum == SumOf(powers)
            && (forall i | 0 <= i < |s.samples| :: s.samples[i].power <= row.maxPower)
            && (row.maxPower == 0 || exists i :: 0 <= i < |s.samples| && s.samples[i].power == row.maxPower)
  {
    var s := sessions[key.0];
    var powers: map<int, nat> := map i | 0 <= i < |s.samples| && s.samples[i].power > 0 :: s.samples[i].power;
    assert powers == PowersOf(s.samples);
    hide ChargingFigures, PowersOf, SumOf;
    SamplesCount(s.samples);
    PeakOfSamples(s.samples);
  }

  // ---- Chargers ----

  function PlusInt(a: int, b: int): int {
    a + b
  }

  lemma IntsAdd()
    ensures Monoid(0, PlusInt)
  {
  }

  /** A charger row has the sums of the columns of its sessions' rows. */
  lemma ChargerRowSums(sessions: map<int, Session>, q: Query, charger: string)
    requires charger in ChargerRows(sessions, q)
    ensures var row := ChargerRows(sessions, q)[charger];
            var own := map k | k in SessionRows(sessions, q) && k.1 == charger :: SessionRows(sessions, q)[k];
            && own != map[]
            && row.sessions == |own|
            && row.consumed == SumOf(map k | k in own :: own[k].consumed)
            && row.duration == Fold(map k | k in own :: own[k].duration, 0, PlusInt)
            && row.powerSum == SumOf(map k | k in own :: own[k].powerSum)
            && row.samples == SumOf(map k | k in own :: own[k].samples)
  {
    hide SessionRows, Fold;
    var own := map k | k in SessionRows(sessions, q) && k.1 == charger :: SessionRows(sessions, q)[k];
    assert Fiber(SessionRows(sessions, q), ChargerOf, charger) == own;
    FoldedColumn(own, (f: Figures) => f.consumed, map k | k in own :: own[k].consumed);
    FoldedColumn(own, (f: Figures) => f.powerSum, map k | k in own :: own[k].powerSum);
    FoldedColumn(own, (f: Figures) => f.samples, map k | k in own :: own[k].samples);
    FoldedDurations(own, map k | k in own :: own[k].duration);
    ChargerRowCounts(sessions, q, charger);
    var k :| k in SessionRows(sessions, q) && ChargerOf(k) == charger;
    assert k in own;
  }

  lemma {:induction false} FoldedColumn<K>(m: map<K, Figures>, column: Figures -> nat, values: map<K, nat>)
    requires column(NO_FIGURES) == 0 && forall f, g :: column(JoinFigures(f, g)) == column(f) + column(g)
    requires values.Keys == m.Keys && forall k | k in m :: values[k] == column(m[k])
    ensures column(Fold(m, NO_FIGURES, JoinFigures)) == SumOf(values)
    decreases |m|
  {
    if |m| > 0 {
      var k := SomeKey(m);
      SumTakes(values, k);
      FoldedColumn(m - {k}, column, values - {k});
      assert Fold(m, NO_FIGURES, JoinFigures) == JoinFigures(m[k], Fold(m - {k}, NO_FIGURES, JoinFigures));
    } else {
      assert values == map[];
      NoSum<K>();
    }
  }

  lemma {:induction false} FoldedDurations<K>(m: map<K, Figures>, values: map<K, int>)
    requires values.Keys == m.Keys && forall k | k in m :: values[k] == m[k].duration
    ensures Fold(m, NO_FIGURES, JoinFigures).duration == Fold(values, 0, PlusInt)
    decreases |m|
  {
    if |m| > 0 {
      var k := SomeKey(m);
      IntsAdd();
      hide Monoid;
      FoldTakes(values, k, 0, PlusInt);
      FoldedDurations(m - {k}, values - {k});
      assert Fold(m, NO_FIGURES, JoinFigures) == JoinFigures(m[k], Fold(m - {k}, NO_FIGURES, JoinFigures));
    } else {
      assert values == map[];
    }
  }

  /** The means of a row: power over samples and energy over time, zero where there is nothing to divide by. */
  lemma MeansOfRow(f: Figures)
    ensures AvgChargingPower(f) * f.samples as real == if f.samples > 0 then f.powerSum as real else 0.0
    ensures f.samples == 0 ==> AvgChargingPower(f) == 0.0
    ensures f.duration > 0 ==> AvgSessionPower(f) * f.duration as real == f.consumed as real * 3600.0
    ensures f.duration <= 0 ==> AvgSessionPower(f) == 0.0
  {
    if f.samples > 0 {
      Quotient(f.powerSum as real, f.samples as real, f.powerSum as real / f.samples as real);
    }
    if f.duration > 0 {
      WeightIsEnergy(f);
    }
  }

  lemma MeansOfBucket(b: Bucket)
    ensures Energy(b) * 60.0 == b.powerSum as real
    ensures MeanPower(b) * b.samples as real == if b.samples > 0 then b.powerSum as real else 0.0
    ensures b.samples == 0 ==> MeanPower(b) == 0.0
  {
    if b.samples > 0 {
      Quotient(b.powerSum as real, b.samples as real, b.powerSum as real / b.samples as real);
    }
  }

  // ---- The fleet timeline ----

  /** A sample that counts for a minute: it draws power and is timed, within the time asked for. */
  predicate DrawsAt(s: Sample, q: Query, minute: int) {
    && 0 < s.power && s.time.Some? && q.from <= s.time.value && s.time.value <= q.to
    && s.time.value / 60_000_000_000 == minute
  }

  /** A session counts in a minute if it has a row of its own and draws power in that minute, with the
      greatest power it drew. */
  lemma SessionMinuteHolds(sessions: map<int, Session>, q: Query, t: int, minute: int)
    ensures (t, minute) in SessionMinutes(sessions, q)
            <==> && t in sessions && (t, sessions[t].charger) in SessionRows(sessions, q)
                 && exists s :: s in sessions[t].samples && DrawsAt(s, q, minute)
    ensures (t, minute) in SessionMinutes(sessions, q) ==>
              var (draw, samples) := (SessionMinutes(sessions, q)[(t, minute)], sessions[t].samples);
              && draw.txns == {t}
              && (forall s | s in samples && DrawsAt(s, q, minute) :: s.power <= draw.power)
              && exists s :: s in samples && DrawsAt(s, q, minute) && s.power == draw.power
  {
    hide PowerAt, SessionFigures, Matches;
    if t in sessions {
      var samples := sessions[t].samples;
      PowerAtIsMax(samples, q, minute);
      if s :| s in samples && DrawsAt(s, q, minute) {
        var i :| 0 <= i < |samples| && samples[i] == s;
        assert InWindow(samples[i], q);
        assert minute in MinutesOf(sessions[t], q);
      }
      if minute in MinutesOf(sessions[t], q) {
        var i :| 0 <= i < |samples| && InWindow(samples[i], q) && Minute(samples[i].time.value) == minute;
        assert samples[i] in samples && DrawsAt(samples[i], q, minute);
      }
    }
  }

  /** The fleet's power in a minute is the sum over the sessions that draw power in it. */
  lemma FleetMinuteHolds(draws: map<(int, int), Draw>, minute: int)
    ensures minute in FleetMinutes(draws) <==> exists t :: (t, minute) in draws
    ensures minute in FleetMinutes(draws) ==> FleetMinutes(draws)[minute].power == SumOf(At(draws, minute))
    ensures forall t :: t in At(draws, minute) <==> (t, minute) in draws
    ensures forall t | t in At(draws, minute) :: At(draws, minute)[t] == draws[(t, minute)].power
  {
    hide Fold, SumOf;
    if t :| (t, minute) in draws {
      MinuteIsListed(draws, (t, minute));
    }
    if minute in FleetMinutes(draws) {
      var key :| key in draws && MinuteOf(key) == minute;
      assert (key.0, minute) in draws;
      var fiber := Fiber(draws, MinuteOf, minute);
      FoldedPowers(fiber, minute);
      assert At(fiber, minute) == At(draws, minute);
    }
  }

  /** The fleet's powers in the minutes of a stretch of time. */
  ghost function PowersWithin(draws: map<(int, int), Draw>, start: int, minutes: nat): map<int, nat> {
    map m | m in FleetMinutes(draws) && start <= m < start + minutes :: FleetMinutes(draws)[m].power
  }

  /** A bucket adds the powers of the minutes in it, counts them, and has the greatest for peak. */
  ghost predicate IsBucketOf<K>(b: Bucket, powers: map<K, nat>) {
    && b.samples == |powers|
    && b.powerSum == SumOf(powers)
    && (forall m | m in powers :: powers[m] <= b.maxPower)
    && (b.maxPower == 0 || exists m :: m in powers && powers[m] == b.maxPower)
  }

  /** There is a row for every hour with a minute of charging; of its sixty minutes it has those with any
      charging. */
  lemma HourRowHolds(draws: map<(int, int), Draw>, hour: int)
    ensures hour in Hours(draws) <==> PowersWithin(draws, 60 * hour, 60) != map[]
    ensures hour in Hours(draws) ==> IsBucketOf(Hours(draws)[hour], PowersWithin(draws, 60 * hour, 60))
  {
    hide Fold, FleetMinutes, IsBucketOf;
    var (powers, minutes) := (PowersWithin(draws, 60 * hour, 60), Fiber(MinuteRows(draws), HourOfMinute, hour));
    assert PowerSums(minutes) == powers;
    FoldedBucket(minutes);
    if powers != map[] {
      var m :| m in powers;
      assert m in MinuteRows(draws) && HourOfMinute(m) == hour;
    }
    if m :| m in MinuteRows(draws) && HourOfMinute(m) == hour {
      assert m in powers;
    }
  }

  lemma DayRowHolds(draws: map<(int, int), Draw>, day: int)
    ensures day in Days(draws) <==> PowersWithin(draws, 1440 * day, 1440) != map[]
    ensures day in Days(draws) ==> IsBucketOf(Days(draws)[day], PowersWithin(draws, 1440 * day, 1440))
  {
    hide Fold, FleetMinutes, IsBucketOf;
    var (powers, minutes) := (PowersWithin(draws, 1440 * day, 1440), Fiber(MinuteRows(draws), DayOfMinute, day));
    assert PowerSums(minutes) == powers;
    FoldedBucket(minutes);
    if powers != map[] {
      var m :| m in powers;
      assert m in MinuteRows(draws) && DayOfMinute(m) == day;
    }
    if m :| m in MinuteRows(draws) && DayOfMinute(m) == day {
      assert m in powers;
    }
  }

  lemma FoldedBucket<K>(minutes: map<K, Bucket>)
    requires forall m | m in minutes :: minutes[m].maxPower == minutes[m].powerSum && minutes[m].samples == 1
    ensures IsBucketOf(Fold(minutes, EMPTY, JoinBuckets), PowerSums(minutes))
  {
    hide Fold;
    FoldedSums(minutes);
    FoldedMax(minutes);
    FoldedInstants(minutes);
    assert minutes.Keys == PowerSums(minutes).Keys;
    var b := Fold(minutes, EMPTY, JoinBuckets);
    if b.maxPower > 0 {
      var m :| m in minutes && minutes[m].maxPower == b.maxPower;
      assert m in PowerSums(minutes);
    }
  }
}
