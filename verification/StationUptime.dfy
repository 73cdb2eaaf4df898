/** Uptime of charging stations from their registered and unregistered log events. */
module StationUptime {
  import opened Sorting
  import Sets

  datatype State = Online | Offline | Unknown

  datatype Event = Event(text: string, time: int)

  // ---- The state an event text stands for ----

  /** Lower case, for the letters of the texts looked for. */
  function ToLower(text: string): string {
    seq(|text|, i requires 0 <= i < |text| => LowerChar(text[i]))
  }

  function LowerChar(c: char): char {
    if 'A' <= c <= 'Z' then c + 32 as char
    else if c == '\U{0130}' then 'i'
    else c
  }

  predicate OccursAt(text: string, word: string, i: nat) {
    i + |word| <= |text| && text[i..i + |word|] == word
  }

  predicate Contains(text: string, word: string) {
    exists i | 0 <= i <= |text| :: OccursAt(text, word, i)
  }

  function StateFromText(text: string): State {
    var lower := ToLower(text);
    if Contains(lower, "unregistered") then Offline
    else if Contains(lower, "registered") then Online
    else Unknown
  }

  /** Every text the report query fetches has a known state. */
  lemma FetchedTextIsKnown(text: string)
    requires Contains(text, "registered")
    ensures StateFromText(text) != Unknown
    ensures StateFromText(text).Offline? <==> Contains(ToLower(text), "unregistered")
  {
    var word := "registered";
    var i :| 0 <= i <= |text| && OccursAt(text, word, i);
    var lower := ToLower(text);
    forall k | 0 <= k < |word|
      ensures lower[i + k] == word[k]
    {
      assert text[i + k] == text[i..i + |word|][k];
    }
    assert lower[i..i + |word|] == word;
    assert OccursAt(lower, word, i);
  }

  // ---- What uptime means ----

  predicate InOrder(events: seq<Event>) {
    forall i, j | 0 <= i < j < |events| :: events[i].time <= events[j].time
  }

  /** The state set by the latest event at or before an instant, offline before the first one. */
  function StateAt(events: seq<Event>, t: int): State {
    if events == [] then Offline
    else
      var last := events[|events| - 1];
      if last.time <= t then StateFromText(last.text) else StateAt(events[..|events| - 1], t)
  }

  /** The number of instants of [from, to) at which the station is online. */
  function OnlineIn(events: seq<Event>, from: int, to: int): (n: nat)
    ensures n <= (if from <= to then to - from else 0)
    decreases (to - from)
  {
    if to <= from then 0
    else OnlineIn(events, from, to - 1) + (if StateAt(events, to - 1) == Online then 1 else 0)
  }

  lemma {:induction false} StateBetween(events: seq<Event>, k: nat, t: int)
    requires InOrder(events) && k <= |events|
    requires k > 0 ==> events[k - 1].time <= t
    requires k < |events| ==> t < events[k].time
    ensures StateAt(events, t) == if k == 0 then Offline else StateFromText(events[k - 1].text)
    decreases |events|
  {
    if k < |events| {
      StateBetween(events[..|events| - 1], k, t);
    }
  }

  /** While the state does not change, the time online is all of the time or none of it. */
  lemma {:induction false} SteadyTime(events: seq<Event>, from: int, mid: int, to: int, state: State)
    requires from <= mid <= to
    requires forall t | mid <= t < to :: StateAt(events, t) == state
    ensures OnlineIn(events, from, to) == OnlineIn(events, from, mid) + (if state == Online then to - mid else 0)
    decreases (to - mid)
  {
    if mid < to {
      SteadyTime(events, from, mid, to - 1, state);
    }
  }

  /** Online time adds up over any split of the period, at an event or between events. */
  lemma {:induction false} OnlineTimeComposes(events: seq<Event>, a: int, b: int, c: int)
    requires a <= b <= c
    ensures OnlineIn(events, a, c) == OnlineIn(events, a, b) + OnlineIn(events, b, c)
    decreases c - b
  {
    if b < c {
      OnlineTimeComposes(events, a, b, c - 1);
    }
  }

  // ---- The one-pass sweep ----

  datatype Uptime = Uptime(online: int, offline: int, percent: real, final: State)

  /** When the period is not empty the result is what uptime means; a period that ends before it
      begins is counted backwards, in the single state it finds. */
  ghost predicate IsUptime(u: Uptime, events: seq<Event>, from: int, to: int) {
    && u.online + u.offline == to - from
    && (if from <= to
        then u.online == OnlineIn(events, from, to) && u.final == StateAt(events, to)
        else u.final == StateAt(events, from - 1) && u.online == (if u.final == Online then to - from else 0))
    && u.percent == (if from < to then u.online as real / (to - from) as real * 100.0 else 0.0)
  }

  /** A period that ends before it begins, as one does that ends before there is any data, has times
      that are negative; no other has. */
  lemma OnlyBackwardsIsNegative(u: Uptime, events: seq<Event>, from: int, to: int)
    requires IsUptime(u, events, from, to)
    ensures 0 <= u.online && 0 <= u.offline <==> from <= to
  {
  }

  /** One pass over the events of a station. */
  method Sweep(events: seq<Event>, from: int, to: int) returns (u: Uptime)
    requires InOrder(events)
    ensures IsUptime(u, events, from, to)
    ensures 0.0 <= u.percent <= 100.0
  {
    var state, lastTime, online, offline := Offline, from, 0, 0;
    var i := 0;
    while i < |events|
      invariant i <= |events|
      invariant state == if i == 0 then Offline else StateFromText(events[i - 1].text)
      invariant online + offline == lastTime - from
      invariant i == 0 || events[i - 1].time < from ==> lastTime == from && online == 0
      invariant i > 0 && events[i - 1].time >= from ==> lastTime == events[i - 1].time && lastTime <= to
      invariant from <= to ==> from <= lastTime && online == OnlineIn(events, from, lastTime)
      invariant to < from ==> lastTime == from && online == 0
    {
      var e := events[i];
      if e.time < from {
        state := StateFromText(e.text);
        i := i + 1;
        continue;
      }
      if e.time > to {
        break;
      }
      SteadyUntil(events, i, from, lastTime, e.time);
      var duration := e.time - lastTime;
      if state == Online {
        online := online + duration;
      } else {
        offline := offline + duration;
      }
      state := StateFromText(e.text);
      lastTime := e.time;
      i := i + 1;
    }
    var tail := to - lastTime;
    if from <= to {
      SteadyUntil(events, i, from, lastTime, to);
      StateBetween(events, i, to);
    } else {
      StateBetween(events, i, from - 1);
    }
    if state == Online {
      online := online + tail;
    } else {
      offline := offline + tail;
    }
    var percent := 0.0;
    var total := online + offline;
    if total > 0 {
      percent := online as real / total as real * 100.0;
      PercentInRange(online, total);
    }
    return Uptime(online, offline, percent, state);
  }

  /** Uptimes compose: those of two periods that meet, at an event or between events, add up to that of
      the whole, which ends in the state the second ends in. */
  lemma UptimesCompose(events: seq<Event>, a: int, b: int, c: int, first: Uptime, second: Uptime, whole: Uptime)
    requires a <= b <= c
    requires IsUptime(first, events, a, b) && IsUptime(second, events, b, c) && IsUptime(whole, events, a, c)
    ensures whole.online == first.online + second.online
    ensures whole.offline == first.offline + second.offline
    ensures whole.final == second.final
    ensures whole.percent * (c - a) as real == first.percent * (b - a) as real + second.percent * (c - b) as real
  {
    OnlineTimeComposes(events, a, b, c);
    PercentOfPart(first, events, a, b);
    PercentOfPart(second, events, b, c);
    PercentOfPart(whole, events, a, c);
  }

  lemma PercentOfPart(u: Uptime, events: seq<Event>, from: int, to: int)
    requires from <= to && IsUptime(u, events, from, to)
    ensures u.percent * (to - from) as real == 100.0 * u.online as real
  {
  }

  lemma SteadyUntil(events: seq<Event>, i: nat, from: int, lastTime: int, until: int)
    requires InOrder(events) && i <= |events| && from <= lastTime <= until
    requires i > 0 ==> events[i - 1].time <= lastTime
    requires i < |events| ==> until <= events[i].time
    ensures OnlineIn(events, from, until)
            == OnlineIn(events, from, lastTime)
               + (if i > 0 && StateFromText(events[i - 1].text) == Online then until - lastTime else 0)
  {
    var state := if i == 0 then Offline else StateFromText(events[i - 1].text);
    forall t | lastTime <= t < until
      ensures StateAt(events, t) == state
    {
      StateBetween(events, i, t);
    }
    SteadyTime(events, from, lastTime, until, state);
  }

  lemma PercentInRange(part: int, whole: int)
    requires 0 <= part <= whole && whole > 0
    ensures 0.0 <= part as real / whole as real * 100.0 <= 100.0
  {
    assert 0.0 <= part as real / whole as real <= 1.0;
  }

  // ---- The reports ----

  datatype LogRow = LogRow(station: string, text: string, time: int)

  predicate IsFetched(row: LogRow, enabled: set<string>) {
    row.station in enabled && Contains(row.text, "registered")
  }

  function EventsOf(rows: seq<LogRow>, enabled: set<string>, station: string): seq<Event> {
    if rows == [] then []
    else
      var last := rows[|rows| - 1];
      EventsOf(rows[..|rows| - 1], enabled, station)
      + (if last.station == station && IsFetched(last, enabled) then [Event(last.text, last.time)] else [])
  }

  predicate RowsInOrder(rows: seq<LogRow>) {
    forall i, j | 0 <= i < j < |rows| :: rows[i].time <= rows[j].time
  }

  /** The first instant there is any data for. */
  function Earliest(rows: seq<LogRow>, enabled: set<string>): int {
    if rows == [] then 0
    else if IsFetched(rows[0], enabled) then rows[0].time
    else Earliest(rows[1..], enabled)
  }

  lemma {:induction false} EventsInOrder(rows: seq<LogRow>, enabled: set<string>, station: string)
    requires RowsInOrder(rows)
    ensures InOrder(EventsOf(rows, enabled, station))
    ensures forall e | e in EventsOf(rows, enabled, station) :: e.time <= rows[|rows| - 1].time
    ensures forall e | e in EventsOf(rows, enabled, station) :: StateFromText(e.text) != Unknown
  {
    if rows != [] {
      var last := rows[|rows| - 1];
      var before := EventsOf(rows[..|rows| - 1], enabled, station);
      EventsInOrder(rows[..|rows| - 1], enabled, station);
      if IsFetched(last, enabled) {
        FetchedTextIsKnown(last.text);
      }
      forall i | 0 <= i < |before|
        ensures before[i].time <= last.time
      {
        assert before[i] in before;
      }
    }
  }

  datatype StationRow = StationRow(station: string, uptime: Uptime)

  predicate RowLeq(a: StationRow, b: StationRow) {
    StringLeq(a.station, b.station)
  }

  lemma RowLeqOrders()
    ensures TotalOrder(RowLeq)
  {
    forall x, y, z
      ensures RowLeq(x, y) || RowLeq(y, x)
      ensures RowLeq(x, y) && RowLeq(y, z) ==> RowLeq(x, z)
    {
      StringLeqTotal(x.station, y.station);
      if RowLeq(x, y) && RowLeq(y, z) {
        StringLeqTransitive(x.station, y.station, z.station);
      }
    }
  }

  /** The fetched events of each station that has any. */
  method GroupByStation(rows: seq<LogRow>, enabled: set<string>) returns (byStation: map<string, seq<Event>>)
    ensures forall station :: station in byStation <==> EventsOf(rows, enabled, station) != []
    ensures forall station | station in byStation :: byStation[station] == EventsOf(rows, enabled, station)
  {
    hide IsFetched;
    byStation := map[];
    for i := 0 to |rows|
      invariant forall station :: station in byStation <==> EventsOf(rows[..i], enabled, station) != []
      invariant forall station | station in byStation :: byStation[station] == EventsOf(rows[..i], enabled, station)
    {
      var row := rows[i];
      assert rows[..i + 1][..i] == rows[..i];
      if IsFetched(row, enabled) {
        var known := if row.station in byStation then byStation[row.station] else [];
        byStation := byStation[row.station := known + [Event(row.text, row.time)]];
      }
    }
    assert rows[..|rows|] == rows;
  }

  ghost predicate RowsAreUptimes(report: seq<StationRow>, byStation: map<string, seq<Event>>, from: int, to: int) {
    forall r | r in report :: r.station in byStation && IsUptime(r.uptime, byStation[r.station], from, to)
  }

  predicate HasRow(report: seq<StationRow>, station: string) {
    exists i | 0 <= i < |report| :: report[i].station == station
  }

  lemma AppendRow(report: seq<StationRow>, row: StationRow, station: string)
    ensures HasRow(report + [row], station) <==> HasRow(report, station) || row.station == station
  {
    if i :| 0 <= i < |report| && report[i].station == station {
      assert (report + [row])[i].station == station;
    }
    assert (report + [row])[|report|] == row;
  }

  predicate DistinctStations(report: seq<StationRow>) {
    forall i, j | 0 <= i < j < |report| :: report[i].station != report[j].station
  }

  method SweepAll(byStation: map<string, seq<Event>>, from: int, to: int) returns (results: seq<StationRow>)
    requires forall station | station in byStation :: InOrder(byStation[station])
    ensures DistinctStations(results)
    ensures forall station :: HasRow(results, station) <==> station in byStation
    ensures RowsAreUptimes(results, byStation, from, to)
  {
    hide IsUptime, InOrder;
    results := [];
    var todo := byStation.Keys;
    while todo != {}
      invariant todo <= byStation.Keys
      invariant DistinctStations(results)
      invariant forall station :: HasRow(results, station) <==> station in byStation && station !in todo
      invariant RowsAreUptimes(results, byStation, from, to)
      decreases |todo|
    {
      var station := Sets.Pick(todo);
      todo := todo - {station};
      var uptime := Sweep(byStation[station], from, to);
      assert !HasRow(results, station);
      forall other {
        AppendRow(results, StationRow(station, uptime), other);
      }
      results := results + [StationRow(station, uptime)];
    }
  }

  /** Exactly one row for each enabled station with events, in the order of the station ids, each
      over the period cut to where the data begins. */
  method UptimeReport(rows: seq<LogRow>, enabled: set<string>, from: int, to: int) returns (report: seq<StationRow>)
    requires RowsInOrder(rows)
    ensures DistinctStations(report) && Sorted(report, RowLeq)
    ensures forall station :: HasRow(report, station) <==> EventsOf(rows, enabled, station) != []
    ensures var earliest := Earliest(rows, enabled);
            var start := if from < earliest then earliest else from;
            forall r | r in report :: IsUptime(r.uptime, EventsOf(rows, enabled, r.station), start, to)
    ensures forall r | r in report :: r.uptime.final != Unknown
  {
    hide InOrder, EventsOf, Earliest, Sort, IsUptime;
    var byStation := GroupByStation(rows, enabled);
    forall station | station in byStation
      ensures InOrder(byStation[station])
    {
      EventsInOrder(rows, enabled, station);
    }
    var earliest := Earliest(rows, enabled);
    var start := if from < earliest then earliest else from;
    var results := SweepAll(byStation, start, to);
    RowLeqOrders();
    SortSorts(results, RowLeq);
    report := Sort(results, RowLeq);
    RearrangedKeys(results, report, (r: StationRow) => r.station);
    SameStations(results, report);
    forall r | r in report
      ensures r.uptime.final != Unknown
    {
      EventsInOrder(rows, enabled, r.station);
      FinalStateIsKnown(r.uptime, EventsOf(rows, enabled, r.station), start, to);
    }
  }

  lemma {:induction false} StateIsKnown(events: seq<Event>, t: int)
    requires forall e | e in events :: StateFromText(e.text) != Unknown
    ensures StateAt(events, t) != Unknown
  {
    if events != [] {
      assert events[|events| - 1] in events;
      StateIsKnown(events[..|events| - 1], t);
    }
  }

  lemma FinalStateIsKnown(u: Uptime, events: seq<Event>, from: int, to: int)
    requires IsUptime(u, events, from, to)
    requires forall e | e in events :: StateFromText(e.text) != Unknown
    ensures u.final != Unknown
  {
    StateIsKnown(events, to);
    StateIsKnown(events, from - 1);
  }

  lemma SameStations(a: seq<StationRow>, b: seq<StationRow>)
    requires forall r :: r in a <==> r in b
    ensures forall station :: HasRow(a, station) <==> HasRow(b, station)
  {
    forall station
      ensures HasRow(a, station) <==> HasRow(b, station)
    {
      if i :| 0 <= i < |a| && a[i].station == station { assert a[i] in b; }
      if i :| 0 <= i < |b| && b[i].station == station { assert b[i] in a; }
    }
  }

  // ---- The status report ----

  datatype Doc = Doc(station: string, event: Event)

  datatype StatusRow = StatusRow(station: string, state: State, since: int, duration: int, lastText: string)

  /** The event the status report takes: one with the greatest time. */
  predicate IsLatest(events: seq<Event>, e: Event) {
    e in events && forall other | other in events :: other.time <= e.time
  }

  /** For each station with events a latest one, in the order of the stations. */
  ghost predicate IsLatestPerStation(docs: seq<Doc>, rows: seq<LogRow>, enabled: set<string>) {
    && (forall i, j | 0 <= i < j < |docs| ::
          docs[i].station != docs[j].station && StringLeq(docs[i].station, docs[j].station))
    && (forall station :: HasDoc(docs, station) <==> EventsOf(rows, enabled, station) != [])
    && (forall d | d in docs :: IsLatest(EventsOf(rows, enabled, d.station), d.event))
  }

  predicate HasDoc(docs: seq<Doc>, station: string) {
    exists i | 0 <= i < |docs| :: docs[i].station == station
  }

  predicate DocLeq(a: Doc, b: Doc) {
    StringLeq(a.station, b.station)
  }

  lemma DocLeqOrders()
    ensures TotalOrder(DocLeq)
  {
    forall x, y, z
      ensures DocLeq(x, y) || DocLeq(y, x)
      ensures DocLeq(x, y) && DocLeq(y, z) ==> DocLeq(x, z)
    {
      StringLeqTotal(x.station, y.station);
      if DocLeq(x, y) && DocLeq(y, z) {
        StringLeqTransitive(x.station, y.station, z.station);
      }
    }
  }

  /** The map holds the last event of every station that has one. */
  ghost predicate HoldsLast(latest: map<string, Event>, rows: seq<LogRow>, enabled: set<string>) {
    forall station ::
      var events := EventsOf(rows, enabled, station);
      if events == [] then station !in latest
      else station in latest && latest[station] == events[|events| - 1]
  }

  lemma HoldsLastOfMore(latest: map<string, Event>, rows: seq<LogRow>, enabled: set<string>, row: LogRow)
    requires HoldsLast(latest, rows, enabled)
    ensures HoldsLast(
              if IsFetched(row, enabled) then latest[row.station := Event(row.text, row.time)] else latest,
              rows + [row], enabled)
  {
    hide IsFetched;
    assert (rows + [row])[..|rows|] == rows;
  }

  lemma NothingHeld(enabled: set<string>)
    ensures HoldsLast(map[], [], enabled)
  {
  }

  /** The group stage: rows in the order of time leave the latest event of each station. */
  method GroupLatest(rows: seq<LogRow>, enabled: set<string>) returns (latest: map<string, Event>)
    requires RowsInOrder(rows)
    ensures forall station :: station in latest <==> EventsOf(rows, enabled, station) != []
    ensures forall station | station in latest :: IsLatest(EventsOf(rows, enabled, station), latest[station])
  {
    hide IsFetched, IsLatest, EventsOf, RowsInOrder;
    latest := map[];
    NothingHeld(enabled);
    for i := 0 to |rows|
      invariant HoldsLast(latest, rows[..i], enabled)
    {
      hide HoldsLast;
      var row := rows[i];
      assert rows[..i + 1] == rows[..i] + [row];
      HoldsLastOfMore(latest, rows[..i], enabled, row);
      if IsFetched(row, enabled) {
        latest := latest[row.station := Event(row.text, row.time)];
      }
    }
    assert rows[..|rows|] == rows;
    forall station | station in latest
      ensures IsLatest(EventsOf(rows, enabled, station), latest[station])
    {
      EventsInOrder(rows, enabled, station);
      LastIsLatest(EventsOf(rows, enabled, station));
    }
  }

  lemma LastIsLatest(events: seq<Event>)
    requires InOrder(events) && events != []
    ensures IsLatest(events, events[|events| - 1])
  {
  }

  /** The sort stage after it. */
  method LatestPerStation(rows: seq<LogRow>, enabled: set<string>) returns (docs: seq<Doc>)
    requires RowsInOrder(rows)
    ensures IsLatestPerStation(docs, rows, enabled)
  {
    hide EventsOf, IsLatest, RowsInOrder, Sort, StringLeq;
    var latest := GroupLatest(rows, enabled);
    docs := [];
    var todo := latest.Keys;
    while todo != {}
      invariant todo <= latest.Keys
      invariant forall d | d in docs :: d.station in latest && d.station !in todo && d.event == latest[d.station]
      invariant forall station | station in latest && station !in todo :: Doc(station, latest[station]) in docs
      invariant DistinctKeys(docs, (d: Doc) => d.station)
      decreases |todo|
    {
      var station := Sets.Pick(todo);
      todo := todo - {station};
      docs := docs + [Doc(station, latest[station])];
    }
    DocLeqOrders();
    SortSorts(docs, DocLeq);
    ghost var unsorted := docs;
    docs := Sort(docs, DocLeq);
    RearrangedKeys(unsorted, docs, (d: Doc) => d.station);
    SortedDocs(docs, latest, rows, enabled);
  }

  lemma SortedDocs(docs: seq<Doc>, latest: map<string, Event>, rows: seq<LogRow>, enabled: set<string>)
    requires Sorted(docs, DocLeq) && DistinctKeys(docs, (d: Doc) => d.station)
    requires forall d | d in docs :: d.station in latest && d.event == latest[d.station]
    requires forall station | station in latest :: Doc(station, latest[station]) in docs
    requires forall station :: station in latest <==> EventsOf(rows, enabled, station) != []
    requires forall station | station in latest :: IsLatest(EventsOf(rows, enabled, station), latest[station])
    ensures IsLatestPerStation(docs, rows, enabled)
  {
    hide EventsOf, IsLatest, StringLeq;
    var key := (d: Doc) => d.station;
    forall i, j | 0 <= i < j < |docs|
      ensures docs[i].station != docs[j].station && StringLeq(docs[i].station, docs[j].station)
    {
      assert key(docs[i]) != key(docs[j]) && DocLeq(docs[i], docs[j]);
    }
    forall station
      ensures HasDoc(docs, station) <==> station in latest
    {
      if i :| 0 <= i < |docs| && docs[i].station == station {
        assert docs[i] in docs;
      }
      if station in latest {
        var i :| 0 <= i < |docs| && docs[i] == Doc(station, latest[station]);
        assert docs[i].station == station;
      }
    }
  }

  function StatusOf(station: string, e: Event, now: int): StatusRow {
    StatusRow(station, StateFromText(e.text), e.time, now - e.time, e.text)
  }

  /** One row for each enabled station with events, sorted by station, from a latest of its events. */
  method StationStatus(rows: seq<LogRow>, enabled: set<string>, now: int) returns (results: seq<StatusRow>)
    requires RowsInOrder(rows)
    ensures IsStatusReport(results, rows, enabled, now)
  {
    hide StateFromText, RowsInOrder, IsLatestPerStation, IsStatusReport;
    var docs := LatestPerStation(rows, enabled);
    results := [];
    for i := 0 to |docs|
      invariant |results| == i
      invariant forall k | 0 <= k < i :: results[k] == StatusOf(docs[k].station, docs[k].event, now)
    {
      var e := docs[i].event;
      results := results + [StatusRow(docs[i].station, StateFromText(e.text), e.time, now - e.time, e.text)];
    }
    RowPerDoc(results, docs, rows, enabled, now);
  }

  lemma RowPerDoc(results: seq<StatusRow>, docs: seq<Doc>, rows: seq<LogRow>, enabled: set<string>, now: int)
    requires IsLatestPerStation(docs, rows, enabled)
    requires |results| == |docs|
    requires forall k | 0 <= k < |docs| :: results[k] == StatusOf(docs[k].station, docs[k].event, now)
    ensures IsStatusReport(results, rows, enabled, now)
  {
    hide StateFromText, IsLatest, EventsOf, StringLeq;
    forall station
      ensures HasStatus(results, station) <==> HasDoc(docs, station)
    {
      if i :| 0 <= i < |docs| && docs[i].station == station {
        assert results[i].station == station;
      }
      if i :| 0 <= i < |results| && results[i].station == station {
        assert docs[i].station == station;
      }
    }
    forall i | 0 <= i < |results|
      ensures FromLatest(results[i], EventsOf(rows, enabled, results[i].station), now)
    {
      assert docs[i] in docs;
    }
  }

  predicate HasStatus(results: seq<StatusRow>, station: string) {
    exists i | 0 <= i < |results| :: results[i].station == station
  }

  ghost predicate FromLatest(r: StatusRow, events: seq<Event>, now: int) {
    exists e :: IsLatest(events, e) && r == StatusRow(r.station, StateFromText(e.text), e.time, now - e.time, e.text)
  }

  ghost predicate IsStatusReport(results: seq<StatusRow>, rows: seq<LogRow>, enabled: set<string>, now: int) {
    && (forall i, j | 0 <= i < j < |results| ::
          results[i].station != results[j].station && StringLeq(results[i].station, results[j].station))
    && (forall station :: HasStatus(results, station) <==> EventsOf(rows, enabled, station) != [])
    && (forall i | 0 <= i < |results| :: FromLatest(results[i], EventsOf(rows, enabled, results[i].station), now))
  }

  /** With distinct times and a period that reaches past the last event, the final state of the
      uptime report is the state of the status report. */
  lemma FinalStateIsStatus(events: seq<Event>, e: Event, to: int)
    requires InOrder(events) && IsLatest(events, e) && e.time <= to
    requires forall i, j | 0 <= i < j < |events| :: events[i].time != events[j].time
    ensures StateAt(events, to) == StateFromText(e.text)
  {
    var last := events[|events| - 1];
    assert last in events;
    var i :| 0 <= i < |events| && events[i] == e;
    StateBetween(events, |events|, to);
  }

  ghost predicate DistinctTimes(events: seq<Event>) {
    forall i, j | 0 <= i < j < |events| :: events[i].time != events[j].time
  }

  /** Row by row: where a station's times are distinct and the report reaches past them, its uptime
      ends in the state the status report shows, whatever the period; and each station of one report
      is in the other. */
  lemma ReportsAgree(
      report: seq<StationRow>, results: seq<StatusRow>, rows: seq<LogRow>, enabled: set<string>,
      from: int, to: int, now: int, u: StationRow, r: StatusRow)
    requires RowsInOrder(rows) && IsStatusReport(results, rows, enabled, now) && r in results
    requires forall station :: HasRow(report, station) <==> EventsOf(rows, enabled, station) != []
    requires u in report && u.station == r.station
    requires var earliest := Earliest(rows, enabled);
             IsUptime(u.uptime, EventsOf(rows, enabled, u.station), if from < earliest then earliest else from, to)
    requires DistinctTimes(EventsOf(rows, enabled, u.station))
    requires forall e | e in EventsOf(rows, enabled, u.station) :: e.time <= to
    ensures u.uptime.final == r.state != Unknown
    ensures forall station :: HasRow(report, station) <==> HasStatus(results, station)
  {
    hide EventsOf, Earliest, StateAt, OnlineIn, StateFromText;
    var events := EventsOf(rows, enabled, u.station);
    EventsInOrder(rows, enabled, u.station);
    var i :| 0 <= i < |results| && results[i] == r;
    var e :| IsLatest(events, e) && r == StatusRow(r.station, StateFromText(e.text), e.time, now - e.time, e.text);
    EarliestIsFirst(rows, enabled, u.station);
    FinalStateIsStatus(events, e, to);
    if to < from && Earliest(rows, enabled) <= from {
      FinalStateIsStatus(events, e, from - 1);
    }
  }

  lemma {:induction false} EarliestIsFirst(rows: seq<LogRow>, enabled: set<string>, station: string)
    requires RowsInOrder(rows)
    ensures forall e | e in EventsOf(rows, enabled, station) :: Earliest(rows, enabled) <= e.time
  {
    hide Contains;
    forall e | e in EventsOf(rows, enabled, station)
      ensures Earliest(rows, enabled) <= e.time
    {
      var i := RowOf(rows, enabled, station, e);
      EarliestBefore(rows, enabled, i);
    }
  }

  lemma {:induction false} RowOf(rows: seq<LogRow>, enabled: set<string>, station: string, e: Event) returns (i: nat)
    requires e in EventsOf(rows, enabled, station)
    ensures i < |rows| && IsFetched(rows[i], enabled) && rows[i].time == e.time
  {
    var n := |rows| - 1;
    if e in EventsOf(rows[..n], enabled, station) {
      i := RowOf(rows[..n], enabled, station, e);
    } else {
      i := n;
    }
  }

  lemma {:induction false} EarliestBefore(rows: seq<LogRow>, enabled: set<string>, i: nat)
    requires RowsInOrder(rows) && i < |rows| && IsFetched(rows[i], enabled)
    ensures Earliest(rows, enabled) <= rows[i].time
  {
    if !IsFetched(rows[0], enabled) {
      EarliestBefore(rows[1..], enabled, i - 1);
    }
  }

  // ---- Texts, events and states in plain terms ----

  lemma ContainsPart(text: string, word: string)
    ensures Contains(text, word) <==> exists before, after :: text == before + word + after
  {
    if i :| 0 <= i <= |text| && OccursAt(text, word, i) {
      assert text == text[..i] + word + text[i + |word|..];
    }
    if before, after :| text == before + word + after {
      assert text[|before|..|before| + |word|] == word;
      assert OccursAt(text, word, |before|);
    }
  }

  /** A small letter, the capital one, or the capital I with a dot, whose small one is i. */
  predicate IsLetter(c: char, letter: char) {
    c == letter || c as int == letter as int - 32 || (letter == 'i' && c == '\U{0130}')
  }

  predicate Reads(text: string, word: string, i: nat) {
    i + |word| <= |text| && forall k | 0 <= k < |word| :: IsLetter(text[i + k], word[k])
  }

  lemma ReadsInAnyCase(text: string, word: string)
    requires forall k | 0 <= k < |word| :: 'a' <= word[k] <= 'z'
    ensures Contains(ToLower(text), word) <==> exists i: nat :: Reads(text, word, i)
  {
    var lower := ToLower(text);
    forall i: nat
      ensures OccursAt(lower, word, i) <==> Reads(text, word, i)
    {
      if i + |word| <= |text| {
        var part := lower[i..i + |word|];
        assert forall k | 0 <= k < |word| :: part[k] == LowerChar(text[i + k]);
        assert forall k | 0 <= k < |word| :: LowerChar(text[i + k]) == word[k] <==> IsLetter(text[i + k], word[k]);
      }
    }
    if i: nat :| Reads(text, word, i) {
      assert OccursAt(lower, word, i);
    }
  }

  /** Letters count in any case, and unregistered comes before registered, which it contains. */
  lemma StateByText(text: string)
    ensures StateFromText(text) == Offline <==> exists i: nat :: Reads(text, "unregistered", i)
    ensures StateFromText(text) != Unknown <==> exists i: nat :: Reads(text, "registered", i)
  {
    ReadsInAnyCase(text, "unregistered");
    ReadsInAnyCase(text, "registered");
    hide ToLower, Contains;
    if i: nat :| Reads(text, "unregistered", i) {
      assert forall k | 0 <= k < 10 :: "registered"[k] == "unregistered"[k + 2];
      forall k | 0 <= k < 10
        ensures IsLetter(text[i + 2 + k], "registered"[k])
      {
        assert IsLetter(text[i + (k + 2)], "unregistered"[k + 2]);
      }
      assert Reads(text, "registered", i + 2);
    }
  }

  /** The events of a station are its rows that tell of registering, if it is enabled, in their order. */
  lemma {:induction false} EventsAreRows(rows: seq<LogRow>, enabled: set<string>, station: string)
      returns (at: seq<nat>)
    ensures |at| == |EventsOf(rows, enabled, station)|
    ensures forall j, k | 0 <= j < k < |at| :: at[j] < at[k]
    ensures forall i :: i in at <==> && 0 <= i < |rows| && rows[i].station == station && station in enabled
                                     && Contains(rows[i].text, "registered")
    ensures forall k | 0 <= k < |at| ::
              at[k] < |rows| && EventsOf(rows, enabled, station)[k] == Event(rows[at[k]].text, rows[at[k]].time)
  {
    hide Contains;
    at := [];
    if rows != [] {
      var n := |rows| - 1;
      var before := EventsAreRows(rows[..n], enabled, station);
      var isLast := rows[n].station == station && station in enabled && Contains(rows[n].text, "registered");
      at := before + (if isLast then [n] else []);
      var (earlier, events) := (EventsOf(rows[..n], enabled, station), EventsOf(rows, enabled, station));
      assert events == earlier + (if isLast then [Event(rows[n].text, rows[n].time)] else []);
    }
  }

  /** The instant the data begins is that of some fetched row, and no fetched row is before it. */
  lemma {:induction false} EarliestIsFetched(rows: seq<LogRow>, enabled: set<string>) returns (i: nat)
    requires RowsInOrder(rows) && exists row :: row in rows && IsFetched(row, enabled)
    ensures i < |rows| && rows[i].station in enabled && Contains(rows[i].text, "registered")
    ensures Earliest(rows, enabled) == rows[i].time
    ensures forall row | row in rows && row.station in enabled && Contains(row.text, "registered") ::
              rows[i].time <= row.time
  {
    hide Contains;
    if IsFetched(rows[0], enabled) {
      i := 0;
    } else {
      var rest := rows[1..];
      var row :| row in rows && IsFetched(row, enabled);
      assert rows == [rows[0]] + rest;
      var j := EarliestIsFetched(rest, enabled);
      i := j + 1;
    }
  }

  /** At an instant a station is in the state of the last of its events up to then, offline before any. */
  lemma StateOfLastEvent(events: seq<Event>, t: int, k: nat)
    requires InOrder(events) && k <= |events|
    requires forall i | 0 <= i < |events| :: events[i].time <= t <==> i < k
    ensures StateAt(events, t) == if k == 0 then Offline else StateFromText(events[k - 1].text)
  {
    StateBetween(events, k, t);
  }

  ghost function OnlineInstants(events: seq<Event>, from: int, to: int): set<int> {
    set t | from <= t < to && StateAt(events, t) == Online
  }

  /** Time online is the number of instants at which the station is online. */
  lemma {:induction false} OnlineIsCount(events: seq<Event>, from: int, to: int)
    ensures OnlineIn(events, from, to) == |OnlineInstants(events, from, to)|
    decreases (to - from)
  {
    hide StateAt;
    var online := OnlineInstants(events, from, to);
    if to <= from {
      assert online == {};
    } else {
      OnlineIsCount(events, from, to - 1);
      var before := OnlineInstants(events, from, to - 1);
      assert to - 1 !in before;
      assert online == if StateAt(events, to - 1) == Online then before + {to - 1} else before;
    }
  }
}
