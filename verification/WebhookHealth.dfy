/** The webhook health view: subscribers joined with the delivery counters kept under their names. */
module WebhookHealth {
  import opened Options
  import opened Sorting
  import Sets

  datatype Subscriber = Subscriber(name: string, url: string, isEnabled: bool)

  datatype Counters = Counters(
    pending: int, delivered: int, failed: int, oldestPending: Option<int>, lastDelivered: Option<int>)

  datatype Stats = Stats(subscriber: string, counters: Counters)

  datatype View = View(name: string, url: string, isEnabled: bool, configured: bool, counters: Counters)

  const NOTHING: Counters := Counters(0, 0, 0, None, None)

  function NewView(sub: Subscriber): View {
    View(sub.name, sub.url, sub.isEnabled, true, NOTHING)
  }

  function OrphanView(row: Stats): View {
    View(row.subscriber, "", false, false, row.counters)
  }

  // ---- What the join means ----

  /** The counters stored last under a name. */
  function LastRow(stats: seq<Stats>, name: string): (row: Option<Stats>)
    ensures row.Some? ==> row.value.subscriber == name && row.value in stats
    ensures row.None? <==> forall s | s in stats :: s.subscriber != name
  {
    if stats == [] then None
    else if stats[|stats| - 1].subscriber == name then Some(stats[|stats| - 1])
    else LastRow(stats[..|stats| - 1], name)
  }

  function Names(subscribers: seq<Subscriber>): set<string> {
    set i | 0 <= i < |subscribers| :: subscribers[i].name
  }

  /** A subscriber's view has the counters under its name, unless an earlier one has taken them. */
  function MatchedView(subscribers: seq<Subscriber>, stats: seq<Stats>, i: nat): View
    requires i < |subscribers|
  {
    var sub := subscribers[i];
    var row := LastRow(stats, sub.name);
    if sub.name !in Names(subscribers[..i]) && row.Some? then NewView(sub).(counters := row.value.counters)
    else NewView(sub)
  }

  function Matched(subscribers: seq<Subscriber>, stats: seq<Stats>): (views: seq<View>)
    ensures |views| == |subscribers|
    ensures forall i | 0 <= i < |views| ::
      && views[i].configured
      && views[i].name == subscribers[i].name
      && views[i].url == subscribers[i].url
      && views[i].isEnabled == subscribers[i].isEnabled
  {
    seq(|subscribers|, i requires 0 <= i < |subscribers| => MatchedView(subscribers, stats, i))
  }

  /** The views of the last row of each name that is not among the given ones. */
  function Orphans(stats: seq<Stats>, names: set<string>): seq<View> {
    if stats == [] then []
    else
      var (init, last) := (stats[..|stats| - 1], stats[|stats| - 1]);
      if last.subscriber in names then Orphans(init, names)
      else Orphans(init, names + {last.subscriber}) + [OrphanView(last)]
  }

  ghost predicate IsJoin(views: seq<View>, subscribers: seq<Subscriber>, stats: seq<Stats>) {
    multiset(views) == multiset(Matched(subscribers, stats)) + multiset(Orphans(stats, Names(subscribers)))
  }

  // ---- The loops ----

  predicate ViewLeq(a: View, b: View) {
    StringLeq(a.name, b.name)
  }

  lemma ViewLeqOrders()
    ensures TotalOrder(ViewLeq)
  {
    forall x, y, z
      ensures ViewLeq(x, y) || ViewLeq(y, x)
      ensures ViewLeq(x, y) && ViewLeq(y, z) ==> ViewLeq(x, z)
    {
      StringLeqTotal(x.name, y.name);
      if ViewLeq(x, y) && ViewLeq(y, z) {
        StringLeqTransitive(x.name, y.name, z.name);
      }
    }
  }

  /** The map holds the last row of every name but the given ones. */
  ghost predicate Holds(byName: map<string, Stats>, stats: seq<Stats>, without: set<string>) {
    && (forall n :: n in byName <==> n !in without && LastRow(stats, n).Some?)
    && (forall n | n in byName :: LastRow(stats, n) == Some(byName[n]))
  }

  method GetWebhookHealth(subscribers: seq<Subscriber>, stats: seq<Stats>) returns (views: seq<View>)
    ensures IsJoin(views, subscribers, stats)
    ensures Sorted(views, ViewLeq)
  {
    hide LastRow, Orphans, Matched, MatchedView, Sort, Holds, Names;
    var byName: map<string, Stats> := map[];
    NothingHeld();
    for i := 0 to |stats|
      invariant Holds(byName, stats[..i], {})
    {
      RowHeld(byName, stats, i);
      byName := byName[stats[i].subscriber := stats[i]];
    }
    assert stats[..|stats|] == stats;
    views := [];
    NoNames(subscribers);
    for i := 0 to |subscribers|
      invariant |views| == i && forall j | 0 <= j < i :: views[j] == MatchedView(subscribers, stats, j)
      invariant Holds(byName, stats, Names(subscribers[..i]))
    {
      var sub := subscribers[i];
      NamesOfMore(subscribers, i);
      NameTaken(byName, stats, Names(subscribers[..i]), sub.name);
      ViewMatches(subscribers, stats, i);
      var view := NewView(sub);
      if sub.name in byName {
        view := view.(counters := byName[sub.name].counters);
        byName := byName - {sub.name};
      }
      views := views + [view];
    }
    ViewsMatch(views, subscribers, stats);
    assert subscribers[..|subscribers|] == subscribers;
    ghost var names := Names(subscribers);
    ghost var without := names;
    while byName != map[]
      invariant Holds(byName, stats, without)
      invariant multiset(views) + multiset(Orphans(stats, without))
             == multiset(Matched(subscribers, stats)) + multiset(Orphans(stats, names))
      decreases |byName|
    {
      var n := Sets.Pick(byName.Keys);
      NameTaken(byName, stats, without, n);
      OrphansTake(stats, without, n);
      views := views + [OrphanView(byName[n])];
      byName := byName - {n};
      without := without + {n};
    }
    NothingLeft(stats, without);
    ViewLeqOrders();
    SortSorts(views, ViewLeq);
    views := Sort(views, ViewLeq);
  }

  lemma NothingHeld()
    ensures Holds(map[], [], {})
  {
  }

  lemma NoNames(subscribers: seq<Subscriber>)
    ensures Names(subscribers[..0]) == {}
  {
  }

  lemma RowHeld(byName: map<string, Stats>, stats: seq<Stats>, i: nat)
    requires i < |stats| && Holds(byName, stats[..i], {})
    ensures Holds(byName[stats[i].subscriber := stats[i]], stats[..i + 1], {})
  {
    assert stats[..i + 1][..i] == stats[..i];
  }

  lemma NameTaken(byName: map<string, Stats>, stats: seq<Stats>, without: set<string>, n: string)
    requires Holds(byName, stats, without)
    ensures n in byName <==> n !in without && LastRow(stats, n).Some?
    ensures n in byName ==> LastRow(stats, n) == Some(byName[n])
    ensures Holds(if n in byName then byName - {n} else byName, stats, without + {n})
  {
  }

  lemma NothingLeft(stats: seq<Stats>, without: set<string>)
    requires Holds(map[], stats, without)
    ensures Orphans(stats, without) == []
  {
    NoOrphans(stats, without);
  }

  lemma NamesOfMore(subscribers: seq<Subscriber>, i: nat)
    requires i < |subscribers|
    ensures Names(subscribers[..i + 1]) == Names(subscribers[..i]) + {subscribers[i].name}
  {
    var (more, less) := (subscribers[..i + 1], subscribers[..i]);
    forall j | 0 <= j < |less|
      ensures less[j].name in Names(more)
    {
      assert more[j] == less[j];
    }
    assert more[i] == subscribers[i];
  }

  lemma ViewMatches(subscribers: seq<Subscriber>, stats: seq<Stats>, i: nat)
    requires i < |subscribers|
    ensures var (sub, row) := (subscribers[i], LastRow(stats, subscribers[i].name));
            MatchedView(subscribers, stats, i) ==
            if sub.name !in Names(subscribers[..i]) && row.Some? then NewView(sub).(counters := row.value.counters)
            else NewView(sub)
  {
  }

  lemma ViewsMatch(views: seq<View>, subscribers: seq<Subscriber>, stats: seq<Stats>)
    requires |views| == |subscribers|
    requires forall j | 0 <= j < |views| :: views[j] == MatchedView(subscribers, stats, j)
    ensures views == Matched(subscribers, stats)
  {
  }

  /** Setting one more name aside takes the last row under it, if any, out of the orphans. */
  lemma {:induction false} OrphansTake(stats: seq<Stats>, names: set<string>, n: string)
    requires n !in names
    ensures LastRow(stats, n).None? ==> Orphans(stats, names + {n}) == Orphans(stats, names)
    ensures LastRow(stats, n).Some? ==>
              multiset(Orphans(stats, names))
              == multiset(Orphans(stats, names + {n})) + multiset{OrphanView(LastRow(stats, n).value)}
  {
    if stats != [] {
      var (init, last) := (stats[..|stats| - 1], stats[|stats| - 1]);
      if last.subscriber in names {
        OrphansTake(init, names, n);
      } else if last.subscriber != n {
        OrphansTake(init, names + {last.subscriber}, n);
        assert names + {last.subscriber} + {n} == names + {n} + {last.subscriber};
      }
    }
  }

  lemma {:induction false} NoOrphans(stats: seq<Stats>, names: set<string>)
    requires forall n | n !in names :: LastRow(stats, n).None?
    ensures Orphans(stats, names) == []
  {
    if stats != [] {
      var (init, last) := (stats[..|stats| - 1], stats[|stats| - 1]);
      assert LastRow(stats, last.subscriber).Some?;
      forall n | n !in names
        ensures LastRow(init, n).None?
      {
        assert LastRow(stats, n).None?;
      }
      NoOrphans(init, names);
    }
  }

  // ---- Nothing lost, nothing doubled ----

  function Total(views: seq<View>, f: Counters -> int): int {
    if views == [] then 0 else f(views[0].counters) + Total(views[1..], f)
  }

  function StatsTotal(stats: seq<Stats>, f: Counters -> int): int {
    if stats == [] then 0 else StatsTotal(stats[..|stats| - 1], f) + f(stats[|stats| - 1].counters)
  }

  lemma {:induction false} TotalOfBoth(a: seq<View>, b: seq<View>, f: Counters -> int)
    ensures Total(a + b, f) == Total(a, f) + Total(b, f)
  {
    if a == [] {
      assert a + b == b;
    } else {
      assert (a + b)[1..] == a[1..] + b;
      TotalOfBoth(a[1..], b, f);
    }
  }

  lemma TotalWithout(a: seq<View>, i: nat, f: Counters -> int)
    requires i < |a|
    ensures Total(a, f) == f(a[i].counters) + Total(a[..i] + a[i + 1..], f)
  {
    assert a == a[..i] + a[i..];
    assert a[i..][1..] == a[i + 1..];
    TotalOfBoth(a[..i], a[i..], f);
    TotalOfBoth(a[..i], a[i + 1..], f);
  }

  lemma Without(a: seq<View>, i: nat)
    requires i < |a|
    ensures multiset(a[..i] + a[i + 1..]) == multiset(a) - multiset{a[i]}
  {
    assert a == a[..i] + [a[i]] + a[i + 1..];
  }

  lemma {:induction false} TotalRearranged(a: seq<View>, b: seq<View>, f: Counters -> int)
    requires multiset(a) == multiset(b)
    ensures Total(a, f) == Total(b, f)
    decreases |a|
  {
    if a == [] {
      assert |multiset(b)| == 0;
    } else {
      var rest := Taken(a, b, f);
      TotalRearranged(a[1..], rest, f);
    }
  }

  /** The second list without its element that stands first in the other. */
  lemma Taken(a: seq<View>, b: seq<View>, f: Counters -> int) returns (rest: seq<View>)
    requires a != [] && multiset(a) == multiset(b)
    ensures multiset(rest) == multiset(a[1..])
    ensures Total(b, f) == f(a[0].counters) + Total(rest, f)
  {
    hide Total;
    assert a[0] in multiset(b);
    var i :| 0 <= i < |b| && b[i] == a[0];
    TotalWithout(b, i, f);
    Without(b, i);
    assert a == [a[0]] + a[1..];
    assert multiset(a[1..]) == multiset(a) - multiset{a[0]};
    rest := b[..i] + b[i + 1..];
  }

  /** What the first subscribers have taken and what their names leave over make the whole. */
  lemma {:induction false} TakenAndLeft(subscribers: seq<Subscriber>, stats: seq<Stats>, f: Counters -> int, i: nat)
    requires i <= |subscribers| && f(NOTHING) == 0
    ensures Total(Matched(subscribers, stats)[..i], f) + Total(Orphans(stats, Names(subscribers[..i])), f)
         == Total(Orphans(stats, {}), f)
  {
    hide Orphans, LastRow;
    var all := Matched(subscribers, stats);
    if i == 0 {
      assert Names(subscribers[..0]) == {};
    } else {
      TakenAndLeft(subscribers, stats, f, i - 1);
      NamesOfMore(subscribers, i - 1);
      var (names, n) := (Names(subscribers[..i - 1]), subscribers[i - 1].name);
      assert all[..i] == all[..i - 1] + [all[i - 1]];
      TotalOfBoth(all[..i - 1], [all[i - 1]], f);
      if n in names {
        assert names + {n} == names;
      } else {
        OrphansTake(stats, names, n);
        var row := LastRow(stats, n);
        if row.Some? {
          var rest := Orphans(stats, names + {n});
          TotalRearranged(Orphans(stats, names), rest + [OrphanView(row.value)], f);
          TotalOfBoth(rest, [OrphanView(row.value)], f);
        }
      }
    }
  }

  ghost predicate DistinctNames(stats: seq<Stats>) {
    forall i, j | 0 <= i < j < |stats| :: stats[i].subscriber != stats[j].subscriber
  }

  lemma {:induction false} OrphansAreAll(stats: seq<Stats>, names: set<string>, f: Counters -> int)
    requires DistinctNames(stats) && forall s | s in stats :: s.subscriber !in names
    ensures Total(Orphans(stats, names), f) == StatsTotal(stats, f)
  {
    if stats != [] {
      var (init, last) := (stats[..|stats| - 1], stats[|stats| - 1]);
      OrphansAreAll(init, names + {last.subscriber}, f);
      TotalOfBoth(Orphans(init, names + {last.subscriber}), [OrphanView(last)], f);
    }
  }

  /** Any counter that is nothing when nothing is stored adds up over the views to its sum over the
      last row of each name, whatever the subscribers; with one row per name that is every row. */
  lemma CountersAreConserved(views: seq<View>, subscribers: seq<Subscriber>, stats: seq<Stats>, f: Counters -> int)
    requires IsJoin(views, subscribers, stats) && f(NOTHING) == 0
    ensures Total(views, f) == Total(Orphans(stats, {}), f)
    ensures DistinctNames(stats) ==> Total(views, f) == StatsTotal(stats, f)
  {
    var (matched, orphans) := (Matched(subscribers, stats), Orphans(stats, Names(subscribers)));
    TotalRearranged(views, matched + orphans, f);
    TotalOfBoth(matched, orphans, f);
    TakenAndLeft(subscribers, stats, f, |subscribers|);
    assert matched[..|subscribers|] == matched && subscribers[..|subscribers|] == subscribers;
    if DistinctNames(stats) {
      OrphansAreAll(stats, {}, f);
    }
  }

  /** The sums of pending, delivered and failed deliveries are those of the stored rows. */
  lemma SumsAreConserved(views: seq<View>, subscribers: seq<Subscriber>, stats: seq<Stats>)
    requires IsJoin(views, subscribers, stats) && DistinctNames(stats)
    ensures Total(views, (c: Counters) => c.pending) == StatsTotal(stats, (c: Counters) => c.pending)
    ensures Total(views, (c: Counters) => c.delivered) == StatsTotal(stats, (c: Counters) => c.delivered)
    ensures Total(views, (c: Counters) => c.failed) == StatsTotal(stats, (c: Counters) => c.failed)
  {
    CountersAreConserved(views, subscribers, stats, (c: Counters) => c.pending);
    CountersAreConserved(views, subscribers, stats, (c: Counters) => c.delivered);
    CountersAreConserved(views, subscribers, stats, (c: Counters) => c.failed);
  }

  /** Orphans have a row each, and names that are not set aside. */
  lemma {:induction false} OrphanRows(stats: seq<Stats>, names: set<string>)
    ensures forall v | v in Orphans(stats, names) ::
              v.name !in names && !v.configured && LastRow(stats, v.name).Some?
  {
    if stats != [] {
      var (init, last) := (stats[..|stats| - 1], stats[|stats| - 1]);
      if last.subscriber in names {
        OrphanRows(init, names);
      } else {
        OrphanRows(init, names + {last.subscriber});
      }
    }
  }

  lemma {:induction false} OrphanOfRow(stats: seq<Stats>, names: set<string>, n: string)
    requires n !in names && LastRow(stats, n).Some?
    ensures OrphanView(LastRow(stats, n).value) in Orphans(stats, names)
  {
    var (init, last) := (stats[..|stats| - 1], stats[|stats| - 1]);
    if last.subscriber in names {
      OrphanOfRow(init, names, n);
    } else if last.subscriber != n {
      OrphanOfRow(init, names + {last.subscriber}, n);
    }
  }

  lemma {:induction false} OrphansAreDistinct(stats: seq<Stats>, names: set<string>)
    ensures DistinctKeys(Orphans(stats, names), (v: View) => v.name)
  {
    if stats != [] {
      var (init, last) := (stats[..|stats| - 1], stats[|stats| - 1]);
      if last.subscriber in names {
        OrphansAreDistinct(init, names);
      } else {
        OrphansAreDistinct(init, names + {last.subscriber});
        OrphanRows(init, names + {last.subscriber});
      }
    }
  }

  ghost predicate HasView(views: seq<View>, name: string) {
    exists i :: 0 <= i < |views| && views[i].name == name
  }

  /** A full outer join: every name of a subscriber or of a row has a view and nothing else has; with
      one subscriber per name, each has exactly one. */
  lemma OneViewPerName(views: seq<View>, subscribers: seq<Subscriber>, stats: seq<Stats>)
    requires IsJoin(views, subscribers, stats)
    ensures forall name :: HasView(views, name) <==> name in Names(subscribers) || LastRow(stats, name).Some?
    ensures DistinctKeys(subscribers, (s: Subscriber) => s.name) ==> DistinctKeys(views, (v: View) => v.name)
  {
    hide LastRow, Orphans, MatchedView;
    var (matched, orphans) := (Matched(subscribers, stats), Orphans(stats, Names(subscribers)));
    OrphanRows(stats, Names(subscribers));
    OrphansAreDistinct(stats, Names(subscribers));
    assert forall v :: v in views <==> v in multiset(views);
    assert forall v :: v in views <==> v in matched || v in orphans;
    forall name
      ensures HasView(views, name) <==> name in Names(subscribers) || LastRow(stats, name).Some?
    {
      JoinedName(views, subscribers, stats, name);
    }
    if DistinctKeys(subscribers, (s: Subscriber) => s.name) {
      RearrangedKeys(matched + orphans, views, (v: View) => v.name);
    }
  }

  lemma JoinedName(views: seq<View>, subscribers: seq<Subscriber>, stats: seq<Stats>, name: string)
    requires forall v :: v in views <==> v in Matched(subscribers, stats) || v in Orphans(stats, Names(subscribers))
    ensures HasView(views, name) <==> name in Names(subscribers) || LastRow(stats, name).Some?
  {
    hide LastRow, Orphans, MatchedView;
    var matched := Matched(subscribers, stats);
    OrphanRows(stats, Names(subscribers));
    if i :| 0 <= i < |views| && views[i].name == name {
      assert views[i] in views;
    }
    if name in Names(subscribers) {
      var i :| 0 <= i < |subscribers| && subscribers[i].name == name;
      assert matched[i] in views;
    } else if LastRow(stats, name).Some? {
      OrphanOfRow(stats, Names(subscribers), name);
      assert OrphanView(LastRow(stats, name).value) in views;
    }
  }

  // ---- What a view holds ----

  /** The row stands last under its name. */
  predicate IsLastUnder(stats: seq<Stats>, i: nat, name: string) {
    i < |stats| && stats[i].subscriber == name && forall j | i < j < |stats| :: stats[j].subscriber != name
  }

  lemma {:induction false} LastRowStandsLast(stats: seq<Stats>, name: string, i: nat)
    requires IsLastUnder(stats, i, name)
    ensures LastRow(stats, name) == Some(stats[i])
  {
    var n := |stats| - 1;
    if i < n {
      assert IsLastUnder(stats[..n], i, name);
      LastRowStandsLast(stats[..n], name, i);
    }
  }

  lemma {:induction false} SomeRowStandsLast(stats: seq<Stats>, name: string) returns (i: nat)
    requires exists s :: s in stats && s.subscriber == name
    ensures IsLastUnder(stats, i, name)
  {
    var n := |stats| - 1;
    if stats[n].subscriber == name {
      i := n;
    } else {
      assert stats == stats[..n] + [stats[n]];
      i := SomeRowStandsLast(stats[..n], name);
    }
  }

  predicate HasNoRow(stats: seq<Stats>, name: string) {
    forall k | 0 <= k < |stats| :: stats[k].subscriber != name
  }

  /** The view of a subscriber has its address and state, and the counters of the row that stands last under
      its name; it has none if there is no row, or if a subscriber of the same name came before. */
  ghost predicate IsViewOf(v: View, subscribers: seq<Subscriber>, stats: seq<Stats>, i: nat) {
    i < |subscribers| &&
    var sub := subscribers[i];
    && v.configured && v.name == sub.name && v.url == sub.url && v.isEnabled == sub.isEnabled
    && (if HasNoRow(stats, sub.name) || exists j :: 0 <= j < i && subscribers[j].name == sub.name then
          v.counters == Counters(0, 0, 0, None, None)
        else exists k: nat :: IsLastUnder(stats, k, sub.name) && v.counters == stats[k].counters)
  }

  /** A view without a subscriber has no address, is not enabled, and has the counters of the row that stands
      last under its name. */
  ghost predicate IsOrphanOf(v: View, stats: seq<Stats>) {
    && !v.configured && v.url == "" && !v.isEnabled
    && exists k: nat :: IsLastUnder(stats, k, v.name) && v.counters == stats[k].counters
  }

  /** Each view is that of a subscriber, and each subscriber has one, or it is that of a name that only rows
      have. */
  lemma ViewsHold(views: seq<View>, subscribers: seq<Subscriber>, stats: seq<Stats>)
    requires IsJoin(views, subscribers, stats)
    ensures forall v | v in views && v.configured :: exists i: nat :: IsViewOf(v, subscribers, stats, i)
    ensures forall v | v in views && !v.configured :: IsOrphanOf(v, stats) && v.name !in Names(subscribers)
    ensures forall sub | sub in subscribers :: exists v, i: nat ::
              v in views && IsViewOf(v, subscribers, stats, i) && subscribers[i] == sub
  {
    hide LastRow, Orphans, MatchedView, IsViewOf, IsOrphanOf, Names;
    var (matched, orphans) := (Matched(subscribers, stats), Orphans(stats, Names(subscribers)));
    assert forall v :: v in views <==> v in multiset(views);
    assert forall v :: v in views <==> v in matched || v in orphans;
    forall i | 0 <= i < |subscribers|
      ensures matched[i] in views && IsViewOf(matched[i], subscribers, stats, i)
    {
      MatchedHolds(subscribers, stats, i);
    }
    OrphansHold(stats, Names(subscribers));
    forall v | v in views && v.configured
      ensures exists i: nat :: IsViewOf(v, subscribers, stats, i)
    {
      assert v in matched by { assert v in orphans ==> IsOrphanOf(v, stats); OrphanRows(stats, Names(subscribers)); }
      var i :| 0 <= i < |matched| && matched[i] == v;
      assert IsViewOf(v, subscribers, stats, i);
    }
  }

  lemma MatchedHolds(subscribers: seq<Subscriber>, stats: seq<Stats>, i: nat)
    requires i < |subscribers|
    ensures IsViewOf(MatchedView(subscribers, stats, i), subscribers, stats, i)
  {
    var name := subscribers[i].name;
    var before := subscribers[..i];
    assert name in Names(before) <==> exists j :: 0 <= j < i && subscribers[j].name == name by {
      if name in Names(before) {
        var j :| 0 <= j < |before| && before[j].name == name;
        assert subscribers[j].name == name;
      }
      if j :| 0 <= j < i && subscribers[j].name == name {
        assert before[j].name == name;
      }
    }
    if !HasNoRow(stats, name) {
      var k := SomeRowStandsLast(stats, name);
      LastRowStandsLast(stats, name, k);
    }
    hide LastRow, Names, IsLastUnder;
  }

  lemma {:induction false} OrphansHold(stats: seq<Stats>, names: set<string>)
    ensures forall v | v in Orphans(stats, names) :: IsOrphanOf(v, stats) && v.name !in names
  {
    hide LastRow;
    if stats != [] {
      var (init, last) := (stats[..|stats| - 1], stats[|stats| - 1]);
      var rest := if last.subscriber in names then names else names + {last.subscriber};
      OrphansHold(init, rest);
      forall v | v in Orphans(stats, names)
        ensures IsOrphanOf(v, stats) && v.name !in names
      {
        if v in Orphans(init, rest) {
          var k: nat :| IsLastUnder(init, k, v.name) && v.counters == init[k].counters;
          assert v.name != last.subscriber || last.subscriber in names;
          if v.name != last.subscriber {
            assert IsLastUnder(stats, k, v.name);
          }
        } else {
          assert IsLastUnder(stats, |stats| - 1, v.name);
        }
      }
    }
  }
}
