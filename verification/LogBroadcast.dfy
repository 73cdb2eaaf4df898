/** The broadcast of the system log: a broadcaster polls the log beyond a cursor, page by page, and a
    pool of clients fans each message out. One action is what happens between two operations on the
    channels that connect them; actions of clients, log and broadcaster interleave freely. */
module LogBroadcast {
  import Sets

  datatype Message = Message(timestamp: int, station: string, text: string)

  datatype Subscription = Broadcast | LogEvents | StationEvents

  datatype Response = Connected | LogLine(message: Message) | StationLine(station: string, text: string)

  datatype Client = Client(subscription: Subscription, closed: bool, received: seq<Response>) {
    function Respond(r: Response): Client {
      if closed then this else this.(received := received + [r])
    }

    predicate Listens(kind: Subscription) {
      subscription == kind && !closed
    }
  }

  /** All clients by identity, and those registered. */
  datatype PoolState = PoolState(connections: map<int, Client>, clients: set<int>) {
    predicate Valid() {
      clients <= connections.Keys
    }

    predicate Listens(id: int, kind: Subscription)
      requires Valid()
    {
      id in clients && connections[id].Listens(kind)
    }

    /** Every registered client of the subscription gets the response, nobody else. */
    function FanOut(kind: Subscription, r: Response): PoolState
      requires Valid()
    {
      this.(connections := map id | id in connections ::
        if Listens(id, kind) then connections[id].Respond(r) else connections[id])
    }
  }

  datatype State = State(log: seq<Message>, cursor: int, page: seq<Message>, announced: bool, pool: PoolState)

  // ---- The log and its query ----

  /** In the order of time, in which messages of equal time may follow one another. */
  ghost predicate Ordered(log: seq<Message>) {
    forall i, j | 0 <= i < j < |log| :: log[i].timestamp <= log[j].timestamp
  }

  ghost predicate StrictlyOrdered(log: seq<Message>) {
    forall i, j | 0 <= i < j < |log| :: log[i].timestamp < log[j].timestamp
  }

  /** The messages later than a time. */
  function Newer(log: seq<Message>, t: int): seq<Message> {
    if log == [] then []
    else
      var (init, last) := (log[..|log| - 1], log[|log| - 1]);
      Newer(init, t) + (if last.timestamp > t then [last] else [])
  }

  function FirstOf(messages: seq<Message>, limit: nat): seq<Message> {
    if |messages| <= limit then messages else messages[..limit]
  }

  function ReadLogAfter(log: seq<Message>, t: int, limit: nat): seq<Message> {
    FirstOf(Newer(log, t), limit)
  }

  lemma {:induction false} NewerFrom(log: seq<Message>, t: int, k: nat)
    requires k <= |log|
    requires forall i | 0 <= i < |log| :: log[i].timestamp > t <==> k <= i
    ensures Newer(log, t) == log[k..]
  {
    if log != [] {
      var init := log[..|log| - 1];
      NewerFrom(init, t, if k < |log| then k else k - 1);
      if k < |log| {
        assert log[k..] == init[k..] + [log[|log| - 1]];
      }
    }
  }

  lemma {:induction false} Cut(log: seq<Message>, t: int) returns (k: nat)
    requires Ordered(log)
    ensures k <= |log|
    ensures forall i | 0 <= i < |log| :: log[i].timestamp > t <==> k <= i
  {
    k := |log|;
    if log != [] && log[|log| - 1].timestamp > t {
      var init := log[..|log| - 1];
      k := Cut(init, t);
      assert forall i | 0 <= i < |init| :: log[i] == init[i];
    }
  }

  lemma NewerIsTheEnd(log: seq<Message>, t: int)
    requires Ordered(log)
    ensures |Newer(log, t)| <= |log|
    ensures Newer(log, t) == log[|log| - |Newer(log, t)|..]
    ensures forall i | 0 <= i < |log| :: log[i].timestamp > t <==> |log| - |Newer(log, t)| <= i
  {
    hide Newer;
    var k := Cut(log, t);
    NewerFrom(log, t, k);
  }

  /** A page limit parts two messages of equal time. */
  predicate TornBy(rest: seq<Message>, limit: nat) {
    0 < limit < |rest| && rest[limit - 1].timestamp == rest[limit].timestamp
  }

  /** What is newer than a time is a page of later messages, a gap, and what is newer than the page. */
  ghost predicate IsGap(log: seq<Message>, t: int, page: seq<Message>, gap: seq<Message>) {
    && log != [] && page != [] && Ordered(page)
    && Newer(log, t) == page + gap + Newer(log, page[|page| - 1].timestamp)
    && t < page[|page| - 1].timestamp <= log[|log| - 1].timestamp
    && forall m | m in page :: t < m.timestamp <= page[|page| - 1].timestamp
  }

  lemma PageOfLog(log: seq<Message>, k: nat, limit: nat)
    requires k < |log| && limit > 0
    ensures var page := FirstOf(log[k..], limit);
            && 0 < |page| <= |log| - k && page == log[k..k + |page|]
            && |page| == if |log| - k <= limit then |log| - k else limit
  {
  }

  lemma TornAt(log: seq<Message>, k: nat, limit: nat)
    requires Ordered(log) && k < |log| && limit > 0
    ensures var n := |FirstOf(log[k..], limit)|;
            !TornBy(log[k..], limit) <==> (k + n < |log| ==> log[k + n - 1].timestamp < log[k + n].timestamp)
  {
    var n := |FirstOf(log[k..], limit)|;
    if k + n < |log| {
      assert n == limit && log[k..][n - 1] == log[k + n - 1] && log[k..][n] == log[k + n];
    }
  }

  /** What stands between the n messages from k on and the first message later than the last of them. */
  lemma Between(log: seq<Message>, t: int, k: nat, n: nat, m: nat) returns (gap: seq<Message>)
    requires Ordered(log) && 0 < n && k + n <= |log| && m <= |log|
    requires forall i | 0 <= i < |log| :: log[i].timestamp > t <==> k <= i
    requires forall i | 0 <= i < |log| :: log[i].timestamp > log[k + n - 1].timestamp <==> m <= i
    ensures log[k..] == log[k..k + n] + gap + log[m..]
    ensures gap == [] <==> (k + n < |log| ==> log[k + n - 1].timestamp < log[k + n].timestamp)
    ensures Ordered(log[k..k + n]) && log[k + n - 1].timestamp <= log[|log| - 1].timestamp
    ensures forall i | k <= i < k + n :: t < log[i].timestamp <= log[k + n - 1].timestamp
    ensures forall x | x in log[k..k + n] :: t < x.timestamp <= log[k + n - 1].timestamp
  {
    assert k + n <= m;
    gap := log[k + n..m];
    assert log[k..] == log[k..k + n] + log[k + n..m] + log[m..];
  }

  lemma Gap(log: seq<Message>, t: int, limit: nat) returns (gap: seq<Message>)
    requires Ordered(log) && limit > 0 && Newer(log, t) != []
    ensures IsGap(log, t, ReadLogAfter(log, t, limit), gap)
    ensures gap == [] <==> !TornBy(Newer(log, t), limit)
  {
    hide Newer;
    NewerIsTheEnd(log, t);
    var k := |log| - |Newer(log, t)|;
    PageOfLog(log, k, limit);
    TornAt(log, k, limit);
    var page := ReadLogAfter(log, t, limit);
    var n := |page|;
    assert page == log[k..k + n] && page[n - 1] == log[k + n - 1];
    hide FirstOf, TornBy, ReadLogAfter, Ordered;
    var c := log[k + n - 1].timestamp;
    var m := Cut(log, c);
    NewerFrom(log, c, m);
    gap := Between(log, t, k, n, m);
  }

  /** A page leaves nothing behind if and only if its limit does not part messages of equal time. */
  lemma PageLosesNothing(log: seq<Message>, t: int, limit: nat)
    requires Ordered(log) && limit > 0 && Newer(log, t) != []
    ensures var (rest, page) := (Newer(log, t), ReadLogAfter(log, t, limit));
            rest == page + Newer(log, page[|page| - 1].timestamp)
            <==> |rest| <= limit || rest[limit - 1].timestamp < rest[limit].timestamp
  {
    hide Newer;
    var gap := Gap(log, t, limit);
    var (rest, page) := (Newer(log, t), ReadLogAfter(log, t, limit));
    var left := Newer(log, page[|page| - 1].timestamp);
    if gap == [] {
      assert page + gap + left == page + left;
    } else {
      assert |rest| == |page| + |gap| + |left|;
    }
    NewerIsTheEnd(log, t);
  }

  // ---- Actions ----

  datatype Action =
    | Append(message: Message)
    | Poll(succeeds: bool)
    | SendStation
    | SendLog
    | Register(id: int)
    | Unregister(id: int)
    | Subscribe(id: int, subscription: Subscription)
    | Close(id: int)

  predicate Enabled(s: State, a: Action) {
    match a
    case Append(m) => s.log == [] || s.log[|s.log| - 1].timestamp <= m.timestamp
    case Poll(_) => s.page == []
    case SendStation => s.page != [] && |s.page[0].station| > 1 && !s.announced
    case SendLog => s.page != [] && (|s.page[0].station| > 1 ==> s.announced)
    case _ => true
  }

  function Step(s: State, a: Action, limit: nat): (next: State)
    requires s.pool.Valid() && Enabled(s, a)
    ensures next.pool.Valid()
  {
    match a
    case Append(m) => s.(log := s.log + [m])
    case Poll(succeeds) => if succeeds then Polled(s, limit) else s
    case SendStation =>
      s.(announced := true,
         pool := s.pool.FanOut(StationEvents, StationLine(s.page[0].station, s.page[0].text)))
    case SendLog =>
      s.(announced := false, page := s.page[1..], pool := s.pool.FanOut(LogEvents, LogLine(s.page[0])))
    case Register(id) => s.(pool := Registered(s.pool, id))
    case Unregister(id) => s.(pool := Unregistered(s.pool, id))
    case Subscribe(id, subscription) => s.(pool := Changed(s.pool, id, (c: Client) => c.(subscription := subscription)))
    case Close(id) => s.(pool := Changed(s.pool, id, (c: Client) => c.(closed := true)))
  }

  function Polled(s: State, limit: nat): State {
    var messages := ReadLogAfter(s.log, s.cursor, limit);
    if messages == [] then s
    else s.(cursor := messages[|messages| - 1].timestamp, page := messages)
  }

  /** A new client begins with the events of charge points. */
  function Registered(p: PoolState, id: int): PoolState {
    var client := if id in p.connections then p.connections[id] else Client(StationEvents, false, []);
    PoolState(p.connections[id := client.Respond(Connected)], p.clients + {id})
  }

  /** The channel of a client that was registered is closed. */
  function Unregistered(p: PoolState, id: int): PoolState
    requires p.Valid()
  {
    if id in p.clients then
      PoolState(p.connections[id := p.connections[id].(closed := true)], p.clients - {id})
    else p
  }

  function Changed(p: PoolState, id: int, f: Client -> Client): PoolState {
    if id in p.connections then p.(connections := p.connections[id := f(p.connections[id])]) else p
  }

  predicate Possible(s: State, actions: seq<Action>, limit: nat)
    requires s.pool.Valid()
    decreases |actions|
  {
    actions != [] ==> Enabled(s, actions[0]) && Possible(Step(s, actions[0], limit), actions[1..], limit)
  }

  function Run(s: State, actions: seq<Action>, limit: nat): (end: State)
    requires s.pool.Valid() && Possible(s, actions, limit)
    ensures end.pool.Valid()
    decreases |actions|
  {
    if actions == [] then s else Run(Step(s, actions[0], limit), actions[1..], limit)
  }

  /** What an action, and a run, hands to the pool: messages as log events, and charge points. */
  function HandedBy(s: State, a: Action): seq<Message>
    requires Enabled(s, a)
  {
    if a.SendLog? then [s.page[0]] else []
  }

  function ToldBy(s: State, a: Action): seq<(string, string)>
    requires Enabled(s, a)
  {
    if a.SendStation? then [(s.page[0].station, s.page[0].text)] else []
  }

  function Handed(s: State, actions: seq<Action>, limit: nat): seq<Message>
    requires s.pool.Valid() && Possible(s, actions, limit)
    decreases |actions|
  {
    if actions == [] then []
    else HandedBy(s, actions[0]) + Handed(Step(s, actions[0], limit), actions[1..], limit)
  }

  // ---- In order, without repetition, and when without loss ----

  ghost predicate Begins(s: State) {
    Ordered(s.log) && s.page == [] && !s.announced && s.pool.Valid()
  }

  /** What has been read from the log is in its order, and is not what is newer than the cursor. */
  ghost predicate Sound(s: State, start: int, read: seq<Message>) {
    && Ordered(s.log) && Ordered(read)
    && start <= s.cursor && (start < s.cursor ==> s.log != [] && s.cursor <= s.log[|s.log| - 1].timestamp)
    && (forall m | m in read :: m.timestamp <= s.cursor)
    && multiset(read) + multiset(Newer(s.log, s.cursor)) <= multiset(Newer(s.log, start))
  }

  /** What has been read and what is newer than the cursor are all there is. */
  ghost predicate NothingLost(s: State, start: int, read: seq<Message>) {
    Newer(s.log, start) == read + Newer(s.log, s.cursor)
  }

  /** How many messages are neither read nor newer than the cursor. */
  function Lost(s: State, start: int, read: seq<Message>): int {
    |Newer(s.log, start)| - |read| - |Newer(s.log, s.cursor)|
  }

  /** A message is appended at the time the cursor has been moved to, or a page parts messages of
      equal time. */
  predicate Tears(s: State, a: Action, limit: nat, start: int) {
    match a
    case Append(m) => start < s.cursor == m.timestamp
    case Poll(succeeds) => succeeds && TornBy(Newer(s.log, s.cursor), limit)
    case _ => false
  }

  predicate NeverTears(s: State, actions: seq<Action>, limit: nat, start: int)
    requires s.pool.Valid() && Possible(s, actions, limit)
    decreases |actions|
  {
    actions != [] ==>
      !Tears(s, actions[0], limit, start) && NeverTears(Step(s, actions[0], limit), actions[1..], limit, start)
  }

  /** What an action makes of the messages read: nothing is lost for ever but by a tear. */
  ghost predicate Continues(s: State, next: State, start: int, read: seq<Message>, read': seq<Message>, torn: bool) {
    && Sound(next, start, read')
    && Lost(next, start, read') >= Lost(s, start, read)
    && (Lost(next, start, read') == Lost(s, start, read) <==> !torn)
    && (NothingLost(s, start, read) && !torn ==> NothingLost(next, start, read'))
  }

  lemma NewerOfMore(log: seq<Message>, m: Message, t: int)
    ensures m.timestamp <= t ==> Newer(log + [m], t) == Newer(log, t)
    ensures m.timestamp > t ==> Newer(log + [m], t) == Newer(log, t) + [m]
  {
    assert (log + [m])[..|log|] == log;
  }

  lemma AppendContinues(s: State, m: Message, limit: nat, start: int, read: seq<Message>)
    requires s.pool.Valid() && Sound(s, start, read) && Enabled(s, Append(m))
    ensures Continues(s, Step(s, Append(m), limit), start, read, read, Tears(s, Append(m), limit, start))
  {
    hide Newer;
    var next := Step(s, Append(m), limit);
    assert Ordered(next.log);
    assert next.log == s.log + [m] && next.cursor == s.cursor;
    assert start < s.cursor ==> s.cursor <= m.timestamp;
    hide Step, Enabled, Ordered;
    MoreContinues(s, next, m, start, read);
  }

  lemma MoreContinues(s: State, next: State, m: Message, start: int, read: seq<Message>)
    requires Sound(s, start, read) && Ordered(next.log)
    requires next.log == s.log + [m] && next.cursor == s.cursor && (start < s.cursor ==> s.cursor <= m.timestamp)
    ensures Continues(s, next, start, read, read, start < s.cursor == m.timestamp)
  {
    hide Newer, Ordered;
    var (all, left) := (Newer(s.log, start), Newer(s.log, s.cursor));
    NewerOfMore(s.log, m, start);
    NewerOfMore(s.log, m, s.cursor);
    OneMore(all, read, left, m);
    assert Sound(next, start, read);
    hide Sound;
    if m.timestamp <= start {
      assert Newer(next.log, start) == all && Newer(next.log, s.cursor) == left;
    } else if m.timestamp <= s.cursor {
      assert Newer(next.log, start) == all + [m] && Newer(next.log, s.cursor) == left;
    } else {
      assert Newer(next.log, start) == all + [m] && Newer(next.log, s.cursor) == left + [m];
    }
  }

  lemma OneMore(all: seq<Message>, read: seq<Message>, left: seq<Message>, m: Message)
    requires multiset(read) + multiset(left) <= multiset(all)
    ensures multiset(read) + multiset(left) <= multiset(all + [m])
    ensures multiset(read) + multiset(left + [m]) <= multiset(all + [m])
    ensures all == read + left ==> all + [m] == read + (left + [m])
  {
    assert multiset(left + [m]) == multiset(left) + multiset{m};
    assert multiset(all + [m]) == multiset(all) + multiset{m};
    if all == read + left {
      assert all + [m] == read + (left + [m]);
    }
  }

  lemma PollContinues(s: State, limit: nat, start: int, read: seq<Message>)
    requires Sound(s, start, read)
    ensures var page := ReadLogAfter(s.log, s.cursor, limit);
            Continues(s, Polled(s, limit), start, read, read + page, TornBy(Newer(s.log, s.cursor), limit))
  {
    hide ReadLogAfter, Polled, Newer, Sound, Continues, TornBy;
    var page := ReadLogAfter(s.log, s.cursor, limit);
    if page == [] {
      assert read + page == read;
      NoPageContinues(s, limit, start, read);
    } else {
      SomePageContinues(s, limit, start, read);
    }
  }

  lemma NoPageContinues(s: State, limit: nat, start: int, read: seq<Message>)
    requires Sound(s, start, read) && ReadLogAfter(s.log, s.cursor, limit) == []
    ensures Continues(s, Polled(s, limit), start, read, read, TornBy(Newer(s.log, s.cursor), limit))
  {
    hide Newer;
    assert !TornBy(Newer(s.log, s.cursor), limit);
    hide TornBy, ReadLogAfter, Sound;
    SameReading(s, Polled(s, limit), start, read);
  }

  lemma SomePageContinues(s: State, limit: nat, start: int, read: seq<Message>)
    requires Sound(s, start, read) && ReadLogAfter(s.log, s.cursor, limit) != []
    ensures var page := ReadLogAfter(s.log, s.cursor, limit);
            Continues(s, Polled(s, limit), start, read, read + page, TornBy(Newer(s.log, s.cursor), limit))
  {
    hide Newer;
    assert Ordered(s.log) && limit > 0 && Newer(s.log, s.cursor) != [];
    PolledState(s, limit);
    var page := ReadLogAfter(s.log, s.cursor, limit);
    assert page != [];
    assert Polled(s, limit).cursor == page[|page| - 1].timestamp;
    hide ReadLogAfter, Polled, Sound, Ordered, Continues, TornBy, IsGap;
    var gap := Gap(s.log, s.cursor, limit);
    PageContinues(s, Polled(s, limit), start, read, page, gap);
  }

  lemma PageContinues(s: State, next: State, start: int, read: seq<Message>, page: seq<Message>, gap: seq<Message>)
    requires Sound(s, start, read) && IsGap(s.log, s.cursor, page, gap)
    requires next.log == s.log && next.cursor == page[|page| - 1].timestamp
    ensures Continues(s, next, start, read, read + page, gap != [])
  {
    hide Newer;
    var (all, left) := (Newer(s.log, start), Newer(s.log, next.cursor));
    OrderedParts(read, page, s.cursor);
    hide Ordered;
    OneMorePage(all, read, page, gap, left);
    assert Sound(next, start, read + page);
    hide Sound;
    assert Lost(next, start, read + page) == Lost(s, start, read) + |gap|;
  }

  lemma PolledState(s: State, limit: nat)
    ensures var (next, page) := (Polled(s, limit), ReadLogAfter(s.log, s.cursor, limit));
            && next.log == s.log
            && next.cursor == (if page == [] then s.cursor else page[|page| - 1].timestamp)
            && (s.page == [] ==> next.page == page)
  {
  }

  lemma OneMorePage(all: seq<Message>, read: seq<Message>, page: seq<Message>, gap: seq<Message>, left: seq<Message>)
    requires multiset(read) + multiset(page + gap + left) <= multiset(all)
    ensures multiset(read + page) + multiset(left) <= multiset(all)
    ensures all == read + (page + gap + left) && gap == [] ==> all == read + page + left
  {
    assert multiset(page + gap + left) == multiset(page) + multiset(gap) + multiset(left);
    assert multiset(read + page) == multiset(read) + multiset(page);
    if gap == [] {
      assert read + (page + gap + left) == read + page + left;
    }
  }

  lemma OrderedParts(a: seq<Message>, b: seq<Message>, t: int)
    requires Ordered(a) && Ordered(b)
    requires (forall m | m in a :: m.timestamp <= t) && (forall m | m in b :: t < m.timestamp)
    ensures Ordered(a + b)
  {
  }

  lemma StepContinues(s: State, a: Action, limit: nat, start: int, handed: seq<Message>)
    requires s.pool.Valid() && Sound(s, start, handed + s.page) && Enabled(s, a)
    ensures var next := Step(s, a, limit);
            Continues(s, next, start, handed + s.page, handed + HandedBy(s, a) + next.page, Tears(s, a, limit, start))
  {
    hide Registered, Unregistered, Changed, Newer, Polled, Sound, NothingLost, Lost;
    var read := handed + s.page;
    match a {
      case Append(m) =>
        AppendContinues(s, m, limit, start, read);
        assert handed + [] + s.page == read;
      case Poll(succeeds) =>
        assert read == handed;
        if succeeds {
          PollContinues(s, limit, start, read);
          PolledState(s, limit);
          assert handed + [] + Polled(s, limit).page == read + Polled(s, limit).page;
        } else {
          assert handed + [] + s.page == read;
        }
      case SendLog =>
        assert handed + [s.page[0]] + s.page[1..] == read;
        SameReading(s, Step(s, a, limit), start, read);
      case _ =>
        assert handed + [] + s.page == read;
        SameReading(s, Step(s, a, limit), start, read);
    }
  }

  lemma SameReading(s: State, next: State, start: int, read: seq<Message>)
    requires Sound(s, start, read) && next.log == s.log && next.cursor == s.cursor
    ensures Continues(s, next, start, read, read, false)
  {
  }

  lemma {:induction false} RunContinues(s: State, actions: seq<Action>, limit: nat, start: int, handed: seq<Message>)
    requires s.pool.Valid() && Sound(s, start, handed + s.page) && Possible(s, actions, limit)
    ensures var end := Run(s, actions, limit);
            Continues(s, end, start, handed + s.page, handed + Handed(s, actions, limit) + end.page,
                      !NeverTears(s, actions, limit, start))
    decreases |actions|
  {
    hide Sound, NothingLost, Lost, Step, HandedBy, Enabled, Tears;
    if actions == [] {
      assert handed + [] == handed;
      SameReading(s, s, start, handed + s.page);
    } else {
      var sent, next := HandedBy(s, actions[0]), Step(s, actions[0], limit);
      StepContinues(s, actions[0], limit, start, handed);
      var rest := Handed(next, actions[1..], limit);
      RunContinues(next, actions[1..], limit, start, handed + sent);
      assert handed + sent + rest == handed + (sent + rest);
    }
  }

  /** In every run, whatever polls fail, what is handed to the pool and what waits in the page are
      messages newer than the start, in their order, each at most once; and if no time is torn they
      are a first part of them, so that no message is passed over. */
  lemma HandedInOrder(s: State, actions: seq<Action>, limit: nat)
    requires Begins(s) && Possible(s, actions, limit)
    ensures var (end, handed) := (Run(s, actions, limit), Handed(s, actions, limit));
            && Ordered(handed + end.page)
            && multiset(handed + end.page) <= multiset(Newer(end.log, s.cursor))
            && (NeverTears(s, actions, limit, s.cursor) ==> handed + end.page <= Newer(end.log, s.cursor))
  {
    hide Newer, Run, Handed, Possible, NeverTears;
    NothingIsLost(s, actions, limit);
    var (end, handed) := (Run(s, actions, limit), Handed(s, actions, limit));
    assert [] + s.page == [] && [] + handed + end.page == handed + end.page;
    RunContinues(s, actions, limit, s.cursor, []);
  }

  /** A run loses no message, all there are being handed, in the page or newer than the cursor, if
      and only if it tears no time. */
  lemma NothingIsLost(s: State, actions: seq<Action>, limit: nat)
    requires Begins(s) && Possible(s, actions, limit)
    ensures var (end, handed) := (Run(s, actions, limit), Handed(s, actions, limit));
            Newer(end.log, s.cursor) == handed + end.page + Newer(end.log, end.cursor)
            <==> NeverTears(s, actions, limit, s.cursor)
  {
    hide Newer, Run, Handed, Possible, NeverTears;
    assert [] + s.page == [] && [] + Newer(s.log, s.cursor) == Newer(s.log, s.cursor);
    RunContinues(s, actions, limit, s.cursor, []);
    var (end, handed) := (Run(s, actions, limit), Handed(s, actions, limit));
    assert [] + handed + end.page == handed + end.page;
  }

  /** Where times are all different nothing is torn, and what is handed is in strict order. */
  lemma DifferentTimesAreNeverTorn(s: State, actions: seq<Action>, limit: nat)
    requires Begins(s) && Possible(s, actions, limit) && StrictlyOrdered(Run(s, actions, limit).log)
    ensures NeverTears(s, actions, limit, s.cursor)
    ensures StrictlyOrdered(Handed(s, actions, limit) + Run(s, actions, limit).page)
  {
    hide Newer, Run, Handed, Possible, NeverTears;
    assert [] + s.page == [];
    NoTears(s, actions, limit, s.cursor, []);
    HandedInOrder(s, actions, limit);
    FirstPartIsStrict(Run(s, actions, limit).log, s.cursor, Handed(s, actions, limit) + Run(s, actions, limit).page);
  }

  lemma {:induction false} NoTears(s: State, actions: seq<Action>, limit: nat, start: int, handed: seq<Message>)
    requires s.pool.Valid() && Sound(s, start, handed + s.page) && Possible(s, actions, limit)
    requires StrictlyOrdered(Run(s, actions, limit).log)
    ensures NeverTears(s, actions, limit, start)
    ensures s.log <= Run(s, actions, limit).log
    decreases |actions|
  {
    hide Sound, Newer, Polled, HandedBy, Lost, NothingLost, Enabled, Tears, TornBy;
    if actions != [] {
      var next := Step(s, actions[0], limit);
      StepContinues(s, actions[0], limit, start, handed);
      NoTears(next, actions[1..], limit, start, handed + HandedBy(s, actions[0]));
      LogGrows(s, actions[0], limit);
      assert next.log == Run(s, actions, limit).log[..|next.log|];
      StrictStep(s, actions[0], limit, start, handed + s.page);
    }
  }

  lemma LogGrows(s: State, a: Action, limit: nat)
    requires s.pool.Valid() && Enabled(s, a)
    ensures s.log <= Step(s, a, limit).log
  {
  }

  lemma StrictStep(s: State, a: Action, limit: nat, start: int, read: seq<Message>)
    requires s.pool.Valid() && Sound(s, start, read) && Enabled(s, a)
    requires StrictlyOrdered(Step(s, a, limit).log)
    ensures !Tears(s, a, limit, start)
  {
    hide Newer, Registered, Changed;
    match a {
      case Append(m) =>
        if s.log != [] {
          var log := s.log + [m];
          assert log[|s.log| - 1].timestamp < log[|s.log|].timestamp;
        }
      case Poll(_) => NewerIsTheEnd(s.log, s.cursor);
      case _ =>
    }
  }

  lemma FirstPartIsStrict(log: seq<Message>, t: int, first: seq<Message>)
    requires StrictlyOrdered(log) && first <= Newer(log, t)
    ensures StrictlyOrdered(first)
  {
    hide Newer;
    NewerIsTheEnd(log, t);
  }

  /** A poll that succeeds takes a full page or all there is, so with a positive limit it finds
      nothing only when nothing is newer than the cursor; which is when all has been handed, if
      nothing is lost. */
  lemma PollAdvances(s: State, limit: nat, start: int, handed: seq<Message>)
    requires s.pool.Valid() && s.page == []
    ensures var left := |Newer(s.log, s.cursor)|;
            |Step(s, Poll(true), limit).page| == if left <= limit then left else limit
    ensures limit > 0 && Step(s, Poll(true), limit).page == [] ==> Newer(s.log, s.cursor) == []
    ensures NothingLost(s, start, handed) ==>
              && |Newer(s.log, s.cursor)| == |Newer(s.log, start)| - |handed|
              && (Newer(s.log, s.cursor) == [] <==> handed == Newer(s.log, start))
  {
    if NothingLost(s, start, handed) && Newer(s.log, s.cursor) == [] {
      assert handed + [] == handed;
    }
  }

  /** Two messages of equal time that a page limit parts: the second is newer than no cursor from
      then on. Within one page both are handed. */
  lemma EqualTimesAreLost(s: State, a: Message, b: Message)
    requires s.log == [a, b] && s.page == [] && s.cursor < a.timestamp == b.timestamp
    ensures var next := Polled(s, 1);
            next.page == [a] && Newer(next.log, next.cursor) == []
    ensures Polled(s, 2).page == [a, b]
  {
    assert s.log[..1] == [a] && [a][..0] == [];
    assert Newer([], s.cursor) == [] && Newer([], a.timestamp) == [];
    assert Newer([a], s.cursor) == [a] && Newer([a], a.timestamp) == [];
    assert Newer(s.log, s.cursor) == [a, b] && [a, b][..1] == [a];
  }

  // ---- What clients receive ----

  function LogLines(received: seq<Response>): seq<Message> {
    if received == [] then []
    else
      var last := received[|received| - 1];
      LogLines(received[..|received| - 1]) + (if last.LogLine? then [last.message] else [])
  }

  function StationLines(received: seq<Response>): seq<(string, string)> {
    if received == [] then []
    else
      var last := received[|received| - 1];
      StationLines(received[..|received| - 1]) + (if last.StationLine? then [(last.station, last.text)] else [])
  }

  /** The charge points that some messages speak of. */
  function StationsOf(messages: seq<Message>): seq<(string, string)> {
    if messages == [] then []
    else
      var last := messages[|messages| - 1];
      StationsOf(messages[..|messages| - 1]) + (if |last.station| > 1 then [(last.station, last.text)] else [])
  }

  /** The messages handed at moments when the client listens to log events. */
  function Due(s: State, actions: seq<Action>, limit: nat, id: int): seq<Message>
    requires s.pool.Valid() && Possible(s, actions, limit)
    decreases |actions|
  {
    if actions == [] then []
    else
      (if s.pool.Listens(id, LogEvents) then HandedBy(s, actions[0]) else [])
      + Due(Step(s, actions[0], limit), actions[1..], limit, id)
  }

  function ReceivedBy(s: State, id: int): seq<Response> {
    if id in s.pool.connections then s.pool.connections[id].received else []
  }

  lemma LinesOfMore(received: seq<Response>, r: Response)
    ensures LogLines(received + [r]) == LogLines(received) + (if r.LogLine? then [r.message] else [])
    ensures StationLines(received + [r])
         == StationLines(received) + (if r.StationLine? then [(r.station, r.text)] else [])
  {
    assert (received + [r])[..|received|] == received;
  }

  lemma StepDelivers(s: State, a: Action, limit: nat, id: int)
    requires s.pool.Valid() && Enabled(s, a)
    ensures LogLines(ReceivedBy(Step(s, a, limit), id))
         == LogLines(ReceivedBy(s, id)) + (if s.pool.Listens(id, LogEvents) then HandedBy(s, a) else [])
    ensures StationLines(ReceivedBy(Step(s, a, limit), id))
         == StationLines(ReceivedBy(s, id)) + (if s.pool.Listens(id, StationEvents) then ToldBy(s, a) else [])
  {
    hide LogLines, StationLines;
    var received := ReceivedBy(s, id);
    LinesOfMore(received, Connected);
    if a.SendLog? {
      LinesOfMore(received, LogLine(s.page[0]));
    }
    if a.SendStation? {
      LinesOfMore(received, StationLine(s.page[0].station, s.page[0].text));
    }
    NoLines();
  }

  lemma NoLines()
    ensures LogLines([]) == [] && StationLines([]) == []
  {
  }

  /** A client receives, once each and in order, exactly the messages handed while it listened. */
  lemma {:induction false} DueIsReceived(s: State, actions: seq<Action>, limit: nat, id: int)
    requires s.pool.Valid() && Possible(s, actions, limit)
    ensures LogLines(ReceivedBy(Run(s, actions, limit), id)) == LogLines(ReceivedBy(s, id)) + Due(s, actions, limit, id)
    decreases |actions|
  {
    hide LogLines, StationLines, Step, Enabled, HandedBy, ReceivedBy;
    if actions != [] {
      StepDelivers(s, actions[0], limit, id);
      DueIsReceived(Step(s, actions[0], limit), actions[1..], limit, id);
    }
  }

  predicate ListensThroughout(s: State, actions: seq<Action>, limit: nat, id: int, kind: Subscription)
    requires s.pool.Valid() && Possible(s, actions, limit)
    decreases |actions|
  {
    && s.pool.Listens(id, kind)
    && (actions != [] ==> ListensThroughout(Step(s, actions[0], limit), actions[1..], limit, id, kind))
  }

  lemma {:induction false} AllIsDue(s: State, actions: seq<Action>, limit: nat, id: int)
    requires s.pool.Valid() && Possible(s, actions, limit) && ListensThroughout(s, actions, limit, id, LogEvents)
    ensures Due(s, actions, limit, id) == Handed(s, actions, limit)
    decreases |actions|
  {
    hide Step, Enabled, HandedBy;
    if actions != [] {
      AllIsDue(Step(s, actions[0], limit), actions[1..], limit, id);
    }
  }

  /** End to end: a client that listens to the log from the start has received exactly what has been
      handed, in order and nothing twice, and has missed nothing if no time is torn. */
  lemma ListenerGetsTheLog(s: State, actions: seq<Action>, limit: nat, id: int)
    requires Begins(s) && Possible(s, actions, limit) && ListensThroughout(s, actions, limit, id, LogEvents)
    ensures var (end, handed) := (Run(s, actions, limit), Handed(s, actions, limit));
            && LogLines(ReceivedBy(end, id)) == LogLines(ReceivedBy(s, id)) + handed
            && Ordered(handed + end.page)
            && multiset(handed + end.page) <= multiset(Newer(end.log, s.cursor))
            && (NeverTears(s, actions, limit, s.cursor) ==> handed + end.page <= Newer(end.log, s.cursor))
  {
    DueIsReceived(s, actions, limit, id);
    AllIsDue(s, actions, limit, id);
    HandedInOrder(s, actions, limit);
  }

  /** The charge point at hand, once it is announced. */
  function AtHand(s: State): seq<(string, string)> {
    if s.announced && s.page != [] then [(s.page[0].station, s.page[0].text)] else []
  }

  /** A client that listens to charge points is told of each that a handed message names, once and in
      order, and before the log line goes out. */
  lemma {:induction false} ListenerHearsOfStations(
      s: State, actions: seq<Action>, limit: nat, id: int, handed: seq<Message>, before: seq<(string, string)>)
    requires s.pool.Valid() && AnnouncesStations(s) && Possible(s, actions, limit)
    requires ListensThroughout(s, actions, limit, id, StationEvents)
    requires StationLines(ReceivedBy(s, id)) == before + StationsOf(handed) + AtHand(s)
    ensures var end := Run(s, actions, limit);
            StationLines(ReceivedBy(end, id)) == before + StationsOf(handed + Handed(s, actions, limit)) + AtHand(end)
    decreases |actions|
  {
    hide AnnouncesStations, Step, HandedBy, ToldBy, Enabled, StationLines, ReceivedBy, StationsOf, AtHand;
    if actions == [] {
      assert handed + [] == handed;
    } else {
      var next, sent := Step(s, actions[0], limit), HandedBy(s, actions[0]);
      StepDelivers(s, actions[0], limit, id);
      StationStep(s, actions[0], limit, handed);
      Regrouped(before, StationsOf(handed), AtHand(s), ToldBy(s, actions[0]), StationsOf(handed + sent), AtHand(next));
      ListenerHearsOfStations(next, actions[1..], limit, id, handed + sent, before);
      assert handed + sent + Handed(next, actions[1..], limit) == handed + (sent + Handed(next, actions[1..], limit));
    }
  }

  lemma Regrouped<T>(before: seq<T>, a: seq<T>, b: seq<T>, c: seq<T>, d: seq<T>, e: seq<T>)
    requires a + b + c == d + e
    ensures before + a + b + c == before + d + e
  {
    assert before + a + b + c == before + (a + b + c);
    assert before + d + e == before + (d + e);
  }

  /** Only a message at hand that names a charge point is announced. */
  predicate AnnouncesStations(s: State) {
    s.announced ==> s.page != [] && |s.page[0].station| > 1
  }

  lemma StationStep(s: State, a: Action, limit: nat, handed: seq<Message>)
    requires s.pool.Valid() && AnnouncesStations(s) && Enabled(s, a)
    ensures AnnouncesStations(Step(s, a, limit))
    ensures StationsOf(handed) + AtHand(s) + ToldBy(s, a)
         == StationsOf(handed + HandedBy(s, a)) + AtHand(Step(s, a, limit))
  {
    hide Registered, Unregistered, Changed, Newer;
    if a.SendLog? {
      assert (handed + [s.page[0]])[..|handed|] == handed;
    } else {
      assert handed + [] == handed;
    }
  }

  // ---- What each action does to the clients ----

  /** A registered client of the subscription that is open has received one response more; it and all the
      others are as they were otherwise. */
  lemma FanOutReaches(p: PoolState, kind: Subscription, r: Response, id: int)
    requires p.Valid() && id in p.connections
    ensures var (next, c) := (p.FanOut(kind, r), p.connections[id]);
            && next.clients == p.clients && next.connections.Keys == p.connections.Keys
            && next.connections[id]
               == if id in p.clients && c.subscription == kind && !c.closed then
                    Client(c.subscription, c.closed, c.received + [r])
                  else c
  {
  }

  /** A new client listens to the events of charge points; a client that is open is greeted. Nothing
      changes for the others, and a client that leaves is closed and gets nothing more. */
  lemma ComingAndGoing(p: PoolState, id: int, other: int)
    requires p.Valid()
    ensures var next := Registered(p, id);
            && next.clients == p.clients + {id} && next.connections.Keys == p.connections.Keys + {id}
            && (id !in p.connections ==> next.connections[id] == Client(StationEvents, false, [Connected]))
            && (id in p.connections && p.connections[id].closed ==> next.connections[id] == p.connections[id])
            && (id in p.connections && !p.connections[id].closed ==>
                  var c := p.connections[id];
                  next.connections[id] == Client(c.subscription, false, c.received + [Connected]))
            && (other in p.connections && other != id ==> next.connections[other] == p.connections[other])
    ensures var next := Unregistered(p, id);
            && next.clients == p.clients - {id} && next.connections.Keys == p.connections.Keys
            && (id in p.clients ==>
                  var c := p.connections[id]; next.connections[id] == Client(c.subscription, true, c.received))
            && (other in p.connections && (other != id || id !in p.clients) ==>
                  next.connections[other] == p.connections[other])
  {
  }

  /** A charge point is named by two characters or more. */
  lemma StationsAreNamed(a: seq<Message>, m: Message)
    ensures StationsOf([]) == []
    ensures StationsOf(a + [m]) == StationsOf(a) + (if |m.station| >= 2 then [(m.station, m.text)] else [])
  {
    assert (a + [m])[..|a|] == a;
  }

  /** Of the log, a poll takes messages newer than the cursor, none after one it leaves, and no more than
      the limit. */
  lemma PageIsNewest(log: seq<Message>, t: int, limit: nat) returns (k: nat)
    requires Ordered(log)
    ensures var page := ReadLogAfter(log, t, limit);
            && |page| <= limit && k + |page| <= |log| && page == log[k..k + |page|]
            && (|page| < limit ==> k + |page| == |log|)
    ensures forall i | 0 <= i < |log| :: log[i].timestamp > t <==> k <= i
  {
    hide Newer;
    NewerIsTheEnd(log, t);
    k := |log| - |Newer(log, t)|;
    if |log| - k > limit {
      assert log[k..][..limit] == log[k..k + limit];
    } else {
      assert log[k..] == log[k..|log|];
    }
  }

  // ---- The event loop and the poller ----

  class Pool {
    var connections: map<int, Client>
    var clients: set<int>

    ghost function View(): PoolState
      reads this
    {
      PoolState(connections, clients)
    }

    constructor ()
      ensures View() == PoolState(map[], {})
    {
      connections := map[];
      clients := {};
    }

    method Register(id: int)
      requires View().Valid()
      modifies this
      ensures View() == Registered(old(View()), id) && View().Valid()
    {
      if id !in connections {
        connections := connections[id := Client(StationEvents, false, [])];
      }
      clients := clients + {id};
      connections := connections[id := connections[id].Respond(Connected)];
    }

    method Unregister(id: int)
      requires View().Valid()
      modifies this
      ensures View() == Unregistered(old(View()), id) && View().Valid()
    {
      if id in clients {
        clients := clients - {id};
        connections := connections[id := connections[id].(closed := true)];
      }
    }

    /** One turn of the event loop for a message of some kind: a range over the registered clients. */
    method SendEvent(kind: Subscription, r: Response)
      requires View().Valid()
      modifies this`connections
      ensures View() == old(View()).FanOut(kind, r) && View().Valid()
    {
      var left := clients;
      ghost var before := View();
      while left != {}
        invariant left <= clients && connections.Keys == before.connections.Keys
        invariant forall id | id in connections :: connections[id] ==
                    if id !in left && before.Listens(id, kind) then before.connections[id].Respond(r)
                    else before.connections[id]
        decreases |left|
      {
        var id := Sets.Pick(left);
        if connections[id].subscription == kind {
          connections := connections[id := connections[id].Respond(r)];
        }
        left := left - {id};
      }
      assert connections == before.FanOut(kind, r).connections;
    }
  }

  class Broadcaster {
    const pool: Pool
    const limit: nat
    var lastMessageTime: int
    var messages: seq<Message>
    var announced: bool

    ghost function View(log: seq<Message>): State
      reads this, pool
    {
      State(log, lastMessageTime, messages, announced, pool.View())
    }

    constructor (pool: Pool, limit: nat, now: int)
      ensures this.pool == pool && this.limit == limit
      ensures forall log :: View(log) == State(log, now, [], false, pool.View())
    {
      this.pool := pool;
      this.limit := limit;
      lastMessageTime := now;
      messages := [];
      announced := false;
    }

    /** A tick: the query may fail. */
    method Tick(log: seq<Message>, succeeds: bool)
      requires pool.View().Valid() && Enabled(View(log), Poll(succeeds))
      modifies this
      ensures View(log) == Step(old(View(log)), Poll(succeeds), limit)
    {
      if succeeds {
        var found := ReadLogAfter(log, lastMessageTime, limit);
        if |found| > 0 {
          lastMessageTime := found[|found| - 1].timestamp;
          messages := found;
        }
      }
    }

    /** The next message of the page, first as an event of its charge point if it names one. */
    method SendNextMessage(log: seq<Message>)
      requires pool.View().Valid() && messages != [] && !announced
      modifies this, pool
      ensures var s := old(View(log));
              var told := if |s.page[0].station| > 1 then Step(s, SendStation, limit) else s;
              View(log) == Step(told, SendLog, limit)
    {
      var message := messages[0];
      if |message.station| > 1 {
        pool.SendEvent(StationEvents, StationLine(message.station, message.text));
        announced := true;
      }
      pool.SendEvent(LogEvents, LogLine(message));
      messages := messages[1..];
      announced := false;
    }
  }
}
