/** Deployment and keepalive timers, and the position in the queue of pending deployments. */
module Timers {
  import opened Seqs

  // ---------------------------------------------------------------- one timer

  const SECOND := 1_000_000_000 // nanoseconds
  const NEW_TIMEOUT := 5        // seconds
  const USE_TIMEOUT := 10 * 60  // seconds

  /** The clock the handlers read: whole seconds, truncated. */
  function Now(time: nat): int { time / SECOND }

  /** `cancel` counts the tokens in the cancel channel, which nobody ever receives. */
  datatype Timer = Timer(cancel: nat, timestamp: int, watching: bool, running: bool)

  datatype Event =
    | Ping(time: nat)    // _new or _use stores a reading, perhaps older than one already stored
    | Used(time: nat)    // _used stores a reading less the timeout
    | Check(time: nat)   // the watcher wakes up
    | Finish(time: nat)  // the deployment's `new` request returns

  /** One machine for both timers: `limit` is the timeout. A deployment's watcher looks at
      `running` only after a check, so one check may still follow the end of the request. A
      check by a watcher that has ended does nothing. */
  function Step(limit: int, deployment: bool, t: Timer, e: Event): Timer {
    match e
    case Ping(time) => t.(timestamp := Now(time))
    case Used(time) => t.(timestamp := Now(time) - USE_TIMEOUT)
    case Check(time) =>
      if !t.watching then t
      else if Now(time) - t.timestamp > limit then t.(cancel := t.cancel + 1, watching := false)
      else t.(watching := !deployment || t.running)
    case Finish(_) =>
      if !deployment || !t.running then t else t.(running := false, cancel := t.cancel + 1)
  }

  function Fresh(time: nat): Timer { Timer(0, Now(time), true, true) }

  function Run(limit: int, deployment: bool, t: Timer, events: seq<Event>): Timer {
    if events == [] then t
    else Step(limit, deployment, Run(limit, deployment, t, events[..|events| - 1]), events[|events| - 1])
  }

  /** Tokens never disappear; at most the watcher and the returning request add one each. */
  lemma {:induction false} CancelLatches(limit: int, deployment: bool, begin: nat, events: seq<Event>, k: nat)
    requires k <= |events|
    ensures var t := Run(limit, deployment, Fresh(begin), events);
      && Run(limit, deployment, Fresh(begin), events[..k]).cancel <= t.cancel
      && t.cancel == WatcherTokens(limit, deployment, begin, events) + (if t.running then 0 else 1)
      && WatcherTokens(limit, deployment, begin, events) <= (if t.watching then 0 else 1)
      && (!deployment ==> t.running)
      && (deployment ==> t.cancel <= 2)
      && (!deployment ==> t.cancel <= 1)
  {
    if k == |events| {
      assert events[..k] == events;
    }
    if events == [] {
    } else {
      var front := events[..|events| - 1];
      CancelLatches(limit, deployment, begin, front, if k < |events| then k else |front|);
      if k < |events| {
        assert front[..k] == events[..k];
      }
    }
  }

  /** How many tokens the watcher itself has sent. */
  function WatcherTokens(limit: int, deployment: bool, begin: nat, events: seq<Event>): nat {
    if events == [] then 0
    else
      var front, e := events[..|events| - 1], events[|events| - 1];
      var t := Run(limit, deployment, Fresh(begin), front);
      WatcherTokens(limit, deployment, begin, front)
      + if e.Check? && Step(limit, deployment, t, e).cancel > t.cancel then 1 else 0
  }

  /** The reading stored last, or the creation's. */
  function LastPing(begin: nat, events: seq<Event>): nat {
    if events == [] then begin
    else if events[|events| - 1].Ping? then events[|events| - 1].time
    else LastPing(begin, events[..|events| - 1])
  }

  ghost predicate Unused(events: seq<Event>) {
    forall e :: e in events ==> !e.Used?
  }

  /** No watcher check comes more than `limit` seconds after the reading stored last. */
  ghost predicate KeptAlive(limit: int, begin: nat, events: seq<Event>) {
    forall i :: 0 <= i < |events| && events[i].Check? ==>
      events[i].time <= LastPing(begin, events[..i]) + limit * SECOND
  }

  lemma {:induction false} TimestampIsLastPing(limit: int, deployment: bool, begin: nat, events: seq<Event>)
    requires Unused(events)
    ensures Run(limit, deployment, Fresh(begin), events).timestamp == Now(LastPing(begin, events))
  {
    if events == [] {
    } else {
      assert events[|events| - 1] in events;
      TimestampIsLastPing(limit, deployment, begin, events[..|events| - 1]);
    }
  }

  /** Truncation makes a silence of t - p last at most as many whole seconds, rounded up. */
  lemma TruncatedSilence(p: nat, t: nat, limit: nat)
    ensures Now(t) - Now(p) > limit <==> t - p >= (limit + 1) * SECOND - p % SECOND
    ensures t <= p + limit * SECOND ==> Now(t) - Now(p) <= limit
    ensures t >= p + (limit + 1) * SECOND ==> Now(t) - Now(p) > limit
  {
    assert p == Now(p) * SECOND + p % SECOND;
    assert t == Now(t) * SECOND + t % SECOND;
  }

  /** A watcher goes on watching until it has sent its token or its request has returned. */
  lemma {:induction false} StillWatching(limit: int, deployment: bool, begin: nat, events: seq<Event>)
    requires WatcherTokens(limit, deployment, begin, events) == 0
    requires Run(limit, deployment, Fresh(begin), events).running
    ensures Run(limit, deployment, Fresh(begin), events).watching
  {
    if events == [] {
    } else {
      var front := events[..|events| - 1];
      CancelLatches(limit, deployment, begin, events, |events|);
      CancelLatches(limit, deployment, begin, front, |front|);
      StillWatching(limit, deployment, begin, front);
    }
  }

  /** What one check does, exactly: the watcher of a request that is still running and has not been
      cancelled by it cancels if and only if the silence has reached limit + 1 seconds less the
      fraction of a second at which the last ping came. */
  lemma {:induction false} CheckCancelsExactly(
      limit: nat, deployment: bool, begin: nat, events: seq<Event>, time: nat)
    requires Unused(events)
    ensures var t := Run(limit, deployment, Fresh(begin), events); var p := LastPing(begin, events);
      var t' := Step(limit, deployment, t, Check(time));
      && (t.running && WatcherTokens(limit, deployment, begin, events) == 0 ==>
            (t'.cancel == t.cancel + 1 <==> time - p >= (limit + 1) * SECOND - p % SECOND))
      && (time <= p + limit * SECOND ==> t'.cancel == t.cancel)
  {
    TimestampIsLastPing(limit, deployment, begin, events);
    TruncatedSilence(LastPing(begin, events), time, limit);
    if Run(limit, deployment, Fresh(begin), events).running && WatcherTokens(limit, deployment, begin, events) == 0 {
      StillWatching(limit, deployment, begin, events);
    }
  }

  /** Over a whole run: as long as the request runs, a check after limit + 1 seconds of silence leaves
      exactly one token of the watcher. */
  lemma {:induction false} SilenceCancels(limit: nat, deployment: bool, begin: nat, events: seq<Event>, time: nat)
    requires Unused(events) && Run(limit, deployment, Fresh(begin), events).running
    requires time >= LastPing(begin, events) + (limit + 1) * SECOND
    ensures WatcherTokens(limit, deployment, begin, events + [Check(time)]) == 1
  {
    CheckCancelsExactly(limit, deployment, begin, events, time);
    CancelLatches(limit, deployment, begin, events, |events|);
    CancelLatches(limit, deployment, begin, events + [Check(time)], 0);
    assert (events + [Check(time)])[..|events|] == events;
  }

  /** A returned request leaves its token in the channel for good, and its watcher ends at the next
      check. */
  lemma {:induction false} ReturnLeavesToken(limit: int, begin: nat, events: seq<Event>, time: nat)
    requires exists e :: e in events && e.Finish?
    ensures var t := Run(limit, true, Fresh(begin), events);
      !t.running && t.cancel >= 1 && !Step(limit, true, t, Check(time)).watching
  {
    var front, last := events[..|events| - 1], events[|events| - 1];
    CancelLatches(limit, true, begin, events, |events|);
    if !last.Finish? {
      assert events == front + [last];
      ReturnLeavesToken(limit, begin, front, time);
    }
  }

  /** A request whose every check comes within the limit of the reading stored last is never
      cancelled by its watcher: 5 s for a deployment, 600 s for a keepalive that gets no _used. */
  lemma {:induction false} KeptAliveIsNeverCancelled(limit: nat, deployment: bool, begin: nat, events: seq<Event>)
    requires Unused(events) && KeptAlive(limit, begin, events)
    ensures WatcherTokens(limit, deployment, begin, events) == 0
    ensures !deployment ==> Run(limit, deployment, Fresh(begin), events).cancel == 0
  {
    CancelLatches(limit, deployment, begin, events, 0);
    if events == [] {
    } else {
      var front, e := events[..|events| - 1], events[|events| - 1];
      forall i | 0 <= i < |front| && front[i].Check?
        ensures front[i].time <= LastPing(begin, front[..i]) + limit * SECOND
      {
        assert front[..i] == events[..i];
        assert events[i].Check?;
      }
      KeptAliveIsNeverCancelled(limit, deployment, begin, front);
      if e.Check? {
        CheckCancelsExactly(limit, deployment, begin, front, e.time);
      }
    }
  }

  /** The newest reading any ping has stored; handlers may store their readings in another order. */
  function Newest(begin: nat, events: seq<Event>): nat {
    if events == [] then begin
    else
      var front, e := events[..|events| - 1], events[|events| - 1];
      if e.Ping? && e.time > Newest(begin, front) then e.time else Newest(begin, front)
  }

  /** The reading stored last is of the newest reading's second. */
  ghost predicate InOrder(begin: nat, events: seq<Event>) {
    Now(LastPing(begin, events)) == Now(Newest(begin, events))
  }

  lemma {:induction false} LastIsNotNewer(begin: nat, events: seq<Event>)
    ensures Now(LastPing(begin, events)) <= Now(Newest(begin, events))
  {
    LastWithinNewest(begin, events);
    NowMonotone(LastPing(begin, events), Newest(begin, events));
  }

  lemma {:induction false} LastWithinNewest(begin: nat, events: seq<Event>)
    ensures LastPing(begin, events) <= Newest(begin, events)
  {
    if events == [] {
    } else {
      LastWithinNewest(begin, events[..|events| - 1]);
    }
  }

  lemma WithinLimit(p: nat, time: nat, limit: nat)
    ensures Now(p + limit * SECOND) == Now(p) + limit
    ensures time <= p + limit * SECOND ==> Now(time) <= Now(p) + limit
  {
    assert p == Now(p) * SECOND + p % SECOND;
    assert p + limit * SECOND == (Now(p) + limit) * SECOND + p % SECOND;
    if time <= p + limit * SECOND {
      NowMonotone(time, p + limit * SECOND);
    }
  }

  /** A watcher spares a request at every check within the limit of the newest reading stored if and
      only if no older second has been stored over it. */
  lemma {:induction false} SparedIffInOrder(limit: nat, deployment: bool, begin: nat, events: seq<Event>)
    requires Unused(events)
    requires Run(limit, deployment, Fresh(begin), events).running
    requires WatcherTokens(limit, deployment, begin, events) == 0
    ensures var t := Run(limit, deployment, Fresh(begin), events);
      (forall time: nat :: time <= Newest(begin, events) + limit * SECOND ==>
         Step(limit, deployment, t, Check(time)).cancel == t.cancel) <==> InOrder(begin, events)
  {
    var t, newest := Run(limit, deployment, Fresh(begin), events), Newest(begin, events);
    StillWatching(limit, deployment, begin, events);
    TimestampIsLastPing(limit, deployment, begin, events);
    LastIsNotNewer(begin, events);
    WithinLimit(newest, 0, limit);
    if InOrder(begin, events) {
      forall time: nat | time <= newest + limit * SECOND
        ensures Step(limit, deployment, t, Check(time)).cancel == t.cancel
      {
        WithinLimit(newest, time, limit);
      }
    } else {
      var time: nat := newest + limit * SECOND;
      assert Step(limit, deployment, t, Check(time)).cancel != t.cancel;
    }
  }

  /** So a request whose every check comes within the limit of the newest reading stored is never
      cancelled, as long as no check finds an older second stored over it. */
  lemma {:induction false} PingedIsNeverCancelled(limit: nat, deployment: bool, begin: nat, events: seq<Event>)
    requires Unused(events)
    requires forall i :: 0 <= i < |events| && events[i].Check? ==>
      InOrder(begin, events[..i]) && events[i].time <= Newest(begin, events[..i]) + limit * SECOND
    ensures WatcherTokens(limit, deployment, begin, events) == 0
  {
    if events == [] {
    } else {
      var front, e := events[..|events| - 1], events[|events| - 1];
      forall i | 0 <= i < |front| && front[i].Check?
        ensures InOrder(begin, front[..i]) && front[i].time <= Newest(begin, front[..i]) + limit * SECOND
      {
        assert front[..i] == events[..i] && events[i].Check?;
      }
      PingedIsNeverCancelled(limit, deployment, begin, front);
      if e.Check? {
        TimestampIsLastPing(limit, deployment, begin, front);
        WithinLimit(Newest(begin, front), e.time, limit);
      }
    }
  }

  /** The failing run: a handler stores its reading of 4 s after another one has stored 9 s, and the
      check at 10 s cancels. */
  lemma LateStoreCancels()
    ensures var t := Step(NEW_TIMEOUT, true, Fresh(4 * SECOND), Event.Ping(9 * SECOND));
      var late := Step(NEW_TIMEOUT, true, t, Event.Ping(4 * SECOND));
      && Step(NEW_TIMEOUT, true, late, Check(10 * SECOND)).cancel == 1
      && Step(NEW_TIMEOUT, true, t, Check(10 * SECOND)).cancel == 0
  {
  }

  /** The two instances at the code's constants: the watcher of a deployment leaves a request alone up
      to 5 s of silence and has cancelled it from 6 s on, if the request still runs; the keepalive
      watcher does so at 600 s and 601 s. */
  lemma {:induction false} TimeoutsInSeconds(begin: nat, events: seq<Event>, time: nat)
    requires Unused(events)
    ensures var t := Run(NEW_TIMEOUT, true, Fresh(begin), events); var silence := time - LastPing(begin, events);
      && (silence <= 5 * SECOND ==> Step(NEW_TIMEOUT, true, t, Check(time)).cancel == t.cancel)
      && (silence >= 6 * SECOND && t.running ==>
            WatcherTokens(NEW_TIMEOUT, true, begin, events + [Check(time)]) == 1)
    ensures var t := Run(USE_TIMEOUT, false, Fresh(begin), events); var silence := time - LastPing(begin, events);
      && (silence <= 600 * SECOND ==> Step(USE_TIMEOUT, false, t, Check(time)).cancel == t.cancel)
      && (silence >= 601 * SECOND ==>
            WatcherTokens(USE_TIMEOUT, false, begin, events + [Check(time)]) == 1)
  {
    CheckCancelsExactly(NEW_TIMEOUT, true, begin, events, time);
    CheckCancelsExactly(USE_TIMEOUT, false, begin, events, time);
    CancelLatches(USE_TIMEOUT, false, begin, events, 0);
    if Run(NEW_TIMEOUT, true, Fresh(begin), events).running && time >= LastPing(begin, events) + 6 * SECOND {
      SilenceCancels(NEW_TIMEOUT, true, begin, events, time);
    }
    if time >= LastPing(begin, events) + 601 * SECOND {
      SilenceCancels(USE_TIMEOUT, false, begin, events, time);
    }
  }

  /** After _used the next check in a later second leaves the watcher's token; one in the same second
      adds none. */
  lemma {:induction false} UsedExpires(begin: nat, events: seq<Event>, used: nat, check: nat)
    ensures var before := WatcherTokens(USE_TIMEOUT, false, begin, events);
      WatcherTokens(USE_TIMEOUT, false, begin, events + [Used(used)] + [Check(check)])
        == if Now(check) > Now(used) then 1 else before
  {
    var e1 := events + [Used(used)];
    assert e1[..|events|] == events && (e1 + [Check(check)])[..|e1|] == e1;
    CancelLatches(USE_TIMEOUT, false, begin, events, 0);
    CancelLatches(USE_TIMEOUT, false, begin, e1 + [Check(check)], 0);
    if WatcherTokens(USE_TIMEOUT, false, begin, events) == 0 {
      StillWatching(USE_TIMEOUT, false, begin, events);
    }
  }

  // ---------------------------------------------------------------- queue position

  type Id = string

  datatype Entry = Entry(id: Id, start: int)

  ghost function Entries(pending: map<Id, int>): set<Entry> {
    set id | id in pending :: Entry(id, pending[id])
  }

  ghost predicate Sorted(order: seq<Entry>) {
    forall i, j :: 0 <= i < j < |order| ==> order[i].start <= order[j].start
  }

  /** Any result the library sort may return: ties come in any order. */
  ghost predicate SortedListing(order: seq<Entry>, pending: map<Id, int>) {
    && Sorted(order) && NoDup(order)
    && (forall x :: x in order <==> x in Entries(pending))
  }

  ghost function Earlier(pending: map<Id, int>, start: int): set<Id> {
    set id | id in pending && pending[id] < start
  }

  ghost function NoLater(pending: map<Id, int>, start: int): set<Id> {
    set id | id in pending && pending[id] <= start
  }

  ghost function IdsOf(order: seq<Entry>): set<Id> {
    set x | x in order :: x.id
  }

  lemma {:induction false} IdsOfSize(order: seq<Entry>)
    requires forall i, j :: 0 <= i < j < |order| ==> order[i].id != order[j].id
    ensures |IdsOf(order)| == |order|
  {
    if order == [] {
    } else {
      var front, last := order[..|order| - 1], order[|order| - 1];
      IdsOfSize(front);
      assert last.id !in IdsOf(front);
      assert IdsOf(order) == IdsOf(front) + {last.id} by {
        assert order == front + [last];
      }
    }
  }

  lemma SizeMonotone(a: set<Id>, b: set<Id>)
    requires a <= b
    ensures |a| <= |b|
  {
    assert b == a + (b - a);
  }

  /** The index of an entry in any sorted listing lies between the number of strictly earlier
      requests and the number of no-later ones minus one. */
  lemma PositionBounds(order: seq<Entry>, pending: map<Id, int>, k: nat)
    requires SortedListing(order, pending) && k < |order|
    ensures order[k].id in pending && pending[order[k].id] == order[k].start
    ensures |Earlier(pending, order[k].start)| <= k < |NoLater(pending, order[k].start)|
  {
    forall i | 0 <= i < |order|
      ensures order[i].id in pending && pending[order[i].id] == order[i].start
    {
      assert order[i] in order;
    }
    IdsOfSize(order[..k]);
    IdsOfSize(order[..k + 1]);
    var start := order[k].start;
    forall id | id in Earlier(pending, start)
      ensures id in IdsOf(order[..k])
    {
      var x := Entry(id, pending[id]);
      assert x in order;
      var i :| 0 <= i < |order| && order[i] == x;
      assert order[..k][i] == x;
    }
    SizeMonotone(Earlier(pending, start), IdsOf(order[..k]));
    forall id | id in IdsOf(order[..k + 1])
      ensures id in NoLater(pending, start)
    {
      var x :| x in order[..k + 1] && x.id == id;
      var i :| 0 <= i < k + 1 && order[..k + 1][i] == x;
      assert order[i] == x;
    }
    SizeMonotone(IdsOf(order[..k + 1]), NoLater(pending, start));
  }

  // ---- requests come and go

  /** `pending` as the server's map has it; `flight` holds the start times of handlers that have
      read the clock and do not have the lock yet; `clock` is the latest reading. */
  datatype Queue = Queue(clock: nat, flight: map<Id, int>, pending: map<Id, int>)

  datatype Change =
    | Read(id: Id, time: nat)
    | Insert(id: Id)
    | End(id: Id)

  /** Ids are unique while in flight or pending, and the clock never runs backwards. */
  function Apply(q: Queue, c: Change): Queue {
    match c
    case Read(id, time) =>
      if id in q.flight || id in q.pending || time < q.clock then q
      else q.(clock := time, flight := q.flight[id := Now(time)])
    case Insert(id) =>
      if id !in q.flight then q
      else q.(flight := q.flight - {id}, pending := q.pending[id := q.flight[id]])
    case End(id) => q.(pending := q.pending - {id})
  }

  function Replay(q: Queue, changes: seq<Change>): Queue {
    if changes == [] then q
    else Apply(Replay(q, changes[..|changes| - 1]), changes[|changes| - 1])
  }

  /** A step puts somebody ahead of a pending request if and only if it inserts a handler that
      read an earlier second and was still in flight. */
  lemma OvertakenIffLateInsert(q: Queue, c: Change, start: int)
    requires q.flight.Keys !! q.pending.Keys
    ensures !(Earlier(Apply(q, c).pending, start) <= Earlier(q.pending, start)) <==>
      c.Insert? && c.id in q.flight && q.flight[c.id] < start
  {
    var after := Apply(q, c).pending;
    if c.Insert? && c.id in q.flight && q.flight[c.id] < start {
      assert c.id in Earlier(after, start);
    } else {
      assert forall id :: id in after && after[id] < start ==> id in q.pending && q.pending[id] < start;
    }
  }

  /** Those ahead of a request, in the map or still on the way to it. */
  ghost function Ahead(q: Queue, start: int): set<Id> {
    Earlier(q.pending, start) + Earlier(q.flight, start)
  }

  lemma NowMonotone(a: nat, b: nat)
    requires a <= b
    ensures Now(a) <= Now(b)
  {
  }

  lemma ApplyKeepsAhead(q: Queue, c: Change, start: int)
    requires start <= Now(q.clock)
    ensures Ahead(Apply(q, c), start) <= Ahead(q, start) && start <= Now(Apply(q, c).clock)
  {
    if c.Read? && q.clock <= c.time {
      NowMonotone(q.clock, c.time);
    }
  }

  /** Over every run after the request has read the clock, the requests ahead of it, in the map
      or in flight, only become fewer; so the lower bound on its position stays below their
      number at the beginning. */
  lemma {:induction false} AheadNeverGrows(q: Queue, changes: seq<Change>, start: int)
    requires start <= Now(q.clock)
    ensures Ahead(Replay(q, changes), start) <= Ahead(q, start)
    ensures start <= Now(Replay(q, changes).clock)
    ensures |Earlier(Replay(q, changes).pending, start)| <= |Ahead(q, start)|
  {
    if changes == [] {
    } else {
      var front := changes[..|changes| - 1];
      AheadNeverGrows(q, front, start);
      ApplyKeepsAhead(Replay(q, front), changes[|changes| - 1], start);
    }
    SizeMonotone(Earlier(Replay(q, changes).pending, start), Ahead(q, start));
  }

  const START := Queue(0, map[], map[])

  /** Ids are never in flight and pending at once. */
  lemma {:induction false} FlightApart(changes: seq<Change>)
    ensures var q := Replay(START, changes); q.flight.Keys !! q.pending.Keys
  {
    if changes == [] {
    } else {
      FlightApart(changes[..|changes| - 1]);
    }
  }

  lemma {:induction false} NeverOvertakenFrom(q: Queue, start: int)
    requires q.flight.Keys !! q.pending.Keys && start <= Now(q.clock)
    ensures (forall changes :: Earlier(Replay(q, changes).pending, start) <= Earlier(q.pending, start)) <==>
      Earlier(q.flight, start) == {}
  {
    if Earlier(q.flight, start) == {} {
      forall changes
        ensures Earlier(Replay(q, changes).pending, start) <= Earlier(q.pending, start)
      {
        AheadNeverGrows(q, changes, start);
      }
    } else {
      var id :| id in Earlier(q.flight, start);
      var changes := [Insert(id)];
      assert changes[..0] == [];
      assert Replay(q, changes) == Apply(q, Insert(id));
      OvertakenIffLateInsert(q, Insert(id), start);
    }
  }

  /** After any run so far, a request is overtaken in no further run if and only if nobody with an
      earlier second is in flight. */
  lemma {:induction false} NeverOvertakenIff(before: seq<Change>, start: int)
    requires start <= Now(Replay(START, before).clock)
    ensures var q := Replay(START, before);
      (forall changes :: Earlier(Replay(q, changes).pending, start) <= Earlier(q.pending, start)) <==>
      Earlier(q.flight, start) == {}
  {
    FlightApart(before);
    NeverOvertakenFrom(Replay(START, before), start);
  }

  /** The failing run: x reads 5.999 s, y reads 6 s and is inserted first, then x is. */
  lemma OvertakenWhileInFlight()
    ensures var q := Replay(START, [Read("x", 5_999_000_000), Read("y", 6_000_000_000), Insert("y")]);
      && q.pending == map["y" := 6] && Earlier(q.pending, 6) == {}
      && Earlier(Apply(q, Insert("x")).pending, 6) == {"x"}
  {
    var x, y, i := Read("x", 5_999_000_000), Read("y", 6_000_000_000), Insert("y");
    assert [x, y, i][..2] == [x, y] && [x, y][..1] == [x] && [x][..0] == [];
    var q1 := Apply(START, x);
    assert q1 == Queue(5_999_000_000, map["x" := 5], map[]);
    var q2 := Apply(q1, y);
    assert q2 == Queue(6_000_000_000, map["x" := 5, "y" := 6], map[]);
    assert q2.flight - {"y"} == map["x" := 5];
    var q3 := Queue(6_000_000_000, map["x" := 5], map["y" := 6]);
    assert Apply(q2, i) == q3;
    assert Replay(START, [x]) == q1;
    assert [x, y][|[x, y]| - 1] == y;
    assert Replay(START, [x, y]) == q2;
    assert Replay(START, [x, y, i]) == q3;
    assert Apply(q3, Insert("x")).pending == map["y" := 6, "x" := 5];
  }

  // ---------------------------------------------------------------- handlers

  /** The cancel channel with the times the watcher looks at. */
  class Deployment {
    var cancel: nat
    const start: int
    var timestamp: int
    var watching: bool
    var running: bool

    ghost function View(): Timer
      reads this
    {
      Timer(cancel, timestamp, watching, running)
    }

    /** Two readings of the clock, first the timestamp's. */
    constructor (time: nat, startTime: nat)
      ensures View() == Fresh(time) && start == Now(startTime)
    {
      cancel, start, timestamp, watching, running := 0, Now(startTime), Now(time), true, true;
    }

    method Touch(time: nat)
      modifies this
      ensures forall limit, deployment :: View() == Step(limit, deployment, old(View()), Event.Ping(time))
      ensures timestamp == Now(time) && cancel == old(cancel)
    {
      timestamp := Now(time);
    }

    method MarkUsed(time: nat)
      modifies this
      ensures forall limit, deployment :: View() == Step(limit, deployment, old(View()), Event.Used(time))
      ensures timestamp == Now(time) - 600 && cancel == old(cancel)
    {
      timestamp := Now(time) - USE_TIMEOUT;
    }

    /** One turn of a watcher loop. */
    method Watch(limit: int, deployment: bool, time: nat)
      modifies this
      ensures View() == Step(limit, deployment, old(View()), Event.Check(time))
      ensures var late := old(watching) && Now(time) - old(timestamp) > limit;
        && cancel == old(cancel) + (if late then 1 else 0)
        && watching == (old(watching) && !late && (!deployment || running))
        && timestamp == old(timestamp) && running == old(running)
    {
      if watching {
        if Now(time) - timestamp > limit {
          cancel := cancel + 1;
          watching := false;
        } else {
          watching := !deployment || running;
        }
      }
    }

    method Return(time: nat)
      requires running
      modifies this
      ensures View() == Step(NEW_TIMEOUT, true, old(View()), Event.Finish(time))
      ensures !running && cancel == old(cancel) + 1
    {
      running := false;
      cancel := cancel + 1;
    }
  }

  class HttpServer {
    var pending: map<Id, Deployment>
    var keepalives: map<Id, Deployment>

    /** Start times of the pending requests. */
    function Starts(): map<Id, int>
      reads this
    {
      map id | id in pending :: pending[id].start
    }

    /** Start times of handlers between their clock reading and the lock. */
    ghost var flight: map<Id, int>
    ghost var clock: nat

    ghost function View(): Queue
      reads this
    {
      Queue(clock, flight, Starts())
    }

    constructor ()
      ensures pending == map[] && keepalives == map[] && View() == START
    {
      pending, keepalives, flight, clock := map[], map[], map[], 0;
    }

    /** `new` up to the lock: four readings of the clock, for the two fields of both timers. */
    method Prepare(id: Id, ghost now: nat, t1: nat, t2: nat, t3: nat, t4: nat)
        returns (deployment: Deployment, keepalive: Deployment)
      requires id !in flight && id !in pending && now == clock <= t1 <= t2 <= t3 <= t4
      modifies this`flight, this`clock
      ensures fresh(deployment) && fresh(keepalive) && deployment != keepalive
      ensures deployment.View() == Fresh(t1) && keepalive.View() == Fresh(t3)
      ensures id in flight && deployment.start == flight[id]
      ensures View() == Apply(old(View()), Read(id, t2))
    {
      deployment := new Deployment(t1, t2);
      keepalive := new Deployment(t3, t4);
      flight, clock := flight[id := deployment.start], t2;
    }

    /** The critical section of `new`. */
    method Register(id: Id, deployment: Deployment, keepaliveId: Id, keepalive: Deployment)
      requires id in flight && flight[id] == deployment.start
      modifies this
      ensures pending == old(pending)[id := deployment] && keepalives == old(keepalives)[keepaliveId := keepalive]
      ensures View() == Apply(old(View()), Insert(id))
    {
      pending := pending[id := deployment];
      keepalives := keepalives[keepaliveId := keepalive];
      flight := flight - {id};
    }

    /** The deferred critical section of `new`; keepalives stay. */
    method Forget(id: Id)
      modifies this`pending
      ensures pending == old(pending) - {id}
      ensures View() == Apply(old(View()), Change.End(id))
    {
      pending := pending - {id};
    }

    /** `_new` up to its second critical section, which is CurrentPosition. */
    method Refresh(id: Id, time: nat) returns (found: bool)
      modifies if id in pending then {pending[id]} else {}
      ensures found <==> id in pending
      ensures found ==> pending[id].View() == Step(NEW_TIMEOUT, true, old(pending[id].View()), Event.Ping(time))
      ensures View() == old(View())
    {
      found := id in pending;
      if found {
        pending[id].Touch(time);
      }
    }

    /** `_use` and `_used`. */
    method Keep(id: Id, used: bool, time: nat) returns (found: bool)
      modifies if id in keepalives then {keepalives[id]} else {}
      ensures found <==> id in keepalives
      ensures found ==>
        var e := if used then Event.Used(time) else Event.Ping(time);
        keepalives[id].View() == Step(USE_TIMEOUT, false, old(keepalives[id].View()), e)
    {
      found := id in keepalives;
      if found {
        if used {
          keepalives[id].MarkUsed(time);
        } else {
          keepalives[id].Touch(time);
        }
      }
    }

    /** get_current_position: list the pending requests in any order, sort, search. The request
        may have ended since the ping that asks; then, and only then, the answer is -1. */
    method CurrentPosition(id: Id) returns (position: int)
      ensures position == -1 <==> id !in pending
      ensures id in pending ==>
        |Earlier(Starts(), pending[id].start)| <= position < |NoLater(Starts(), pending[id].start)|
    {
      var starts := Starts();
      var order := [];
      var keys := starts.Keys;
      while keys != {}
        invariant keys <= starts.Keys
        invariant Sorted(order) && NoDup(order)
        invariant forall x :: x in order <==> x in Entries(starts) && x.id !in keys
        decreases keys
      {
        var k :| k in keys;
        keys := keys - {k};
        order := InsertByStart(order, Entry(k, starts[k]));
      }
      assert id in pending ==> Entry(id, starts[id]) in order;
      position := -1;
      for i := 0 to |order|
        invariant forall j :: 0 <= j < i ==> order[j].id != id
      {
        if order[i].id == id {
          PositionBounds(order, starts, i);
          return i;
        }
      }
    }
  }

  lemma SplicedSorted(order: seq<Entry>, i: nat, x: Entry)
    requires Sorted(order) && i <= |order|
    requires i > 0 ==> order[i - 1].start <= x.start
    requires i < |order| ==> x.start < order[i].start
    ensures Sorted(order[..i] + [x] + order[i..])
  {
    var r := order[..i] + [x] + order[i..];
    assert forall k :: 0 <= k < |r| ==> r[k] == if k < i then order[k] else if k == i then x else order[k - 1];
  }

  lemma SplicedDistinct(order: seq<Entry>, i: nat, x: Entry)
    requires NoDup(order) && x !in order && i <= |order|
    ensures NoDup(order[..i] + [x] + order[i..])
  {
    var r := order[..i] + [x] + order[i..];
    forall j, k | 0 <= j < k < |r|
      ensures r[j] != r[k]
    {
      var j', k' := if j <= i then j else j - 1, if k <= i then k else k - 1;
      assert j != i ==> r[j] == order[j'];
      assert k != i ==> r[k] == order[k'];
    }
  }

  lemma SplicedMembers(order: seq<Entry>, i: nat, x: Entry, y: Entry)
    requires i <= |order|
    ensures y in order[..i] + [x] + order[i..] <==> y in order || y == x
  {
    assert order == order[..i] + order[i..];
  }

  /** Stands for the library sort, whose result is only known to be a sorted permutation. */
  method InsertByStart(order: seq<Entry>, x: Entry) returns (r: seq<Entry>)
    requires Sorted(order) && NoDup(order) && x !in order
    ensures Sorted(r) && NoDup(r)
    ensures forall y :: y in r <==> y in order || y == x
  {
    var i := |order|;
    while i > 0 && order[i - 1].start > x.start
      invariant 0 <= i <= |order|
      invariant i < |order| ==> order[i].start > x.start
    {
      i := i - 1;
    }
    r := order[..i] + [x] + order[i..];
    SplicedSorted(order, i, x);
    SplicedDistinct(order, i, x);
    forall y ensures y in r <==> y in order || y == x { SplicedMembers(order, i, x, y); }
  }
}
