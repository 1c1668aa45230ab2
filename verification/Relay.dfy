/** The relay between two paired tenants whose mailboxes are filled and drained by HTTP polls. */
module Relay {
  import opened Seqs

  datatype Message = START | Payload(text: string)

  datatype Side = A | B

  function Other(side: Side): Side { if side.A? then B else A }

  const MAILBOX := 64

  /** One tenant's poll handler: posting the request body, then draining; Idle between polls. */
  datatype Poll = Idle | Serving(rest: seq<Message>)

  /** `posted` and `drained` record what the polls put in and took out. */
  datatype Tenant = Tenant(
    exited: bool,
    incoming: seq<Option<Message>>,
    outcoming: seq<Message>,
    poll: Poll,
    posted: seq<Message>,
    drained: seq<Message>)

  /** A relay goroutine: blocked in Receive, about to test the exit flags, about to Send. */
  datatype Thread = Receiving | Holding(got: Option<Message>) | Passing(msg: Message) | Stopped

  /** The goroutine that ends both tenants: each Exit sets the flag, then pushes a nil. */
  datatype Closer = AwaitStop | LookAt(side: Side) | PushNil(side: Side) | Done

  /** `started` counts the START messages handlePair has sent (to B, then to A). */
  datatype State = State(a: Tenant, b: Tenant, fromA: Thread, fromB: Thread, started: nat, stops: nat, closer: Closer) {
    function Of(side: Side): Tenant { if side.A? then a else b }
    function With(side: Side, t: Tenant): State { if side.A? then this.(a := t) else this.(b := t) }
    function From(side: Side): Thread { if side.A? then fromA else fromB }
    function WithFrom(side: Side, t: Thread): State { if side.A? then this.(fromA := t) else this.(fromB := t) }
  }

  datatype Event =
    | SendStart
    | Receive(from: Side)
    | Check(from: Side)
    | Forward(from: Side)
    | Close
    | BeginPoll(side: Side, body: seq<Message>)
    | PollStep(side: Side)

  function CloseStep(s: State): State {
    match s.closer
    case AwaitStop => if s.stops > 0 then s.(stops := s.stops - 1, closer := LookAt(A)) else s
    case LookAt(side) =>
      if s.Of(side).exited then s.(closer := if side.A? then LookAt(B) else Done)
      else s.With(side, s.Of(side).(exited := true)).(closer := PushNil(side))
    case PushNil(side) =>
      if |s.Of(side).incoming| >= MAILBOX then s
      else
        var shut := s.Of(side).(incoming := s.Of(side).incoming + [None]);
        s.With(side, shut).(closer := if side.A? then LookAt(B) else Done)
    case Done => s
  }

  function SendStartStep(s: State): State {
    var side := if s.started == 0 then B else A;
    if s.started >= 2 || |s.Of(side).outcoming| >= MAILBOX then s
    else s.With(side, s.Of(side).(outcoming := s.Of(side).outcoming + [START])).(started := s.started + 1)
  }

  function ReceiveStep(s: State, from: Side): State {
    var t := s.Of(from);
    if s.started < 2 || s.From(from) != Receiving || t.incoming == [] then s
    else s.With(from, t.(incoming := t.incoming[1..])).WithFrom(from, Holding(t.incoming[0]))
  }

  function CheckStep(s: State, from: Side): State {
    if !s.From(from).Holding? then s
    else if s.a.exited || s.b.exited || s.From(from).got.None? then
      s.WithFrom(from, Stopped).(stops := s.stops + 1)
    else s.WithFrom(from, Passing(s.From(from).got.value))
  }

  function ForwardStep(s: State, from: Side): State {
    var t := s.Of(Other(from));
    if !s.From(from).Passing? || |t.outcoming| >= MAILBOX then s
    else s.With(Other(from), t.(outcoming := t.outcoming + [s.From(from).msg])).WithFrom(from, Receiving)
  }

  /** One turn of a poll handler on its own tenant: post, else drain, else reply. */
  function Served(t: Tenant): Tenant {
    if t.poll.Idle? then t
    else if t.poll.rest != [] then
      if |t.incoming| >= MAILBOX then t
      else t.(incoming := t.incoming + [Some(t.poll.rest[0])],
              posted := t.posted + [t.poll.rest[0]],
              poll := Serving(t.poll.rest[1..]))
    else if t.outcoming != [] then t.(outcoming := t.outcoming[1..], drained := t.drained + [t.outcoming[0]])
    else t.(poll := Idle)
  }

  /** A step that is not enabled (an empty or full mailbox, the wrong position) changes nothing. */
  function Step(s: State, e: Event): State {
    match e
    case SendStart => SendStartStep(s)
    case Receive(from) => ReceiveStep(s, from)
    case Check(from) => CheckStep(s, from)
    case Forward(from) => ForwardStep(s, from)
    case Close => CloseStep(s)
    case BeginPoll(side, body) =>
      var t := s.Of(side);
      if t.poll != Idle || t.exited then s else s.With(side, t.(poll := Serving(body)))
    case PollStep(side) => s.With(side, Served(s.Of(side)))
  }

  function Run(s: State, events: seq<Event>): State {
    if events == [] then s else Step(Run(s, events[..|events| - 1]), events[|events| - 1])
  }

  /** A tenant that has polled for a while before being paired. */
  ghost predicate Unpaired(t: Tenant) {
    && !t.exited && t.outcoming == [] && t.drained == []
    && Messages(t.incoming) == t.posted && |t.incoming| <= MAILBOX
  }

  ghost predicate Paired(s: State) {
    Unpaired(s.a) && Unpaired(s.b) && s == State(s.a, s.b, Receiving, Receiving, 0, 0, AwaitStop)
  }

  /** The mailbox content without the nils that Exit pushes. */
  function Messages(box: seq<Option<Message>>): seq<Message> {
    if box == [] then []
    else (if box[0].Some? then [box[0].value] else []) + Messages(box[1..])
  }

  lemma {:induction false} MessagesSnoc(box: seq<Option<Message>>, m: Option<Message>)
    ensures Messages(box + [m]) == Messages(box) + if m.Some? then [m.value] else []
  {
    if box == [] {
      assert box + [m] == [m];
    } else {
      assert (box + [m])[1..] == box[1..] + [m];
      MessagesSnoc(box[1..], m);
      PlusAssoc(if box[0].Some? then [box[0].value] else [], Messages(box[1..]), if m.Some? then [m.value] else []);
    }
  }

  /** What a tenant has received or will drain: everything ever sent to it. */
  function Sent(t: Tenant): seq<Message> { t.drained + t.outcoming }

  function InHand(t: Thread): seq<Message> {
    match t
    case Holding(Some(m)) => [m]
    case Passing(m) => [m]
    case _ => []
  }

  function Greeting(s: State, to: Side): seq<Message> {
    if s.started >= 2 || (s.started == 1 && to.B?) then [START] else []
  }

  /** One direction: after the greeting nothing is lost, repeated or reordered while the thread
      runs, and what arrived stays a prefix of what was posted once it has stopped. */
  ghost predicate Channel(greeting: seq<Message>, sent: seq<Message>, thread: Thread,
                          box: seq<Option<Message>>, posted: seq<Message>)
  {
    && greeting <= sent
    && (thread != Stopped ==> sent[|greeting|..] + InHand(thread) + Messages(box) == posted)
    && (thread == Stopped ==> sent[|greeting|..] <= posted)
  }

  ghost predicate Flow(s: State, to: Side) {
    var from := Other(to);
    && Channel(Greeting(s, to), Sent(s.Of(to)), s.From(from), s.Of(from).incoming, s.Of(from).posted)
    && (s.started < 2 ==> s.From(from) == Receiving && Sent(s.Of(to)) == Greeting(s, to))
  }

  ghost predicate Inv(s: State) { Flow(s, A) && Flow(s, B) }

  ghost predicate Bounded(s: State) {
    && |s.a.incoming| <= MAILBOX && |s.a.outcoming| <= MAILBOX
    && |s.b.incoming| <= MAILBOX && |s.b.outcoming| <= MAILBOX
  }

  lemma StepKeepsBounds(s: State, e: Event)
    requires Bounded(s)
    ensures Bounded(Step(s, e))
  {
  }

  lemma ChannelReceives(greeting: seq<Message>, sent: seq<Message>, box: seq<Option<Message>>, posted: seq<Message>)
    requires box != [] && Channel(greeting, sent, Receiving, box, posted)
    ensures Channel(greeting, sent, Holding(box[0]), box[1..], posted)
  {
    var relayed, first, others := sent[|greeting|..], InHand(Holding(box[0])), Messages(box[1..]);
    assert Messages(box) == first + others;
    assert relayed + [] + (first + others) == relayed + first + others;
  }

  lemma ChannelStops(
      greeting: seq<Message>, sent: seq<Message>, thread: Thread, box: seq<Option<Message>>, posted: seq<Message>)
    requires Channel(greeting, sent, thread, box, posted)
    ensures Channel(greeting, sent, Stopped, box, posted)
  {
  }

  lemma ChannelForwards(
      greeting: seq<Message>, sent: seq<Message>, m: Message, box: seq<Option<Message>>, posted: seq<Message>)
    requires Channel(greeting, sent, Passing(m), box, posted)
    ensures Channel(greeting, sent + [m], Receiving, box, posted)
  {
    assert (sent + [m])[|greeting|..] == sent[|greeting|..] + [m];
  }

  lemma ChannelFills(greeting: seq<Message>, sent: seq<Message>, thread: Thread, box: seq<Option<Message>>,
                     posted: seq<Message>, m: Option<Message>)
    requires Channel(greeting, sent, thread, box, posted)
    ensures Channel(greeting, sent, thread, box + [m], posted + if m.Some? then [m.value] else [])
  {
    MessagesSnoc(box, m);
    var before, added := sent[|greeting|..] + InHand(thread), if m.Some? then [m.value] else [];
    assert before + (Messages(box) + added) == before + Messages(box) + added;
  }

  lemma SendStartKeeps(s: State)
    requires Inv(s)
    ensures Inv(SendStartStep(s))
  {
    var s' := SendStartStep(s);
    if s' != s {
      assert forall to: Side :: Sent(s'.Of(to)) == Greeting(s', to);
    }
  }

  lemma ReceiveKeeps(s: State, from: Side)
    requires Inv(s)
    ensures Inv(ReceiveStep(s, from))
  {
    var s' := ReceiveStep(s, from);
    if s' != s {
      var t := s.Of(from);
      assert Flow(s, Other(from)) && Flow(s, from);
      ChannelReceives(Greeting(s, Other(from)), Sent(s.Of(Other(from))), t.incoming, t.posted);
      assert Flow(s', Other(from)) && Flow(s', from);
    }
  }

  lemma CheckKeeps(s: State, from: Side)
    requires Inv(s)
    ensures Inv(CheckStep(s, from))
  {
    var s' := CheckStep(s, from);
    if s' != s {
      var t := s.Of(from);
      assert Flow(s, Other(from)) && Flow(s, from);
      ChannelStops(Greeting(s, Other(from)), Sent(s.Of(Other(from))), s.From(from), t.incoming, t.posted);
      assert Flow(s', Other(from)) && Flow(s', from);
    }
  }

  lemma ForwardKeeps(s: State, from: Side)
    requires Inv(s)
    ensures Inv(ForwardStep(s, from))
  {
    var s' := ForwardStep(s, from);
    if s' != s {
      var t, to := s.Of(from), Other(from);
      var m := s.From(from).msg;
      assert Flow(s, to) && Flow(s, from);
      PlusAssoc(s.Of(to).drained, s.Of(to).outcoming, [m]);
      assert Sent(s'.Of(to)) == Sent(s.Of(to)) + [m] && Greeting(s', to) == Greeting(s, to);
      ChannelForwards(Greeting(s, to), Sent(s.Of(to)), m, t.incoming, t.posted);
      assert Flow(s', to) && Flow(s', from);
    }
  }

  /** A change that leaves both directions' components alone. */
  lemma Untouched(s: State, s': State)
    requires Inv(s) && s'.started == s.started && s'.fromA == s.fromA && s'.fromB == s.fromB
    requires Sent(s'.a) == Sent(s.a) && s'.a.incoming == s.a.incoming && s'.a.posted == s.a.posted
    requires Sent(s'.b) == Sent(s.b) && s'.b.incoming == s.b.incoming && s'.b.posted == s.b.posted
    ensures Inv(s')
  {
  }

  /** Only the mailbox of `side` and its posting record change. */
  lemma BoxGrows(s: State, s': State, side: Side)
    requires Inv(s) && s'.started == s.started && s'.fromA == s.fromA && s'.fromB == s.fromB
    requires s'.Of(Other(side)) == s.Of(Other(side)) && Sent(s'.Of(side)) == Sent(s.Of(side))
    requires Channel(
      Greeting(s, Other(side)), Sent(s.Of(Other(side))), s.From(side), s'.Of(side).incoming, s'.Of(side).posted)
    ensures Inv(s')
  {
    assert Flow(s, A) && Flow(s, B);
    if side.A? {
      assert Flow(s', A) && Flow(s', B);
    } else {
      assert Flow(s', A) && Flow(s', B);
    }
  }

  lemma CloseKeeps(s: State)
    requires Inv(s)
    ensures Inv(CloseStep(s))
  {
    var s' := CloseStep(s);
    if s.closer.PushNil? && s' != s {
      var t, to := s.Of(s.closer.side), Other(s.closer.side);
      assert Flow(s, to);
      ChannelFills(Greeting(s, to), Sent(s.Of(to)), s.From(s.closer.side), t.incoming, t.posted, None);
      assert t.posted + [] == t.posted;
      BoxGrows(s, s', s.closer.side);
    } else {
      Untouched(s, s');
    }
  }

  /** Draining moves a message from one half of what was sent to the other; only posting
      touches the mailbox and the posting record. */
  lemma ServedAccounts(t: Tenant)
    ensures var t' := Served(t);
      && Sent(t') == Sent(t)
      && ((t'.incoming == t.incoming && t'.posted == t.posted)
          || (t.poll.Serving? && t.poll.rest != [] && t'.incoming == t.incoming + [Some(t.poll.rest[0])]
              && t'.posted == t.posted + [t.poll.rest[0]]))
  {
    if t.poll.Serving? && t.poll.rest == [] && t.outcoming != [] {
      assert t.outcoming == [t.outcoming[0]] + t.outcoming[1..];
      PlusAssoc(t.drained, [t.outcoming[0]], t.outcoming[1..]);
    }
  }

  lemma PollKeeps(s: State, side: Side)
    requires Inv(s)
    ensures Inv(s.With(side, Served(s.Of(side))))
  {
    var t, to := s.Of(side), Other(side);
    var t', s' := Served(t), s.With(side, Served(t));
    ServedAccounts(t);
    if t'.incoming == t.incoming && t'.posted == t.posted {
      Untouched(s, s');
    } else {
      assert Flow(s, to);
      ChannelFills(Greeting(s, to), Sent(s.Of(to)), s.From(side), t.incoming, t.posted, Some(t.poll.rest[0]));
      BoxGrows(s, s', side);
    }
  }

  lemma {:induction false} StepKeepsInv(s: State, e: Event)
    requires Inv(s)
    ensures Inv(Step(s, e))
  {
    match e
    case SendStart => SendStartKeeps(s);
    case Receive(from) => ReceiveKeeps(s, from);
    case Check(from) => CheckKeeps(s, from);
    case Forward(from) => ForwardKeeps(s, from);
    case Close => CloseKeeps(s);
    case BeginPoll(side, body) =>
    case PollStep(side) => PollKeeps(s, side);
  }

  lemma {:induction false} RunKeepsInv(s: State, events: seq<Event>)
    requires Paired(s)
    ensures Inv(Run(s, events)) && Bounded(Run(s, events))
  {
    if events != [] {
      RunKeepsInv(s, events[..|events| - 1]);
      StepKeepsInv(Run(s, events[..|events| - 1]), events[|events| - 1]);
      StepKeepsBounds(Run(s, events[..|events| - 1]), events[|events| - 1]);
    } else {
      assert Sent(s.a) == Sent(s.b) == [];
    }
  }

  /** What `to` has drained or can drain is nothing yet, or START followed by a prefix of what
      its partner posted; what is missing is in the thread's hand or the partner's mailbox for
      as long as the thread runs. */
  ghost predicate Delivered(s: State, to: Side) {
    var from := Other(to);
    var got := s.Of(to).drained + s.Of(to).outcoming;
    && (got == [] || (got[0] == START && got[1..] <= s.Of(from).posted))
    && (s.started == 2 ==> got != [])
    && (s.started == 2 && s.From(from) != Stopped ==>
          got[1..] + InHand(s.From(from)) + Messages(s.Of(from).incoming) == s.Of(from).posted)
  }

  lemma FlowDelivers(s: State, to: Side)
    requires Flow(s, to)
    ensures Delivered(s, to)
  {
  }

  /** Under every interleaving of the relay threads, the closer, posts and drains, delivery in
      both directions is in order, without gaps or duplicates. */
  lemma {:induction false} RelayIsInOrder(s0: State, events: seq<Event>)
    requires Paired(s0)
    ensures Delivered(Run(s0, events), A) && Delivered(Run(s0, events), B)
  {
    RunKeepsInv(s0, events);
    FlowDelivers(Run(s0, events), A);
    FlowDelivers(Run(s0, events), B);
  }

  // ---------------------------------------------------------------- what the relay accomplishes

  /** No nil in a mailbox or a hand, nobody has exited and no thread has stopped. */
  ghost predicate Calm(s: State) {
    && None !in s.a.incoming && None !in s.b.incoming && !s.a.exited && !s.b.exited
    && s.fromA != Holding(None) && s.fromB != Holding(None) && s.fromA != Stopped && s.fromB != Stopped
    && s.stops == 0 && s.closer == AwaitStop
  }

  lemma StepKeepsCalm(s: State, e: Event)
    requires Calm(s)
    ensures Calm(Step(s, e))
  {
  }

  lemma {:induction false} CalmRun(s: State, events: seq<Event>)
    requires Calm(s)
    ensures Calm(Run(s, events))
  {
    if events == [] {
    } else {
      CalmRun(s, events[..|events| - 1]);
      StepKeepsCalm(Run(s, events[..|events| - 1]), events[|events| - 1]);
    }
  }

  /** Everything the partner of `to` has posted is on its way to `to`, or there. */
  ghost predicate Accounted(s: State, to: Side) {
    var t := s.Of(Other(to));
    Sent(s.Of(to)) + InHand(s.From(Other(to))) + Messages(t.incoming) == [START] + t.posted
  }

  /** Over every run of two tenants without a nil in their mailboxes no thread ever stops and nobody
      exits; so nothing posted is lost: it has arrived, is in the thread's hand or in the mailbox. */
  lemma {:induction false} NothingIsLost(s0: State, events: seq<Event>)
    requires Paired(s0) && None !in s0.a.incoming && None !in s0.b.incoming
    ensures var s := Run(s0, events);
      && s.fromA != Stopped && s.fromB != Stopped && !s.a.exited && !s.b.exited
      && (s.started == 2 ==> Accounted(s, A) && Accounted(s, B))
  {
    CalmRun(s0, events);
    RelayIsInOrder(s0, events);
    if Run(s0, events).started == 2 {
      DeliveredAccounts(Run(s0, events), A);
      DeliveredAccounts(Run(s0, events), B);
    }
  }

  lemma DeliveredAccounts(s: State, to: Side)
    requires Delivered(s, to) && s.started == 2 && s.From(Other(to)) != Stopped
    ensures Accounted(s, to)
  {
    var got := Sent(s.Of(to));
    assert got == [START] + got[1..];
  }

  function OneTurn(from: Side): seq<Event> { [Receive(from), Check(from), Forward(from)] }

  lemma RunThree(s: State, e: Event, f: Event, g: Event)
    ensures Run(s, [e, f, g]) == Step(Step(Step(s, e), f), g)
  {
    assert [e, f, g][..2] == [e, f] && [e, f][..1] == [e] && [e][..0] == [];
    assert Run(s, [e]) == Step(s, e);
    assert Run(s, [e, f]) == Step(Step(s, e), f);
  }

  /** One turn of a relay thread moves the oldest message to the partner and is ready for the next. */
  lemma TurnMoves(s: State, from: Side)
    requires s.started == 2 && s.From(from) == Receiving && !s.a.exited && !s.b.exited
    requires s.Of(from).incoming != [] && s.Of(from).incoming[0].Some?
    requires |s.Of(Other(from)).outcoming| < MAILBOX
    ensures var s' := Run(s, OneTurn(from)); var t, u := s.Of(from), s.Of(Other(from));
      && s'.Of(from) == t.(incoming := t.incoming[1..])
      && s'.Of(Other(from)) == u.(outcoming := u.outcoming + [t.incoming[0].value])
      && s'.fromA == s.fromA && s'.fromB == s.fromB
      && s'.started == 2 && s'.stops == s.stops && s'.closer == s.closer
  {
    RunThree(s, Receive(from), Check(from), Forward(from));
  }

  lemma {:induction false} RunPlus(s: State, x: seq<Event>, y: seq<Event>)
    ensures Run(s, x + y) == Run(Run(s, x), y)
  {
    if y == [] {
      assert x + y == x;
    } else {
      RunPlus(s, x, y[..|y| - 1]);
      assert x + y == (x + y[..|y| - 1]) + [y[|y| - 1]];
      assert (x + y)[..|x + y| - 1] == x + y[..|y| - 1];
    }
  }

  /** While the partner's mailbox has room, the thread brings over everything that is there. */
  lemma {:induction false} EverythingMoves(s: State, from: Side) returns (events: seq<Event>)
    requires s.started == 2 && s.From(from) == Receiving && Calm(s)
    requires |s.Of(Other(from)).outcoming| + |s.Of(from).incoming| <= 64
    ensures var s' := Run(s, events); var t, u := s.Of(from), s.Of(Other(from));
      && s'.Of(from) == t.(incoming := [])
      && s'.Of(Other(from)) == u.(outcoming := u.outcoming + Messages(t.incoming))
      && s'.From(from) == Receiving
    decreases |s.Of(from).incoming|
  {
    var t, u := s.Of(from), s.Of(Other(from));
    if t.incoming == [] {
      events := [];
    } else {
      assert t.incoming[0] in t.incoming;
      TurnMoves(s, from);
      var s1 := Run(s, OneTurn(from));
      CalmRun(s, OneTurn(from));
      var others := EverythingMoves(s1, from);
      events := OneTurn(from) + others;
      RunPlus(s, OneTurn(from), others);
      PlusAssoc(u.outcoming, [t.incoming[0].value], Messages(t.incoming[1..]));
    }
  }

  // ---- a poll

  function Turns(side: Side, n: nat): seq<Event> { seq(n, k => PollStep(side)) }

  function Posted(body: seq<Message>): (r: seq<Option<Message>>)
    ensures |r| == |body|
  {
    seq(|body|, k requires 0 <= k < |body| => Some(body[k]))
  }

  lemma {:induction false} PostAll(t: Tenant, n: nat)
    requires t.poll.Serving? && n == |t.poll.rest| && |t.incoming| + n <= MAILBOX
    ensures ServedTimes(t, n) == t.(
      incoming := t.incoming + Posted(t.poll.rest), posted := t.posted + t.poll.rest, poll := Serving([]))
    decreases n
  {
    if n == 0 {
      assert t.incoming + Posted([]) == t.incoming && t.posted + [] == t.posted;
    } else {
      var rest := t.poll.rest;
      PostAll(Served(t), n - 1);
      assert Posted(rest) == [Some(rest[0])] + Posted(rest[1..]);
      PlusAssoc(t.incoming, [Some(rest[0])], Posted(rest[1..]));
      PlusAssoc(t.posted, [rest[0]], rest[1..]);
      assert rest == [rest[0]] + rest[1..];
    }
  }

  function ServedTimes(t: Tenant, n: nat): Tenant
    decreases n
  {
    if n == 0 then t else ServedTimes(Served(t), n - 1)
  }

  lemma {:induction false} DrainAll(t: Tenant, n: nat)
    requires t.poll == Serving([]) && n == |t.outcoming|
    ensures ServedTimes(t, n + 1) == t.(outcoming := [], drained := t.drained + t.outcoming, poll := Idle)
    decreases n
  {
    if n == 0 {
      assert t.drained + [] == t.drained;
      assert ServedTimes(Served(t), 0) == Served(t);
    } else {
      DrainAll(Served(t), n - 1);
      assert t.outcoming == [t.outcoming[0]] + t.outcoming[1..];
      PlusAssoc(t.drained, [t.outcoming[0]], t.outcoming[1..]);
    }
  }

  lemma {:induction false} ServedPlus(t: Tenant, m: nat, n: nat)
    ensures ServedTimes(t, m + n) == ServedTimes(ServedTimes(t, m), n)
    decreases m
  {
    if m == 0 {
    } else {
      ServedPlus(Served(t), m - 1, n);
    }
  }

  lemma {:induction false} TurnsAreServed(s: State, side: Side, n: nat)
    ensures Run(s, Turns(side, n)) == s.With(side, ServedTimes(s.Of(side), n))
  {
    if n == 0 {
    } else {
      TurnsAreServed(s, side, n - 1);
      assert Turns(side, n)[..n - 1] == Turns(side, n - 1);
      ServedPlus(s.Of(side), n - 1, 1);
      assert ServedTimes(ServedTimes(s.Of(side), n - 1), 1) == Served(ServedTimes(s.Of(side), n - 1)) by {
        assert ServedTimes(Served(ServedTimes(s.Of(side), n - 1)), 0) == Served(ServedTimes(s.Of(side), n - 1));
      }
    }
  }

  /** An undisturbed poll of a tenant that has not exited posts its whole body in order, drains
      everything that waits for it in order, and ends. */
  lemma {:induction false} PollServesAll(s: State, side: Side, body: seq<Message>)
    requires s.Of(side).poll == Idle && !s.Of(side).exited && |s.Of(side).incoming| + |body| <= 64
    ensures var t := s.Of(side); var turns := Turns(side, |body| + |t.outcoming| + 1);
      Run(s, [BeginPoll(side, body)] + turns) == s.With(side, t.(
        incoming := t.incoming + Posted(body), posted := t.posted + body,
        outcoming := [], drained := t.drained + t.outcoming))
  {
    var turns := Turns(side, |body| + |s.Of(side).outcoming| + 1);
    var s1 := Step(s, BeginPoll(side, body));
    assert [BeginPoll(side, body)][..0] == [];
    assert Run(s, [BeginPoll(side, body)]) == s1;
    RunPlus(s, [BeginPoll(side, body)], turns);
    TurnsAreServed(s1, side, |body| + |s.Of(side).outcoming| + 1);
    PollOfTenant(s.Of(side), body);
  }

  lemma {:induction false} PollOfTenant(t: Tenant, body: seq<Message>)
    requires t.poll == Idle && |t.incoming| + |body| <= MAILBOX
    ensures ServedTimes(t.(poll := Serving(body)), |body| + |t.outcoming| + 1) == t.(
        incoming := t.incoming + Posted(body), posted := t.posted + body,
        outcoming := [], drained := t.drained + t.outcoming)
  {
    var t1 := t.(poll := Serving(body));
    assert |body| + |t.outcoming| + 1 == |body| + (|t.outcoming| + 1);
    ServedPlus(t1, |body|, |t.outcoming| + 1);
    PostAll(t1, |body|);
    DrainAll(ServedTimes(t1, |body|), |t.outcoming|);
  }

  /** A tenant that has exited is refused its polls. */
  lemma ExitedIsRefused(s: State, side: Side, body: seq<Message>)
    requires s.Of(side).exited
    ensures Step(s, BeginPoll(side, body)) == s
  {
  }

  // ---- the end

  /** Once a thread has stopped, the closer ends both tenants: each gets the flag and a nil, which
      stops the other thread. */
  lemma ClosingEndsBoth(s: State)
    requires s.closer == AwaitStop && s.stops > 0 && !s.a.exited && !s.b.exited
    requires |s.a.incoming| < MAILBOX && |s.b.incoming| < MAILBOX
    ensures var s' := Step(Step(Step(Step(Step(s, Close), Close), Close), Close), Close);
      && s'.a == s.a.(exited := true, incoming := s.a.incoming + [None])
      && s'.b == s.b.(exited := true, incoming := s.b.incoming + [None])
      && s'.closer == Done && s'.stops == s.stops - 1
  {
  }

  /** A thread stops exactly at a nil or after an exit; either way it tells the closer. */
  lemma StopsExactly(s: State, from: Side)
    requires s.From(from).Holding?
    ensures var s' := Step(s, Check(from));
      && (s'.From(from) == Stopped <==> s.a.exited || s.b.exited || s.From(from).got.None?)
      && s'.stops == s.stops + (if s'.From(from) == Stopped then 1 else 0)
      && (s'.From(from) != Stopped ==> s'.From(from) == Passing(s.From(from).got.value))
  {
  }

  // ---------------------------------------------------------------- objects

  class HttpTenant {
    var exited: bool
    var outcoming: seq<Message>
    var incoming: seq<Option<Message>>
    var poll: Poll
    ghost var posted: seq<Message>
    ghost var drained: seq<Message>

    ghost function View(): Tenant
      reads this
    {
      Tenant(exited, incoming, outcoming, poll, posted, drained)
    }

    constructor ()
      ensures View() == Tenant(false, [], [], Idle, [], [])
    {
      exited, outcoming, incoming, poll, posted, drained := false, [], [], Idle, [], [];
    }

    method Send(pkt: Message)
      requires |outcoming| < MAILBOX
      modifies this
      ensures View() == old(View()).(outcoming := old(outcoming) + [pkt])
    {
      outcoming := outcoming + [pkt];
    }

    method Receive() returns (msg: Option<Message>)
      requires incoming != []
      modifies this
      ensures msg == old(incoming)[0] && View() == old(View()).(incoming := old(incoming)[1..])
    {
      msg, incoming := incoming[0], incoming[1..];
    }

    /** A poll for a known tenant: refused once the tenant has exited. */
    method BeginPoll(body: seq<Message>) returns (ok: bool)
      requires poll.Idle?
      modifies this
      ensures ok <==> !exited
      ensures View() == if ok then old(View()).(poll := Serving(body)) else old(View())
    {
      ok := !exited;
      if ok {
        poll := Serving(body);
      }
    }

    /** One turn of the handler's two loops; `done` when the reply is ready. */
    method Serve() returns (done: bool)
      requires poll.Serving?
      requires poll.rest != [] ==> |incoming| < MAILBOX
      modifies this
      ensures View() == Served(old(View()))
      ensures done <==> old(poll.rest) == [] && old(outcoming) == []
      ensures old(poll.rest) != [] ==> View() == old(View()).(
        incoming := old(incoming) + [Some(old(poll.rest)[0])],
        posted := old(posted) + [old(poll.rest)[0]],
        poll := Serving(old(poll.rest)[1..]))
      ensures old(poll.rest) == [] && !done ==> View() == old(View()).(
        outcoming := old(outcoming)[1..], drained := old(drained) + [old(outcoming)[0]])
      ensures done ==> View() == old(View()).(poll := Idle)
    {
      done := false;
      if poll.rest != [] {
        incoming, posted := incoming + [Some(poll.rest[0])], posted + [poll.rest[0]];
        poll := Serving(poll.rest[1..]);
      } else if |outcoming| > 0 {
        drained, outcoming := drained + [outcoming[0]], outcoming[1..];
      } else {
        poll, done := Idle, true;
      }
    }
  }

  /** handlePair's goroutines, one method per atomic step; a step whose channel operation would
      block is simply not taken. */
  class Pair {
    const a: HttpTenant
    const b: HttpTenant
    var fromA: Thread
    var fromB: Thread
    var started: nat
    var stops: nat
    var closer: Closer

    ghost function View(): State
      reads this, a, b
    {
      State(a.View(), b.View(), fromA, fromB, started, stops, closer)
    }

    constructor (a: HttpTenant, b: HttpTenant)
      requires a != b && Unpaired(a.View()) && Unpaired(b.View())
      ensures this.a == a && this.b == b && Paired(View())
    {
      this.a, this.b := a, b;
      fromA, fromB, started, stops, closer := Receiving, Receiving, 0, 0, AwaitStop;
    }

    method Trigger()
      requires a != b && started == 0
      requires |a.outcoming| < MAILBOX && |b.outcoming| < MAILBOX
      modifies this, a, b
      ensures View() == Step(Step(old(View()), SendStart), SendStart)
      ensures a.outcoming == old(a.outcoming) + [START] && b.outcoming == old(b.outcoming) + [START]
      ensures started == 2
    {
      b.Send(START);
      a.Send(START);
      started := 2;
    }

    /** One full turn of a relay goroutine up to the point where it would block again. */
    method RelayTurn(from: Side)
      requires a != b && started == 2 && View().From(from) == Receiving
      requires View().Of(from).incoming != [] && |View().Of(Other(from)).outcoming| < MAILBOX
      modifies this, a, b
      ensures View() == Step(Step(Step(old(View()), Receive(from)), Check(from)), Forward(from))
      ensures var t, u := old(View()).Of(from), old(View()).Of(Other(from));
        var stopped := t.exited || u.exited || t.incoming[0].None?;
        && View().Of(from) == t.(incoming := t.incoming[1..])
        && View().From(from) == (if stopped then Stopped else Receiving)
        && stops == old(stops) + (if stopped then 1 else 0)
        && View().Of(Other(from)).outcoming == u.outcoming + if stopped then [] else [t.incoming[0].value]
    {
      var source, sink := if from.A? then a else b, if from.A? then b else a;
      var msg := source.Receive();
      if a.exited || b.exited || msg.None? {
        stops := stops + 1;
        if from.A? { fromA := Stopped; } else { fromB := Stopped; }
      } else {
        sink.Send(msg.value);
      }
    }

    /** The closing goroutine's next move. */
    method Shut()
      requires a != b
      modifies this, a, b
      ensures View() == Step(old(View()), Close)
    {
      match closer
      case AwaitStop =>
        if stops > 0 {
          stops, closer := stops - 1, LookAt(A);
        }
      case LookAt(side) =>
        var tenant := if side.A? then a else b;
        if tenant.exited {
          closer := if side.A? then LookAt(B) else Done;
        } else {
          tenant.exited := true;
          closer := PushNil(side);
        }
      case PushNil(side) =>
        var tenant := if side.A? then a else b;
        if |tenant.incoming| < MAILBOX {
          tenant.incoming := tenant.incoming + [None];
          closer := if side.A? then LookAt(B) else Done;
        }
      case Done =>
    }
  }
}
