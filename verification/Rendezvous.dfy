/** Signaling rendezvous: two waiting lines per token pair up tenants. */
module Rendezvous {
  import opened Seqs

  type Token = string

  datatype Tenant = Tenant(id: nat, token: Token)

  datatype Role = Server | Client

  /** A pair as handed to the relay: `a` had been waiting, `b` has just arrived. */
  datatype Pair = Pair(a: Tenant, b: Tenant, arrived: Role) {
    function Server(): Tenant { if arrived.Server? then b else a }
    function Client(): Tenant { if arrived.Client? then b else a }
  }

  const LINE_CAPACITY := 8

  datatype Lines = Lines(server: seq<Tenant>, client: seq<Tenant>) {
    function Of(role: Role): seq<Tenant> { if role.Server? then server else client }
    function With(role: Role, line: seq<Tenant>): Lines {
      if role.Server? then this.(server := line) else this.(client := line)
    }
  }

  function Other(role: Role): Role { if role.Server? then Client else Server }

  /** What one token's waiting lines have seen since the token was added. */
  datatype Room = Room(lines: Lines, servers: seq<Tenant>, clients: seq<Tenant>, pairs: seq<Pair>)

  /** `blocked`: a handler is stuck on a full line while holding the mutex, for ever.
      `made` lists every pair ever made, `seen` every tenant that reached a handler. */
  datatype State = State(rooms: map<Token, Room>, blocked: bool, seen: set<Tenant>, made: seq<Pair>)

  datatype Event =
    | AddChannel(token: Token)
    | RemoveChannel(token: Token)
    | Arrive(role: Role, tent: Tenant)

  const NEW_ROOM := Room(Lines([], []), [], [], [])

  function Admit(room: Room, role: Role, tent: Tenant): Room {
    if role.Server? then room.(servers := room.servers + [tent]) else room.(clients := room.clients + [tent])
  }

  /** A step that is not enabled leaves the state alone; nothing is enabled once the mutex is
      held for ever. A tenant goes through a handler once. */
  function Step(s: State, e: Event): State {
    if s.blocked then s
    else
      match e
      case AddChannel(token) => s.(rooms := s.rooms[token := NEW_ROOM])
      case RemoveChannel(token) => s.(rooms := s.rooms - {token})
      case Arrive(role, tent) =>
        if tent in s.seen then s
        else
          var s1 := s.(seen := s.seen + {tent});
          if tent.token !in s.rooms then s1
          else
            var room := s.rooms[tent.token];
            var across := room.lines.Of(Other(role));
            if across != [] then
              var pair := Pair(across[0], tent, role);
              var room1 := Admit(room, role, tent).(
                lines := room.lines.With(Other(role), across[1..]), pairs := room.pairs + [pair]);
              s1.(rooms := s.rooms[tent.token := room1], made := s.made + [pair])
            else if |room.lines.Of(role)| >= LINE_CAPACITY then s1.(blocked := true)
            else
              var room1 := Admit(room, role, tent).(
                lines := room.lines.With(role, room.lines.Of(role) + [tent]));
              s1.(rooms := s.rooms[tent.token := room1])
  }

  const EMPTY := State(map[], false, {}, [])

  function Run(events: seq<Event>): State {
    if events == [] then EMPTY else Step(Run(events[..|events| - 1]), events[|events| - 1])
  }

  /** The k-th server with the k-th client, for as long as both exist. */
  ghost predicate ZipOf(pairs: seq<Pair>, servers: seq<Tenant>, clients: seq<Tenant>) {
    && |pairs| == (if |servers| < |clients| then |servers| else |clients|)
    && forall k :: 0 <= k < |pairs| ==> pairs[k].Server() == servers[k] && pairs[k].Client() == clients[k]
  }

  ghost predicate RoomInv(token: Token, room: Room) {
    && ZipOf(room.pairs, room.servers, room.clients)
    && room.lines.server == room.servers[|room.pairs|..]
    && room.lines.client == room.clients[|room.pairs|..]
    && |room.lines.server| <= LINE_CAPACITY && |room.lines.client| <= LINE_CAPACITY
    && (forall t :: t in room.servers ==> t.token == token)
    && (forall t :: t in room.clients ==> t.token == token)
  }

  /** Everyone in some pair, pair by pair. */
  function Paired(made: seq<Pair>): seq<Tenant> {
    if made == [] then []
    else Paired(made[..|made| - 1]) + [made[|made| - 1].a, made[|made| - 1].b]
  }

  /** Those waiting in a room have been seen, are unpaired and wait once. */
  ghost predicate Fresh(s: State, room: Room) {
    && NoDup(room.lines.server) && NoDup(room.lines.client)
    && (forall t :: t in room.lines.server || t in room.lines.client ==> t in s.seen && t !in Paired(s.made))
  }

  ghost predicate Inv(s: State) {
    && (forall token :: token in s.rooms ==> RoomInv(token, s.rooms[token]))
    && (forall token :: token in s.rooms ==> Fresh(s, s.rooms[token]))
    && (forall t :: t in Paired(s.made) ==> t in s.seen)
    && NoDup(Paired(s.made))
  }

  /** A room whose token is not the newcomer's cannot hold either half of the new pair. */
  lemma OtherRoomsStayFresh(s: State, s': State, token: Token, pair: Pair)
    requires Inv(s) && token in s.rooms
    requires pair.a.token == pair.b.token != token && pair.b !in s.seen
    requires s'.made == s.made + [pair] && s'.seen == s.seen + {pair.b}
    ensures Fresh(s', s.rooms[token])
  {
    var room := s.rooms[token];
    assert RoomInv(token, room);
    PairedSnoc(s.made, pair);
    forall t | t in room.lines.server || t in room.lines.client
      ensures t !in Paired(s'.made)
    {
      assert t.token == token;
    }
  }

  lemma PairedSnoc(made: seq<Pair>, pair: Pair)
    ensures Paired(made + [pair]) == Paired(made) + [pair.a, pair.b]
  {
    assert (made + [pair])[..|made|] == made;
  }

  lemma MatchKeepsRoomInv(token: Token, room: Room, role: Role, tent: Tenant)
    requires RoomInv(token, room) && tent.token == token && room.lines.Of(Other(role)) != []
    ensures var across := room.lines.Of(Other(role));
      RoomInv(token, Admit(room, role, tent).(
        lines := room.lines.With(Other(role), across[1..]), pairs := room.pairs + [Pair(across[0], tent, role)]))
  {
    var across := room.lines.Of(Other(role));
    assert across[0].token == token;
  }

  lemma WaitKeepsRoomInv(token: Token, room: Room, role: Role, tent: Tenant)
    requires RoomInv(token, room) && tent.token == token
    requires room.lines.Of(Other(role)) == [] && |room.lines.Of(role)| < LINE_CAPACITY
    ensures RoomInv(token, Admit(room, role, tent).(lines := room.lines.With(role, room.lines.Of(role) + [tent])))
  {
  }

  /** The pair's halves leave the line, so those who still wait stay unpaired. */
  lemma OwnRoomStaysFresh(s: State, s': State, room: Room, role: Role, pair: Pair, room': Room)
    requires Fresh(s, room) && pair.b !in s.seen
    requires room.lines.Of(role) == [] && room.lines.Of(Other(role)) != [] && pair.a == room.lines.Of(Other(role))[0]
    requires room'.lines == room.lines.With(Other(role), room.lines.Of(Other(role))[1..])
    requires s'.made == s.made + [pair] && s'.seen == s.seen + {pair.b}
    ensures Fresh(s', room')
  {
    PairedSnoc(s.made, pair);
    var across := room.lines.Of(Other(role));
    forall t | t in across[1..]
      ensures t in s.seen && t !in Paired(s'.made)
    {
      assert t in across && t != across[0];
    }
  }

  lemma PairIsNew(s: State, room: Room, role: Role, pair: Pair)
    requires Inv(s) && Fresh(s, room) && pair.b !in s.seen
    requires room.lines.Of(Other(role)) != [] && pair.a == room.lines.Of(Other(role))[0]
    ensures NoDup(Paired(s.made + [pair]))
    ensures forall t :: t in Paired(s.made + [pair]) ==> t in s.seen + {pair.b}
  {
    assert pair.a in room.lines.Of(Other(role));
    PairedSnoc(s.made, pair);
    NoDupTwoMore(Paired(s.made), pair.a, pair.b);
  }

  lemma {:induction false} MatchKeepsInv(s: State, role: Role, tent: Tenant)
    requires Inv(s) && !s.blocked && tent !in s.seen && tent.token in s.rooms
    requires s.rooms[tent.token].lines.Of(Other(role)) != []
    ensures Inv(Step(s, Arrive(role, tent)))
  {
    var s' := Step(s, Arrive(role, tent));
    var room := s.rooms[tent.token];
    assert RoomInv(tent.token, room) && Fresh(s, room);
    var pair := Pair(room.lines.Of(Other(role))[0], tent, role);
    MatchKeepsRoomInv(tent.token, room, role, tent);
    PairIsNew(s, room, role, pair);
    OwnRoomStaysFresh(s, s', room, role, pair, s'.rooms[tent.token]);
    assert pair.a.token == tent.token by {
      assert pair.a in (if role.Server? then room.clients else room.servers);
    }
    forall token | token in s'.rooms && token != tent.token
      ensures RoomInv(token, s'.rooms[token]) && Fresh(s', s'.rooms[token])
    {
      OtherRoomsStayFresh(s, s', token, pair);
    }
  }

  lemma NoDupTwoMore(s: seq<Tenant>, x: Tenant, y: Tenant)
    requires NoDup(s) && x !in s && y !in s && x != y
    ensures NoDup(s + [x, y])
  {
  }

  lemma WaiterIsFresh(s: State, s': State, room: Room, role: Role, tent: Tenant, room': Room)
    requires Fresh(s, room) && tent !in s.seen && tent !in Paired(s.made)
    requires room'.lines == room.lines.With(role, room.lines.Of(role) + [tent])
    requires s'.made == s.made && s'.seen == s.seen + {tent}
    ensures Fresh(s', room')
  {
    assert tent !in room.lines.Of(role);
  }

  lemma {:induction false} WaitKeepsInv(s: State, role: Role, tent: Tenant)
    requires Inv(s) && !s.blocked && tent !in s.seen && tent.token in s.rooms
    requires s.rooms[tent.token].lines.Of(Other(role)) == []
    requires |s.rooms[tent.token].lines.Of(role)| < LINE_CAPACITY
    ensures Inv(Step(s, Arrive(role, tent)))
  {
    var s' := Step(s, Arrive(role, tent));
    var room := s.rooms[tent.token];
    assert RoomInv(tent.token, room) && Fresh(s, room);
    WaitKeepsRoomInv(tent.token, room, role, tent);
    WaiterIsFresh(s, s', room, role, tent, s'.rooms[tent.token]);
    forall token | token in s'.rooms && token != tent.token
      ensures RoomInv(token, s'.rooms[token]) && Fresh(s', s'.rooms[token])
    {
      assert RoomInv(token, s.rooms[token]) && Fresh(s, s.rooms[token]);
    }
  }

  lemma {:induction false} OthersKeepInv(s: State, e: Event)
    requires Inv(s)
    requires e.Arrive? && e.tent.token in s.rooms && !s.blocked && e.tent !in s.seen ==>
      && s.rooms[e.tent.token].lines.Of(Other(e.role)) == []
      && |s.rooms[e.tent.token].lines.Of(e.role)| >= LINE_CAPACITY
    ensures Inv(Step(s, e))
  {
    var s' := Step(s, e);
    forall token | token in s'.rooms
      ensures RoomInv(token, s'.rooms[token]) && Fresh(s', s'.rooms[token])
    {
      if e.AddChannel? && !s.blocked && token == e.token {
      } else {
        assert RoomInv(token, s.rooms[token]) && Fresh(s, s.rooms[token]);
      }
    }
  }

  lemma {:induction false} StepKeepsInv(s: State, e: Event)
    requires Inv(s)
    ensures Inv(Step(s, e))
  {
    if s.blocked || !e.Arrive? || e.tent in s.seen || e.tent.token !in s.rooms {
      OthersKeepInv(s, e);
    } else if s.rooms[e.tent.token].lines.Of(Other(e.role)) != [] {
      MatchKeepsInv(s, e.role, e.tent);
    } else if |s.rooms[e.tent.token].lines.Of(e.role)| < LINE_CAPACITY {
      WaitKeepsInv(s, e.role, e.tent);
    } else {
      OthersKeepInv(s, e);
    }
  }

  /** A token's pairs are the zip of its servers and clients in arrival order, the rest waits in
      order in at most one line of at most 8, and no pair crosses tokens. */
  ghost predicate Zipped(token: Token, room: Room) {
    && ZipOf(room.pairs, room.servers, room.clients)
    && room.servers == room.servers[..|room.pairs|] + room.lines.server
    && room.clients == room.clients[..|room.pairs|] + room.lines.client
    && (room.lines.server == [] || room.lines.client == [])
    && |room.lines.server| <= LINE_CAPACITY && |room.lines.client| <= LINE_CAPACITY
    && (forall p :: p in room.pairs ==> p.a.token == p.b.token == token)
  }

  lemma RoomIsZipped(token: Token, room: Room)
    requires RoomInv(token, room)
    ensures Zipped(token, room)
  {
    forall p | p in room.pairs
      ensures p.a.token == p.b.token == token
    {
      var k :| 0 <= k < |room.pairs| && room.pairs[k] == p;
      assert room.servers[k] in room.servers && room.clients[k] in room.clients;
    }
  }

  /** Over every run every token is zipped, and nobody is ever paired twice, even when a token is
      removed and added again. */
  lemma {:induction false} RendezvousIsZip(events: seq<Event>)
    ensures Inv(Run(events))
    ensures forall token :: token in Run(events).rooms ==> Zipped(token, Run(events).rooms[token])
    ensures NoDup(Paired(Run(events).made))
  {
    if events == [] {
    } else {
      RendezvousIsZip(events[..|events| - 1]);
      StepKeepsInv(Run(events[..|events| - 1]), events[|events| - 1]);
    }
    forall token | token in Run(events).rooms
      ensures Zipped(token, Run(events).rooms[token])
    {
      RoomIsZipped(token, Run(events).rooms[token]);
    }
  }

  /** A handler touches only its token's lines. */
  lemma ArriveStep(s: State, role: Role, tent: Tenant)
    requires !s.blocked && tent !in s.seen && tent.token in s.rooms
    ensures var s' := Step(s, Arrive(role, tent));
      var lines := s.rooms[tent.token].lines; var across := lines.Of(Other(role));
      && s'.rooms.Keys == s.rooms.Keys
      && (forall token :: token in s.rooms && token != tent.token ==> s'.rooms[token] == s.rooms[token])
      && (s'.blocked <==> across == [] && |lines.Of(role)| >= LINE_CAPACITY)
      && (across != [] ==> s'.rooms[tent.token].lines == lines.With(Other(role), across[1..]))
      && (across == [] && !s'.blocked ==> s'.rooms[tent.token].lines == lines.With(role, lines.Of(role) + [tent]))
      && s'.made == (if across != [] then s.made + [Pair(across[0], tent, role)] else s.made)
  {
  }

  // ---- arrivals by the events alone

  /** The token has been added, and not removed since. */
  function Open(events: seq<Event>, token: Token): bool {
    if events == [] then false
    else
      match events[|events| - 1]
      case AddChannel(t) => t == token || Open(events[..|events| - 1], token)
      case RemoveChannel(t) => t != token && Open(events[..|events| - 1], token)
      case Arrive(_, _) => Open(events[..|events| - 1], token)
  }

  predicate Came(events: seq<Event>, tent: Tenant) {
    exists k :: 0 <= k < |events| && events[k].Arrive? && events[k].tent == tent
  }

  /** Tenants of a role that came to an open token for the first time, since it was last added. */
  function Arrivals(events: seq<Event>, token: Token, role: Role): seq<Tenant> {
    if events == [] then []
    else
      var front, before := events[..|events| - 1], Arrivals(events[..|events| - 1], token, role);
      match events[|events| - 1]
      case AddChannel(t) => if t == token then [] else before
      case RemoveChannel(t) => if t == token then [] else before
      case Arrive(r, tent) =>
        if r == role && tent.token == token && Open(front, token) && !Came(front, tent) then before + [tent] else before
  }

  lemma CameSnoc(events: seq<Event>, tent: Tenant)
    requires events != []
    ensures var e := events[|events| - 1];
      Came(events, tent) <==> Came(events[..|events| - 1], tent) || (e.Arrive? && e.tent == tent)
  {
    var front := events[..|events| - 1];
    if Came(front, tent) {
      var k :| 0 <= k < |front| && front[k].Arrive? && front[k].tent == tent;
      assert events[k].Arrive?;
    }
    if Came(events, tent) {
      var k :| 0 <= k < |events| && events[k].Arrive? && events[k].tent == tent;
      assert k < |front| ==> front[k].Arrive?;
    }
  }

  lemma {:induction false} SeenIsCame(events: seq<Event>, tent: Tenant)
    requires !Run(events).blocked
    ensures tent in Run(events).seen <==> Came(events, tent)
  {
    if events == [] {
    } else {
      SeenIsCame(events[..|events| - 1], tent);
      CameSnoc(events, tent);
    }
  }

  /** A room counts exactly the arrivals at its token. */
  ghost predicate Counts(s: State, events: seq<Event>, token: Token) {
    && (token in s.rooms <==> Open(events, token))
    && (token in s.rooms ==>
          s.rooms[token].servers == Arrivals(events, token, Server)
          && s.rooms[token].clients == Arrivals(events, token, Client))
  }

  /** Over every run whose mutex is still free: a token has waiting lines exactly while it is open,
      and its rooms count exactly the arrivals since it was added. With RendezvousIsZip, its pairs
      are the zip of those arrivals. */
  lemma {:induction false} RoomsCountArrivals(events: seq<Event>, token: Token)
    requires !Run(events).blocked
    ensures Counts(Run(events), events, token)
  {
    if events == [] {
    } else {
      var front, e := events[..|events| - 1], events[|events| - 1];
      RoomsCountArrivals(front, token);
      if e.Arrive? {
        SeenIsCame(front, e.tent);
      }
    }
  }

  /** Once a handler blocks with the mutex held, nothing changes any more. */
  lemma {:induction false} BlockedForEver(events: seq<Event>, more: seq<Event>)
    requires Run(events).blocked
    ensures Run(events + more) == Run(events)
  {
    if more == [] {
      assert events + more == events;
    } else {
      BlockedForEver(events, more[..|more| - 1]);
      assert (events + more)[..|events + more| - 1] == events + more[..|more| - 1];
    }
  }

  /** A newcomer to an open token blocks, with the mutex held, if and only if eight more of its own
      role than of the other have come before it. */
  lemma {:induction false} BlocksIff(events: seq<Event>, role: Role, tent: Tenant)
    requires !Run(events).blocked && Open(events, tent.token) && !Came(events, tent)
    ensures Run(events + [Arrive(role, tent)]).blocked <==>
      |Arrivals(events, tent.token, role)| >= |Arrivals(events, tent.token, Other(role))| + 8
  {
    assert (events + [Arrive(role, tent)])[..|events|] == events;
    RoomsCountArrivals(events, tent.token);
    SeenIsCame(events, tent);
    RendezvousIsZip(events);
    ArriveStep(Run(events), role, tent);
    var room := Run(events).rooms[tent.token];
    assert Zipped(tent.token, room);
  }

  datatype Reply = InvalidKey | Waits | Matched(pair: Pair) | Blocks

  /** The server object; `history` records the run for the specification. */
  class Signaling {
    var waitLine: map<Token, Lines>
    ghost var history: State

    ghost predicate Valid()
      reads this
    {
      && !history.blocked
      && waitLine.Keys == history.rooms.Keys
      && forall token :: token in waitLine ==> waitLine[token] == history.rooms[token].lines
    }

    constructor ()
      ensures Valid() && history == EMPTY
    {
      waitLine, history := map[], EMPTY;
    }

    method AddSignalingChannel(token: Token)
      requires Valid()
      modifies this
      ensures Valid() && history == Step(old(history), AddChannel(token))
      ensures waitLine == old(waitLine)[token := Lines([], [])]
    {
      waitLine := waitLine[token := Lines([], [])];
      history := Step(history, AddChannel(token));
    }

    method RemoveSignalingChannel(token: Token)
      requires Valid()
      modifies this
      ensures Valid() && history == Step(old(history), RemoveChannel(token))
      ensures waitLine == old(waitLine) - {token}
    {
      waitLine := waitLine - {token};
      history := Step(history, RemoveChannel(token));
    }

    /** Both OnTenant handlers. Blocks means the call never returns and keeps the mutex. */
    method OnTenant(role: Role, tent: Tenant) returns (reply: Reply)
      requires Valid() && tent !in history.seen
      modifies this
      ensures history == Step(old(history), Arrive(role, tent))
      ensures reply != Blocks ==> Valid()
      ensures reply == InvalidKey <==> tent.token !in old(waitLine)
      ensures reply == Blocks <==> history.blocked
      ensures reply.Matched? <==> |history.made| == |old(history.made)| + 1
      ensures reply.Matched? ==> history.made == old(history.made) + [reply.pair]
      ensures tent.token in old(waitLine) ==>
        var lines := old(waitLine)[tent.token]; var across := lines.Of(Other(role));
        if across != [] then
          reply == Matched(Pair(across[0], tent, role)) &&
          waitLine == old(waitLine)[tent.token := lines.With(Other(role), across[1..])]
        else if |lines.Of(role)| < 8 then
          reply == Waits && waitLine == old(waitLine)[tent.token := lines.With(role, lines.Of(role) + [tent])]
        else reply == Blocks && waitLine == old(waitLine)
    {
      ghost var before := history;
      history := Step(before, Arrive(role, tent));
      if tent.token !in waitLine {
        return InvalidKey;
      }
      ArriveStep(before, role, tent);
      var lines := waitLine[tent.token];
      var across := lines.Of(Other(role));
      if across == [] {
        if |lines.Of(role)| >= LINE_CAPACITY {
          return Blocks;
        }
        waitLine := waitLine[tent.token := lines.With(role, lines.Of(role) + [tent])];
        reply := Waits;
      } else {
        waitLine := waitLine[tent.token := lines.With(Other(role), across[1..])];
        reply := Matched(Pair(across[0], tent, role));
      }
    }
  }
}
