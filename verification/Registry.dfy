/** One daemon's session registry: registration, closing, and the resources sessions hold. */
module Registry {
  import opened Seqs

  type Id = string

  /** What closing a session gives back. */
  datatype Resource =
    | VirtualDisplay(index: int)
    | Machine(address: string)
    | SignalingToken(token: string)
    | TurnUser(name: string)
    | MemoryChannel(channel: int)
    | Process(pid: int)

  /** `turn` is the TURN user opened for the session, if the daemon has a TURN client. */
  datatype WorkerSession = WorkerSession(
    id: Id,
    display: Option<int>,
    vm: Option<string>,
    thinkmay: Option<(string, string)>, // video token, audio token
    turn: Option<string>)

  /** The daemon's private record of a session. */
  datatype Internal = Internal(session: WorkerSession, children: seq<int>, channel: Option<int>)

  datatype State = State(session: map<Id, Internal>, sessions: seq<WorkerSession>)

  function Processes(children: seq<int>): seq<Resource> {
    seq(|children|, k requires 0 <= k < |children| => Process(children[k]))
  }

  /** Released because of the public record, in the order of the code. */
  function PublicResources(ws: WorkerSession): seq<Resource> {
    (if ws.display.Some? then [VirtualDisplay(ws.display.value)] else [])
    + (if ws.vm.Some? then [Machine(ws.vm.value)] else [])
    + (if ws.thinkmay.Some? then [SignalingToken(ws.thinkmay.value.0), SignalingToken(ws.thinkmay.value.1)] else [])
  }

  /** Released because of the private record. */
  function PrivateResources(iws: Internal): seq<Resource> {
    (if iws.session.turn.Some? then [TurnUser(iws.session.turn.value)] else [])
    + (if iws.channel.Some? then [MemoryChannel(iws.channel.value)] else [])
    + Processes(iws.children)
  }

  function Resources(iws: Internal): seq<Resource> {
    PublicResources(iws.session) + PrivateResources(iws)
  }

  /** What a session has been given, read off its record field by field. */
  ghost predicate Owns(iws: Internal, r: Resource) {
    match r
    case VirtualDisplay(index) => iws.session.display == Some(index)
    case Machine(address) => iws.session.vm == Some(address)
    case SignalingToken(token) =>
      iws.session.thinkmay.Some? && (token == iws.session.thinkmay.value.0 || token == iws.session.thinkmay.value.1)
    case TurnUser(name) => iws.session.turn == Some(name)
    case MemoryChannel(channel) => iws.channel == Some(channel)
    case Process(pid) => pid in iws.children
  }

  lemma ResourcesAreOwned(iws: Internal, r: Resource)
    ensures r in Resources(iws) <==> Owns(iws, r)
  {
    var ps := Processes(iws.children);
    assert r in ps <==> r.Process? && r.pid in iws.children by {
      if r.Process? && r.pid in iws.children {
        var k :| 0 <= k < |iws.children| && iws.children[k] == r.pid;
        assert ps[k] == r;
      }
    }
    if r.SignalingToken? && Owns(iws, r) {
      assert r in PublicResources(iws.session);
    }
  }

  /** Each is listed once, if the record names no token and no process twice. */
  lemma ResourcesAreDistinct(iws: Internal)
    requires NoDup(iws.children)
    requires iws.session.thinkmay.Some? ==> iws.session.thinkmay.value.0 != iws.session.thinkmay.value.1
    ensures NoDup(Resources(iws))
  {
    PublicAreDistinct(iws.session);
    PrivateAreDistinct(iws);
    forall r | r in PublicResources(iws.session)
      ensures r !in PrivateResources(iws)
    {
      assert r.VirtualDisplay? || r.Machine? || r.SignalingToken?;
    }
    NoDupJoin(PublicResources(iws.session), PrivateResources(iws));
  }

  lemma PublicAreDistinct(ws: WorkerSession)
    requires ws.thinkmay.Some? ==> ws.thinkmay.value.0 != ws.thinkmay.value.1
    ensures NoDup(PublicResources(ws))
  {
  }

  lemma PrivateAreDistinct(iws: Internal)
    requires NoDup(iws.children)
    ensures NoDup(PrivateResources(iws))
    ensures forall r :: r in PrivateResources(iws) ==> r.TurnUser? || r.MemoryChannel? || r.Process?
  {
    var ps := Processes(iws.children);
    var turn := if iws.session.turn.Some? then [TurnUser(iws.session.turn.value)] else [];
    var channel := if iws.channel.Some? then [MemoryChannel(iws.channel.value)] else [];
    assert forall r :: r in ps ==> r.Process?;
    NoDupJoin(turn, channel);
    NoDupJoin(turn + channel, ps);
  }

  // ---------------------------------------------------------------- specification

  function IdOf(ws: WorkerSession): Id { ws.id }

  function Registered(s: State, iws: Internal): State {
    State(s.session[iws.session.id := iws], s.sessions + [iws.session])
  }

  function Closed(s: State, id: Id): State {
    State(s.session - {id}, WithoutKey(s.sessions, IdOf, id))
  }

  /** What closing `id` releases: nothing when it is unknown. */
  function Released(s: State, id: Id): seq<Resource> {
    if id in s.session then Resources(s.session[id]) else []
  }

  ghost predicate Inv(s: State) {
    && UniqueKeys(s.sessions, IdOf)
    && (forall ws :: ws in s.sessions ==> ws.id in s.session && s.session[ws.id].session == ws)
    && (forall id :: id in s.session ==> s.session[id].session in s.sessions && s.session[id].session.id == id)
  }

  lemma RegisterKeepsInv(s: State, iws: Internal)
    requires Inv(s) && iws.session.id !in s.session
    ensures Inv(Registered(s, iws))
  {
  }

  lemma CloseKeepsInv(s: State, id: Id)
    requires Inv(s)
    ensures Inv(Closed(s, id))
  {
    WithoutKeyUnique(s.sessions, IdOf, id);
    forall ws
      ensures ws in WithoutKey(s.sessions, IdOf, id) <==> ws in s.sessions && ws.id != id
    {
      WithoutKeyIn(s.sessions, IdOf, id, ws);
    }
  }

  // ---------------------------------------------------------------- resources over serial runs

  datatype Op = Register(iws: Internal) | Close(id: Id)

  /** The registry with everything acquired and released so far. */
  datatype Ledger = Ledger(state: State, acquired: seq<Resource>, released: seq<Resource>)

  /** Registration is the last step of handleSession and starts from a fresh id. Each handler ends
      before the next begins; the module Handlers says what overlapping ones do. */
  function Step(l: Ledger, op: Op): Ledger {
    match op
    case Register(iws) =>
      if iws.session.id in l.state.session then l
      else Ledger(Registered(l.state, iws), l.acquired + Resources(iws), l.released)
    case Close(id) => Ledger(Closed(l.state, id), l.acquired, l.released + Released(l.state, id))
  }

  const EMPTY := Ledger(State(map[], []), [], [])

  function Run(ops: seq<Op>): Ledger {
    if ops == [] then EMPTY else Step(Run(ops[..|ops| - 1]), ops[|ops| - 1])
  }

  type Bag = multiset<Resource>

  function Bags(session: map<Id, Internal>): map<Id, Bag> {
    map id | id in session :: multiset(Resources(session[id]))
  }

  /** Resources of the listed sessions. */
  function Held(sessions: seq<WorkerSession>, bags: map<Id, Bag>): Bag {
    if sessions == [] then multiset{}
    else
      var front, last := sessions[..|sessions| - 1], sessions[|sessions| - 1];
      Held(front, bags) + if last.id in bags then bags[last.id] else multiset{}
  }

  lemma {:induction false} HeldSame(sessions: seq<WorkerSession>, m: map<Id, Bag>, m': map<Id, Bag>)
    requires forall ws :: ws in sessions ==> ws.id in m && ws.id in m' && m[ws.id] == m'[ws.id]
    ensures Held(sessions, m) == Held(sessions, m')
  {
    if sessions == [] {
    } else {
      HeldSame(sessions[..|sessions| - 1], m, m');
    }
  }

  lemma HeldSnoc(sessions: seq<WorkerSession>, ws: WorkerSession, m: map<Id, Bag>)
    requires ws.id in m
    ensures Held(sessions + [ws], m) == Held(sessions, m) + m[ws.id]
  {
    assert (sessions + [ws])[..|sessions|] == sessions;
  }

  lemma SwapLast(a: Bag, b: Bag, c: Bag)
    ensures a + b + c == a + c + b
  {
  }

  lemma HeldLastRemoved(front: seq<WorkerSession>, last: WorkerSession, m: map<Id, Bag>, m': map<Id, Bag>)
    requires last.id in m && forall ws :: ws in front ==> ws.id != last.id
    requires Held(front, m) == Held(front, m')
    ensures Held(front + [last], m) == Held(WithoutKey(front + [last], IdOf, last.id), m') + m[last.id]
  {
    WithoutKeyAbsent(front, IdOf, last.id);
    WithoutKeySnoc(front, last, IdOf, last.id);
    HeldSnoc(front, last, m);
  }

  lemma HeldLastKept(front: seq<WorkerSession>, last: WorkerSession, m: map<Id, Bag>, id: Id)
    requires id in m && last.id in m && last.id != id
    requires Held(front, m) == Held(WithoutKey(front, IdOf, id), m - {id}) + m[id]
    ensures Held(front + [last], m) == Held(WithoutKey(front + [last], IdOf, id), m - {id}) + m[id]
  {
    HeldSnoc(front, last, m);
    WithoutKeySnoc(front, last, IdOf, id);
    HeldSnoc(WithoutKey(front, IdOf, id), last, m - {id});
    SwapLast(Held(WithoutKey(front, IdOf, id), m - {id}), m[id], m[last.id]);
  }

  lemma {:induction false} HeldWithout(sessions: seq<WorkerSession>, m: map<Id, Bag>, id: Id)
    requires UniqueKeys(sessions, IdOf) && id in m
    requires forall ws :: ws in sessions ==> ws.id in m
    requires exists ws :: ws in sessions && ws.id == id
    ensures Held(sessions, m) == Held(WithoutKey(sessions, IdOf, id), m - {id}) + m[id]
  {
    var front, last := sessions[..|sessions| - 1], sessions[|sessions| - 1];
    assert sessions == front + [last];
    if last.id == id {
      HeldSame(front, m, m - {id});
      HeldLastRemoved(front, last, m, m - {id});
    } else {
      HeldWithout(front, m, id);
      HeldLastKept(front, last, m, id);
    }
  }

  /** Over every serial run, in which each handler ends before the next begins: the keys of the
      private records are the duplicate-free ids of the public list, and every resource ever
      acquired has been released exactly once or belongs to a
      session still registered. */
  lemma {:induction false} ResourcesAreConserved(ops: seq<Op>)
    ensures var l := Run(ops);
      && Inv(l.state)
      && l.state.session.Keys == (set ws | ws in l.state.sessions :: ws.id)
      && multiset(l.acquired) == multiset(l.released) + Held(l.state.sessions, Bags(l.state.session))
  {
    if ops == [] {
    } else {
      var front, op := ops[..|ops| - 1], ops[|ops| - 1];
      ResourcesAreConserved(front);
      var l := Run(front);
      match op
      case Register(iws) =>
        if iws.session.id !in l.state.session {
          RegisterConserves(l, iws);
        }
      case Close(id) => CloseConserves(l, id);
    }
    KeysAreIds(Run(ops).state);
  }

  lemma KeysAreIds(s: State)
    requires Inv(s)
    ensures s.session.Keys == set ws | ws in s.sessions :: ws.id
  {
    forall id | id in s.session
      ensures id in set ws | ws in s.sessions :: ws.id
    {
      assert s.session[id].session in s.sessions;
    }
  }

  ghost predicate Conserved(l: Ledger) {
    multiset(l.acquired) == multiset(l.released) + Held(l.state.sessions, Bags(l.state.session))
  }

  lemma BagOfPlus(a: seq<Resource>, b: seq<Resource>)
    ensures multiset(a + b) == multiset(a) + multiset(b)
  {
  }

  /** Moving a bag between columns keeps the books balanced. */
  lemma Balance(acquired: Bag, released: Bag, held: Bag, x: Bag)
    ensures acquired == released + held ==> acquired + x == released + (held + x)
    ensures acquired == released + (held + x) ==> acquired == (released + x) + held
  {
  }

  lemma BagsRegistered(session: map<Id, Internal>, id: Id, iws: Internal)
    ensures Bags(session[id := iws]) == Bags(session)[id := multiset(Resources(iws))]
  {
  }

  lemma BagsClosed(session: map<Id, Internal>, id: Id)
    ensures Bags(session - {id}) == Bags(session) - {id}
  {
  }

  lemma HeldRegistered(sessions: seq<WorkerSession>, ws: WorkerSession, bags: map<Id, Bag>, x: Bag)
    requires forall v :: v in sessions ==> v.id in bags && v.id != ws.id
    ensures Held(sessions + [ws], bags[ws.id := x]) == Held(sessions, bags) + x
  {
    HeldSame(sessions, bags, bags[ws.id := x]);
    HeldSnoc(sessions, ws, bags[ws.id := x]);
  }

  lemma {:induction false} HeldClosed(sessions: seq<WorkerSession>, bags: map<Id, Bag>, id: Id)
    requires UniqueKeys(sessions, IdOf) && forall ws :: ws in sessions ==> ws.id in bags
    requires id in bags ==> exists ws :: ws in sessions && ws.id == id
    ensures Held(sessions, bags)
         == Held(WithoutKey(sessions, IdOf, id), bags - {id}) + if id in bags then bags[id] else multiset{}
  {
    if id in bags {
      HeldWithout(sessions, bags, id);
    } else {
      WithoutKeyAbsent(sessions, IdOf, id);
      assert bags - {id} == bags;
      assert Held(sessions, bags) + multiset{} == Held(sessions, bags);
    }
  }

  lemma {:induction false} RegisterHolds(s: State, iws: Internal)
    requires Inv(s) && iws.session.id !in s.session
    ensures var s' := Registered(s, iws);
      Held(s'.sessions, Bags(s'.session)) == Held(s.sessions, Bags(s.session)) + multiset(Resources(iws))
  {
    BagsRegistered(s.session, iws.session.id, iws);
    HeldRegistered(s.sessions, iws.session, Bags(s.session), multiset(Resources(iws)));
  }

  lemma {:induction false} CloseHolds(s: State, id: Id)
    requires Inv(s)
    ensures var s' := Closed(s, id);
      Held(s.sessions, Bags(s.session)) == Held(s'.sessions, Bags(s'.session)) + multiset(Released(s, id))
  {
    BagsClosed(s.session, id);
    assert id in s.session ==> s.session[id].session in s.sessions;
    HeldClosed(s.sessions, Bags(s.session), id);
  }

  lemma {:induction false} RegisterConserves(l: Ledger, iws: Internal)
    requires Inv(l.state) && Conserved(l) && iws.session.id !in l.state.session
    ensures Inv(Step(l, Register(iws)).state) && Conserved(Step(l, Register(iws)))
  {
    RegisterKeepsInv(l.state, iws);
    RegisterHolds(l.state, iws);
    BagOfPlus(l.acquired, Resources(iws));
    var held := Held(l.state.sessions, Bags(l.state.session));
    Balance(multiset(l.acquired), multiset(l.released), held, multiset(Resources(iws)));
  }

  lemma {:induction false} CloseConserves(l: Ledger, id: Id)
    requires Inv(l.state) && Conserved(l)
    ensures Inv(Step(l, Close(id)).state) && Conserved(Step(l, Close(id)))
  {
    var after := Closed(l.state, id);
    CloseKeepsInv(l.state, id);
    CloseHolds(l.state, id);
    BagOfPlus(l.released, Released(l.state, id));
    var held := Held(after.sessions, Bags(after.session));
    Balance(multiset(l.acquired), multiset(l.released), held, multiset(Released(l.state, id)));
  }

  /** The session registered under an id, by the operations alone: the first registration since its
      last close. */
  function Holder(ops: seq<Op>, id: Id): Option<Internal> {
    if ops == [] then None
    else
      var front, op := ops[..|ops| - 1], ops[|ops| - 1];
      match op
      case Register(iws) => if iws.session.id == id && Holder(front, id).None? then Some(iws) else Holder(front, id)
      case Close(closed) => if closed == id then None else Holder(front, id)
  }

  lemma {:induction false} HolderIsRecorded(ops: seq<Op>, id: Id)
    ensures var s := Run(ops).state.session;
      Holder(ops, id) == if id in s then Some(s[id]) else None
  {
    if ops == [] {
    } else {
      HolderIsRecorded(ops[..|ops| - 1], id);
    }
  }

  /** Some close so far was of a session that owned r. */
  ghost predicate GivenBack(ops: seq<Op>, r: Resource) {
    exists k :: 0 <= k < |ops| && GivenBackAt(ops, k, r)
  }

  ghost predicate GivenBackAt(ops: seq<Op>, k: nat, r: Resource)
    requires k < |ops|
  {
    ops[k].Close? && Holder(ops[..k], ops[k].id).Some? && Owns(Holder(ops[..k], ops[k].id).value, r)
  }

  /** Over every serial run: what has been released is exactly what the closed sessions owned. */
  lemma {:induction false} ReleasedIsGivenBack(ops: seq<Op>, r: Resource)
    ensures r in Run(ops).released <==> GivenBack(ops, r)
  {
    if ops == [] {
    } else {
      var front, op := ops[..|ops| - 1], ops[|ops| - 1];
      ReleasedIsGivenBack(front, r);
      GivenBackSnoc(ops, r);
      if op.Close? {
        HolderIsRecorded(front, op.id);
        if Holder(front, op.id).Some? {
          ResourcesAreOwned(Holder(front, op.id).value, r);
        }
      }
    }
  }

  lemma GivenBackSnoc(ops: seq<Op>, r: Resource)
    requires ops != []
    ensures GivenBack(ops, r) <==> GivenBack(ops[..|ops| - 1], r) || GivenBackAt(ops, |ops| - 1, r)
  {
    var front := ops[..|ops| - 1];
    forall k | 0 <= k < |front|
      ensures GivenBackAt(ops, k, r) <==> GivenBackAt(front, k, r)
    {
      assert front[..k] == ops[..k];
    }
  }

  /** The public list and the private records agree on who is registered under an id. */
  lemma SameRecord(s: State, id: Id)
    requires Inv(s)
    ensures id in s.session <==> exists ws :: ws in s.sessions && ws.id == id
    ensures forall ws :: ws in s.sessions && ws.id == id ==> s.session[id].session == ws
  {
    if id in s.session {
      assert s.session[id].session in s.sessions;
    }
  }

  // ---------------------------------------------------------------- the daemon object

  class Daemon {
    var session: map<Id, Internal>
    var sessions: seq<WorkerSession>

    function View(): State
      reads this
    {
      State(session, sessions)
    }

    constructor ()
      ensures View() == EMPTY.state && Inv(View())
    {
      session, sessions := map[], [];
    }

    /** The registration step of handleSession. */
    method Register(iws: Internal)
      requires Inv(View()) && iws.session.id !in session
      modifies this
      ensures View() == Registered(old(View()), iws) && Inv(View())
      ensures sessions == old(sessions) + [iws.session] && session == old(session)[iws.session.id := iws]
    {
      RegisterKeepsInv(View(), iws);
      session := session[iws.session.id := iws];
      sessions := sessions + [iws.session];
    }

    /** The private half: find the record among the keys and delete it. */
    method Forget(id: Id) returns (iws: Option<Internal>)
      modifies this`session
      ensures session == old(session) - {id}
      ensures iws == if id in old(session) then Some(old(session)[id]) else None
    {
      iws := None;
      var keys := session.Keys;
      while keys != {}
        invariant session == if id in keys then old(session) else old(session) - {id}
        invariant iws == if id in old(session) && id !in keys then Some(old(session)[id]) else None
        invariant keys <= old(session).Keys
        decreases keys
      {
        var v :| v in keys;
        keys := keys - {v};
        if v == id {
          iws := Some(session[v]);
          session := session - {v};
        }
      }
    }

    /** The public half: read the list, leaving out the session. */
    method Scan(id: Id) returns (wss: seq<WorkerSession>, ws: Option<WorkerSession>)
      ensures wss == WithoutKey(sessions, IdOf, id)
      ensures ws.Some? ==> ws.value in sessions && ws.value.id == id
      ensures ws.None? ==> forall v :: v in sessions ==> v.id != id
    {
      ws, wss := None, [];
      for i := 0 to |sessions|
        invariant wss == WithoutKey(sessions[..i], IdOf, id)
        invariant ws.Some? ==> ws.value in sessions[..i] && ws.value.id == id
        invariant ws.None? ==> forall v :: v in sessions[..i] ==> v.id != id
      {
        assert sessions[..i + 1][..i] == sessions[..i];
        assert sessions[..i + 1] == sessions[..i] + [sessions[i]];
        if sessions[i].id == id {
          ws := Some(sessions[i]);
        } else {
          wss := wss + [sessions[i]];
        }
      }
      assert sessions[..|sessions|] == sessions;
    }

    /** CloseSession when no node took the command over and no other handler runs. */
    method CloseLocal(id: Id) returns (released: seq<Resource>)
      requires Inv(View())
      modifies this
      ensures View() == Closed(old(View()), id) && Inv(View())
      ensures released == Released(old(View()), id)
      ensures forall r :: r in released <==> id in old(session) && Owns(old(session)[id], r)
      ensures id !in session && forall ws :: ws in sessions <==> ws in old(sessions) && ws.id != id
    {
      CloseKeepsInv(View(), id);
      SameRecord(View(), id);
      var iws := Forget(id);
      var wss, ws := Scan(id);
      sessions := wss;
      var public := if ws.Some? then PublicResources(ws.value) else [];
      var private := if iws.Some? then PrivateResources(iws.value) else [];
      released := public + private;
      forall r | id in old(session)
        ensures r in released <==> Owns(old(session)[id], r)
      {
        ResourcesAreOwned(old(session)[id], r);
      }
      forall v
        ensures v in sessions <==> v in old(sessions) && v.id != id
      {
        WithoutKeyIn(old(sessions), IdOf, id, v);
      }
    }
  }
}
