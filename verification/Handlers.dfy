/** Registrations and closes of one daemon interleaved: nothing locks its session registry. */
module Handlers {
  import opened Seqs
  import opened Registry

  type Sessions = seq<WorkerSession>

  /** A handler at work. It has written or deleted the record; `seen` is the list as it loaded it,
      which it is going to replace. */
  datatype Work =
    | Joining(ws: WorkerSession, seen: Option<Sessions>)
    | Leaving(id: Id, seen: Option<Sessions>)

  function Target(w: Work): Id { if w.Joining? then w.ws.id else w.id }

  /** The list a handler stores in place of the one it loaded. */
  function Outcome(w: Work, seen: Sessions): Sessions {
    if w.Joining? then seen + [w.ws] else WithoutKey(seen, IdOf, w.id)
  }

  /** `used`: the ids ever registered. */
  datatype Shared = Shared(state: State, busy: map<nat, Work>, used: set<Id>)

  datatype Event =
    | Record(p: nat, iws: Internal)  // handleSession writes the map entry
    | Forget(p: nat, id: Id)         // CloseSession deletes the map entry
    | Load(p: nat)
    | Store(p: nat)

  ghost function Move(s: Shared, e: Event): Shared {
    match e
    case Record(p, iws) =>
      var id := iws.session.id;
      if p in s.busy || id in s.used then s
      else
        var state := s.state.(session := s.state.session[id := iws]);
        Shared(state, s.busy[p := Joining(iws.session, None)], s.used + {id})
    case Forget(p, id) =>
      if p in s.busy then s
      else s.(state := s.state.(session := s.state.session - {id}), busy := s.busy[p := Leaving(id, None)])
    case Load(p) =>
      if p in s.busy && s.busy[p].seen.None? then
        s.(busy := s.busy[p := s.busy[p].(seen := Some(s.state.sessions))])
      else s
    case Store(p) =>
      if Loaded(s, p) then
        s.(state := s.state.(sessions := Outcome(s.busy[p], s.busy[p].seen.value)), busy := s.busy - {p})
      else s
  }

  predicate Loaded(s: Shared, p: nat) { p in s.busy && s.busy[p].seen.Some? }

  const IDLE := Shared(EMPTY.state, map[], {})

  ghost function Interleave(events: seq<Event>): Shared {
    if events == [] then IDLE else Move(Interleave(events[..|events| - 1]), events[|events| - 1])
  }

  // ---- what holds in every interleaving

  ghost function Ids(list: Sessions): set<Id> {
    set ws | ws in list :: ws.id
  }

  ghost predicate Sane(s: Shared) {
    && UniqueKeys(s.state.sessions, IdOf)
    && (forall id :: id in s.state.session ==> s.state.session[id].session.id == id && id in s.used)
    && Ids(s.state.sessions) <= s.used
    && (forall p :: Loaded(s, p) ==> UniqueKeys(s.busy[p].seen.value, IdOf) && Ids(s.busy[p].seen.value) <= s.used)
    && (forall p :: p in s.busy && s.busy[p].Joining? ==> Unlisted(s, s.busy[p].ws.id) && s.busy[p].ws.id in s.used)
    && (forall p, q :: p in s.busy && q in s.busy && p != q && s.busy[p].Joining? && s.busy[q].Joining? ==>
          s.busy[p].ws.id != s.busy[q].ws.id)
  }

  /** No list in memory has the id: only its own registration will put it there. */
  ghost predicate Unlisted(s: Shared, id: Id) {
    id !in Ids(s.state.sessions) && forall q :: Loaded(s, q) ==> id !in Ids(s.busy[q].seen.value)
  }

  lemma OutcomeIn(w: Work, seen: Sessions, ws: WorkerSession)
    ensures ws in Outcome(w, seen) <==> if w.Joining? then ws in seen || ws == w.ws else ws in seen && ws.id != w.id
  {
    if w.Leaving? {
      WithoutKeyIn(seen, IdOf, w.id, ws);
    }
  }

  lemma OutcomeIds(w: Work, seen: Sessions)
    ensures w.Joining? ==> Ids(Outcome(w, seen)) == Ids(seen) + {w.ws.id}
    ensures w.Leaving? ==> Ids(Outcome(w, seen)) == Ids(seen) - {w.id}
  {
    forall ws
      ensures ws in Outcome(w, seen) <==> if w.Joining? then ws in seen || ws == w.ws else ws in seen && ws.id != w.id
    {
      OutcomeIn(w, seen, ws);
    }
  }

  lemma StoreKeepsSane(s: Shared, p: nat)
    requires Sane(s) && Loaded(s, p)
    ensures Sane(Move(s, Store(p)))
  {
    var w := s.busy[p];
    OutcomeIds(w, w.seen.value);
    if w.Leaving? {
      WithoutKeyUnique(w.seen.value, IdOf, w.id);
    } else {
      assert w.ws.id !in Ids(w.seen.value);
    }
  }

  lemma LoadKeepsSane(s: Shared, p: nat)
    requires Sane(s)
    ensures Sane(Move(s, Load(p)))
  {
  }

  lemma RecordKeepsSane(s: Shared, p: nat, iws: Internal)
    requires Sane(s)
    ensures Sane(Move(s, Record(p, iws)))
  {
  }

  lemma MoveKeepsSane(s: Shared, e: Event)
    requires Sane(s)
    ensures Sane(Move(s, e))
  {
    match e
    case Record(p, iws) => RecordKeepsSane(s, p, iws);
    case Forget(p, id) =>
    case Load(p) => LoadKeepsSane(s, p);
    case Store(p) =>
      if Loaded(s, p) {
        StoreKeepsSane(s, p);
      }
  }

  // ---- records and list in step

  ghost predicate Handled(s: Shared, id: Id) {
    exists p :: p in s.busy && Target(s.busy[p]) == id
  }

  ghost predicate Recorded(s: State, ws: WorkerSession) {
    ws.id in s.session && s.session[ws.id].session == ws
  }

  /** Records and list agree, but for the sessions in some handler's hand. */
  ghost predicate InStep(s: Shared) {
    && (forall id :: id in s.state.session ==> s.state.session[id].session in s.state.sessions || Handled(s, id))
    && (forall ws :: ws in s.state.sessions ==> Recorded(s.state, ws) || Handled(s, ws.id))
  }

  /** p's snapshot still tells the truth about every session nobody handles. */
  ghost predicate Current(s: Shared, p: nat)
    requires Loaded(s, p)
  {
    forall ws: WorkerSession :: !Handled(s, ws.id) ==> (ws in s.busy[p].seen.value <==> ws in s.state.sessions)
  }

  /** The record agrees with what p is about to store for its own session, or somebody else will
      still see to that. */
  ghost predicate Settled(s: Shared, p: nat)
    requires p in s.busy
  {
    var w := s.busy[p];
    || Handled(s.(busy := s.busy - {p}), Target(w))
    || (if w.Joining? then Recorded(s.state, w.ws) else w.id !in s.state.session)
  }

  ghost predicate Clean(s: Shared, e: Event) {
    e.Store? && Loaded(s, e.p) ==> Current(s, e.p) && Settled(s, e.p)
  }

  lemma HandledWithout(s: Shared, p: nat, id: Id)
    requires p in s.busy
    ensures Handled(s, id) <==> id == Target(s.busy[p]) || Handled(s.(busy := s.busy - {p}), id)
  {
    var s' := s.(busy := s.busy - {p});
    if Handled(s, id) {
      var q :| q in s.busy && Target(s.busy[q]) == id;
      assert q != p ==> q in s'.busy && Target(s'.busy[q]) == id;
    }
    if Handled(s', id) {
      var q :| q in s'.busy && Target(s'.busy[q]) == id;
      assert q in s.busy && Target(s.busy[q]) == id;
    }
  }

  lemma HandledWith(s: Shared, p: nat, w: Work, id: Id)
    requires p in s.busy ==> Target(s.busy[p]) == Target(w)
    ensures Handled(s.(busy := s.busy[p := w]), id) <==> id == Target(w) || Handled(s, id)
  {
    var s' := s.(busy := s.busy[p := w]);
    if Handled(s, id) {
      var q :| q in s.busy && Target(s.busy[q]) == id;
      assert q in s'.busy && Target(s'.busy[q]) == id;
    }
    assert p in s'.busy && Target(s'.busy[p]) == Target(w);
  }

  /** Everything but a store keeps records and list in step. */
  lemma OthersKeepInStep(s: Shared, e: Event)
    requires Sane(s) && InStep(s) && !e.Store?
    ensures InStep(Move(s, e))
  {
    var s' := Move(s, e);
    if s' != s {
      forall id
        ensures Handled(s', id) <==> id == Target(s'.busy[e.p]) || Handled(s, id)
      {
        HandledWith(s, e.p, s'.busy[e.p], id);
      }
    }
  }

  /** A store keeps them in step if and only if the snapshot is current and the handler's own
      session settled. */
  lemma StoreKeepsInStepIff(s: Shared, p: nat)
    requires Sane(s) && InStep(s) && Loaded(s, p)
    ensures InStep(Move(s, Store(p))) <==> Current(s, p) && Settled(s, p)
  {
    var w, s' := s.busy[p], Move(s, Store(p));
    forall ws
      ensures ws in s'.state.sessions <==>
        if w.Joining? then ws in w.seen.value || ws == w.ws else ws in w.seen.value && ws.id != w.id
    {
      OutcomeIn(w, w.seen.value, ws);
    }
    forall id
      ensures Handled(s, id) <==> id == Target(w) || Handled(s', id)
    {
      HandledWithout(s, p, id);
      assert s'.busy == s.busy - {p};
    }
  }

  lemma {:induction false} MoveKeepsInStepIff(s: Shared, e: Event)
    requires Sane(s) && InStep(s)
    ensures InStep(Move(s, e)) <==> Clean(s, e)
  {
    if !e.Store? {
      OthersKeepInStep(s, e);
    } else if Loaded(s, e.p) {
      StoreKeepsInStepIff(s, e.p);
    }
  }

  lemma {:induction false} InterleaveIsSane(events: seq<Event>)
    ensures Sane(Interleave(events))
  {
    if events == [] {
    } else {
      InterleaveIsSane(events[..|events| - 1]);
      MoveKeepsSane(Interleave(events[..|events| - 1]), events[|events| - 1]);
    }
  }

  lemma {:induction false} CleanRunInStep(events: seq<Event>, n: nat)
    requires n <= |events| && forall k :: 0 <= k < n ==> Clean(Interleave(events[..k]), events[k])
    ensures InStep(Interleave(events[..n]))
  {
    if n == 0 {
    } else {
      CleanRunInStep(events, n - 1);
      InterleaveIsSane(events[..n - 1]);
      assert events[..n][..n - 1] == events[..n - 1];
      MoveKeepsInStepIff(Interleave(events[..n - 1]), events[n - 1]);
    }
  }

  /** Over every interleaving of registrations and closes: records and list stay in step
      throughout if and only if every store is clean. */
  lemma {:induction false} InStepThroughoutIffClean(events: seq<Event>)
    ensures (forall k :: 0 <= k <= |events| ==> InStep(Interleave(events[..k]))) <==>
      (forall k :: 0 <= k < |events| ==> Clean(Interleave(events[..k]), events[k]))
  {
    if forall k :: 0 <= k < |events| ==> Clean(Interleave(events[..k]), events[k]) {
      forall k | 0 <= k <= |events|
        ensures InStep(Interleave(events[..k]))
      {
        CleanRunInStep(events, k);
      }
    }
    if forall k :: 0 <= k <= |events| ==> InStep(Interleave(events[..k])) {
      forall k | 0 <= k < |events|
        ensures Clean(Interleave(events[..k]), events[k])
      {
        InterleaveIsSane(events[..k]);
        assert events[..k + 1][..k] == events[..k];
        MoveKeepsInStepIff(Interleave(events[..k]), events[k]);
      }
    }
  }

  /** With no handler at work, being in step is the registry's invariant. */
  lemma InStepAtRest(s: Shared)
    requires Sane(s) && s.busy == map[]
    ensures InStep(s) <==> Inv(s.state)
  {
    assert forall id :: !Handled(s, id);
  }

  // ---- overlapping windows

  /** No other handler works on p's session, and the record already agrees with what p stores. */
  ghost predicate Alone(s: Shared, p: nat)
    requires p in s.busy
  {
    var w := s.busy[p];
    && (forall q :: q in s.busy && q != p ==> Target(s.busy[q]) != Target(w))
    && (if w.Joining? then Recorded(s.state, w.ws) else w.id !in s.state.session)
  }

  /** Two handlers of different sessions that hold the same snapshot: whichever stores second undoes
      the first. The second store keeps records and list in step if and only if the first one changed
      nothing, because it closes a session that is not listed. */
  lemma {:induction false} OverlapSurvivesIff(s: Shared, p: nat, q: nat)
    requires Sane(s) && InStep(s) && Loaded(s, p) && Loaded(s, q) && p != q
    requires s.busy[p].seen == s.busy[q].seen == Some(s.state.sessions) && Alone(s, p) && Alone(s, q)
    ensures InStep(Move(Move(s, Store(p)), Store(q))) <==>
      s.busy[p].Leaving? && s.busy[p].id !in Ids(s.state.sessions)
  {
    var w, list := s.busy[p], s.state.sessions;
    var s1 := Move(s, Store(p));
    StoreKeepsInStepIff(s, p);
    StoreKeepsSane(s, p);
    StoreKeepsInStepIff(s1, q);
    assert !Handled(s1, Target(w));
    forall ws
      ensures ws in s1.state.sessions <==> if w.Joining? then ws in list || ws == w.ws else ws in list && ws.id != w.id
    {
      OutcomeIn(w, list, ws);
    }
    if w.Joining? {
      assert w.ws in s1.state.sessions && w.ws.id !in Ids(list);
    } else if w.id in Ids(list) {
      var ws :| ws in list && ws.id == w.id;
      assert ws !in s1.state.sessions;
    }
  }

  // ---- registrations around a close

  ghost function After(s: Shared, events: seq<Event>): Shared {
    if events == [] then s else Move(After(s, events[..|events| - 1]), events[|events| - 1])
  }

  /** Some registration stores the list. */
  ghost predicate AnyStore(s: Shared, events: seq<Event>) {
    events != [] &&
    (var front, e := events[..|events| - 1], events[|events| - 1];
     AnyStore(s, front) || (e.Store? && Loaded(After(s, front), e.p)))
  }

  /** Steps of registrations of other sessions, whose own stores are clean. */
  ghost predicate Registrations(s: Shared, p: nat, events: seq<Event>) {
    events == [] ||
    (var front, e := events[..|events| - 1], events[|events| - 1];
     && Registrations(s, p, front) && Clean(After(s, front), e)
     && !e.Forget? && e.p != p && p in s.busy && (e.Record? ==> e.iws.session.id != Target(s.busy[p])))
  }

  /** While the close p holds the list of s, registrations have led to t. */
  ghost predicate Window(s: Shared, t: Shared, p: nat, stored: bool) {
    && Sane(t) && InStep(t) && Loaded(s, p) && s.busy[p].Leaving?
    && p in t.busy && t.busy[p] == s.busy[p] && Alone(t, p)
    && (forall q :: q in t.busy && q != p ==> t.busy[q].Joining?)
    && (if stored then Added(s, t) else t.state.sessions == s.state.sessions)
  }

  /** Some session is listed in t that was not in s, and nobody handles it any more. */
  ghost predicate Added(s: Shared, t: Shared) {
    exists ws: WorkerSession :: ws in t.state.sessions && ws !in s.state.sessions && !Handled(t, ws.id)
  }

  lemma StoreAdds(s: Shared, t: Shared, p: nat, q: nat, stored: bool)
    requires Window(s, t, p, stored) && q != p && Loaded(t, q) && Current(t, q)
    ensures Added(s, Move(t, Store(q)))
  {
    var w, t' := t.busy[q], Move(t, Store(q));
    forall id
      ensures Handled(t, id) <==> id == Target(w) || Handled(t', id)
    {
      HandledWithout(t, q, id);
      assert t'.busy == t.busy - {q};
    }
    if stored {
      var ws :| ws in t.state.sessions && ws !in s.state.sessions && !Handled(t, ws.id);
      assert ws in w.seen.value && ws in t'.state.sessions;
    } else {
      assert w.ws in t'.state.sessions && w.ws.id !in Ids(s.state.sessions);
      JoinerIsAlone(t, q);
    }
  }

  lemma JoinerIsAlone(t: Shared, q: nat)
    requires Sane(t) && q in t.busy && t.busy[q].Joining?
    requires forall r :: r in t.busy && t.busy[r].Leaving? ==> Target(t.busy[r]) != Target(t.busy[q])
    ensures !Handled(t.(busy := t.busy - {q}), Target(t.busy[q]))
  {
  }

  lemma AddedStays(s: Shared, t: Shared, e: Event)
    requires Sane(t) && Added(s, t) && !e.Store? && !e.Forget?
    ensures Added(s, Move(t, e))
  {
    var t' := Move(t, e);
    if t' != t {
      var ws :| ws in t.state.sessions && ws !in s.state.sessions && !Handled(t, ws.id);
      HandledWith(t, e.p, t'.busy[e.p], ws.id);
      assert ws.id in Ids(t.state.sessions);
    }
  }

  lemma CloserStaysAlone(t: Shared, p: nat, e: Event)
    requires Sane(t) && p in t.busy && t.busy[p].Leaving? && Alone(t, p) && !e.Forget? && e.p != p
    requires e.Record? ==> e.iws.session.id != t.busy[p].id
    ensures var t' := Move(t, e); p in t'.busy && t'.busy[p] == t.busy[p] && Alone(t', p)
  {
  }

  lemma WindowStep(s: Shared, t: Shared, p: nat, e: Event, stored: bool)
    requires Window(s, t, p, stored) && Clean(t, e) && !e.Forget? && e.p != p
    requires e.Record? ==> e.iws.session.id != Target(t.busy[p])
    ensures Window(s, Move(t, e), p, stored || (e.Store? && Loaded(t, e.p)))
  {
    MoveKeepsSane(t, e);
    MoveKeepsInStepIff(t, e);
    CloserStaysAlone(t, p, e);
    if e.Store? && Loaded(t, e.p) {
      StoreAdds(s, t, p, e.p, stored);
    } else if e.Store? {
      assert Move(t, e) == t;
    } else if stored {
      AddedStays(s, t, e);
    }
  }

  lemma {:induction false} WindowRun(s: Shared, p: nat, during: seq<Event>)
    requires Window(s, s, p, false) && Registrations(s, p, during)
    ensures Window(s, After(s, during), p, AnyStore(s, during))
  {
    if during == [] {
    } else {
      var front := during[..|during| - 1];
      WindowRun(s, p, front);
      WindowStep(s, After(s, front), p, during[|during| - 1], AnyStore(s, front));
    }
  }

  /** A close, from its load on, among any interleaving of registrations of other sessions, begun
      before or after: its store keeps records and list in step if and only if no registration
      stored the list in between. */
  lemma {:induction false} CloseSurvivesIff(s: Shared, p: nat, during: seq<Event>)
    requires Sane(s) && InStep(s) && Loaded(s, p) && s.busy[p].Leaving? && s.busy[p].seen == Some(s.state.sessions)
    requires Alone(s, p) && forall q :: q in s.busy && q != p ==> s.busy[q].Joining?
    requires Registrations(s, p, during)
    ensures InStep(Move(After(s, during), Store(p))) <==> !AnyStore(s, during)
  {
    WindowRun(s, p, during);
    var t := After(s, during);
    StoreKeepsInStepIff(t, p);
    if AnyStore(s, during) {
      var ws :| ws in t.state.sessions && ws !in s.state.sessions && !Handled(t, ws.id);
      assert !Current(t, p);
    }
  }

  // ---- separate windows

  /** At most one handler holds a snapshot, which is the list as it is; every handler is alone. */
  ghost predicate OneAtATime(s: Shared) {
    && (forall p :: Loaded(s, p) ==> s.busy[p].seen == Some(s.state.sessions))
    && (forall p, q :: Loaded(s, p) && Loaded(s, q) ==> p == q)
    && (forall p :: p in s.busy ==> Alone(s, p))
  }

  /** What a lock around load and store, and one handler per session, would ensure. */
  ghost predicate Guarded(s: Shared, e: Event) {
    match e
    case Record(_, iws) => !Handled(s, iws.session.id)
    case Forget(_, id) => !Handled(s, id)
    case Load(_) => forall q :: !Loaded(s, q)
    case Store(_) => true
  }

  lemma GuardedKeepsSnapshot(s: Shared, e: Event, q: nat)
    requires OneAtATime(s) && Guarded(s, e) && Loaded(Move(s, e), q)
    ensures Move(s, e).busy[q].seen == Some(Move(s, e).state.sessions)
    ensures Move(s, e) != s ==> if e.Load? then q == e.p else Loaded(s, q) && !e.Store?
  {
    match e
    case Record(p, iws) => assert q == p ==> s == Move(s, e);
    case Forget(p, id) => assert q == p ==> s == Move(s, e);
    case Load(p) => assert q != p ==> Loaded(s, q) || !(p in s.busy);
    case Store(p) => assert Loaded(s, q);
  }

  lemma GuardedKeepsOne(s: Shared, e: Event)
    requires Sane(s) && OneAtATime(s) && Guarded(s, e)
    ensures OneAtATime(Move(s, e)) && Clean(s, e)
  {
    var s' := Move(s, e);
    assert e.Store? && Loaded(s, e.p) ==> Alone(s, e.p);
    forall q | Loaded(s', q)
      ensures s'.busy[q].seen == Some(s'.state.sessions)
      ensures s' != s ==> if e.Load? then q == e.p else Loaded(s, q)
    {
      GuardedKeepsSnapshot(s, e, q);
    }
    if s' != s {
      forall p | p in s'.busy
        ensures Alone(s', p)
      {
        GuardedKeepsAlone(s, e, p);
      }
    }
  }

  lemma GuardedKeepsAlone(s: Shared, e: Event, p: nat)
    requires Sane(s) && OneAtATime(s) && Guarded(s, e) && p in Move(s, e).busy
    ensures Alone(Move(s, e), p)
  {
    if p in s.busy {
      assert Alone(s, p);
      if e.Record? || e.Forget? {
        assert Handled(s, Target(s.busy[p]));
      }
    } else {
      forall q | q in s.busy
        ensures Handled(s, Target(s.busy[q]))
      {
      }
    }
  }

  /** Over every run in which no handler loads the list while another one holds a snapshot of it, and
      no two work on one session, records and list stay in step, wherever the map entries are
      written; with no handler at work the registry's invariant holds. */
  lemma {:induction false} SeparateWindowsKeepInStep(events: seq<Event>)
    requires forall k :: 0 <= k < |events| ==> Guarded(Interleave(events[..k]), events[k])
    ensures var s := Interleave(events); OneAtATime(s) && InStep(s) && (s.busy == map[] ==> Inv(s.state))
  {
    InterleaveIsSane(events);
    if events == [] {
    } else {
      var front, e := events[..|events| - 1], events[|events| - 1];
      forall k | 0 <= k < |front|
        ensures Guarded(Interleave(front[..k]), front[k])
      {
        assert front[..k] == events[..k];
      }
      SeparateWindowsKeepInStep(front);
      InterleaveIsSane(front);
      GuardedKeepsOne(Interleave(front), e);
      MoveKeepsInStepIff(Interleave(front), e);
    }
    var s := Interleave(events);
    if s.busy == map[] {
      InStepAtRest(s);
    }
  }

  // ---- runs that fail

  /** A registry at rest. */
  ghost function Resting(s: State): Shared {
    Shared(s, map[], s.session.Keys)
  }

  /** Two registrations overlap and no session is ever closed: the second to store loses the first,
      which is recorded and not listed. */
  lemma {:induction false} OverlappingRegistrations(s: State, a: Internal, b: Internal)
    requires Inv(s) && a.session.id !in s.session && b.session.id !in s.session && a.session.id != b.session.id
    ensures var s1 := Move(Move(Resting(s), Record(0, a)), Record(1, b));
      var s2 := Move(Move(s1, Load(0)), Load(1));
      var t := Move(Move(s2, Store(0)), Store(1));
      && t.busy == map[] && a.session.id in t.state.session && t.state.sessions == s.sessions + [b.session]
      && !Inv(t.state)
  {
    var s1 := Move(Move(Resting(s), Record(0, a)), Record(1, b));
    var s2 := Move(Move(s1, Load(0)), Load(1));
    var t := Move(Move(s2, Store(0)), Store(1));
    assert s2.busy == map[0 := Joining(a.session, Some(s.sessions)), 1 := Joining(b.session, Some(s.sessions))];
    assert t.busy == map[];
    assert a.session !in t.state.sessions;
  }

  /** A whole close falls between the load and the store of a registration: the closed session comes
      back, listed and not recorded. */
  lemma {:induction false} CloseInsideRegistration(s: State, a: Internal, b: Internal)
    requires Inv(s) && a.session.id in s.session && s.session[a.session.id] == a && b.session.id !in s.session
    ensures var s1 := Move(Move(Resting(s), Record(1, b)), Load(1));
      var s2 := Move(Move(Move(s1, Forget(0, a.session.id)), Load(0)), Store(0));
      var t := Move(s2, Store(1));
      && t.busy == map[] && t.state.sessions == s.sessions + [b.session] && a.session.id !in t.state.session
      && !Inv(t.state)
  {
    var s1 := Move(Move(Resting(s), Record(1, b)), Load(1));
    var s2 := Move(Move(Move(s1, Forget(0, a.session.id)), Load(0)), Store(0));
    assert s2.busy == map[1 := Joining(b.session, Some(s.sessions))];
    var t := Move(s2, Store(1));
    assert t.busy == map[];
    assert a.session in s.sessions && a.session in t.state.sessions;
  }

  // ---- handlers that do not overlap

  /** With nothing in between, a registration and a close are the single steps of Registry's serial
      runs. */
  lemma UndisturbedHandlersAreSerial(s: State, iws: Internal, id: Id)
    requires Inv(s)
    ensures iws.session.id !in s.session ==>
      Move(Move(Move(Resting(s), Record(0, iws)), Load(0)), Store(0)) == Resting(Registered(s, iws))
    ensures Move(Move(Move(Resting(s), Forget(0, id)), Load(0)), Store(0)).state == Closed(s, id)
  {
    if iws.session.id !in s.session {
      var s2 := Move(Move(Resting(s), Record(0, iws)), Load(0));
      assert s2.busy == map[0 := Joining(iws.session, Some(s.sessions))];
      assert s2.busy - {0} == map[];
    }
  }
}
