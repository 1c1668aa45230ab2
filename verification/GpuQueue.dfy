/** The GPU ticket queue: every interleaving of the goroutines inside waitForGPU. */
module GpuQueue {
  import opened Seqs

  type Ticket = nat

  datatype Outcome = Cancelled | GpuError | Took

  /** Where the goroutine that owns a ticket stands. */
  datatype Phase =
    | Checking                   // about to compare the head of the queue with its ticket
    | Sleeping                   // not its turn: asleep, then looks at the cancel channel
    | Claiming                   // in the takeGPU loop
    | Leaving(outcome: Outcome)  // returning; the deferred removal has not run yet

  datatype TakeResult = Failed | NoneFree | Found

  /** `line` is local_queue; the rest is the goroutines' positions and the history. */
  datatype State = State(
    line: seq<Ticket>,
    phase: map<Ticket, Phase>,
    arrivals: seq<Ticket>,
    entered: seq<Ticket>,
    cancelled: set<Ticket>)

  datatype Event =
    | Enqueue(w: Ticket)
    | CheckHead(w: Ticket)
    | Wake(w: Ticket, cancel: bool)
    | TryTake(w: Ticket, result: TakeResult)
    | Remove(w: Ticket)

  function At(s: State, w: Ticket): Option<Phase> {
    if w in s.phase then Some(s.phase[w]) else None
  }

  /** A step that is not enabled leaves the state alone. Ticket names are fresh. */
  function Step(s: State, e: Event): State {
    match e
    case Enqueue(w) =>
      if w in s.arrivals then s
      else s.(line := s.line + [w], phase := s.phase[w := Checking], arrivals := s.arrivals + [w])
    case CheckHead(w) =>
      if At(s, w) != Some(Checking) || s.line == [] then s
      else if s.line[0] == w then s.(phase := s.phase[w := Claiming], entered := s.entered + [w])
      else s.(phase := s.phase[w := Sleeping])
    case Wake(w, cancel) =>
      if At(s, w) != Some(Sleeping) then s
      else if cancel then s.(phase := s.phase[w := Leaving(Cancelled)], cancelled := s.cancelled + {w})
      else s.(phase := s.phase[w := Checking])
    case TryTake(w, result) =>
      if At(s, w) != Some(Claiming) || result == NoneFree then s
      else s.(phase := s.phase[w := Leaving(if result == Found then Took else GpuError)])
    case Remove(w) =>
      if w !in s.phase || !s.phase[w].Leaving? then s
      else s.(line := Without(s.line, w), phase := s.phase - {w})
  }

  const EMPTY := State([], map[], [], [], {})

  function Run(events: seq<Event>): State {
    if events == [] then EMPTY else Step(Run(events[..|events| - 1]), events[|events| - 1])
  }

  /** Tickets whose goroutine still waits for its turn. */
  function Waiting(s: State): set<Ticket> {
    set w | w in s.phase && (s.phase[w].Checking? || s.phase[w].Sleeping?)
  }

  ghost function Kept(s: State): set<Ticket> {
    (set w | w in s.arrivals) - s.cancelled
  }

  ghost predicate Distinct(s: State) {
    && NoDup(s.arrivals) && NoDup(s.line)
    && (forall w :: w in s.line <==> w in s.phase)
    && (forall w :: w in s.line ==> w in s.arrivals)
    && (forall w :: w in s.cancelled ==> w in s.arrivals && (w in s.phase ==> s.phase[w] == Leaving(Cancelled)))
  }

  /** Whoever is in the takeGPU loop is the head. */
  ghost predicate HeadClaims(s: State) {
    forall w :: w in s.phase && s.phase[w] == Claiming ==> s.line != [] && s.line[0] == w
  }

  /** First come, first served: the arrivals that were not cancelled are exactly those that
      entered the takeGPU loop followed by those still waiting, in order. */
  ghost predicate Fifo(s: State) {
    Keep(s.arrivals, Kept(s)) == s.entered + Keep(s.line, Waiting(s))
  }

  ghost predicate Inv(s: State) {
    Distinct(s) && HeadClaims(s) && Fifo(s)
  }

  /** A newcomer is appended on both sides of the account. */
  lemma AppendBalanced(
      arrivals: seq<Ticket>, kept: set<Ticket>, entered: seq<Ticket>,
      line: seq<Ticket>, waiting: set<Ticket>, w: Ticket)
    requires Keep(arrivals, kept) == entered + Keep(line, waiting)
    requires w !in arrivals && w !in line
    ensures Keep(arrivals + [w], kept + {w}) == entered + Keep(line + [w], waiting + {w})
  {
    KeepSnoc(arrivals, w, kept + {w});
    KeepSame(arrivals, kept, kept + {w});
    KeepSnoc(line, w, waiting + {w});
    KeepSame(line, waiting, waiting + {w});
    PlusAssoc(entered, Keep(line, waiting), [w]);
  }

  lemma EnqueueSets(s: State, w: Ticket)
    requires w !in s.arrivals && w !in s.cancelled
    ensures Kept(Step(s, Enqueue(w))) == Kept(s) + {w}
    ensures Waiting(Step(s, Enqueue(w))) == Waiting(s) + {w}
  {
  }

  lemma EnqueueKeepsDistinct(s: State, w: Ticket)
    requires Distinct(s) && HeadClaims(s) && w !in s.arrivals
    ensures Distinct(Step(s, Enqueue(w))) && HeadClaims(Step(s, Enqueue(w)))
  {
    assert w !in s.line;
  }

  lemma EnqueueKeepsFifo(s: State, w: Ticket)
    requires Fifo(s) && w !in s.arrivals && w !in s.line && w !in s.cancelled
    ensures Fifo(Step(s, Enqueue(w)))
  {
    EnqueueSets(s, w);
    AppendBalanced(s.arrivals, Kept(s), s.entered, s.line, Waiting(s), w);
  }

  lemma EnqueueKeepsInv(s: State, w: Ticket)
    requires Inv(s) && w !in s.arrivals
    ensures Inv(Step(s, Enqueue(w)))
  {
    EnqueueKeepsDistinct(s, w);
    assert w !in s.line && w !in s.cancelled;
    EnqueueKeepsFifo(s, w);
  }

  lemma {:induction false} KeepHead(w: Ticket, rest: seq<Ticket>, keep: set<Ticket>)
    ensures Keep([w] + rest, keep) == (if w in keep then [w] else []) + Keep(rest, keep)
  {
    KeepPlus([w], rest, keep);
    KeepSnoc([], w, keep);
    assert [] + [w] == [w];
  }

  lemma HeadLeaves(w: Ticket, rest: seq<Ticket>, waiting: set<Ticket>)
    requires w in waiting && w !in rest
    ensures Keep([w] + rest, waiting) == [w] + Keep([w] + rest, waiting - {w})
  {
    KeepHead(w, rest, waiting);
    KeepHead(w, rest, waiting - {w});
    KeepSame(rest, waiting, waiting - {w});
  }

  lemma HeadLeavesWaiting(line: seq<Ticket>, waiting: set<Ticket>)
    requires NoDup(line) && line != [] && line[0] in waiting
    ensures Keep(line, waiting) == [line[0]] + Keep(line, waiting - {line[0]})
  {
    HeadLeaves(line[0], line[1..], waiting);
    assert line == [line[0]] + line[1..];
  }

  lemma EnterKeepsInv(s: State, w: Ticket)
    requires Inv(s) && At(s, w) == Some(Checking) && s.line != [] && s.line[0] == w
    ensures Inv(Step(s, CheckHead(w)))
  {
    EnterKeepsDistinct(s, w);
    EnterKeepsFifo(s, w);
  }

  lemma EnterKeepsDistinct(s: State, w: Ticket)
    requires Distinct(s) && HeadClaims(s) && At(s, w) == Some(Checking) && s.line != [] && s.line[0] == w
    ensures Distinct(Step(s, CheckHead(w))) && HeadClaims(Step(s, CheckHead(w)))
  {
    assert w !in s.cancelled;
  }

  lemma EnterKeepsFifo(s: State, w: Ticket)
    requires NoDup(s.line) && Fifo(s) && At(s, w) == Some(Checking) && s.line != [] && s.line[0] == w
    ensures Fifo(Step(s, CheckHead(w)))
  {
    var s' := Step(s, CheckHead(w));
    assert Waiting(s') == Waiting(s) - {w};
    HeadLeavesWaiting(s.line, Waiting(s));
    PlusAssoc(s.entered, [w], Keep(s.line, Waiting(s')));
  }

  /** Moves that keep a goroutine on the same side of the takeGPU loop. */
  lemma PhaseChangeKeepsInv(s: State, w: Ticket, p: Phase)
    requires Inv(s) && w in s.phase
    requires match s.phase[w]
             case Checking => p == Sleeping
             case Sleeping => p == Checking
             case Claiming => p == Leaving(Took) || p == Leaving(GpuError)
             case Leaving(_) => false
    ensures Inv(s.(phase := s.phase[w := p]))
  {
    var s' := s.(phase := s.phase[w := p]);
    assert Waiting(s') == Waiting(s);
    assert w !in s.cancelled;
  }

  /** A waiter that gives up disappears from both sides of the account. */
  lemma RemoveBalanced(
      arrivals: seq<Ticket>, kept: set<Ticket>, entered: seq<Ticket>,
      line: seq<Ticket>, waiting: set<Ticket>, w: Ticket)
    requires Keep(arrivals, kept) == entered + Keep(line, waiting)
    requires NoDup(arrivals) && w in line && w in waiting
    ensures Keep(arrivals, kept - {w}) == entered + Keep(line, waiting - {w})
  {
    KeepWithout(arrivals, kept, w);
    KeepWithout(line, waiting, w);
    WithoutPlus(entered, Keep(line, waiting), w);
    KeepNoDup(arrivals, kept);
    KeepIn(line, waiting, w);
    NoDupPlus(entered, Keep(line, waiting), w);
    WithoutAbsent(entered, w);
  }

  lemma CancelSets(s: State, w: Ticket)
    requires At(s, w) == Some(Sleeping)
    ensures Kept(Step(s, Wake(w, true))) == Kept(s) - {w}
    ensures Waiting(Step(s, Wake(w, true))) == Waiting(s) - {w}
  {
  }

  /** Cancelling keeps everybody else's order. */
  lemma CancelKeepsInv(s: State, w: Ticket)
    requires Inv(s) && At(s, w) == Some(Sleeping)
    ensures Inv(Step(s, Wake(w, true)))
  {
    assert w in s.line && w in Waiting(s);
    CancelSets(s, w);
    RemoveBalanced(s.arrivals, Kept(s), s.entered, s.line, Waiting(s), w);
  }

  lemma {:induction false} KeepOfWithout(line: seq<Ticket>, w: Ticket, keep: set<Ticket>)
    requires w !in keep
    ensures Keep(Without(line, w), keep) == Keep(line, keep)
  {
    if line == [] {
    } else {
      KeepOfWithout(line[..|line| - 1], w, keep);
      KeepSnoc(Without(line[..|line| - 1], w), line[|line| - 1], keep);
      if line[|line| - 1] == w {
        assert Without(line, w) == Without(line[..|line| - 1], w);
        assert Keep(line, keep) == Keep(line[..|line| - 1], keep);
      }
    }
  }

  lemma {:induction false} WithoutHead(line: seq<Ticket>, w: Ticket)
    requires line != [] && line[0] != w
    ensures Without(line, w) != [] && Without(line, w)[0] == line[0]
  {
    if |line| > 1 {
      WithoutHead(line[..|line| - 1], w);
    } else {
      assert line[..0] == [];
    }
  }

  lemma RemoveKeepsInv(s: State, w: Ticket)
    requires Inv(s) && w in s.phase && s.phase[w].Leaving?
    ensures Inv(Step(s, Remove(w)))
  {
    var s' := Step(s, Remove(w));
    WithoutNoDup(s.line, w);
    forall v ensures v in s'.line <==> v in s.line && v != w { WithoutIn(s.line, w, v); }
    assert Waiting(s') == Waiting(s);
    KeepOfWithout(s.line, w, Waiting(s));
    if s.line != [] && s.line[0] != w {
      WithoutHead(s.line, w);
    }
  }

  lemma {:induction false} StepKeepsInv(s: State, e: Event)
    requires Inv(s)
    ensures Inv(Step(s, e))
  {
    var s' := Step(s, e);
    if s' != s {
      match e
      case Enqueue(w) => EnqueueKeepsInv(s, w);
      case CheckHead(w) =>
        if s.line[0] == w {
          EnterKeepsInv(s, w);
        } else {
          PhaseChangeKeepsInv(s, w, Sleeping);
        }
      case Wake(w, cancel) =>
        if cancel {
          CancelKeepsInv(s, w);
        } else {
          PhaseChangeKeepsInv(s, w, Checking);
        }
      case TryTake(w, result) => PhaseChangeKeepsInv(s, w, s'.phase[w]);
      case Remove(w) => RemoveKeepsInv(s, w);
    }
  }

  lemma {:induction false} RunKeepsInv(events: seq<Event>)
    ensures Inv(Run(events))
  {
    if events == [] {
    } else {
      RunKeepsInv(events[..|events| - 1]);
      StepKeepsInv(Run(events[..|events| - 1]), events[|events| - 1]);
    }
  }

  /** In every interleaving: tickets are distinct, a live waiter's ticket is in the queue (so
      local_queue[0] exists whenever a waiter looks), at most one waiter is in the takeGPU loop
      and it is the head, and waiters enter that loop in the order they enqueued. */
  lemma {:induction false} TicketQueueIsSafe(events: seq<Event>)
    ensures var s := Run(events);
      && NoDup(s.line)
      && (forall w :: w in s.phase <==> w in s.line)
      && (forall v, w :: v in s.phase && w in s.phase && s.phase[v] == s.phase[w] == Claiming ==> v == w)
      && (forall w :: w in s.phase && s.phase[w] == Claiming ==> s.line[0] == w)
      && s.entered <= Keep(s.arrivals, Kept(s))
      && Keep(s.arrivals, Kept(s)) == s.entered + Keep(s.line, Waiting(s))
  {
    RunKeepsInv(events);
  }

  // ---- nobody is stuck

  lemma RunSnoc(events: seq<Event>, e: Event)
    ensures Run(events + [e]) == Step(Run(events), e)
  {
    assert (events + [e])[..|events|] == events;
  }

  /** The removal takes the ticket out, whatever the outcome, and nothing else. */
  lemma RemoveLeavesOthers(s: State, w: Ticket)
    requires Inv(s) && w in s.phase && s.phase[w].Leaving?
    ensures var s' := Step(s, Remove(w));
      && w !in s'.line && w !in s'.phase && |s'.line| == |s.line| - 1
      && (forall v :: v != w ==> (v in s'.line <==> v in s.line) && At(s', v) == At(s, v))
      && s'.cancelled == s.cancelled
  {
    RemoveKeepsInv(s, w);
    forall v ensures v in Step(s, Remove(w)).line <==> v in s.line && v != w { WithoutIn(s.line, w, v); }
    WithoutSize(s.line, w);
  }

  lemma {:induction false} WithoutSize(line: seq<Ticket>, w: Ticket)
    requires NoDup(line) && w in line
    ensures |Without(line, w)| == |line| - 1
  {
    var front, last := line[..|line| - 1], line[|line| - 1];
    if last == w {
      assert w !in front;
      WithoutAbsent(front, w);
    } else {
      assert line == front + [last];
      WithoutSize(front, w);
    }
  }

  /** The next move of whoever is at the head. */
  function HeadMove(p: Phase, v: Ticket): Event {
    match p
    case Sleeping => Wake(v, false)
    case Checking => CheckHead(v)
    case Claiming => TryTake(v, Found)
    case Leaving(_) => Remove(v)
  }

  function Rank(p: Phase): nat {
    match p
    case Sleeping => 3
    case Checking => 2
    case Claiming => 1
    case Leaving(_) => 0
  }

  /** It is one move nearer to leaving, or gone; nobody else is touched. */
  lemma HeadAdvances(s: State, v: Ticket)
    requires Inv(s) && s.line != [] && s.line[0] == v && v in s.phase
    ensures var s' := Step(s, HeadMove(s.phase[v], v));
      && (forall w :: w != v ==> At(s', w) == At(s, w))
      && (if s.phase[v].Leaving? then |s'.line| == |s.line| - 1
          else s'.line == s.line && v in s'.phase && Rank(s'.phase[v]) == Rank(s.phase[v]) - 1)
  {
    if s.phase[v].Leaving? {
      RemoveLeavesOthers(s, v);
    }
  }

  function HeadRank(s: State): nat {
    if s.line != [] && s.line[0] in s.phase then Rank(s.phase[s.line[0]]) else 0
  }

  /** A move of the head brings a waiter its turn, or leaves it waiting and the queue nearer to it. */
  lemma Nearer(s: State, w: Ticket) returns (e: Event)
    requires Inv(s) && w in Waiting(s)
    ensures var s' := Step(s, e);
      || At(s', w) == Some(Claiming)
      || (w in Waiting(s') && (|s'.line| < |s.line| || (|s'.line| == |s.line| && HeadRank(s') < HeadRank(s))))
  {
    assert w in s.line;
    var v := s.line[0];
    assert v in s.line && v in s.phase;
    e := HeadMove(s.phase[v], v);
    HeadAdvances(s, v);
    if v != w {
      assert At(Step(s, e), w) == At(s, w);
    }
  }

  lemma NearerAfter(events: seq<Event>, w: Ticket) returns (e: Event)
    requires w in Waiting(Run(events))
    ensures var s, s' := Run(events), Run(events + [e]);
      || At(s', w) == Some(Claiming)
      || (w in Waiting(s') && (|s'.line| < |s.line| || (|s'.line| == |s.line| && HeadRank(s') < HeadRank(s))))
  {
    RunKeepsInv(events);
    e := Nearer(Run(events), w);
    RunSnoc(events, e);
  }

  /** After every run, whoever still waits gets its turn when those at the head make their moves: it
      enters the takeGPU loop. */
  lemma {:induction false} NobodyIsStuck(events: seq<Event>, w: Ticket) returns (more: seq<Event>)
    requires w in Waiting(Run(events))
    ensures At(Run(events + more), w) == Some(Claiming)
    decreases |Run(events).line|, HeadRank(Run(events))
  {
    var e := NearerAfter(events, w);
    if At(Run(events + [e]), w) == Some(Claiming) {
      more := [e];
    } else {
      var rest := NobodyIsStuck(events + [e], w);
      more := [e] + rest;
      assert events + more == events + [e] + rest;
    }
  }

  /** The shared queue with its mutex held per step. The goroutines' positions are explicit. */
  class LocalQueue {
    var line: seq<Ticket>
    var phase: map<Ticket, Phase>
    ghost var arrivals: seq<Ticket>
    ghost var entered: seq<Ticket>
    ghost var cancelled: set<Ticket>

    ghost function View(): State
      reads this
    {
      State(line, phase, arrivals, entered, cancelled)
    }

    constructor ()
      ensures View() == EMPTY
    {
      line, phase, arrivals, entered, cancelled := [], map[], [], [], {};
    }

    method Join(wid: Ticket)
      requires wid !in arrivals
      modifies this
      ensures View() == Step(old(View()), Enqueue(wid))
      ensures line == old(line) + [wid] && wid in phase && phase[wid] == Checking
    {
      line := line + [wid];
      phase := phase[wid := Checking];
      arrivals := arrivals + [wid];
    }

    /** The head comparison indexes the queue without a length test: Inv makes that safe. */
    method UrTurn(wid: Ticket) returns (turn: bool)
      requires Inv(View()) && wid in phase && phase[wid] == Checking
      modifies this
      ensures View() == Step(old(View()), CheckHead(wid))
      ensures turn <==> old(line)[0] == wid
      ensures turn ==> forall w :: w in old(phase) ==> old(phase)[w] != Claiming
    {
      assert wid in line;
      turn := line[0] == wid;
      phase := phase[wid := if turn then Claiming else Sleeping];
      if turn {
        entered := entered + [wid];
      }
    }

    method WakeUp(wid: Ticket, cancelTokens: nat) returns (giveUp: bool)
      requires wid in phase && phase[wid] == Sleeping
      modifies this
      ensures View() == Step(old(View()), Wake(wid, cancelTokens > 0))
      ensures giveUp <==> cancelTokens > 0
      ensures wid in phase && phase[wid] == if giveUp then Leaving(Cancelled) else Checking
    {
      giveUp := cancelTokens > 0;
      phase := phase[wid := if giveUp then Leaving(Cancelled) else Checking];
      if giveUp {
        cancelled := cancelled + {wid};
      }
    }

    /** The takeGPU loop over the outcomes of its looks, with a sleep after each that finds none
        free; `done` is false while it is still at it. */
    method TakeGPU(wid: Ticket, results: seq<TakeResult>) returns (done: bool, looks: nat)
      requires wid in phase && phase[wid] == Claiming
      modifies this
      ensures looks <= |results| && (!done ==> looks == |results|)
      ensures forall k :: 0 <= k < (if done then looks - 1 else looks) ==> results[k] == NoneFree
      ensures done ==> looks > 0 && results[looks - 1] != NoneFree
      ensures View() == Step(old(View()), TryTake(wid, if done then results[looks - 1] else NoneFree))
    {
      done, looks := false, 0;
      while looks < |results|
        invariant looks <= |results| && !done && View() == old(View())
        invariant forall k :: 0 <= k < looks ==> results[k] == NoneFree
      {
        var result := results[looks];
        looks := looks + 1;
        if result != NoneFree {
          phase := phase[wid := Leaving(if result == Found then Took else GpuError)];
          done := true;
          return;
        }
      }
    }

    /** The deferred removal, run on every way out of waitForGPU. */
    method Leave(wid: Ticket)
      requires wid in phase && phase[wid].Leaving?
      modifies this
      ensures View() == Step(old(View()), Remove(wid))
      ensures wid !in phase && wid !in line && forall v :: v != wid ==> (v in line <==> v in old(line))
    {
      forall v ensures v in Without(line, wid) <==> v in line && v != wid { WithoutIn(line, wid, v); }
      line := Others(line, wid);
      phase := phase - {wid};
    }
  }

  /** The part of the queue that is not wid's. */
  method Others(line: seq<Ticket>, wid: Ticket) returns (replace: seq<Ticket>)
    ensures replace == Without(line, wid)
  {
    replace := [];
    for i := 0 to |line|
      invariant replace == Without(line[..i], wid)
    {
      assert line[..i + 1] == line[..i] + [line[i]];
      WithoutSnoc(line[..i], line[i], wid);
      if line[i] != wid {
        replace := replace + [line[i]];
      }
    }
    assert line[..|line|] == line;
  }
}
