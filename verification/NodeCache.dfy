/** A cluster node's cached worker information, guarded by the outcome of the last query. */
module NodeCache {
  import opened Seqs

  /** `asked`: queries that have passed the test of `active` and wait for their answer; `filled`:
      those that have written `internal` and not yet the recorded error. */
  datatype State<T> = State(active: bool, failed: bool, internal: T, asked: nat, filled: nat)

  datatype Event<T> =
    | Ask              // the test of active
    | Fail             // the request failed or its answer is not usable: the error is recorded
    | Fill(info: T)    // a usable answer is written
    | Clear            // and then the error is cleared
    | Deinit

  /** A step that is not enabled leaves the state alone. Nothing is locked. */
  function Step<T>(s: State<T>, e: Event<T>): State<T> {
    match e
    case Ask => if s.active then s.(asked := s.asked + 1) else s
    case Fail => if s.asked > 0 then s.(asked := s.asked - 1, failed := true) else s
    case Fill(info) => if s.asked > 0 then s.(asked := s.asked - 1, filled := s.filled + 1, internal := info) else s
    case Clear => if s.filled > 0 then s.(filled := s.filled - 1, failed := false) else s
    case Deinit => s.(active := false)
  }

  function Run<T>(s: State<T>, events: seq<Event<T>>): State<T> {
    if events == [] then s else Step(Run(s, events[..|events| - 1]), events[|events| - 1])
  }

  /** What the accessors answer: an error, or the cached information. */
  function Answer<T>(s: State<T>): Option<T> { if s.failed then None else Some(s.internal) }

  /** The replies in the order they arrive. */
  function Heard<T>(s: State<T>, events: seq<Event<T>>): seq<Option<T>> {
    if events == [] then []
    else
      var front, e := events[..|events| - 1], events[|events| - 1];
      Heard(s, front)
      + (if Run(s, front).asked == 0 then []
         else if e.Fail? then [None]
         else if e.Fill? then [Some(e.info)]
         else [])
  }

  /** The last reply is a failure that was recorded while another query stood between its two
      writes. */
  predicate FailedAmidFill<T>(s: State<T>, events: seq<Event<T>>) {
    if events == [] then false
    else
      var front, e := events[..|events| - 1], events[|events| - 1];
      if Run(s, front).asked > 0 && e.Fail? then Run(s, front).filled > 0
      else if Run(s, front).asked > 0 && e.Fill? then false
      else FailedAmidFill(s, front)
  }

  /** Over every interleaving of queries, once no query stands between its two writes: the accessors
      answer with the last reply if and only if it is not a failure recorded while one did. Before
      any reply they answer as in the beginning. */
  lemma {:induction false} CacheIsLastReplyIff<T>(s: State<T>, events: seq<Event<T>>)
    requires s.filled == 0
    ensures var t := Run(s, events); var heard := Heard(s, events);
      && (heard == [] ==> t.filled == 0 && Answer(t) == Answer(s))
      && (heard != [] && t.filled == 0 ==> (Answer(t) == heard[|heard| - 1] <==> !FailedAmidFill(s, events)))
  {
    LastReplyInv(s, events);
  }

  /** How state, last reply and FailedAmidFill go together. */
  ghost predicate Together<T>(s: State<T>, t: State<T>, last: Option<Option<T>>, amid: bool) {
    match last
    case None => t.filled == 0 && t.failed == s.failed && t.internal == s.internal && !amid
    case Some(Some(info)) => t.internal == info && (t.filled > 0 || !t.failed) && !amid
    case Some(None) => if amid then t.filled > 0 || !t.failed else t.filled == 0 && t.failed
  }

  lemma StepTogether<T>(s: State<T>, t: State<T>, e: Event<T>, last: Option<Option<T>>, amid: bool)
    requires Together(s, t, last, amid)
    ensures t.asked > 0 && e.Fail? ==> Together(s, Step(t, e), Some(None), t.filled > 0)
    ensures t.asked > 0 && e.Fill? ==> Together(s, Step(t, e), Some(Some(e.info)), false)
    ensures t.asked == 0 || (!e.Fail? && !e.Fill?) ==> Together(s, Step(t, e), last, amid)
  {
  }

  function Last<T>(heard: seq<T>): Option<T> {
    if heard == [] then None else Some(heard[|heard| - 1])
  }

  lemma {:induction false} LastReplyInv<T>(s: State<T>, events: seq<Event<T>>)
    requires s.filled == 0
    ensures Together(s, Run(s, events), Last(Heard(s, events)), FailedAmidFill(s, events))
  {
    if events == [] {
    } else {
      var front, e := events[..|events| - 1], events[|events| - 1];
      LastReplyInv(s, front);
      StepTogether(s, Run(s, front), e, Last(Heard(s, front)), FailedAmidFill(s, front));
    }
  }

  /** A query is made only when no other one is under way. */
  ghost predicate OneAtATime<T>(s: State<T>, events: seq<Event<T>>) {
    forall k :: 0 <= k < |events| && events[k].Ask? ==> Run(s, events[..k]).asked + Run(s, events[..k]).filled == 0
  }

  /** Queries made one after another are always answered by the last reply, Deinit or not. */
  lemma {:induction false} SerialQueriesAreExact<T>(s: State<T>, events: seq<Event<T>>)
    requires s.filled == 0 && s.asked <= 1 && OneAtATime(s, events)
    ensures Run(s, events).asked + Run(s, events).filled <= 1 && !FailedAmidFill(s, events)
  {
    if events == [] {
    } else {
      var front := events[..|events| - 1];
      forall k | 0 <= k < |front| && front[k].Ask?
        ensures Run(s, front[..k]).asked + Run(s, front[..k]).filled == 0
      {
        assert front[..k] == events[..k] && events[k].Ask?;
      }
      SerialQueriesAreExact(s, front);
    }
  }

  /** The failing run: one query fills in its answer, another one fails, the first then clears the
      error. The last reply was a failure, and the accessors give out the earlier answer. */
  lemma OverlappingQueries<T>(initial: T, info: T)
    ensures var s := State(true, false, initial, 0, 0);
      var t := Step(Step(Step(Step(Step(s, Ask), Ask), Fill(info)), Fail), Clear);
      t.asked == t.filled == 0 && Answer(t) == Some(info)
  {
  }

  // ---- after Deinit

  /** Nothing under way can still change what the accessors answer. */
  predicate Quiet<T>(s: State<T>) { s.asked == 0 && (s.filled > 0 ==> !s.failed) }

  lemma {:induction false} QuietIsFrozen<T>(s: State<T>, events: seq<Event<T>>)
    requires !s.active && Quiet(s)
    ensures !Run(s, events).active && Quiet(Run(s, events)) && Answer(Run(s, events)) == Answer(s)
  {
    if events == [] {
    } else {
      QuietIsFrozen(s, events[..|events| - 1]);
    }
  }

  /** Once the node is deinited its answer is frozen over every run if and only if no query is waiting
      for an answer or about to clear a recorded error. */
  lemma {:induction false} FrozenIff<T(!new)>(s: State<T>)
    requires !s.active
    ensures (forall events :: Answer(Run(s, events)) == Answer(s)) <==> Quiet(s)
  {
    if Quiet(s) {
      forall events
        ensures Answer(Run(s, events)) == Answer(s)
      {
        QuietIsFrozen(s, events);
      }
    } else {
      if s.failed && s.asked > 0 {
        RunTwo(s, Fill(s.internal), Clear);
        assert Answer(Run(s, [Fill(s.internal), Clear])) != Answer(s);
      } else {
        var e := if s.asked > 0 then Fail else Clear;
        RunOne(s, e);
        assert Answer(Run(s, [e])) != Answer(s);
      }
    }
  }

  lemma RunOne<T>(s: State<T>, e: Event<T>)
    ensures Run(s, [e]) == Step(s, e)
  {
    assert [e][..0] == [];
  }

  lemma RunTwo<T>(s: State<T>, e: Event<T>, f: Event<T>)
    ensures Run(s, [e, f]) == Step(Step(s, e), f)
  {
    RunOne(s, e);
    assert [e, f][..1] == [e];
  }

  /** The failing run: a query that passed the test before Deinit changes the answer after it. */
  lemma DeinitDoesNotFreeze<T>(initial: T)
    ensures var s := Step(Step(State(true, false, initial, 0, 0), Ask), Deinit);
      !s.active && Answer(s) == Some(initial) && Answer(Step(s, Fail)) == None
  {
  }

  class Node<T> {
    var active: bool
    var connectError: bool
    var internal: T
    ghost var asked: nat
    ghost var filled: nat

    ghost function View(): State<T>
      reads this
    {
      State(active, connectError, internal, asked, filled)
    }

    constructor (initial: T)
      ensures View() == State(true, false, initial, 0, 0)
    {
      active, connectError, internal, asked, filled := true, false, initial, 0, 0;
    }

    /** The test at the head of Query; the request follows. */
    method BeginQuery() returns (refused: bool)
      modifies this
      ensures View() == Step(old(View()), Ask)
      ensures refused <==> !old(active)
    {
      refused := !active;
      if active {
        asked := asked + 1;
      }
    }

    /** The write of a usable answer. */
    method WriteAnswer(info: T)
      requires asked > 0
      modifies this
      ensures View() == Step(old(View()), Fill(info))
    {
      internal := info;
      asked, filled := asked - 1, filled + 1;
    }

    /** The deferred assignment: it records a failure, or clears the error after an answer. */
    method EndQuery(err: bool)
      requires if err then asked > 0 else filled > 0
      modifies this
      ensures View() == Step(old(View()), if err then Fail else Clear)
    {
      connectError := err;
      if err {
        asked := asked - 1;
      } else {
        filled := filled - 1;
      }
    }

    /** A query with no other one in between. */
    method Query(reply: Option<T>) returns (err: bool)
      modifies this
      ensures err <==> !old(active) || reply.None?
      ensures !old(active) ==> View() == old(View())
      ensures old(active) ==> Answer(View()) == reply && active
      ensures old(active) ==> internal == if reply.Some? then reply.value else old(internal)
      ensures asked == old(asked) && filled == old(filled)
    {
      err := BeginQuery();
      if err {
        return;
      }
      if reply.Some? {
        WriteAnswer(reply.value);
      }
      err := reply.None?;
      EndQuery(err);
    }

    method Deinit()
      modifies this
      ensures View() == Step(old(View()), Event.Deinit)
    {
      active := false;
    }

    /** Sessions, Volumes, GPUs and RequestBaseURL all read through this guard. */
    method Read() returns (answer: Option<T>)
      ensures answer == Answer(View())
    {
      answer := if connectError then None else Some(internal);
    }
  }
}
