/** The server of the chunked upload: it reorders the chunks, writes them in order and commits. */
module FileTransfer {
  import opened Seqs
  import opened FileClient

  const QUEUE_CAPACITY := 4096

  datatype Phase = Receiving | Stopped | BadSum | WriteFailed | StatFailed | Short | Committed

  /** The locals of one upload. `held` is a chunk taken off the channel and not yet put back. */
  datatype Server = Server(
    queue: seq<Option<Chunk>>,
    held: Option<Chunk>,
    lastId: int,
    temp: Option<Bytes>,
    dest: Option<Bytes>,
    phase: Phase)

  /** `md5`, the announced size and the parts the client cut. */
  datatype Job = Job(md5: Digest, fileSize: int, parts: seq<Bytes>)

  datatype Event =
    | Post(msg: Option<Chunk>)   // receiver or watchdog; None is the terminator
    | Take(stored: Option<nat>)  // main loop; Some(n): the write fails after n bytes
    | PutBack
    | Finish(statOk: bool, removeOk: bool, renameOk: bool)

  function Start(dest: Option<Bytes>): Server {
    Server([], None, 0, Some([]), dest, Receiving)
  }

  /** A step that is not enabled leaves the state alone. */
  function Step(job: Job, s: Server, e: Event): Server {
    match e
    case Post(msg) =>
      if |s.queue| < QUEUE_CAPACITY then s.(queue := s.queue + [msg]) else s
    case Take(stored) =>
      if s.phase != Receiving || s.held.Some? || s.queue == [] || s.temp.None? then s
      else
        var s1 := s.(queue := s.queue[1..]);
        if s.queue[0].None? then s1.(phase := Stopped)
        else
          var c := s.queue[0].value;
          if s.lastId != c.id - 1 then s1.(held := Some(c))
          else if c.sum != job.md5(c.content) then s1.(phase := BadSum)
          else if stored.Some? then
            var n := if stored.value < |c.content| then stored.value else |c.content|;
            s1.(lastId := c.id, temp := Some(s.temp.value + c.content[..n]), phase := WriteFailed)
          else s1.(lastId := c.id, temp := Some(s.temp.value + c.content))
    case PutBack =>
      if s.held.Some? && |s.queue| < QUEUE_CAPACITY then s.(queue := s.queue + [s.held], held := None) else s
    case Finish(statOk, removeOk, renameOk) =>
      if s.phase != Stopped || s.temp.None? then s
      else if !statOk then s.(phase := StatFailed)
      else if |s.temp.value| < job.fileSize then s.(phase := Short, temp := None)
      else if renameOk then s.(phase := Committed, dest := s.temp, temp := None)
      else s.(phase := Committed, dest := if removeOk then None else s.dest)
  }

  function Run(job: Job, s: Server, events: seq<Event>): Server {
    if events == [] then s
    else Step(job, Run(job, s, events[..|events| - 1]), events[|events| - 1])
  }

  // ---- what the network may deliver

  /** The chunks the network can deliver, in any order, any number of times or never. */
  type Net = iset<Chunk>

  ghost predicate Delivers(net: Net, events: seq<Event>) {
    forall e :: e in events && e.Post? && e.msg.Some? ==> e.msg.value in net
  }

  predicate Fits(md5: Digest, c: Chunk) { c.sum == md5(c.content) }

  ghost predicate HasPart(job: Job, net: Net, id: int) {
    exists c :: c in net && c.id == id && Honest(job.md5, job.parts, c)
  }

  ghost predicate HasParts(job: Job, net: Net, last: int) {
    forall id :: 1 <= id <= last ==> HasPart(job, net, id)
  }

  /** The server would accept the chunk, since its digest fits, but its content is not the part its
      id names; and the right chunks for all smaller ids may come before it. */
  ghost predicate Harmful(job: Job, net: Net, c: Chunk) {
    && Fits(job.md5, c) && 1 <= c.id <= |job.parts| + 1
    && (c.id <= |job.parts| ==> c.content != job.parts[c.id - 1])
    && HasParts(job, net, c.id - 1)
  }

  ghost predicate Harmless(job: Job, net: Net) {
    forall c :: c in net ==> !Harmful(job, net, c)
  }

  /** In a harmless network a chunk the server accepts is the part its id names. */
  lemma AcceptedIsRight(job: Job, net: Net, last: int, c: Chunk)
    requires Harmless(job, net) && 0 <= last <= |job.parts| && HasParts(job, net, last)
    requires c in net && c.id == last + 1 && Fits(job.md5, c)
    ensures Honest(job.md5, job.parts, c) && HasParts(job, net, c.id)
  {
    assert !Harmful(job, net, c);
  }

  /** After a failed write: all parts before the last one, and a beginning of that one. */
  ghost predicate CutShort(parts: seq<Bytes>, last: int, temp: Option<Bytes>) {
    && 0 < last <= |parts| && temp.Some?
    && Concat(parts[..last - 1]) <= temp.value <= Concat(parts[..last])
  }

  ghost predicate Inv(job: Job, net: Net, dest0: Option<Bytes>, s: Server) {
    && (forall m :: m in s.queue && m.Some? ==> m.value in net)
    && (s.held.Some? ==> s.held.value in net)
    && 0 <= s.lastId <= |job.parts| && HasParts(job, net, s.lastId)
    && (s.phase in {Receiving, Stopped, BadSum, StatFailed} ==> s.temp == Some(Concat(job.parts[..s.lastId])))
    && (s.phase == WriteFailed ==> CutShort(job.parts, s.lastId, s.temp))
    && (s.phase != Committed ==> s.dest == dest0)
    && (s.phase == Short ==> s.temp == None)
    && (s.phase == Committed ==>
          || (s.dest == Some(Concat(job.parts[..s.lastId])) && |s.dest.value| >= job.fileSize && s.temp == None)
          || (s.dest in {None, dest0} && s.temp == Some(Concat(job.parts[..s.lastId]))))
  }

  lemma StoreNext(parts: seq<Bytes>, k: nat, content: Bytes)
    requires k < |parts| && content == parts[k]
    ensures Concat(parts[..k + 1]) == Concat(parts[..k]) + content
  {
    assert parts[..k + 1] == parts[..k] + [content];
    ConcatSnoc(parts[..k], content);
  }

  lemma TakeKeepsInv(job: Job, net: Net, dest0: Option<Bytes>, s: Server, stored: Option<nat>)
    requires Harmless(job, net) && Inv(job, net, dest0, s)
    ensures Inv(job, net, dest0, Step(job, s, Take(stored)))
  {
    if s.phase == Receiving && s.held.None? && s.queue != [] {
      var m := s.queue[0];
      assert m in s.queue;
      if m.Some? && s.lastId == m.value.id - 1 && Fits(job.md5, m.value) {
        AcceptedIsRight(job, net, s.lastId, m.value);
        StoreNext(job.parts, s.lastId, m.value.content);
        CutIsPrefix(Concat(job.parts[..s.lastId]), m.value.content, if stored.Some? then stored.value else 0);
      }
    }
  }

  lemma CutIsPrefix(front: Bytes, last: Bytes, n: nat)
    ensures front <= front + last[..if n < |last| then n else |last|] <= front + last
  {
  }

  lemma StepKeepsInv(job: Job, net: Net, dest0: Option<Bytes>, s: Server, e: Event)
    requires Harmless(job, net) && Inv(job, net, dest0, s)
    requires e.Post? && e.msg.Some? ==> e.msg.value in net
    ensures Inv(job, net, dest0, Step(job, s, e))
  {
    if e.Take? {
      TakeKeepsInv(job, net, dest0, s, e.stored);
    }
  }

  lemma {:induction false} RunKeepsInv(job: Job, net: Net, dest0: Option<Bytes>, events: seq<Event>)
    requires Harmless(job, net) && Delivers(net, events)
    ensures Inv(job, net, dest0, Run(job, Start(dest0), events))
  {
    if events == [] {
    } else {
      var front := events[..|events| - 1];
      RunKeepsInv(job, net, dest0, front);
      StepKeepsInv(job, net, dest0, Run(job, Start(dest0), front), events[|events| - 1]);
    }
  }

  /** End-to-end safety. `parts` is what the client cut from `file`, complete or not. Whatever
      a harmless network and the terminators do, the temporary file is the concatenation of parts
      1..lastId for as long as it exists and no write fails, and the destination is the old
      one, the whole source file, or missing because the final rename failed. */
  lemma {:induction false} UploadIsSafe(
      job: Job, net: Net, file: Bytes, dest0: Option<Bytes>, events: seq<Event>)
    requires Harmless(job, net) && Delivers(net, events)
    requires Concat(job.parts) <= file && job.fileSize == |file|
    ensures var s := Run(job, Start(dest0), events);
      && 0 <= s.lastId <= |job.parts|
      && (s.temp.Some? && s.phase != WriteFailed ==> s.temp.value == Concat(job.parts[..s.lastId]))
      && (s.temp.None? ==> s.phase in {Short, Committed})
      && (s.phase == WriteFailed ==> CutShort(job.parts, s.lastId, s.temp))
      && (s.phase != Committed ==> s.dest == dest0)
      && (s.phase == Committed ==> s.dest == Some(file) || (s.dest in {None, dest0} && s.temp.Some?))
  {
    RunKeepsInv(job, net, dest0, events);
    var s := Run(job, Start(dest0), events);
    ConcatPrefix(job.parts, s.lastId);
    var stored := Concat(job.parts[..s.lastId]);
    assert stored <= file && (|stored| >= |file| ==> stored == file);
  }

  ghost predicate Quiet(events: seq<Event>) {
    forall e :: e in events && e.Take? ==> e.stored.None?
  }

  /** The temporary file is what it should be for as long as it exists. */
  ghost predicate Intact(job: Job, s: Server) {
    s.phase in {Receiving, Stopped, BadSum, StatFailed} ==>
      0 <= s.lastId <= |job.parts| && s.temp == Some(Concat(job.parts[..s.lastId]))
  }

  lemma {:induction false} NextIsTaken(
      job: Job, dest0: Option<Bytes>, events: seq<Event>, last: int, temp: Bytes, c: Chunk)
    requires Run(job, Start(dest0), events) == Looping([], last, temp, dest0)
    requires c.id == last + 1 && Fits(job.md5, c)
    ensures Run(job, Start(dest0), events + [Post(Some(c))] + [Take(None)])
         == Looping([], c.id, temp + c.content, dest0)
  {
    RunSnoc(job, Start(dest0), events, Post(Some(c)));
    RunSnoc(job, Start(dest0), events + [Post(Some(c))], Take(None));
    var s := Looping([], last, temp, dest0);
    assert Step(job, s, Post(Some(c))) == Looping([Some(c)], last, temp, dest0) by {
      assert [] + [Some(c)] == [Some(c)];
    }
  }

  /** A run that stores the first `last` parts and ends with an empty channel. */
  lemma {:induction false} RightRun(job: Job, net: Net, dest0: Option<Bytes>, last: nat) returns (events: seq<Event>)
    requires last <= |job.parts| && HasParts(job, net, last)
    ensures Delivers(net, events) && Quiet(events)
    ensures Run(job, Start(dest0), events) == Looping([], last, Concat(job.parts[..last]), dest0)
  {
    if last == 0 {
      events := [];
    } else {
      var front := RightRun(job, net, dest0, last - 1);
      assert HasPart(job, net, last);
      var c :| c in net && c.id == last && Honest(job.md5, job.parts, c);
      NextIsTaken(job, dest0, front, last - 1, Concat(job.parts[..last - 1]), c);
      StoreNext(job.parts, last - 1, c.content);
      events := front + [Post(Some(c))] + [Take(None)];
    }
  }

  /** Exactly what the digest leaves open: every run without a failing write keeps the temporary file
      intact if and only if the network can deliver no harmful chunk. */
  lemma {:induction false} IntactIffHarmless(job: Job, net: Net, dest0: Option<Bytes>)
    ensures (forall events :: Delivers(net, events) && Quiet(events) ==> Intact(job, Run(job, Start(dest0), events)))
      <==> Harmless(job, net)
  {
    if Harmless(job, net) {
      forall events | Delivers(net, events) && Quiet(events)
        ensures Intact(job, Run(job, Start(dest0), events))
      {
        RunKeepsInv(job, net, dest0, events);
      }
    } else {
      var c :| c in net && Harmful(job, net, c);
      var k := c.id - 1;
      var front := RightRun(job, net, dest0, k);
      NextIsTaken(job, dest0, front, k, Concat(job.parts[..k]), c);
      if k < |job.parts| {
        StoreNext(job.parts, k, job.parts[k]);
        assert (Concat(job.parts[..k]) + c.content)[|Concat(job.parts[..k])|..] == c.content;
        assert (Concat(job.parts[..k]) + job.parts[k])[|Concat(job.parts[..k])|..] == job.parts[k];
      }
      var events := front + [Post(Some(c))] + [Take(None)];
      assert Delivers(net, events) && Quiet(events) && !Intact(job, Run(job, Start(dest0), events));
    }
  }

  lemma {:induction false} DestinationUntouched(job: Job, dest0: Option<Bytes>, events: seq<Event>)
    ensures var s := Run(job, Start(dest0), events); s.phase != Committed ==> s.dest == dest0
  {
    if events == [] {
    } else {
      DestinationUntouched(job, dest0, events[..|events| - 1]);
    }
  }

  /** A commit leaves the destination missing exactly when the rename fails and the old file was
      absent or has just been removed. */
  lemma DestinationMissingIff(job: Job, dest0: Option<Bytes>, events: seq<Event>, removeOk: bool, renameOk: bool)
    requires var s := Run(job, Start(dest0), events);
      s.phase == Stopped && s.temp.Some? && |s.temp.value| >= job.fileSize
    ensures var s := Run(job, Start(dest0), events + [Finish(true, removeOk, renameOk)]);
      s.phase == Committed && (s.dest == None <==> !renameOk && (removeOk || dest0 == None))
  {
    DestinationUntouched(job, dest0, events);
    RunSnoc(job, Start(dest0), events, Finish(true, removeOk, renameOk));
  }

  /** The failing input: the second of two chunks arrives under the id of the first. Its digest
      fits, and the upload stores the wrong content for both. */
  lemma {:induction false} DamagedIdIsStored(md5: Digest)
    ensures var job := Job(md5, 2, [[1], [2]]);
      var wrong, right := Chunk(1, [2], md5([2])), Chunk(2, [2], md5([2]));
      var events := [] + [Post(Some(wrong))] + [Take(None)] + [Post(Some(right))] + [Take(None)];
      Run(job, Start(None), events) == Looping([], 2, [2, 2], None) && Concat(job.parts) == [1] + [2]
  {
    var job := Job(md5, 2, [[1], [2]]);
    var wrong, right := Chunk(1, [2], md5([2])), Chunk(2, [2], md5([2]));
    var none: Bytes, two: Bytes := [], [2];
    NextIsTaken(job, None, [], 0, none, wrong);
    assert none + two == two && two + two == [2, 2];
    NextIsTaken(job, None, [] + [Post(Some(wrong))] + [Take(None)], 1, two, right);
    ConcatTwo([1], [2]);
  }

  lemma ConcatTwo(a: Bytes, b: Bytes)
    ensures Concat([a, b]) == a + b
  {
    ConcatSnoc([], a);
    ConcatSnoc([] + [a], b);
    assert [a, b] == [] + [a] + [b];
  }

  // ---------------------------------------------------------------- terminators

  /** The chunks queued in front of the first terminator. */
  function Front(queue: seq<Option<Chunk>>): seq<Chunk> {
    if queue == [] || queue[0].None? then [] else [queue[0].value] + Front(queue[1..])
  }

  /** Where one look at each chunk, in queue order, ends: the last id written, and whether a bad
      checksum ended the upload. */
  datatype Goal = Goal(last: int, spoilt: bool)

  function Ahead(md5: Digest, chunks: seq<Chunk>, last: int): Goal {
    if chunks == [] then Goal(last, false)
    else if chunks[0].id != last + 1 then Ahead(md5, chunks[1..], last)
    else if !Fits(md5, chunks[0]) then Goal(last, true)
    else Ahead(md5, chunks[1..], last + 1)
  }

  /** In order from last + 1 on, with fitting digests. */
  ghost predicate InOrder(md5: Digest, chunks: seq<Chunk>, last: int) {
    forall k :: 0 <= k < |chunks| ==> chunks[k].id == last + 1 + k && Fits(md5, chunks[k])
  }

  /** One look at each chunk is enough for all of them exactly when they come undamaged and in order. */
  lemma {:induction false} AheadIsAllIffInOrder(md5: Digest, chunks: seq<Chunk>, last: int)
    ensures last <= Ahead(md5, chunks, last).last <= last + |chunks|
    ensures Ahead(md5, chunks, last).last == last + |chunks| <==> InOrder(md5, chunks, last)
    ensures InOrder(md5, chunks, last) ==> !Ahead(md5, chunks, last).spoilt
  {
    if chunks == [] {
    } else {
      var rest := chunks[1..];
      AheadIsAllIffInOrder(md5, rest, last);
      AheadIsAllIffInOrder(md5, rest, last + 1);
      if chunks[0].id == last + 1 && Fits(md5, chunks[0]) && InOrder(md5, rest, last + 1) {
        assert forall k :: 1 <= k < |chunks| ==> chunks[k] == rest[k - 1];
      }
    }
  }

  lemma {:induction false} FrontAppend(queue: seq<Option<Chunk>>, m: Option<Chunk>)
    requires None in queue
    ensures Front(queue + [m]) == Front(queue)
  {
    if queue[0].None? {
    } else {
      assert (queue + [m])[1..] == queue[1..] + [m];
      FrontAppend(queue[1..], m);
    }
  }

  /** A terminator is queued, and `goal` is where the loop will end. */
  ghost predicate Bound(job: Job, net: Net, s: Server, goal: Goal) {
    && 0 <= s.lastId <= |job.parts|
    && match s.phase
       case Receiving =>
         && None in s.queue && (forall c :: c in Front(s.queue) ==> c in net) && HasParts(job, net, s.lastId)
         && s.temp == Some(Concat(job.parts[..s.lastId])) && Ahead(job.md5, Front(s.queue), s.lastId) == goal
       case Stopped => goal == Goal(s.lastId, false) && s.temp == Some(Concat(job.parts[..s.lastId]))
       case BadSum => goal == Goal(s.lastId, true)
       case StatFailed => goal == Goal(s.lastId, false)
       case Short => goal == Goal(s.lastId, false) && |Concat(job.parts[..s.lastId])| < job.fileSize
       case Committed => goal == Goal(s.lastId, false) && |Concat(job.parts[..s.lastId])| >= job.fileSize
       case WriteFailed => false
  }

  lemma TakeKeepsBound(job: Job, net: Net, s: Server, goal: Goal)
    requires Harmless(job, net) && Bound(job, net, s, goal) && s.phase == Receiving && s.held.None?
    ensures Bound(job, net, Step(job, s, Take(None)), goal)
  {
    var front := Front(s.queue);
    if s.queue[0].Some? {
      var c := s.queue[0].value;
      assert front == [c] + Front(s.queue[1..]) && c in front && front[1..] == Front(s.queue[1..]);
      if s.lastId == c.id - 1 && Fits(job.md5, c) {
        AcceptedIsRight(job, net, s.lastId, c);
        StoreNext(job.parts, s.lastId, c.content);
      }
    }
  }

  lemma StepKeepsBound(job: Job, net: Net, s: Server, e: Event, goal: Goal)
    requires Harmless(job, net) && Bound(job, net, s, goal) && (e.Take? ==> e.stored.None?)
    ensures Bound(job, net, Step(job, s, e), goal)
  {
    if s.phase == Receiving {
      match e
      case Post(msg) => FrontAppend(s.queue, msg);
      case Take(_) =>
        if s.held.None? {
          TakeKeepsBound(job, net, s, goal);
        }
      case PutBack => FrontAppend(s.queue, s.held);
      case Finish(_, _, _) =>
    }
  }

  /** Once a terminator is queued, nothing that happens later changes where the loop ends: every
      chunk in front of it gets one look, up to the first damaged one whose turn it is. */
  lemma {:induction false} TerminatorDecides(job: Job, net: Net, s: Server, events: seq<Event>, goal: Goal)
    requires Harmless(job, net) && Bound(job, net, s, goal) && Quiet(events)
    ensures Bound(job, net, Run(job, s, events), goal)
  {
    if events == [] {
    } else {
      var front, e := events[..|events| - 1], events[|events| - 1];
      assert e in events;
      TerminatorDecides(job, net, s, front, goal);
      StepKeepsBound(job, net, Run(job, s, front), e, goal);
    }
  }

  lemma PartsShorter(parts: seq<Bytes>, m: nat)
    requires m < |parts| && forall p :: p in parts ==> p != []
    ensures |Concat(parts[..m])| < |Concat(parts)|
  {
    StoreNext(parts, m, parts[m]);
    ConcatPrefix(parts, m + 1);
    assert parts[m] in parts;
  }

  /** An upload under way, of a file whose parts are all there to be sent. */
  ghost predicate UnderWay(job: Job, net: Net, file: Bytes, s: Server) {
    && Harmless(job, net) && Concat(job.parts) == file && job.fileSize == |file|
    && (forall p :: p in job.parts ==> p != [])
    && s.phase == Receiving && 0 <= s.lastId <= |job.parts| && HasParts(job, net, s.lastId)
    && (forall c :: c in Front(s.queue) ==> c in net)
    && s.temp == Some(Concat(job.parts[..s.lastId]))
  }

  /** Completion with a terminator in the channel, over every later run without a failing write:
      the whole file is committed if and only if one look at each chunk in front of the terminator
      reaches the last part and meets no damage; otherwise the upload ends short or with a bad
      checksum. */
  lemma {:induction false} CommitsIffReached(job: Job, net: Net, file: Bytes, s: Server, events: seq<Event>)
    requires UnderWay(job, net, file, s) && None in s.queue && Quiet(events)
    ensures var t := Run(job, s, events); var goal := Ahead(job.md5, Front(s.queue), s.lastId);
      && (t.phase != Receiving ==> t.lastId == goal.last && (t.phase == BadSum <==> goal.spoilt))
      && (t.phase in {BadSum, Short, Committed} ==> (t.phase == Committed <==> goal == Goal(|job.parts|, false)))
  {
    var goal := Ahead(job.md5, Front(s.queue), s.lastId);
    TerminatorDecides(job, net, s, events, goal);
    if Run(job, s, events).phase != Receiving {
      if goal.last < |job.parts| {
        PartsShorter(job.parts, goal.last);
      } else {
        assert job.parts[..goal.last] == job.parts;
      }
    }
  }

  /** With as many chunks in front of the terminator as parts are missing, that is: if and only if
      they are undamaged and queued in order. One rotation costs the upload. */
  lemma {:induction false} CommitsIffInOrder(job: Job, net: Net, file: Bytes, s: Server, events: seq<Event>)
    requires UnderWay(job, net, file, s) && None in s.queue && Quiet(events)
    requires s.lastId + |Front(s.queue)| == |job.parts|
    ensures var t := Run(job, s, events);
      t.phase in {BadSum, Short, Committed} ==>
        (t.phase == Committed <==> InOrder(job.md5, Front(s.queue), s.lastId))
  {
    CommitsIffReached(job, net, file, s, events);
    AheadIsAllIffInOrder(job.md5, Front(s.queue), s.lastId);
  }

  /** The failing input: two chunks swapped, with the end of the stream right behind them. */
  lemma SwappedChunksEndShort(md5: Digest, removeOk: bool, renameOk: bool)
    ensures var job := Job(md5, 2, [[1], [2]]);
      var first, second := Chunk(1, [1], md5([1])), Chunk(2, [2], md5([2]));
      var s0 := Server([Some(second), Some(first), None], None, 0, Some([]), None, Receiving);
      var s2 := Step(job, Step(job, s0, Take(None)), PutBack);
      var s4 := Step(job, Step(job, s2, Take(None)), Take(None));
      s4.phase == Stopped && s4.lastId == 1 && Step(job, s4, Finish(true, removeOk, renameOk)).phase == Short
  {
  }

  // ---------------------------------------------------------------- reassembly bound

  function Triangle(n: nat): nat { n * (n + 1) / 2 }

  lemma TriangleStep(n: nat)
    requires n > 0
    ensures Triangle(n) == Triangle(n - 1) + n
  {
    assert n * (n + 1) == (n - 1) * n + 2 * n;
  }

  /** The queue holds exactly the ids that follow `last`, in any order. */
  ghost predicate Pending(ids: seq<int>, last: int) {
    forall v :: last < v <= last + |ids| ==> v in ids
  }

  function Position(ids: seq<int>, v: int): (k: nat)
    requires v in ids
    ensures k < |ids| && ids[k] == v
  {
    if ids[0] == v then 0 else 1 + Position(ids[1..], v)
  }

  lemma {:induction false} PositionAppend(ids: seq<int>, x: int, v: int)
    requires v in ids
    ensures Position(ids + [x], v) == Position(ids, v)
  {
    if ids[0] != v {
      assert (ids + [x])[1..] == ids[1..] + [x];
      PositionAppend(ids[1..], x, v);
    }
  }

  lemma Rotated(ids: seq<int>, last: int)
    requires Pending(ids, last) && ids != [] && ids[0] != last + 1
    ensures Pending(ids[1..] + [ids[0]], last)
    ensures Position(ids[1..] + [ids[0]], last + 1) == Position(ids, last + 1) - 1
  {
    var turned := ids[1..] + [ids[0]];
    forall v | last < v <= last + |ids|
      ensures v in turned
    {
      assert v in ids;
      var k :| 0 <= k < |ids| && ids[k] == v;
      assert turned[if k == 0 then |ids| - 1 else k - 1] == v;
    }
    assert last + 1 in ids;
    assert ids == [ids[0]] + ids[1..];
    PositionAppend(ids[1..], ids[0], last + 1);
  }

  lemma Advanced(ids: seq<int>, last: int)
    requires Pending(ids, last) && ids != [] && ids[0] == last + 1
    ensures Pending(ids[1..], last + 1)
  {
    forall v | last + 1 < v <= last + |ids|
      ensures v in ids[1..]
    {
      assert v in ids;
      var k :| 0 <= k < |ids| && ids[k] == v;
      assert ids[1..][k - 1] == v;
    }
  }

  function Ids(chunks: seq<Chunk>): (ids: seq<int>)
    ensures |ids| == |chunks| && forall k :: 0 <= k < |ids| ==> ids[k] == chunks[k].id
  {
    seq(|chunks|, k requires 0 <= k < |chunks| => chunks[k].id)
  }

  /** Number of dequeues the rotate-or-write loop needs; ordered by chunks left, then by the
      distance of the next id from the head. */
  ghost function Dequeues(ids: seq<int>, last: int): nat
    requires Pending(ids, last)
    decreases |ids|, if ids == [] then 0 else Position(ids, last + 1)
  {
    if ids == [] then 0
    else if ids[0] == last + 1 then
      Advanced(ids, last);
      1 + Dequeues(ids[1..], last + 1)
    else
      Rotated(ids, last);
      1 + Dequeues(ids[1..] + [ids[0]], last)
  }

  lemma {:induction false} DequeuesBound(ids: seq<int>, last: int)
    requires Pending(ids, last)
    ensures |ids| <= Dequeues(ids, last) <= Triangle(|ids|)
    ensures ids != [] ==> Dequeues(ids, last) <= Position(ids, last + 1) + 1 + Triangle(|ids| - 1)
    decreases |ids|, if ids == [] then 0 else Position(ids, last + 1)
  {
    if ids == [] {
    } else {
      TriangleStep(|ids|);
      if ids[0] == last + 1 {
        Advanced(ids, last);
        DequeuesBound(ids[1..], last + 1);
      } else {
        Rotated(ids, last);
        DequeuesBound(ids[1..] + [ids[0]], last);
      }
    }
  }

  function Descending(last: int, n: nat): (ids: seq<int>)
    ensures |ids| == n && forall k :: 0 <= k < n ==> ids[k] == last + n - k
  {
    seq(n, k requires 0 <= k < n => last + n - k)
  }

  /** Descending order with `turned` of its heads already rotated to the back. */
  lemma {:induction false} DescendingTurned(last: int, n: nat, turned: nat)
    requires turned < n
    ensures var d := Descending(last, n); var ids := d[turned..] + d[..turned];
      && Pending(ids, last)
      && Dequeues(ids, last) == n - turned + Triangle(n - 1)
    decreases n, n - turned
  {
    var d := Descending(last, n);
    var ids := d[turned..] + d[..turned];
    forall v | last < v <= last + n
      ensures v in ids
    {
      var k := last + n - v;
      assert d[k] == v;
      assert ids[if k >= turned then k - turned else n - turned + k] == v;
    }
    if turned == n - 1 {
      assert ids[1..] == Descending(last + 1, n - 1);
      if n > 1 {
        DescendingTurned(last + 1, n - 1, 0);
        var d' := Descending(last + 1, n - 1);
        assert d'[0..] + d'[..0] == d';
        TriangleStep(n - 1);
      }
    } else {
      assert ids[1..] + [ids[0]] == d[turned + 1..] + d[..turned + 1];
      DescendingTurned(last, n, turned + 1);
    }
  }

  /** The bound n(n+1)/2 is met with equality when the chunks arrive in descending order. */
  lemma {:induction false} ReassemblyBoundIsTight(last: int, n: nat)
    ensures Pending(Descending(last, n), last)
    ensures Dequeues(Descending(last, n), last) == Triangle(n)
  {
    if n > 0 {
      DescendingTurned(last, n, 0);
      var d := Descending(last, n);
      assert d[0..] + d[..0] == d;
      TriangleStep(n);
    }
  }

  /** The state in which the channel holds `chunks`, no terminator, and nothing is in hand. */
  function Reassembling(chunks: seq<Chunk>, lastId: int, temp: Bytes, dest: Option<Bytes>): (s: Server)
    ensures |s.queue| == |chunks|
  {
    Server(seq(|chunks|, k requires 0 <= k < |chunks| => Some(chunks[k])), None, lastId, Some(temp), dest, Receiving)
  }

  lemma RotateTurn(job: Job, chunks: seq<Chunk>, lastId: int, temp: Bytes, dest: Option<Bytes>)
    requires chunks != [] && |chunks| <= QUEUE_CAPACITY && chunks[0].id != lastId + 1
    ensures Step(job, Step(job, Reassembling(chunks, lastId, temp, dest), Take(None)), PutBack)
         == Reassembling(chunks[1..] + [chunks[0]], lastId, temp, dest)
  {
    var s := Reassembling(chunks, lastId, temp, dest);
    assert Reassembling(chunks[1..] + [chunks[0]], lastId, temp, dest).queue == s.queue[1..] + [s.queue[0]];
  }

  lemma WriteTurn(job: Job, chunks: seq<Chunk>, lastId: int, temp: Bytes, dest: Option<Bytes>)
    requires chunks != [] && chunks[0].id == lastId + 1 && chunks[0].sum == job.md5(chunks[0].content)
    ensures Step(job, Reassembling(chunks, lastId, temp, dest), Take(None))
         == Reassembling(chunks[1..], chunks[0].id, temp + chunks[0].content, dest)
  {
    var s := Reassembling(chunks, lastId, temp, dest);
    assert Reassembling(chunks[1..], chunks[0].id, temp + chunks[0].content, dest).queue == s.queue[1..];
  }

  lemma RunSnoc(job: Job, s: Server, events: seq<Event>, e: Event)
    ensures Run(job, s, events + [e]) == Step(job, Run(job, s, events), e)
  {
    assert (events + [e])[..|events|] == events;
  }

  lemma RotateRun(
      job: Job, s0: Server, events: seq<Event>, chunks: seq<Chunk>, lastId: int, temp: Bytes, dest: Option<Bytes>)
    requires chunks != [] && |chunks| <= QUEUE_CAPACITY && chunks[0].id != lastId + 1
    requires Run(job, s0, events) == Reassembling(chunks, lastId, temp, dest)
    ensures Run(job, s0, events + [Take(None)] + [PutBack])
         == Reassembling(chunks[1..] + [chunks[0]], lastId, temp, dest)
  {
    RunSnoc(job, s0, events, Take(None));
    RunSnoc(job, s0, events + [Take(None)], PutBack);
    RotateTurn(job, chunks, lastId, temp, dest);
  }

  lemma WriteRun(
      job: Job, s0: Server, events: seq<Event>, chunks: seq<Chunk>, lastId: int, temp: Bytes, dest: Option<Bytes>)
    requires chunks != [] && chunks[0].id == lastId + 1 && chunks[0].sum == job.md5(chunks[0].content)
    requires Run(job, s0, events) == Reassembling(chunks, lastId, temp, dest)
    ensures Run(job, s0, events + [Take(None)])
         == Reassembling(chunks[1..], chunks[0].id, temp + chunks[0].content, dest)
  {
    RunSnoc(job, s0, events, Take(None));
    WriteTurn(job, chunks, lastId, temp, dest);
  }

  lemma RotateIds(chunks: seq<Chunk>, last: int)
    requires chunks != [] && Pending(Ids(chunks), last) && chunks[0].id != last + 1
    ensures Pending(Ids(chunks[1..] + [chunks[0]]), last)
    ensures Dequeues(Ids(chunks), last) == 1 + Dequeues(Ids(chunks[1..] + [chunks[0]]), last)
  {
    Rotated(Ids(chunks), last);
    assert Ids(chunks[1..] + [chunks[0]]) == Ids(chunks)[1..] + [chunks[0].id];
  }

  lemma AdvanceIds(chunks: seq<Chunk>, last: int)
    requires chunks != [] && Pending(Ids(chunks), last) && chunks[0].id == last + 1
    ensures Pending(Ids(chunks[1..]), last + 1)
    ensures Dequeues(Ids(chunks), last) == 1 + Dequeues(Ids(chunks[1..]), last + 1)
  {
    Advanced(Ids(chunks), last);
    assert Ids(chunks[1..]) == Ids(chunks)[1..];
  }

  /** The writing loop with nobody else on the channel: from a queue holding every remaining
      chunk and no terminator it writes them all, in id order, within the quadratic bound.
      `events` is the run of the step machine it performs. */
  method Reassemble(job: Job, chunks: seq<Chunk>, last: nat, written: Bytes, ghost dest: Option<Bytes>)
      returns (temp: Bytes, lastId: int, dequeues: nat, ghost events: seq<Event>)
    requires forall c :: c in chunks ==> Honest(job.md5, job.parts, c)
    requires Pending(Ids(chunks), last) && last + |chunks| == |job.parts|
    requires |chunks| <= 4096
    requires written == Concat(job.parts[..last])
    ensures temp == Concat(job.parts) && lastId == |job.parts|
    ensures dequeues == Dequeues(Ids(chunks), last) <= Triangle(|chunks|)
    ensures Run(job, Reassembling(chunks, last, written, dest), events) == Reassembling([], lastId, temp, dest)
  {
    DequeuesBound(Ids(chunks), last);
    var channel := chunks;
    temp, lastId, dequeues, events := written, last, 0, [];
    ghost var s0 := Reassembling(chunks, last, written, dest);
    while channel != []
      invariant forall c :: c in channel ==> Honest(job.md5, job.parts, c)
      invariant 0 <= lastId && lastId + |channel| == |job.parts| && |channel| <= QUEUE_CAPACITY
      invariant Pending(Ids(channel), lastId)
      invariant temp == Concat(job.parts[..lastId])
      invariant dequeues + Dequeues(Ids(channel), lastId) == Dequeues(Ids(chunks), last)
      invariant Run(job, s0, events) == Reassembling(channel, lastId, temp, dest)
      decreases Dequeues(Ids(channel), lastId)
    {
      var data := channel[0];
      assert data in channel;
      dequeues := dequeues + 1;
      if lastId != data.id - 1 {
        RotateRun(job, s0, events, channel, lastId, temp, dest);
        RotateIds(channel, lastId);
        channel, events := channel[1..] + [data], events + [Take(None)] + [PutBack];
      } else {
        WriteRun(job, s0, events, channel, lastId, temp, dest);
        AdvanceIds(channel, lastId);
        StoreNext(job.parts, lastId, data.content);
        channel, lastId, temp, events := channel[1..], data.id, temp + data.content, events + [Take(None)];
      }
    }
    assert job.parts[..lastId] == job.parts;
  }

  /** The state of the writing loop between two looks. */
  ghost function Looping(channel: seq<Option<Chunk>>, lastId: int, temp: Bytes, dest: Option<Bytes>): Server {
    Server(channel, None, lastId, Some(temp), dest, Receiving)
  }

  ghost function Ended(rest: seq<Option<Chunk>>, lastId: int, temp: Bytes, dest: Option<Bytes>, badSum: bool): Server {
    Looping(rest, lastId, temp, dest).(phase := if badSum then BadSum else Stopped)
  }

  lemma RotateLook(
      job: Job, net: Net, s0: Server, events: seq<Event>,
      channel: seq<Option<Chunk>>, lastId: int, temp: Bytes, dest: Option<Bytes>, goal: Goal)
    requires channel != [] && channel[0].Some? && |channel| <= QUEUE_CAPACITY && channel[0].value.id != lastId + 1
    requires Harmless(job, net) && Run(job, s0, events) == Looping(channel, lastId, temp, dest)
    requires Bound(job, net, Looping(channel, lastId, temp, dest), goal)
    ensures var turned := channel[1..] + [channel[0]];
      && Run(job, s0, events + [Take(None)] + [PutBack]) == Looping(turned, lastId, temp, dest)
      && Bound(job, net, Looping(turned, lastId, temp, dest), goal)
      && None in turned && |Front(turned)| + 1 == |Front(channel)|
  {
    RunSnoc(job, s0, events, Take(None));
    RunSnoc(job, s0, events + [Take(None)], PutBack);
    TurnedBack(job, channel, lastId, temp, dest);
    TurnedBound(job, net, channel, lastId, temp, dest, goal);
  }

  lemma TurnedBack(job: Job, channel: seq<Option<Chunk>>, lastId: int, temp: Bytes, dest: Option<Bytes>)
    requires channel != [] && channel[0].Some? && |channel| <= QUEUE_CAPACITY && channel[0].value.id != lastId + 1
    ensures Step(job, Step(job, Looping(channel, lastId, temp, dest), Take(None)), PutBack)
         == Looping(channel[1..] + [channel[0]], lastId, temp, dest)
  {
  }

  lemma TurnedBound(
      job: Job, net: Net, channel: seq<Option<Chunk>>, lastId: int, temp: Bytes, dest: Option<Bytes>, goal: Goal)
    requires channel != [] && channel[0].Some? && channel[0].value.id != lastId + 1
    requires Bound(job, net, Looping(channel, lastId, temp, dest), goal)
    ensures var turned := channel[1..] + [channel[0]];
      && Bound(job, net, Looping(turned, lastId, temp, dest), goal)
      && None in turned && |Front(turned)| + 1 == |Front(channel)|
  {
    assert None in channel[1..];
    FrontAppend(channel[1..], channel[0]);
    assert Front(channel)[1..] == Front(channel[1..]);
  }

  lemma WriteLook(
      job: Job, net: Net, s0: Server, events: seq<Event>,
      channel: seq<Option<Chunk>>, lastId: int, temp: Bytes, dest: Option<Bytes>, goal: Goal)
    requires channel != [] && channel[0].Some? && channel[0].value.id == lastId + 1
    requires Fits(job.md5, channel[0].value)
    requires Harmless(job, net) && Run(job, s0, events) == Looping(channel, lastId, temp, dest)
    requires Bound(job, net, Looping(channel, lastId, temp, dest), goal)
    ensures var c := channel[0].value; var s' := Looping(channel[1..], c.id, temp + c.content, dest);
      && Run(job, s0, events + [Take(None)]) == s' && Bound(job, net, s', goal)
      && None in channel[1..] && |Front(channel[1..])| + 1 == |Front(channel)|
  {
    RunSnoc(job, s0, events, Take(None));
    StepKeepsBound(job, net, Looping(channel, lastId, temp, dest), Take(None), goal);
  }

  /** The look that ends the loop: at the terminator, or at a damaged chunk whose turn it is. */
  lemma LastLook(
      job: Job, net: Net, s0: Server, events: seq<Event>,
      channel: seq<Option<Chunk>>, lastId: int, temp: Bytes, dest: Option<Bytes>, goal: Goal)
    requires channel != []
    requires channel[0].Some? ==> channel[0].value.id == lastId + 1 && !Fits(job.md5, channel[0].value)
    requires Run(job, s0, events) == Looping(channel, lastId, temp, dest)
    requires Bound(job, net, Looping(channel, lastId, temp, dest), goal)
    ensures Run(job, s0, events + [Take(None)])
         == Ended(channel[1..], lastId, temp, dest, channel[0].Some?)
    ensures goal == Goal(lastId, channel[0].Some?)
  {
    RunSnoc(job, s0, events, Take(None));
    if channel[0].Some? {
      assert Front(channel)[0] == channel[0].value;
    }
  }

  /** The writing loop on a channel that holds a terminator: it gives every chunk in front of it one
      look, and stops there or at the first damaged chunk whose turn it is. */
  method WritingLoop(
      job: Job, ghost net: Net, queue: seq<Option<Chunk>>, last: nat, written: Bytes, ghost dest: Option<Bytes>)
      returns (temp: Bytes, lastId: int, badSum: bool, dequeues: nat, ghost events: seq<Event>)
    requires Harmless(job, net) && HasParts(job, net, last) && forall c :: c in Front(queue) ==> c in net
    requires None in queue && |queue| <= 4096 && last <= |job.parts|
    requires written == Concat(job.parts[..last])
    ensures Goal(lastId, badSum) == Ahead(job.md5, Front(queue), last) && 0 <= lastId <= |job.parts|
    ensures temp == Concat(job.parts[..lastId])
    ensures if badSum then dequeues <= |Front(queue)| else dequeues == |Front(queue)| + 1
    ensures Quiet(events)
    ensures exists rest ::
      Run(job, Looping(queue, last, written, dest), events) == Ended(rest, lastId, temp, dest, badSum)
  {
    ghost var s0 := Looping(queue, last, written, dest);
    ghost var goal := Ahead(job.md5, Front(queue), last);
    var channel := queue;
    temp, lastId, dequeues, events := written, last, 0, [];
    badSum := false;
    while channel[0].Some?
      invariant None in channel && |channel| <= QUEUE_CAPACITY && Quiet(events) && !badSum
      invariant Run(job, s0, events) == Looping(channel, lastId, temp, dest)
      invariant Bound(job, net, Looping(channel, lastId, temp, dest), goal)
      invariant dequeues + |Front(channel)| == |Front(queue)|
      decreases |Front(channel)|
    {
      var data := channel[0].value;
      if lastId != data.id - 1 {
        RotateLook(job, net, s0, events, channel, lastId, temp, dest, goal);
        channel, events := channel[1..] + [Some(data)], events + [Take(None)] + [PutBack];
      } else if data.sum != job.md5(data.content) {
        badSum := true;
        break;
      } else {
        WriteLook(job, net, s0, events, channel, lastId, temp, dest, goal);
        channel, lastId, temp, events := channel[1..], data.id, temp + data.content, events + [Take(None)];
      }
      dequeues := dequeues + 1;
    }
    LastLook(job, net, s0, events, channel, lastId, temp, dest, goal);
    dequeues, events := dequeues + 1, events + [Take(None)];
  }

  /** The end of Upload, after the writing loop has stopped at a terminator: size check and commit. */
  method Conclude(
      job: Job, ghost rest: seq<Option<Chunk>>, ghost lastId: int,
      temp: Bytes, dest: Option<Bytes>, statOk: bool, removeOk: bool, renameOk: bool)
      returns (err: bool, tempLeft: Option<Bytes>, destLeft: Option<Bytes>)
    ensures err <==> !statOk || |temp| < job.fileSize
    ensures err ==> destLeft == dest && tempLeft == (if statOk then None else Some(temp))
    ensures !err && renameOk ==> destLeft == Some(temp) && tempLeft == None
    ensures !err && !renameOk ==> destLeft == (if removeOk then None else dest) && tempLeft == Some(temp)
    ensures var s := Step(job, Ended(rest, lastId, temp, dest, false), Finish(statOk, removeOk, renameOk));
      && s.temp == tempLeft && s.dest == destLeft
      && s.phase == (if !err then Committed else if statOk then Short else StatFailed)
  {
    tempLeft, destLeft := Some(temp), dest;
    if !statOk {
      return true, tempLeft, destLeft;
    }
    err := |temp| < job.fileSize;
    if err {
      tempLeft := None;
    } else {
      if removeOk {
        destLeft := None;
      }
      if renameOk {
        tempLeft, destLeft := None, Some(temp);
      }
    }
  }

  /** Once every part is stored, the terminator and the size check commit the whole file. */
  lemma {:induction false} ReassembledCommits(job: Job, file: Bytes, dest: Option<Bytes>)
    requires Concat(job.parts) == file && job.fileSize == |file|
    ensures var s0 := Reassembling([], |job.parts|, file, dest);
      var s := Run(job, s0, [Post(None), Take(None), Finish(true, true, true)]);
      s.phase == Committed && s.dest == Some(file)
  {
    var s0 := Reassembling([], |job.parts|, file, dest);
    RunSnoc(job, s0, [], Post(None));
    RunSnoc(job, s0, [Post(None)], Take(None));
    RunSnoc(job, s0, [Post(None), Take(None)], Finish(true, true, true));
    assert [] + [Post(None)] == [Post(None)];
    assert [Post(None)] + [Take(None)] == [Post(None), Take(None)];
    assert [Post(None), Take(None)] + [Finish(true, true, true)] == [Post(None), Take(None), Finish(true, true, true)];
  }
}
