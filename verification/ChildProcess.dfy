/** Child process supervision and the splitting of its output into log lines. */
module ChildProcess {
  import opened Seqs

  // ---------------------------------------------------------------- supervisor

  /** The supervising goroutine of one process. */
  datatype Position =
    | Waiting    // in WaitID
    | Looking    // about to test force_closed
    | Reviving   // saw it unset: about to replace cmd
    | Starting   // cmd replaced, about to start it
    | Resting    // the one-second sleep
    | Ended

  /** `started`: the current cmd has a process; `alive`: that process has not exited; `found`:
      some CloseID has passed its lookup. `starts` counts the supervisor's start attempts, `late`
      those made after force_closed was first set; `crashed`: the daemon has dereferenced a nil process. */
  datatype State = State(
    at: Position, started: bool, alive: bool, found: bool, forceClosed: bool, starts: nat, late: nat, crashed: bool)

  datatype Event =
    | Exit              // the child exits by itself
    | WaitReturns
    | Look
    | Replace
    | Start(ok: bool)
    | Wake
    | Lookup            // CloseID looks the process up
    | ForceClose        // CloseID, past its lookup, sets the flag
    | Kill              // CloseID's Kill, on whatever process cmd has by then

  /** A step that is not enabled leaves the state alone. CloseID and WaitID fail their lookup
      while cmd has no process: the first then does nothing, the second returns at once. A Kill
      that comes after the lookup and finds no process brings the daemon down. */
  function Step(s: State, e: Event): State {
    if s.crashed then s else
    match e
    case Exit => s.(alive := false)
    case WaitReturns => if s.at.Waiting? && !(s.started && s.alive) then s.(at := Looking) else s
    case Look => if !s.at.Looking? then s else s.(at := if s.forceClosed then Ended else Reviving)
    case Replace => if s.at.Reviving? then s.(at := Starting, started := false, alive := false) else s
    case Start(ok) =>
      if !s.at.Starting? then s
      else
        s.(at := Resting, started := ok, alive := ok, starts := s.starts + 1,
           late := s.late + if s.forceClosed then 1 else 0)
    case Wake => if s.at.Resting? then s.(at := Waiting) else s
    case Lookup => s.(found := s.found || s.started)
    case ForceClose => if s.found then s.(forceClosed := true) else s
    case Kill => if !s.forceClosed then s else if s.started then s.(alive := false) else s.(crashed := true)
  }

  /** Right after NewChildProcess has started the first process. */
  const BOOTED := State(Waiting, true, true, false, false, 0, 0, false)

  function Run(events: seq<Event>): State {
    if events == [] then BOOTED else Step(Run(events[..|events| - 1]), events[|events| - 1])
  }

  /** The supervisor has passed its test and has not started the next process yet. */
  predicate InWindow(s: State) { s.at.Reviving? || s.at.Starting? }

  ghost predicate Inv(s: State) {
    && (s.forceClosed ==> s.late + (if InWindow(s) then 1 else 0) <= 1)
    && (!s.forceClosed ==> s.late == 0)
    && (s.at.Ended? ==> s.forceClosed)
    && (s.alive ==> s.started)
    && (s.at.Starting? ==> !s.started)
    && (s.at.Looking? || InWindow(s) ==> !s.alive)
    && (s.crashed ==> s.forceClosed)
  }

  lemma StepKeepsInv(s: State, e: Event)
    requires Inv(s)
    ensures Inv(Step(s, e))
  {
  }

  /** In every interleaving at most one start follows the closing. */
  lemma {:induction false} AtMostOneLateStart(events: seq<Event>)
    ensures Inv(Run(events))
    ensures Run(events).late <= 1
  {
    if events == [] {
    } else {
      AtMostOneLateStart(events[..|events| - 1]);
      StepKeepsInv(Run(events[..|events| - 1]), events[|events| - 1]);
    }
  }

  lemma RunSnoc(events: seq<Event>, e: Event)
    ensures Run(events + [e]) == Step(Run(events), e)
  {
    assert (events + [e])[..|events|] == events;
  }

  lemma {:induction false} RunAfter(events: seq<Event>, more: seq<Event>)
    ensures Run(events + more) == RunFrom(Run(events), more)
  {
    if more == [] {
      assert events + more == events;
    } else {
      RunAfter(events, more[..|more| - 1]);
      assert events + more == events + more[..|more| - 1] + [more[|more| - 1]];
      RunSnoc(events + more[..|more| - 1], more[|more| - 1]);
    }
  }

  function RunFrom(s: State, events: seq<Event>): State {
    if events == [] then s else Step(RunFrom(s, events[..|events| - 1]), events[|events| - 1])
  }

  lemma FewMoves(s: State, e: Event, f: Event)
    ensures RunFrom(s, [f]) == Step(s, f)
    ensures RunFrom(s, [e, f]) == Step(Step(s, e), f)
  {
    assert [e, f][..1] == [e] && [e][..0] == [] && [f][..0] == [];
    assert RunFrom(s, [e]) == Step(s, e);
  }

  lemma {:induction false} ClosedOutsideWindow(s: State, more: seq<Event>)
    requires s.forceClosed && !InWindow(s)
    ensures var t := RunFrom(s, more); t.forceClosed && !InWindow(t) && t.late == s.late
  {
    if more == [] {
    } else {
      ClosedOutsideWindow(s, more[..|more| - 1]);
    }
  }

  /** Exactly when a start can follow the closing: if and only if the flag is set while the
      supervisor is between its test and its start. The bound of one is attained there. */
  lemma {:induction false} LateStartIffInWindow(events: seq<Event>)
    requires !Run(events).forceClosed && Run(events).found
    ensures InWindow(Run(events)) <==> exists more :: Run(events + [ForceClose] + more).late == 1
  {
    var s := Run(events);
    AtMostOneLateStart(events);
    RunSnoc(events, ForceClose);
    if InWindow(s) {
      var more := if s.at.Reviving? then [Replace, Start(true)] else [Start(true)];
      RunAfter(events + [ForceClose], more);
      FewMoves(Step(s, ForceClose), Replace, Start(true));
      assert Run(events + [ForceClose] + more).late == 1;
    } else {
      forall more
        ensures Run(events + [ForceClose] + more).late == 0
      {
        RunAfter(events + [ForceClose], more);
        ClosedOutsideWindow(Run(events + [ForceClose]), more);
      }
    }
  }

  lemma {:induction false} ClosedWithProcess(s: State, more: seq<Event>)
    requires s.forceClosed && !InWindow(s) && s.started && !s.crashed
    ensures var t := RunFrom(s, more); t.forceClosed && !InWindow(t) && t.started && !t.crashed
  {
    if more == [] {
    } else {
      ClosedWithProcess(s, more[..|more| - 1]);
    }
  }

  /** Exactly when a closing that has passed its lookup can bring the daemon down: if and only if,
      as it sets the flag, cmd has no process or the supervisor is already past its test. */
  lemma {:induction false} CloseCanCrashIff(events: seq<Event>)
    requires !Run(events).forceClosed && Run(events).found
    ensures InWindow(Run(events)) || !Run(events).started <==> exists more :: Run(events + [ForceClose] + more).crashed
  {
    var s := Run(events);
    AtMostOneLateStart(events);
    RunSnoc(events, ForceClose);
    if InWindow(s) || !s.started {
      var more := if s.at.Reviving? then [Replace, Kill] else [Kill];
      RunAfter(events + [ForceClose], more);
      FewMoves(Step(s, ForceClose), Replace, Kill);
      assert Run(events + [ForceClose] + more).crashed;
    } else {
      forall more
        ensures !Run(events + [ForceClose] + more).crashed
      {
        RunAfter(events + [ForceClose], more);
        ClosedWithProcess(Run(events + [ForceClose]), more);
      }
    }
  }

  // ---- what the supervisor accomplishes

  /** The supervisor's move from where it stands; `ok` is the outcome of a start. */
  function Next(s: State, ok: bool): Event {
    match s.at
    case Waiting => WaitReturns
    case Looking => Look
    case Reviving => Replace
    case Starting => Start(ok)
    case Resting => Wake
    case Ended => Look
  }

  function Moves(s: State, n: nat): State
    decreases n
  {
    if n == 0 then s else Moves(Step(s, Next(s, true)), n - 1)
  }

  /** How many moves lead to the next start. */
  function MovesToStart(at: Position): nat {
    match at
    case Resting => 5
    case Waiting => 4
    case Looking => 3
    case Reviving => 2
    case Starting => 1
    case Ended => 0
  }

  lemma {:induction false} MovesRestart(s: State)
    requires Inv(s) && !s.forceClosed && !s.alive && !s.crashed
    ensures var t := Moves(s, MovesToStart(s.at));
      t.started && t.alive && t.at == Resting && t.starts == s.starts + 1
    decreases MovesToStart(s.at)
  {
    var s1 := Step(s, Next(s, true));
    if s.at.Starting? {
      assert Moves(s1, 0) == s1;
    } else {
      StepKeepsInv(s, Next(s, true));
      MovesRestart(s1);
    }
  }

  /** After every run: a child that is gone is started again within five moves of the supervisor,
      unless its closing has begun. */
  lemma {:induction false} GoneIsRestarted(events: seq<Event>)
    requires var s := Run(events); !s.forceClosed && !s.alive
    ensures var s := Run(events); var t := Moves(s, MovesToStart(s.at));
      t.started && t.alive && t.starts == s.starts + 1 && MovesToStart(s.at) <= 5
  {
    AtMostOneLateStart(events);
    MovesRestart(Run(events));
  }

  /** After every run: a start never adds a second process to one that is alive, and a supervisor that
      waits for a living child stays where it is. */
  lemma {:induction false} LivingIsLeftAlone(events: seq<Event>, ok: bool)
    ensures var s := Run(events);
      && (s.alive ==> Step(s, Start(ok)) == s)
      && (s.alive && s.at.Waiting? ==> Step(s, Next(s, ok)) == s)
  {
    AtMostOneLateStart(events);
  }

  /** Closing a living child while the supervisor waits for it: the child is gone and the supervisor
      ends without another start. */
  lemma ClosingEndsSupervisor(events: seq<Event>)
    requires var s := Run(events); s.at.Waiting? && s.started && !s.forceClosed
    ensures var s := Run(events); var t := Step(Step(Step(s, Lookup), ForceClose), Kill);
      && t.forceClosed && !t.alive && !t.crashed
      && Moves(t, 2).at == Ended && Moves(t, 2).starts == s.starts
  {
    AtMostOneLateStart(events);
    var t := Step(Step(Step(Run(events), Lookup), ForceClose), Kill);
    assert Moves(t, 2) == Moves(Step(t, WaitReturns), 1);
    assert Moves(Step(t, WaitReturns), 1) == Moves(Step(Step(t, WaitReturns), Look), 0);
  }

  /** The window exists: a child that has exited takes the supervisor into it. */
  lemma {:induction false} WindowIsReached()
    ensures var s := Run([Lookup] + [Exit] + [WaitReturns] + [Look]);
      InWindow(s) && s.found && !s.forceClosed && s.started
  {
    RunSnoc([], Lookup);
    RunSnoc([Lookup], Exit);
    RunSnoc([Lookup] + [Exit], WaitReturns);
    RunSnoc([Lookup] + [Exit] + [WaitReturns], Look);
    assert [] + [Lookup] == [Lookup];
  }

  /** The process record both goroutines share, with the supervisor's position made explicit. */
  class Supervised {
    var at: Position
    var started: bool
    var alive: bool
    ghost var found: bool
    var forceClosed: bool
    ghost var starts: nat
    ghost var late: nat
    ghost var crashed: bool

    ghost function View(): State
      reads this
    {
      State(at, started, alive, found, forceClosed, starts, late, crashed)
    }

    constructor ()
      ensures View() == BOOTED
    {
      at, started, alive, found, forceClosed := Waiting, true, true, false, false;
      starts, late, crashed := 0, 0, false;
    }

    /** The supervisor's next move; `ok` is the outcome of a start. */
    method Supervise(ok: bool)
      requires !crashed
      modifies this
      ensures View() == Step(old(View()), Next(old(View()), ok))
      ensures match old(at)
              case Waiting => at == (if old(started && alive) then Waiting else Looking)
              case Looking => at == if old(forceClosed) then Ended else Reviving
              case Reviving => at == Starting && !started
              case Starting => at == Resting && started == alive == ok && starts == old(starts) + 1
              case Resting => at == Waiting
              case Ended => at == Ended
      ensures !old(at).Reviving? && !old(at).Starting? ==> started == old(started) && alive == old(alive)
    {
      match at
      case Waiting => if !(started && alive) { at := Looking; }
      case Looking => at := if forceClosed then Ended else Reviving;
      case Reviving => at, started, alive := Starting, false, false;
      case Starting =>
        starts, late := starts + 1, late + if forceClosed then 1 else 0;
        at, started, alive := Resting, ok, ok;
      case Resting => at := Waiting;
      case Ended =>
    }

    /** CloseID's lookup: an error while the current cmd has no process. */
    method FindProcess() returns (err: bool)
      requires !crashed
      modifies this`found
      ensures err <==> !started
      ensures View() == Step(old(View()), Lookup)
    {
      err := !started;
      found := found || started;
    }

    method ForceCloseProcess()
      requires found && !crashed
      modifies this`forceClosed
      ensures View() == Step(old(View()), ForceClose) && forceClosed
    {
      forceClosed := true;
    }

    /** Kill on the process cmd has by now; `panics` when it has none. */
    method KillProcess() returns (panics: bool)
      requires forceClosed && !crashed
      modifies this
      ensures View() == Step(old(View()), Kill)
      ensures panics <==> !old(started)
      ensures !panics ==> !alive
    {
      panics := !started;
      if panics {
        crashed := true;
      } else {
        alive := false;
      }
    }
  }

  // ---------------------------------------------------------------- log splitter

  /** strings.Split on a one-character separator. */
  function Split(s: string, sep: char): (pieces: seq<string>)
    ensures |pieces| > 0
  {
    if s == [] then [""]
    else
      var front, c := Split(s[..|s| - 1], sep), s[|s| - 1];
      if c == sep then front + [""] else front[..|front| - 1] + [front[|front| - 1] + [c]]
  }

  function NonEmpty(pieces: seq<string>): seq<string> {
    if pieces == [] then []
    else
      var last := pieces[|pieces| - 1];
      NonEmpty(pieces[..|pieces| - 1]) + if last == "" then [] else [last]
  }

  /** What one read logs: split at LF, then at CR, empty pieces dropped. */
  function Sublines(lines: seq<string>): seq<string> {
    if lines == [] then []
    else Sublines(lines[..|lines| - 1]) + NonEmpty(Split(lines[|lines| - 1], '\r'))
  }

  function Logged(text: string): seq<string> { Sublines(Split(text, '\n')) }

  predicate IsBreak(c: char) { c == '\n' || c == '\r' }

  /** The text with every CR and LF removed. */
  function Stripped(text: string): string {
    if text == [] then []
    else
      var c := text[|text| - 1];
      Stripped(text[..|text| - 1]) + if IsBreak(c) then [] else [c]
  }

  /** Reference: the maximal runs free of CR and LF, found by a single scan. `open` says that
      the last run has not been closed by a break yet. */
  datatype Scan = Scan(runs: seq<string>, open: bool)

  function ScanAll(text: string): (r: Scan)
    ensures r.open ==> r.runs != []
  {
    if text == [] then Scan([], false)
    else
      var before, c := ScanAll(text[..|text| - 1]), text[|text| - 1];
      if IsBreak(c) then Scan(before.runs, false)
      else if !before.open then Scan(before.runs + [[c]], true)
      else Scan(before.runs[..|before.runs| - 1] + [before.runs[|before.runs| - 1] + [c]], true)
  }

  ghost predicate Clean(pieces: seq<string>) {
    forall k :: 0 <= k < |pieces| ==> pieces[k] != "" && forall c :: c in pieces[k] ==> !IsBreak(c)
  }

  lemma NonEmptySnoc(pieces: seq<string>, x: string)
    ensures NonEmpty(pieces + [x]) == NonEmpty(pieces) + if x == "" then [] else [x]
  {
    assert (pieces + [x])[..|pieces|] == pieces;
  }

  lemma SublinesSnoc(lines: seq<string>, x: string)
    ensures Sublines(lines + [x]) == Sublines(lines) + NonEmpty(Split(x, '\r'))
  {
    assert (lines + [x])[..|lines|] == lines;
  }

  function Front<T>(s: seq<T>): seq<T>
    requires s != []
  {
    s[..|s| - 1]
  }

  function Last<T>(s: seq<T>): T
    requires s != []
  {
    s[|s| - 1]
  }

  lemma SplitSnoc(s: string, c: char, sep: char)
    ensures Split(s + [c], sep)
         == if c == sep then Split(s, sep) + [""] else Front(Split(s, sep)) + [Last(Split(s, sep)) + [c]]
  {
    assert (s + [c])[..|s|] == s;
  }

  /** The pieces of a text that later characters can no longer change, and the one they can. */
  function Pieces(text: string): (r: seq<string>)
    ensures r != []
  {
    Split(Last(Split(text, '\n')), '\r')
  }

  function Settled(text: string): seq<string> {
    Sublines(Front(Split(text, '\n'))) + NonEmpty(Front(Pieces(text)))
  }

  function Tail(text: string): string { Last(Pieces(text)) }

  function IfAny(piece: string): seq<string> { if piece == "" then [] else [piece] }

  lemma {:induction false} LoggedParts(text: string)
    ensures Logged(text) == Settled(text) + IfAny(Tail(text))
  {
    var lines, pieces := Split(text, '\n'), Pieces(text);
    assert lines == Front(lines) + [Last(lines)] && pieces == Front(pieces) + [Last(pieces)];
    SublinesSnoc(Front(lines), Last(lines));
    NonEmptySnoc(Front(pieces), Last(pieces));
    PlusAssoc(Sublines(Front(lines)), NonEmpty(Front(pieces)), IfAny(Last(pieces)));
  }

  lemma {:induction false} LoggedLF(text: string)
    ensures Logged(text + ['\n']) == Logged(text) && Tail(text + ['\n']) == ""
  {
    SplitSnoc(text, '\n', '\n');
    SublinesSnoc(Split(text, '\n'), "");
    assert Split("", '\r') == [""] && NonEmpty([""]) == [] by { NonEmptySnoc([], ""); }
  }

  lemma {:induction false} LoggedCR(text: string)
    ensures Logged(text + ['\r']) == Logged(text) && Tail(text + ['\r']) == ""
  {
    var lines := Split(text, '\n');
    SplitSnoc(text, '\r', '\n');
    SplitSnoc(Last(lines), '\r', '\r');
    assert lines == Front(lines) + [Last(lines)];
    SublinesSnoc(Front(lines), Last(lines));
    SublinesSnoc(Front(lines), Last(lines) + ['\r']);
    NonEmptySnoc(Pieces(text), "");
  }

  lemma {:induction false} LoggedChar(text: string, c: char)
    requires !IsBreak(c)
    ensures Settled(text + [c]) == Settled(text) && Tail(text + [c]) == Tail(text) + [c]
  {
    var lines := Split(text, '\n');
    SplitSnoc(text, c, '\n');
    SplitSnoc(Last(lines), c, '\r');
    assert Front(Split(text + [c], '\n')) == Front(lines);
    assert Front(Pieces(text + [c])) == Front(Pieces(text));
  }

  /** The nested splits log exactly the maximal runs between breaks. */
  lemma {:induction false} LoggedIsScan(text: string)
    ensures Logged(text) == ScanAll(text).runs
    ensures Tail(text) != "" <==> ScanAll(text).open
  {
    if text == "" {
      SublinesSnoc([], "");
      NonEmptySnoc([], "");
    } else {
      var t, c := Front(text), Last(text);
      assert text == t + [c];
      LoggedIsScan(t);
      if c == '\n' {
        LoggedLF(t);
      } else if c == '\r' {
        LoggedCR(t);
      } else {
        LoggedParts(t);
        LoggedChar(t, c);
        LoggedParts(text);
        if ScanAll(t).open {
          assert Front(Settled(t) + [Tail(t)]) == Settled(t);
        } else {
          assert Logged(t) == Settled(t) && Tail(text) == [c];
        }
      }
    }
  }

  lemma CleanGrows(runs: seq<string>, c: char)
    requires Clean(runs) && !IsBreak(c)
    ensures Clean(runs + [[c]])
    ensures runs != [] ==> Clean(Front(runs) + [Last(runs) + [c]])
  {
  }

  lemma ConcatGrows(runs: seq<string>, c: char)
    ensures Concat(runs + [[c]]) == Concat(runs) + [c]
    ensures runs != [] ==> Concat(Front(runs) + [Last(runs) + [c]]) == Concat(runs) + [c]
  {
    ConcatSnoc(runs, [c]);
    if runs != [] {
      ConcatSnoc(Front(runs), Last(runs) + [c]);
      PlusAssoc(Concat(Front(runs)), Last(runs), [c]);
    }
  }

  lemma {:induction false} ScanIsClean(text: string)
    ensures Clean(ScanAll(text).runs)
    ensures Concat(ScanAll(text).runs) == Stripped(text)
  {
    if text == [] {
    } else {
      ScanIsClean(Front(text));
      if !IsBreak(Last(text)) {
        CleanGrows(ScanAll(Front(text)).runs, Last(text));
        ConcatGrows(ScanAll(Front(text)).runs, Last(text));
      }
    }
  }

  /** What one Read returns: data, possibly empty, or an error, which drops its data. */
  datatype Read = Data(text: string) | Error

  /** The text delivered before the first error. */
  function Stream(chunks: seq<Read>): string {
    if chunks == [] || chunks[0].Error? then [] else chunks[0].text + Stream(chunks[1..])
  }

  function LoggedOf(chunks: seq<Read>): seq<string> {
    if chunks == [] || chunks[0].Error? then [] else Logged(chunks[0].text) + LoggedOf(chunks[1..])
  }

  lemma {:induction false} StrippedPlus(a: string, b: string)
    ensures Stripped(a + b) == Stripped(a) + Stripped(b)
  {
    if b == [] {
      assert a + b == a;
    } else {
      StrippedPlus(a, b[..|b| - 1]);
      assert (a + b)[..|a + b| - 1] == a + b[..|b| - 1];
    }
  }

  /** For every way a stream is cut into reads: the pieces are non-empty, free of CR and LF, and
      together they are the stream with CR and LF removed. */
  lemma {:induction false} LogIsBoundaryIndependent(chunks: seq<Read>)
    ensures Clean(LoggedOf(chunks))
    ensures Concat(LoggedOf(chunks)) == Stripped(Stream(chunks))
  {
    if chunks != [] && chunks[0].Data? {
      var text := chunks[0].text;
      LogIsBoundaryIndependent(chunks[1..]);
      LoggedIsScan(text);
      ScanIsClean(text);
      ConcatPlus(Logged(text), LoggedOf(chunks[1..]));
      StrippedPlus(text, Stream(chunks[1..]));
    }
  }

  /** The innermost loop: one line, split at CR. */
  method CaptureLine(line: string) returns (log: seq<string>)
    ensures log == NonEmpty(Split(line, '\r'))
  {
    log := [];
    var sublines := Split(line, '\r');
    for k := 0 to |sublines|
      invariant log == NonEmpty(sublines[..k])
    {
      assert sublines[..k + 1] == sublines[..k] + [sublines[k]];
      NonEmptySnoc(sublines[..k], sublines[k]);
      if |sublines[k]| != 0 {
        log := log + [sublines[k]];
      }
    }
    assert sublines[..|sublines|] == sublines;
  }

  /** One read, split at LF. */
  method CaptureRead(text: string) returns (log: seq<string>)
    ensures log == Logged(text)
  {
    log := [];
    var lines := Split(text, '\n');
    for j := 0 to |lines|
      invariant log == Sublines(lines[..j])
    {
      assert lines[..j + 1] == lines[..j] + [lines[j]];
      SublinesSnoc(lines[..j], lines[j]);
      var pieces := CaptureLine(lines[j]);
      log := log + pieces;
    }
    assert lines[..|lines|] == lines;
  }

  /** What the capture loop guarantees. */
  method CopyAndCapture(chunks: seq<Read>) returns (log: seq<string>)
    ensures log == LoggedOf(chunks)
    ensures Clean(log) && Concat(log) == Stripped(Stream(chunks))
  {
    log := CaptureAll(chunks);
    LogIsBoundaryIndependent(chunks);
  }

  lemma LoggedNext(log: seq<string>, chunks: seq<Read>, i: nat)
    requires i < |chunks| && chunks[i].Data?
    ensures log + LoggedOf(chunks[i..]) == log + Logged(chunks[i].text) + LoggedOf(chunks[i + 1..])
  {
    assert chunks[i..][1..] == chunks[i + 1..];
    PlusAssoc(log, Logged(chunks[i].text), LoggedOf(chunks[i + 1..]));
  }

  lemma EmptyReadLogsNothing()
    ensures Logged("") == []
  {
    LoggedIsScan("");
  }

  /** The capture loop with its logger. */
  method CaptureAll(chunks: seq<Read>) returns (log: seq<string>)
    ensures log == LoggedOf(chunks)
  {
    log := [];
    var i := 0;
    while i < |chunks| && chunks[i].Data?
      invariant 0 <= i <= |chunks|
      invariant log + LoggedOf(chunks[i..]) == LoggedOf(chunks)
    {
      LoggedNext(log, chunks, i);
      if |chunks[i].text| >= 1 {
        var pieces := CaptureRead(chunks[i].text);
        log := log + pieces;
      } else {
        EmptyReadLogsNothing();
        assert log + Logged(chunks[i].text) == log;
      }
      i := i + 1;
    }
    assert LoggedOf(chunks[i..]) == [];
  }
}
