/**
  The loop `while check_console(console): virEventRunDefaultImpl()` that
  drives a console. One call of `virEventRunDefaultImpl` is one turn of
  libvirt's event loop: a single poll that dispatches every callback whose
  handle is ready, which may be none, one or several. The step runs only
  between turns. The model takes the turns as a sequence of batches of
  callback invocations and runs the loop until the step returns false or
  the turns run out.
 */
module EventLoop {

  import opened Wrappers
  import opened PyStr
  import opened Libvirt
  import opened ConsoleModel

  /** One callback invocation made by libvirt's event loop. */
  datatype Event =
    | Lifecycle(current: DomainState) // the guest changed state; `current` is its new state
    | StdinReadable(data: Bytes)      // the watched descriptor had `data` to read
    | StreamReadable                  // the console stream had output to read

  /** The callbacks one turn of the event loop dispatches, in order. */
  type Turn = seq<Event>

  /** The guest state after `events`, starting from `s0`: the most recent lifecycle report. */
  function StateAfter(s0: DomainState, events: seq<Event>): DomainState
  {
    if |events| == 0 then s0
    else
      var e := events[|events| - 1];
      if e.Lifecycle? then e.current else StateAfter(s0, events[..|events| - 1])
  }

  /** The batch holds a keyboard event. */
  predicate HasStdin(events: seq<Event>)
  {
    exists j :: 0 <= j < |events| && events[j].StdinReadable?
  }

  /**
    Hand one event to the callback registered for it: a lifecycle report
    records the new state, a keyboard event clears the loop flag, and stream
    output leaves the console as it was.
   */
  function Dispatch(c: Console, e: Event): (r: Console)
    ensures r.state == (if e.Lifecycle? then e.current else c.state)
    ensures r.runConsole == (c.runConsole && !e.StdinReadable?)
    ensures r.(state := c.state, runConsole := c.runConsole) == c
  {
    match e
    case Lifecycle(current) => LifecycleCallback(c, current)
    case StdinReadable(data) => StdinCallback(c, data).console
    case StreamReadable => c
  }

  /**
    One turn: every callback of the batch runs in order, with no step in
    between. The turn leaves the console with the last reported state, with
    its loop flag cleared if any keyboard event came, and otherwise as it was.
   */
  function RunTurn(c: Console, turn: Turn): (r: Console)
    ensures r == c.(state := StateAfter(c.state, turn), runConsole := c.runConsole && !HasStdin(turn))
  {
    if |turn| == 0 then c
    else
      var before := turn[..|turn| - 1];
      assert forall j :: 0 <= j < |before| ==> before[j] == turn[j];
      Dispatch(RunTurn(c, before), turn[|turn| - 1])
  }

  /** The guest state after the turns `turns`, starting from `s0`. */
  function StateAfterTurns(s0: DomainState, turns: seq<Turn>): DomainState
  {
    if |turns| == 0 then s0
    else StateAfter(StateAfterTurns(s0, turns[..|turns| - 1]), turns[|turns| - 1])
  }

  /**
    How many turns bring the guest from a state without a console to a
    running or paused state, judged at the step after each turn.
   */
  function Activations(s0: DomainState, turns: seq<Turn>): nat
  {
    if |turns| == 0 then 0
    else
      var before := turns[..|turns| - 1];
      Activations(s0, before)
        + (if ConsoleAvailable(StateAfterTurns(s0, turns)) && !ConsoleAvailable(StateAfterTurns(s0, before))
           then 1 else 0)
  }

  /**
    Run the loop from `c0` over `turns`; `handled` is how many turns ran
    before the loop stopped.

    After the loop the stream is present exactly when the most recently
    reported guest state is running or paused. The loop runs on while no
    keyboard event has come, and stops after the first turn that holds one.
    A stream is opened once at the start if the guest already runs, then once
    for each turn after which the guest is back, and never otherwise.
   */
  method RunEventLoop(c0: Console, turns: seq<Turn>) returns (c: Console, handled: nat)
    ensures handled <= |turns|
    ensures Attached(c)
    ensures c.state == StateAfterTurns(c0.state, turns[..handled])
    ensures c.runConsole ==> handled == |turns|
    ensures !c0.runConsole ==> handled == 0 && !c.runConsole
    ensures c0.runConsole ==> (c.runConsole <==> forall i :: 0 <= i < handled ==> !HasStdin(turns[i]))
    ensures c0.runConsole && handled < |turns| ==> handled > 0 && HasStdin(turns[handled - 1])
    ensures forall i :: 0 <= i < handled - 1 ==> !HasStdin(turns[i])
    ensures c.opens == c0.opens
      + (if ConsoleAvailable(c0.state) && c0.stream.None? then 1 else 0)
      + Activations(c0.state, turns[..handled])
    ensures c.uri == c0.uri && c.domainName == c0.domainName && c.stdinWatch == c0.stdinWatch
    ensures Valid(c0) ==> Valid(c)
    ensures Latest(c0) ==> Latest(c)
  {
    var r := CheckConsole(c0);
    c := r.console;
    var go := r.keepRunning;
    handled := 0;
    while go && handled < |turns|
      invariant handled <= |turns|
      invariant Attached(c)
      invariant go == c.runConsole
      invariant c.state == StateAfterTurns(c0.state, turns[..handled])
      invariant !c0.runConsole ==> handled == 0 && !go
      invariant c0.runConsole ==> (go <==> forall i :: 0 <= i < handled ==> !HasStdin(turns[i]))
      invariant forall i :: 0 <= i < handled - 1 ==> !HasStdin(turns[i])
      invariant handled > 0 && HasStdin(turns[handled - 1]) ==> !go
      invariant c.opens == c0.opens
        + (if ConsoleAvailable(c0.state) && c0.stream.None? then 1 else 0)
        + Activations(c0.state, turns[..handled])
      invariant c.uri == c0.uri && c.domainName == c0.domainName && c.stdinWatch == c0.stdinWatch
      invariant Valid(c0) ==> Valid(c)
      invariant Latest(c0) ==> Latest(c)
    {
      assert turns[..handled + 1][..handled] == turns[..handled];
      c := RunTurn(c, turns[handled]);
      handled := handled + 1;
      r := CheckConsole(c);
      c := r.console;
      go := r.keepRunning;
    }
  }

  /** No report in the batch leaves the guest without a console. */
  predicate ReportsAvailable(turn: Turn)
  {
    forall j :: 0 <= j < |turn| && turn[j].Lifecycle? ==> ConsoleAvailable(turn[j].current)
  }

  /** A batch whose reports all keep the guest available ends with it available. */
  lemma {:induction false} StateAfterAvailable(s0: DomainState, turn: Turn)
    requires ConsoleAvailable(s0)
    requires ReportsAvailable(turn)
    ensures ConsoleAvailable(StateAfter(s0, turn))
  {
    if |turn| > 0 {
      var before := turn[..|turn| - 1];
      assert ReportsAvailable(before) by {
        forall j | 0 <= j < |before| && before[j].Lifecycle?
          ensures ConsoleAvailable(before[j].current)
        {
          assert before[j] == turn[j];
        }
      }
      StateAfterAvailable(s0, before);
    }
  }

  /**
    No stream churn: while the guest stays running or paused, lifecycle
    events open no stream, so a console that already has its stream keeps
    it for the whole run.
   */
  lemma {:induction false} NoChurnWhileAvailable(s0: DomainState, turns: seq<Turn>)
    requires ConsoleAvailable(s0)
    requires forall i :: 0 <= i < |turns| ==> ReportsAvailable(turns[i])
    ensures ConsoleAvailable(StateAfterTurns(s0, turns))
    ensures Activations(s0, turns) == 0
  {
    if |turns| > 0 {
      var before := turns[..|turns| - 1];
      assert forall i :: 0 <= i < |before| ==> before[i] == turns[i];
      NoChurnWhileAvailable(s0, before);
      StateAfterAvailable(StateAfterTurns(s0, before), turns[|turns| - 1]);
    }
  }

  /** The batch holds a lifecycle report. */
  predicate HasLifecycle(events: seq<Event>)
  {
    exists j :: 0 <= j < |events| && events[j].Lifecycle?
  }

  /** A batch without lifecycle reports leaves the state as it was. */
  lemma {:induction false} StateAfterNoReport(s0: DomainState, events: seq<Event>)
    requires !HasLifecycle(events)
    ensures StateAfter(s0, events) == s0
  {
    if |events| > 0 {
      var before := events[..|events| - 1];
      assert !HasLifecycle(before) by {
        forall j | 0 <= j < |before| ensures !before[j].Lifecycle? {
          assert before[j] == events[j];
        }
      }
      StateAfterNoReport(s0, before);
    }
  }

  /** The number of turns holding a lifecycle report. */
  function ReportingTurns(turns: seq<Turn>): nat
  {
    if |turns| == 0 then 0
    else ReportingTurns(turns[..|turns| - 1]) + (if HasLifecycle(turns[|turns| - 1]) then 1 else 0)
  }

  /**
    Only a turn with a lifecycle report can bring the guest back, so the
    streams opened during a run never outnumber those turns.
   */
  lemma {:induction false} ActivationsBounded(s0: DomainState, turns: seq<Turn>)
    ensures Activations(s0, turns) <= ReportingTurns(turns)
  {
    if |turns| > 0 {
      var before := turns[..|turns| - 1];
      ActivationsBounded(s0, before);
      if !HasLifecycle(turns[|turns| - 1]) {
        StateAfterNoReport(StateAfterTurns(s0, before), turns[|turns| - 1]);
      }
    }
  }

  /**
    A guest that shuts down and starts again within one turn keeps its
    stream: the step never sees it down, so nothing is dropped or opened.
   */
  lemma RestartWithinOneTurnKeepsStream(c: Console, down: DomainState, up: DomainState)
    requires Attached(c) && ConsoleAvailable(c.state)
    requires ConsoleAvailable(up)
    ensures CheckConsole(RunTurn(c, [Lifecycle(down), Lifecycle(up)])).console.stream == c.stream
    ensures CheckConsole(RunTurn(c, [Lifecycle(down), Lifecycle(up)])).console.opens == c.opens
  {
    assert StateAfter(c.state, [Lifecycle(down), Lifecycle(up)]) == up;
  }
}
