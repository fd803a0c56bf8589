/**
  The persistent console record shared by the three entry points, and the
  callbacks that update it: the step that opens or drops the console stream
  as the guest comes and goes, the keyboard callback, the lifecycle callback
  and the error filter.
 */
module ConsoleModel {

  import opened Wrappers
  import opened PyStr
  import opened Libvirt

  /**
    One console: the guest it is attached to, the last observed guest state,
    the console stream if one is open, whether the event loop should go on,
    the handle of the keyboard watch, and how many streams have been opened
    so far (stream ids are handed out in that order).
   */
  datatype Console = Console(
    uri: string,
    domainName: string,
    state: DomainState,
    stream: Option<StreamId>,
    runConsole: bool,
    stdinWatch: int,
    opens: nat)

  /** Every stream the console holds was opened by it. */
  predicate Valid(c: Console)
  {
    c.stream.Some? ==> c.stream.value < c.opens
  }

  /** The stream held, if any, is the one opened last. */
  predicate Latest(c: Console)
  {
    c.stream.Some? ==> c.stream.value + 1 == c.opens
  }

  /** The stream is present exactly while the guest is running or paused. */
  predicate Attached(c: Console)
  {
    c.stream.Some? <==> ConsoleAvailable(c.state)
  }

  /**
    A freshly constructed console for the guest `domainName`, whose state at
    construction time is `initial`: no stream yet, the loop enabled and no
    keyboard watch registered.
   */
  function NewConsole(uri: string, domainName: string, initial: DomainState): (c: Console)
    ensures c.uri == uri && c.domainName == domainName && c.state == initial
    ensures c.stream == None
    ensures c.runConsole
    ensures c.stdinWatch == -1
    ensures c.opens == 0
    ensures Valid(c) && Latest(c)
  {
    Console(uri, domainName, initial, None, true, -1, 0)
  }

  /** The console after a step, and the value the step returns. */
  datatype Checked = Checked(console: Console, keepRunning: bool)

  /**
    One `check_console` step. A running or paused guest without a stream
    gets a new one; a guest in any other state loses its stream; otherwise
    nothing changes. The step returns the loop flag.
   */
  function CheckConsole(c: Console): (r: Checked)
    ensures Attached(r.console)
    ensures r.keepRunning == c.runConsole
    ensures r.console.(stream := c.stream, opens := c.opens) == c
    ensures ConsoleAvailable(c.state) && c.stream.Some? ==> r.console == c
    ensures !ConsoleAvailable(c.state) && c.stream.None? ==> r.console == c
    ensures r.console.opens == c.opens + (if ConsoleAvailable(c.state) && c.stream.None? then 1 else 0)
    ensures r.console.stream != c.stream && r.console.stream.Some? ==> r.console.stream == Some(c.opens)
    ensures Valid(c) ==> Valid(r.console)
    ensures Latest(c) ==> Latest(r.console)
  {
    if ConsoleAvailable(c.state) then
      if c.stream.None? then
        Checked(c.(stream := Some(c.opens), opens := c.opens + 1), c.runConsole)
      else
        Checked(c, c.runConsole)
    else
      Checked(c.(stream := None), c.runConsole)
  }

  /** What the keyboard callback hands to the console stream, if anything. */
  datatype Send = Send(stream: StreamId, data: Bytes)

  /** The console after the keyboard callback, and the bytes it forwarded. */
  datatype StdinOutcome = StdinOutcome(console: Console, sent: Option<Send>)

  /**
    `stdin_callback` with the bytes `readbuf` just read from the watched
    descriptor. Every byte string starts with the empty byte string, so the
    callback always clears the loop flag and never forwards the input.
   */
  function StdinCallback(c: Console, readbuf: Bytes): (r: StdinOutcome)
    ensures r.console == c.(runConsole := false)
    ensures r.sent == None
  {
    if StartsWith(readbuf, []) then
      StdinOutcome(c.(runConsole := false), None)
    else
      match c.stream
      case Some(id) => StdinOutcome(c, Some(Send(id, readbuf)))
      case None => StdinOutcome(c, None)
  }

  /**
    `lifecycle_callback`: the guest changed state and `current` is what
    `domain.state(0)` now reports. Only the recorded state changes.
   */
  function LifecycleCallback(c: Console, current: DomainState): (r: Console)
    ensures r.state == current
    ensures r.(state := c.state) == c
  {
    c.(state := current)
  }

  /**
    `error_handler`: the error it passes on to the log, or `None` when it
    swallows the error. Only RPC errors raised by the stream subsystem (the
    stream breaking on guest shutdown) are swallowed.
   */
  function ErrorHandler(e: VirError): (logged: Option<VirError>)
    ensures logged.None? <==> e.code == VIR_ERR_RPC && e.domain == VIR_FROM_STREAMS
    ensures logged.Some? ==> logged.value == e
  {
    if e.code == VIR_ERR_RPC && e.domain == VIR_FROM_STREAMS then None
    else Some(e)
  }

  /** The step is idempotent: a second step straight after the first changes nothing. */
  lemma CheckConsoleIdempotent(c: Console)
    ensures CheckConsole(CheckConsole(c).console).console == CheckConsole(c).console
  {
  }

  /**
    A repeated lifecycle report with the same state, each followed by a
    step, changes nothing after the first: no second stream is opened.
   */
  lemma RepeatedStateNoChurn(c: Console, s: DomainState)
    ensures
      var once := CheckConsole(LifecycleCallback(c, s)).console;
      CheckConsole(LifecycleCallback(once, s)).console == once
  {
  }
}
