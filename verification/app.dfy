/**
  The Flask variant of the proxy: its terminal-resize handler, and its own
  lifecycle callback, which would log the new state after recording it.
  Nothing registers that callback: the `Console` constructor registers the
  non-logging one of `ConsoleModel`, so the defect below shows only when the
  function is called directly.
 */
module App {

  import opened Wrappers
  import opened PyStr
  import opened Libvirt
  import opened ConsoleModel

  /** The slice of `app.config` the resize handler reads: the pty descriptor. */
  datatype AppConfig = AppConfig(fd: Option<int>)

  /** The configuration at start-up, with no pty descriptor. No live handler assigns another. */
  const InitialConfig: AppConfig := AppConfig(None)

  /** A `set_winsize` call: descriptor, rows and columns. */
  datatype WinSize = WinSize(fd: int, rows: int, cols: int)

  /**
    `resize`: the window-size change it applies, if any. It acts only when the
    configured descriptor is truthy, so neither `None` nor descriptor 0
    triggers it.
   */
  function Resize(cfg: AppConfig, rows: int, cols: int): (r: Option<WinSize>)
    ensures r.Some? <==> cfg.fd.Some? && cfg.fd.value != 0
    ensures r.Some? ==> r.value.fd == cfg.fd.value && r.value.rows == rows && r.value.cols == cols
  {
    if Truthy(cfg.fd) then Some(WinSize(cfg.fd.value, rows, cols)) else None
  }

  /** With the start-up configuration every resize request is ignored. */
  lemma ResizeIgnoredAtStartup(rows: int, cols: int)
    ensures Resize(InitialConfig, rows, cols) == None
  {
  }

  /** The informational log line of a state change: guest, state code, reason code. */
  datatype LogLine = LogLine(guest: string, code: int, reason: int)

  /** The console after the callback, and either the line it logged or the exception it raised. */
  datatype LifecycleOutcome = LifecycleOutcome(console: Console, logged: Result<LogLine, PyError>)

  /**
    The Flask variant's lifecycle callback as written: it records the state,
    then formats its log line with the console's `uuid` attribute. The
    constructor (consolecallback.py:27-36) never sets `uuid`, so the lookup
    raises `AttributeError` after the state has already been recorded.
   */
  function AppLifecycleAsWritten(c: Console, current: DomainState): (r: LifecycleOutcome)
    ensures r.console == LifecycleCallback(c, current)
    ensures r.logged == Err(AttributeError("uuid"))
  {
    LifecycleOutcome(LifecycleCallback(c, current), Err(AttributeError("uuid")))
  }

  /** The callback as written never reaches its log line, whatever the console and state. */
  lemma AppLifecycleAlwaysRaises(c: Console, current: DomainState)
    ensures AppLifecycleAsWritten(c, current).logged.Err?
    ensures AppLifecycleAsWritten(c, current).console.state == current
  {
  }

  /**
    The callback as intended: record the state and log the guest's name
    (an attribute the constructor does set) with the state just recorded.
   */
  function AppLifecycleCallback(c: Console, current: DomainState): (r: LifecycleOutcome)
    ensures r.console.state == current
    ensures r.console.(state := c.state) == c
    ensures r.logged.Ok?
    ensures r.logged.value == LogLine(r.console.domainName, r.console.state.code, r.console.state.reason)
  {
    var updated := LifecycleCallback(c, current);
    LifecycleOutcome(updated, Ok(LogLine(updated.domainName, updated.state.code, updated.state.reason)))
  }
}
