# libvirt console proxy — a Dafny model of its console logic

The proxy attaches a libvirt guest's serial console to a terminal. The
terminal is either a local raw tty (`consolecallback.py`) or a browser over
Socket.IO (`main.py` with FastAPI, `app.py` with Flask). The hypervisor
calls are glue. Around them sit three small pieces of sequential logic,
and this project models and proves them:

* the **console record** (`Console`) and the callbacks that update it.
  These are `check_console`, which opens the console stream while the guest
  runs or is paused and drops it otherwise; `stdin_callback`;
  `lifecycle_callback`; and `error_handler`, the filter that swallows the
  stream error seen on guest shutdown. `check_console` appears three times
  with the same logic (`consolecallback.py`, `main.py`, `app.py`) and is
  modelled once. The loop `while check_console(console):
  virEventRunDefaultImpl()` is modelled as a method over a sequence of
  event-loop turns. Each turn is the batch of callbacks one poll dispatches,
  and the step runs between turns;
* the **per-sid session storage** `SocketioUserSessionStorage` of `main.py`;
* the **query-string parsing** of the Socket.IO `connect` handler in
  `main.py`, and the handler's decision to accept, return early or raise.

From `app.py` the model also takes the `resize` handler, which never acts
because the pty descriptor stays `None`. It also takes that file's own
`lifecycle_callback`, which has a latent defect (see Findings). Nothing
registers that function: the `Console` constructor registers the
non-logging callback of `consolecallback.py`, so the defect shows only
when the function is called directly.

Libvirt handles are opaque. Opening a stream is modelled as handing out the
next stream id and bumping an open counter (`opens`). The state and error
codes are libvirt's public header values: `VIR_DOMAIN_RUNNING = 1`,
`VIR_DOMAIN_PAUSED = 3`, `VIR_ERR_RPC = 39`, `VIR_FROM_STREAMS = 38`.

Modules, one per file: `Wrappers` (Option/Result), `PyStr` (Python
`str.split`, `join`, `bytes.startswith`, truthiness, exceptions), `Libvirt`,
`ConsoleModel`, `EventLoop`, `Sessions`, `Query`, `Gateway` (the `main.py`
connect handler) and `App` (the Flask-only parts).

## Behaviour of the code worth knowing

* A query string that parses but lacks `nodename` makes the `connect`
  handler return `None` before saving anything. Returning `None` does not
  refuse a Socket.IO connection, so the socket stays connected with no
  session. A later `pty-input` then fails on `session["console"]`
  (main.py:103-104).
* A query item without `=` raises `IndexError`, and so does the empty
  query string. When no argument carries `QUERY_STRING` at all,
  `node_name` is never bound and the handler raises `UnboundLocalError`
  (`Gateway.ResolveNode`).
* `stdin_callback` tests `readbuf.startswith(b'')`, which every byte string
  satisfies. So it never forwards input and always stops the loop
  (`ConsoleModel.StdinCallback`, `EventLoop.RunEventLoop`).
* There is no per-guest registry, shared stream or multi-viewer fan-out.
  Each connection builds its own `Console` and tries to open its own
  stream. Only one console session per guest is possible, so a second
  connection to a guest that already has a viewer fails in `openConsole`
  (main.py:72-73). The exception ends that connection's loop with its
  `stream` field already set, but the stream was never attached.

## Model

| member | source | states |
|---|---|---|
| PyStr.Split | main.py:117-118 | `str.split(sep)` gives at least one piece, no piece holds the separator, and joining the pieces with the separator restores the text |
| PyStr.SplitUnique | main.py:117-118 | any separator-free, non-empty list of pieces that joins back to the text is exactly its split |
| PyStr.SplitFirstTwo | main.py:118 | the text holds the separator iff it splits into two or more pieces; then the first piece is the text before the first separator and the second the text up to the next one |
| ConsoleModel.NewConsole | consolecallback.py:26-36 | a new console records the guest and its initial state, has no stream, has the loop flag set and has stdin watch -1 |
| ConsoleModel.CheckConsole | consolecallback.py:39-50 | after a step the stream is present iff the guest is running or paused; an existing stream is kept, not reopened; with no stream and the guest down nothing changes; only stream and open count change; a new stream gets a fresh id; the step returns the unchanged loop flag |
| ConsoleModel.CheckConsoleIdempotent | main.py:68-79 | a second step right after a first changes nothing |
| ConsoleModel.RepeatedStateNoChurn | app.py:68-79 | a repeated lifecycle report of the same state, followed by a step, opens no second stream |
| ConsoleModel.StdinCallback | consolecallback.py:53-59 | for every input, the keyboard callback clears the loop flag, changes nothing else and forwards nothing to the stream |
| ConsoleModel.LifecycleCallback | consolecallback.py:70-71 | the lifecycle callback records the guest's current state and changes no other field |
| ConsoleModel.ErrorHandler | consolecallback.py:18-22 | an error is swallowed iff its code is the RPC error and its domain the stream subsystem; every other error is logged unchanged |
| EventLoop.Dispatch | consolecallback.py:53-71 | one callback changes only its own field: a lifecycle report records the new guest state, a keyboard event clears the loop flag, and stream output (whose handler only writes to fd 0) changes nothing |
| EventLoop.RunTurn | consolecallback.py:53-71 | one event-loop turn runs every callback of its batch: the console ends with the last reported state and with its loop flag cleared iff the batch held a keyboard event; nothing else changes |
| EventLoop.RunEventLoop | consolecallback.py:94-95 | after the loop the stream is present iff the latest reported guest state is running or paused; the loop keeps running exactly while no turn has held a keyboard event, and stops after the first turn that holds one; the streams opened are one at the start if the guest already runs plus one per turn after which the guest is back |
| EventLoop.StateAfterAvailable | consolecallback.py:70-71 | a batch whose reports all keep the guest running or paused ends with the guest running or paused |
| EventLoop.NoChurnWhileAvailable | app.py:70-73 | while the guest stays running or paused, lifecycle events open no stream |
| EventLoop.StateAfterNoReport | consolecallback.py:70-71 | a batch without lifecycle reports leaves the recorded state unchanged |
| EventLoop.ActivationsBounded | main.py:86-87 | beyond the one opened at the start, the loop opens no more streams than there are turns holding a lifecycle report |
| EventLoop.RestartWithinOneTurnKeepsStream | app.py:68-79 | a guest that goes down and comes back within one turn keeps its stream: the step never sees it down |
| Sessions.Empty | main.py:23-24 | the storage starts with no entry for any sid |
| Sessions.Update | main.py:30 | a dict update keeps every old key, adds the new ones, takes new values for shared keys and keeps old values elsewhere |
| Sessions.Save | main.py:26-30 | `save` stores the dict as given for an unknown sid and merges it into the entry of a known one; every other sid's entry is unchanged |
| Sessions.Get | main.py:32-35 | `get` returns None exactly for an unknown sid, and otherwise the stored entry |
| Sessions.SaveIdempotent | main.py:26-30 | saving the same dict twice for a sid equals saving it once |
| Sessions.SaveCommutes | main.py:26-30 | saves for two different sids commute |
| Sessions.SaveTwiceMerges | main.py:29-30 | two saves for one sid equal one save of the second dict merged over the first |
| Query.ParseItems | main.py:118 | the dictionary comprehension over the items either builds the dictionary or fails, and the only failure is IndexError |
| Query.ParseQuery | main.py:117-118 | the query string split on `&` and parsed item by item either yields the dictionary or fails, and the only failure is IndexError |
| Query.ItemFields | main.py:118 | an item has a value iff it holds `=`; the key is the text before the first `=` and the value the text between the first and second `=` |
| Query.ParseItemsOk | main.py:118 | parsing succeeds iff every item has a value; when it fails, the error is IndexError |
| Query.ParseItemsKeys | main.py:118 | the parsed dictionary's keys are exactly the items' keys |
| Query.ParseItemsLastWins | main.py:118 | a key is bound to the value of the last item carrying it |
| Query.QueryOk | main.py:117-118 | a query string parses iff every `&`-separated item holds `=`; when it fails, the error is IndexError |
| Query.EmptyQueryRaises | main.py:117-118 | the empty query string raises IndexError |
| Query.ParseExample | main.py:117-118 | `k=a&v=1=2&k=b` parses to `{k: b, v: 1}` |
| Gateway.ResolveNode | main.py:111-122 | the connect loop accepts with the guest named by the last query string; it returns early only when a parsed query string lacks `nodename`; the only errors are IndexError, only for an unparsable query string, and UnboundLocalError when no argument has a query string and no name is bound |
| Gateway.FirstStopDecides | main.py:116-122 | the first query string that fails to parse or lacks `nodename` decides the outcome: early return if it parsed, IndexError if not |
| Gateway.NotAcceptedAfterStop | main.py:119-122 | a query string without a guest anywhere among the arguments rules out acceptance |
| Gateway.AllNamedAccepted | main.py:116-120 | when every query string names a guest and there is at least one, the handler accepts |
| Gateway.AcceptedNameProvenance | main.py:111-123 | an accepted name is the `nodename` of some argument's query string, or, when no argument carries a query string, the name bound before the loop |
| Gateway.NoQueryResolves | main.py:111-123 | with no query string among the arguments, the handler accepts the name already bound, or raises UnboundLocalError when there is none |
| Gateway.Connect | main.py:107-129 | a connection that is not accepted leaves the storage unchanged; an accepted one stores, under its sid, a new console for the named guest with the given keyboard watch; other sids are untouched |
| Gateway.MissingNodeNameReturns | main.py:119-122 | for the call with an environ and auth data, an environ query string without `nodename` makes the handler return early, and nothing is saved |
| Gateway.NamedNodeAccepted | main.py:116-128 | for the call with an environ and auth data without a query string, an environ query string with `nodename` is accepted for that guest |
| App.Resize | app.py:124-128 | resize changes the window size iff the configured descriptor is truthy (neither None nor 0), and then uses the given rows and columns |
| App.ResizeIgnoredAtStartup | app.py:26 | with the start-up configuration (descriptor None), every resize request is ignored |
| App.AppLifecycleAsWritten | app.py:62-65 | the Flask lifecycle callback records the new state, then raises AttributeError on `uuid` |
| App.AppLifecycleAlwaysRaises | app.py:62-65 | for every console and state, that callback never reaches its log line, though the state is recorded |
| App.AppLifecycleCallback | app.py:62-65 | the corrected callback records the state, changes nothing else, and logs the guest name with the state just recorded |

## Left out

- Libvirt calls (`open`, `lookupByName`, `state`, `domainEventRegister`, `newStream`, `openConsole`, `eventAddCallback`, `eventRemoveCallback`, `recv`, `send`, `virEventAddHandle`, `virEventRunDefaultImpl`) are opaque. A stream is an id. The guest state and the stdin watch handle are parameters. Failures of these calls are not modelled.
- `stream_callback` (reading the console, UTF-8 decoding, emitting `pty-output` or writing to fd 0) is output I/O. In the event loop a stream-readable event leaves the console unchanged.
- The `pty-input` handlers (main.py:96-105, app.py:114-121) send browser input straight to libvirt. They are transport glue and are not modelled.
- app.py's own `connect` and `read_and_forward_pty_output` (app.py:94-97, 164-182) are not modelled. Every connection appends a new console to `console_connections`, but each new loop steps `console_connections[0]`. So later connections start one more loop over the first console, and their own consoles are never stepped. `EventLoop.RunEventLoop` models one loop over one console.
- EventLoop.RunEventLoop: the turns are given as input. Which callbacks a poll finds ready, and in what order it dispatches them, comes from libvirt and is not modelled. When no turns are left, the real loop would block in its next poll, but the model stops there. The model also assumes that a step and a callback for the same console never interleave. In main.py every connection starts its own background loop (main.py:82-87, 129), and all of these loops drive libvirt's single process-wide default event loop (main.py:123). So a turn in one connection's loop can dispatch another console's lifecycle and keyboard callbacks. That can happen while the other console's own step sits between `newStream` and `openConsole` (main.py:71-73). The promise that the stream is present exactly when the guest is running or paused rests on this assumption.
- ConsoleModel.CheckConsole: the step assigns `stream` before it calls `openConsole` (consolecallback.py:42-43, main.py:71-73). When `openConsole` raises, as it does for a guest that already has a console session, the console is left with a stream that was never attached, and the exception ends the loop. The model treats the open as always succeeding and does not represent a failed open.
- Sessions.Save: Python stores the caller's dict by reference and `update` mutates it in place. The model uses value semantics, so aliasing between the stored dict and the caller's dict is not modelled.
- Gateway.ResolveNode: handler arguments are modelled as string dictionaries. A non-dict argument, such as a `None` auth payload on which `"token" in arg` would raise TypeError, is not modelled. The `token` branch does nothing and is omitted.
- ConsoleModel.StdinCallback: the input is any byte string. The 1024-byte cap of `os.read` is not modelled.
- ConsoleModel.ErrorHandler returns the error it would log instead of writing to a logger.
- `set_winsize`'s struct packing and ioctl are OS I/O that `resize` never reaches.
- The terminal setup (termios, tty, atexit), argparse in `main()`, `settings.py`, Socket.IO/Flask/FastAPI routing, HTML serving and background tasks are outside the console logic.

## Findings

| source | as written | input that shows it | evidently intended | confidence | as-written member | corrected member |
|---|---|---|---|---|---|---|
| app.py:62-65 | the lifecycle callback logs `console.uuid`, but `Console` never sets `uuid` (that line of its constructor is commented out, consolecallback.py:28) | none: the function is never registered (consolecallback.py:33 registers consolecallback's own callback); only a direct call raises | log a name the console has, such as its `domain_name` | high; not executed | App.AppLifecycleAsWritten | App.AppLifecycleCallback |
