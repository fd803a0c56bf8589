/**
  The part of the libvirt binding the proxy touches, reduced to values.
  Connections, domains and streams are opaque; only the integer codes the
  proxy compares against are spelled out, with the values of libvirt's
  public headers.
 */
module Libvirt {

  /** `virDomainState` codes. */
  const VIR_DOMAIN_NOSTATE: int := 0
  const VIR_DOMAIN_RUNNING: int := 1
  const VIR_DOMAIN_BLOCKED: int := 2
  const VIR_DOMAIN_PAUSED: int := 3
  const VIR_DOMAIN_SHUTDOWN: int := 4
  const VIR_DOMAIN_SHUTOFF: int := 5
  const VIR_DOMAIN_CRASHED: int := 6
  const VIR_DOMAIN_PMSUSPENDED: int := 7

  /** `virErrorNumber` and `virErrorDomain` codes used by the error filter. */
  const VIR_ERR_RPC: int := 39
  const VIR_FROM_STREAMS: int := 38

  /** What `domain.state(0)` returns: the state code and the reason code. */
  datatype DomainState = DomainState(code: int, reason: int)

  /** A guest whose console can be attached: running or paused. */
  predicate ConsoleAvailable(s: DomainState)
  {
    s.code == VIR_DOMAIN_RUNNING || s.code == VIR_DOMAIN_PAUSED
  }

  /**
    The error tuple handed to a registered error handler: error code, error
    domain (the subsystem that raised it) and the message.
   */
  datatype VirError = VirError(code: int, domain: int, message: string)

  /** An open console stream, known only by the order in which it was opened. */
  type StreamId = nat
}
