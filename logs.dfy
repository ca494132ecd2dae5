/**
 * The vocabulary shared by the collector and the emitters: the severities,
 * their channel names, and the payload that travels over the "logger"
 * channel.
 */
module Logs {

  datatype Severity = Info | Warn | Error | Debug | Fatal

  /** The channel tag of a severity, which is also its name in the formatted line. */
  function Name(s: Severity): (r: string)
    ensures |r| == (if s == Info || s == Warn then 4 else 5)
  {
    match s
    case Info => "info"
    case Warn => "warn"
    case Error => "error"
    case Debug => "debug"
    case Fatal => "fatal"
  }

  /**
   * The severities that have a per-severity call on the emitter and a
   * handler on the collector: everything except `fatal`.
   */
  predicate IsCallable(s: Severity)
  {
    s != Fatal
  }

  /** The payload `[system, cluster, raw]` sent with a severity tag. */
  datatype Envelope = Envelope(system: string, cluster: string, log: string)

  /** One send on the "logger" channel. */
  datatype Message = Message(tag: Severity, payload: Envelope)
}
