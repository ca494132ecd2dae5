/**
 * The emitter (`loggerClient`): one call per severity that normalises the
 * message, formats the raw line and sends `[system, cluster, raw]` on the
 * "logger" channel, tagged with the severity.
 *
 * `JSON.stringify(msg, null, 1)` is a parameter `stringify`; the send is
 * recorded in the `sent` outbox instead of going over the transport.
 */
module Client {
  import opened Text
  import opened JsValues
  import opened Logs
  import opened Wrappers
  import Format

  /** What the normaliser produces: values the template literal turns into text. */
  predicate IsNormal(v: Value)
  {
    v.Str? || v.Bool? || v.Undefined?
  }

  /** `s` is the canonical decimal rendering of the integer `n`, reading back as `n`. */
  predicate Denotes(s: string, n: int)
  {
    |s| >= 1 &&
    (forall i :: (if s[0] == '-' then 1 else 0) <= i < |s| ==> IsDigit(s[i])) &&
    CanonicalDecimal(s) &&
    DecimalValue(s) == n
  }

  /** `msg.stack || msg.message || msg.toString()` for an Error instance. */
  function ErrorText(stack: string, message: string, name: string): (r: string)
    ensures stack != "" ==> r == stack
    ensures stack == "" && message != "" ==> r == message
    ensures stack == "" && message == "" ==> r == name
  {
    ToJsString(Or(Or(Str(stack), Str(message)), Str(ErrorToString(name, message))))
  }

  /**
   * The `switch (typeof msg)` of a severity call. An Error becomes its
   * stack, else its message, else its `toString()`; any other object
   * (including `null`, whose typeof is 'object') becomes its serialisation
   * between a blank line and a line break; a number or a bigint becomes its
   * decimal digits; a string, a boolean or `undefined` is left alone.
   */
  function Normalize(msg: Value, stringify: Value -> string): (r: Value)
    ensures IsNormal(r)
    ensures IsNormal(msg) ==> r == msg
    ensures msg.Error? ==> r == Str(ErrorText(msg.stack, msg.message, msg.name))
    ensures (msg.Object? || msg.Null?) ==>
      r.Str? && |r.s| == |stringify(msg)| + 3 &&
      r.s[..2] == "\n\n" && r.s[2..|r.s| - 1] == stringify(msg) && r.s[|r.s| - 1] == '\n'
    ensures msg.Num? ==> r.Str? && Denotes(r.s, msg.n)
    ensures msg.BigInt? ==> r.Str? && Denotes(r.s, msg.big)
  {
    match msg
    case Error(stack, message, name) => Str(ErrorText(stack, message, name))
    case Object(_) => Str(Serialized(msg, stringify))
    case Null => Str(Serialized(msg, stringify))
    case Num(n) => DecimalRoundTrip(n); Str(DecimalString(n))
    case BigInt(n) => DecimalRoundTrip(n); Str(DecimalString(n))
    case _ => msg
  }

  /** `'\n\n' + JSON.stringify(msg, null, 1) + '\n'`. */
  function Serialized(msg: Value, stringify: Value -> string): (r: string)
    ensures |r| == |stringify(msg)| + 3
    ensures r[..2] == "\n\n" && r[2..|r| - 1] == stringify(msg) && r[|r| - 1] == '\n'
  {
    var r := "\n\n" + stringify(msg) + "\n";
    assert r[2..|r| - 1] == stringify(msg);
    r
  }

  /** Normalising a normalised message changes nothing. */
  lemma NormalizeIdempotent(msg: Value, stringify: Value -> string)
    ensures Normalize(Normalize(msg, stringify), stringify) == Normalize(msg, stringify)
  {
  }

  /** The message text that ends up in the raw line: the template's `${msg}`. */
  function MessageText(msg: Value, stringify: Value -> string): (r: string)
    ensures msg.Str? ==> r == msg.s
    ensures msg.Num? ==> Denotes(r, msg.n)
    ensures msg.BigInt? ==> Denotes(r, msg.big)
    ensures msg.Error? && msg.stack != "" ==> r == msg.stack
  {
    ToJsString(Normalize(msg, stringify))
  }

  /** The send that one severity call issues. */
  function Emitted(system: string, cluster: string, severity: Severity, msg: Value,
                   date: string, time: string, stringify: Value -> string): (m: Message)
    ensures m.tag == severity && m.payload.system == system && m.payload.cluster == cluster
    ensures |m.payload.log| == Format.HeaderLength(date, time) + |MessageText(msg, stringify)|
    ensures m.payload.log[Format.HeaderLength(date, time)..] == MessageText(msg, stringify)
  {
    var text := MessageText(msg, stringify);
    Format.RawLineLayout(date, time, Name(severity), system, cluster, text);
    Message(severity, Envelope(system, cluster, Format.RawLine(date, time, Name(severity), system, cluster, text)))
  }

  /**
   * A collector reading the line back with a clock-shaped time stamp finds
   * the emitter's cluster, system and severity columns and the message
   * unchanged.
   */
  lemma EmittedLineParses(system: string, cluster: string, severity: Severity, msg: Value,
                          date: string, time: string, stringify: Value -> string)
    requires |date| == Format.DateLength && |time| == Format.TimeLength
    ensures Format.ParseRawLine(Emitted(system, cluster, severity, msg, date, time, stringify).payload.log)
      == Some(Format.Columns(date + " " + time, Format.ClusterField(cluster), Format.SystemField(system),
                             Format.SeverityField(Name(severity)), MessageText(msg, stringify)))
  {
    Format.ParseRawLineRoundTrip(date, time, Name(severity), system, cluster, MessageText(msg, stringify));
  }

  /** `options.cluster.toString()`. */
  function ClusterText(cluster: Value): (r: string)
    requires cluster.Num? || cluster.Str?
    ensures cluster.Str? ==> r == cluster.s
    ensures cluster.Num? ==> Denotes(r, cluster.n)
  {
    ToJsStringOfPrimitives(cluster);
    ToJsString(cluster)
  }

  class LoggerClient {
    const system: string
    const cluster: string
    /** When false, debug calls are still sent but not echoed to the console. */
    var debugMode: bool
    /** Every send issued so far, oldest first. */
    var sent: seq<Message>

    constructor (system: string, cluster: Value, debug: Option<bool>)
      requires cluster.Num? || cluster.Str?
      ensures this.system == system && this.cluster == ClusterText(cluster)
      ensures debugMode == (debug != Some(false))
      ensures sent == []
    {
      this.system := system;
      this.cluster := ClusterText(cluster);
      debugMode := debug != Some(false);
      sent := [];
    }

    /**
     * The `info`, `warn`, `error` and `debug` calls: exactly one send,
     * tagged with the severity; `echoed` tells whether the coloured line
     * goes to the console.
     */
    method Log(severity: Severity, msg: Value, date: string, time: string, stringify: Value -> string)
      returns (echoed: bool)
      requires IsCallable(severity)
      modifies this`sent
      ensures sent == old(sent) + [Emitted(system, cluster, severity, msg, date, time, stringify)]
      ensures echoed == (debugMode || severity != Debug)
    {
      var text := ToJsString(Normalize(msg, stringify));
      var raw := Format.RawLine(date, time, Name(severity), system, cluster, text);
      sent := sent + [Message(severity, Envelope(system, cluster, raw))];
      if !debugMode && severity == Debug {
        return false;
      }
      echoed := true;
    }
  }
}
