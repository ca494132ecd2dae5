/**
 * The two process hooks an emitter installs: on an uncaught exception or an
 * unhandled promise rejection it sends one 'fatal' line describing the
 * error and then exits. The send is the message computed here; the console
 * echo and `process.exit()` are not modelled.
 */
module CrashHooks {
  import opened JsValues
  import opened Logs
  import opened Wrappers
  import Format
  import Server
  import Text

  /** Reading a property of `null` or `undefined` inside a hook throws a TypeError. */
  const TypeError: string := "TypeError"

  /** `err.stack || err.message`, as text. */
  function StackOrMessage(err: Value): (r: string)
    requires !err.Null? && !err.Undefined?
    ensures err.Error? && err.stack != "" ==> r == err.stack
    ensures err.Error? && err.stack == "" && err.message != "" ==> r == err.message
    ensures err.Str? ==> r == "undefined"
  {
    ToJsString(Or(Property(err, "stack"), Property(err, "message")))
  }

  /** The text of an uncaught exception: a line break, then its stack or message. */
  function UncaughtMessage(err: Value): (r: Result<string, string>)
    ensures (err.Null? || err.Undefined?) <==> r.Failure?
    ensures r.Success? ==> |r.value| >= 1 && r.value[0] == '\n' && r.value[1..] == StackOrMessage(err)
  {
    if err.Null? || err.Undefined? then Failure(TypeError)
    else Success("\n" + StackOrMessage(err))
  }

  /** `err['stack'] || err['message'] || err.toString()`, as text. */
  function Explanation(err: Value): (r: string)
    requires !err.Null? && !err.Undefined?
    ensures err.Error? && err.stack != "" ==> r == err.stack
    ensures err.Error? && err.stack == "" && err.message != "" ==> r == err.message
    ensures err.Error? && err.stack == "" && err.message == "" ==> r == err.name
    ensures err.Str? || err.Num? || err.BigInt? || err.Bool? ==> r == ToJsString(err)
  {
    ToJsString(Or(Or(Property(err, "stack"), Property(err, "message")), Str(ToJsString(err))))
  }

  /**
   * The rejection text as the hook is written:
   * `'\n' + err ? (…) : 'UNKNOWN'` groups as `('\n' + err) ? (…) : 'UNKNOWN'`,
   * so the test is on a non-empty string, the explanation loses its leading
   * line break, and a falsy `err` of `null` or `undefined` makes the hook
   * itself throw.
   */
  function RejectionMessageAsWritten(err: Value): (r: Result<string, string>)
    ensures (err.Null? || err.Undefined?) <==> r.Failure?
    ensures r.Success? ==> r.value == Explanation(err)
  {
    var test := Str("\n" + ToJsString(err));
    if Truthy(test) then
      if err.Null? || err.Undefined? then Failure(TypeError) else Success(Explanation(err))
    else Success("UNKNOWN")
  }

  /** The evidently intended text: `'\n' + (err ? (…) : 'UNKNOWN')`. */
  function RejectionMessage(err: Value): (r: string)
    ensures |r| >= 1 && r[0] == '\n'
    ensures !Truthy(err) ==> r == "\nUNKNOWN"
    ensures Truthy(err) ==> r[1..] == Explanation(err)
  {
    "\n" + (if Truthy(err) then Explanation(err) else "UNKNOWN")
  }

  /**
   * As written, the test never fails: a truthy rejection reason is reported
   * without its line break, a falsy one such as `false` is reported as its
   * own text rather than 'UNKNOWN', and `undefined` (the reason of
   * `Promise.reject()`) makes the hook throw.
   */
  lemma RejectionPrecedence(err: Value)
    ensures Truthy(Str("\n" + ToJsString(err)))
    ensures Truthy(err) ==>
      RejectionMessageAsWritten(err) == Success(Explanation(err)) &&
      RejectionMessage(err) == "\n" + Explanation(err)
    ensures RejectionMessageAsWritten(Bool(false)) == Success("false") && RejectionMessage(Bool(false)) == "\nUNKNOWN"
    ensures RejectionMessageAsWritten(Undefined) == Failure(TypeError) && RejectionMessage(Undefined) == "\nUNKNOWN"
  {
  }

  /**
   * The falsy reasons `""`, `0` and `0n` are reported as their own (possibly
   * empty) text as written, where the corrected hook reports "\nUNKNOWN".
   */
  lemma RejectionFalsyReasons()
    ensures RejectionMessageAsWritten(Str("")) == Success("") && RejectionMessage(Str("")) == "\nUNKNOWN"
    ensures RejectionMessageAsWritten(Num(0)) == Success("0") && RejectionMessage(Num(0)) == "\nUNKNOWN"
    ensures RejectionMessageAsWritten(BigInt(0)) == Success("0") && RejectionMessage(BigInt(0)) == "\nUNKNOWN"
  {
    assert Text.DecimalString(0) == "0";
  }

  /** One concrete rejection: an Error whose stack is "boom". */
  lemma RejectionExample()
    ensures RejectionMessageAsWritten(Value.Error("boom", "m", "Error")) == Success("boom")
    ensures RejectionMessage(Value.Error("boom", "m", "Error")) == "\nboom"
  {
  }

  /** Corrected, an Error with a stack or a message is reported as an uncaught exception would be. */
  lemma RejectionAgreesWithUncaught(err: Value)
    requires err.Error? && (err.stack != "" || err.message != "")
    ensures UncaughtMessage(err) == Success(RejectionMessage(err))
  {
  }

  /** The fatal line sent for a crash: the raw line of `msg` at severity 'fatal'. */
  function CrashReport(system: string, cluster: string, msg: string, date: string, time: string): (m: Message)
    ensures m.tag == Fatal && m.payload.system == system && m.payload.cluster == cluster
    ensures |m.payload.log| == Format.HeaderLength(date, time) + |msg|
    ensures m.payload.log[Format.HeaderLength(date, time)..] == msg
  {
    Format.RawLineLayout(date, time, Name(Fatal), system, cluster, msg);
    Message(Fatal, Envelope(system, cluster, Format.RawLine(date, time, Name(Fatal), system, cluster, msg)))
  }

  /**
   * The collector registers no 'fatal' handler, so a crash report never
   * reaches a pending entry or a file, whatever is pending.
   */
  lemma CrashReportDropped(p: Server.Pending, system: string, cluster: string, msg: string, date: string, time: string,
                           s: string, k: Server.Slot)
    requires Server.Indexed(p)
    ensures var m := CrashReport(system, cluster, msg, date, time);
      Server.Received(p, m.tag, m.payload) == p &&
      Server.SlotText(Server.Received(p, m.tag, m.payload), s, k) == Server.SlotText(p, s, k)
  {
    var m := CrashReport(system, cluster, msg, date, time);
    Server.ReceivedGrowsOneSlot(p, m.tag, m.payload, s, k);
  }
}
