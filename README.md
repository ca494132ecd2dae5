# cluster-ipc-logger, modelled in Dafny

cluster-ipc-logger collects log lines from the processes of a Node.js
cluster. A `loggerClient` ("emitter") in each worker normalises whatever it
is given into text, formats a fixed-width line

    <date> <time> ¦ [CL] SYSTEM- ¦ SEVER ¦ message

and sends `[system, cluster, line]` on the "logger" channel, tagged with
the severity. A `loggerServer` ("collector") appends each received line to
one of three per-system slots (`data`, `error`, `fatal`), calls the
listeners registered with `on`, and periodically flushes (`save`). A flush
resets every non-empty slot before queueing its appends. Error and fatal
text goes to the shared `[error]<date>.log` and then to
`[<system>]<date>.log`; data text goes only to the system file.

The model has nine modules:

- **`Wrappers`**: the `Option` and `Result` datatypes.
- **`Text`**: `repeat`, ASCII `toUpperCase`, the formatter's `alignText`, and the decimal `toString` of integers.
- **`JsValues`**: the JavaScript values a logging call can receive, with truthiness, `String(v)`, property lookup and `||`.
- **`Logs`**: severities, channel names and the payload.
- **`Format`**: the `raw` line of `formatLog`, and a parser that reads it back.
- **`Client`**: the normaliser, and the `LoggerClient` class whose `Log` method records each send in an outbox `sent`.
- **`Server`**: the pending entries and the listener registry, as the `LoggerServer` class. `Receive` is one delivered line, `On` is registration, and `Save` returns the appends it queues, in order. Each method is proved against specification functions on values (`Received`, `Notifications`, `Cleared`, `Drains`, `Writes`).
- **`ServerTrace`**: runs of deliveries and flushes. It holds the conservation theorem (no line lost, none written twice) and what each file receives.
- **`CrashHooks`**: the two process hooks that report a crash as a `fatal` line.

`index.js` is the compiled copy of `src/index.ts`, with the same logic line for line. The rows below cite the TypeScript source.

Behaviour of the code worth noting:

- The severity column is padded on the left (`" WARN"`), like every other column.
- An `error` line goes to the `error` slot only, not also to `data`.
- Listeners run from the last registered to the first.
- The collector registers handlers only for `info`, `warn`, `error` and `debug`. A `fatal` line, including every crash report, reaches no handler and is never stored. The `fatal` slot therefore always stays empty.
- An `Error` message is reduced to `stack || message || toString()`. No structured stack is serialised.

## Model

| member | source | states |
|---|---|---|
| Text.Repeat | src/index.ts:207 | `fill.repeat(n)` has exactly `n` characters, each of them `fill` |
| Text.Upper | src/index.ts:196-198 | upper-casing keeps the length and maps each character through ASCII upper-casing; `UpperChar` leaves no lower-case ASCII letter |
| Text.UpperIdempotent | src/index.ts:196-198 | upper-casing an upper-cased string changes nothing |
| Text.SliceTo | src/index.ts:208 | `s.slice(0, end)` is a prefix of `s`, whose length is `end` (counted back from the length when negative) clamped between 0 and the length of `s` |
| Text.AlignText | src/index.ts:204-209 | a string no longer than the width is left-padded with the fill and is the suffix of the result; a longer one keeps its first `width-1` characters followed by `-`, whatever the fill; width 0 drops the last character and adds `-` |
| Text.AlignTextWidth | src/index.ts:204-209 | for every width of at least one the result has exactly that many characters |
| Text.AlignTextStrip | src/index.ts:207 | stripping the fill from a padded field gives the text back when the text does not begin with the fill |
| Text.DecimalRoundTrip | src/index.ts:140 | `toString()` of an integer is an optional `-` and digits, with no leading zero unless it is `0` and never `-0`, that read back as the same integer |
| Text.DecimalStringInjective | src/index.ts:140 | different integers render as different strings |
| JsValues.ErrorToString | src/index.ts:135 | `Error.prototype.toString` is empty exactly when both name and message are; a non-empty name is its prefix and a non-empty message its suffix, joined by `: ` when both are present |
| JsValues.ToJsStringOfPrimitives | src/index.ts:125 | `String(v)` of a string is itself, and of a number or bigint is its decimal rendering |
| JsValues.Lookup | src/index.ts:164 | a property read gives the value of the first own entry with that key, any other defined result is such an entry's value, and a missing key gives `undefined` |
| JsValues.Property | src/index.ts:164 | `err['stack']` and `err['message']` of an Error are its stack and message; a primitive has neither |
| JsValues.Or | src/index.ts:135 | `a \|\| b` is one of its operands and is truthy exactly when either operand is; it short-circuits to `a` when `a` is truthy and falls through to `b` otherwise |
| Logs.Name | src/index.ts:196 | severity names are four letters (info, warn) or five (error, debug, fatal), which is why the width is 5 |
| Format.ClusterField | src/index.ts:198 | the cluster column is exactly 2 characters |
| Format.SystemField | src/index.ts:197 | the system column is exactly 7 characters |
| Format.SeverityField | src/index.ts:196 | the severity column is exactly 5 characters |
| Format.RawLineLayout | src/index.ts:195-200 | the raw line is the stamp, ` ¦ [`, the 2-wide cluster, `] `, the 7-wide upper-cased system, ` ¦ `, the 5-wide upper-cased severity, ` ¦ `, then the message verbatim; its length is the header plus the message |
| Format.ParseRawLine | src/index.ts:200 | a parsed line ends with the message column at the fixed header offset |
| Format.ParseRawLineRoundTrip | src/index.ts:194-200 | with a clock-shaped date and time, parsing a raw line gives back the stamp, the three aligned fields and the message unchanged |
| Format.RawLineExample | src/index.ts:196-200 | cluster "3" becomes "03", severity "warn" becomes " WARN" (padded on the left), system "gateway" becomes "GATEWAY" |
| Format.SystemTruncationExample | src/index.ts:197 | a nine-letter system "collector" becomes "COLLEC-" |
| Client.ErrorText | src/index.ts:135 | an Error is reported as its stack, else its message, else its `toString()` |
| Client.Normalize | src/index.ts:132-142 | an Error becomes its `ErrorText`; any other object, and `null`, becomes `\n\n` + the serialisation + `\n`; a number or bigint becomes its canonical decimal digits (no leading zero, never `-0`), which read back as it; a string, boolean or `undefined` is unchanged |
| Client.Serialized | src/index.ts:136 | the serialisation sits between a blank line and a line break, unchanged |
| Client.NormalizeIdempotent | src/index.ts:132-142 | normalising an already normalised message changes nothing |
| Client.MessageText | src/index.ts:144 | the message text in the line is the string itself, the digits of a number, or an Error's non-empty stack |
| Client.Emitted | src/index.ts:144-146 | one call sends a message tagged with its severity, carrying its system and cluster, whose line ends with the message text after the fixed header |
| Client.EmittedLineParses | src/index.ts:144-146 | a collector parsing the sent line finds the emitter's cluster, system and severity columns and the message |
| Client.ClusterText | src/index.ts:125 | `options.cluster.toString()`: a string is kept, a number becomes its canonical decimal digits |
| Client.LoggerClient.constructor | src/index.ts:118-128 | the system is kept, the cluster converted to text, the debug echo is on unless `debug` is exactly `false`, and nothing has been sent |
| Client.LoggerClient.Log | src/index.ts:130-148 | exactly one send is appended to the outbox, namely `Emitted(...)` for this severity; the line is echoed unless it is a debug line with debug mode off |
| Server.Buffer.Put | src/index.ts:44 | replacing one slot of an entry sets that slot and keeps the other two |
| Server.EmptyBufferIsEmpty | src/index.ts:38-42 | the entry made for a new system is exactly the one whose three slots are all empty |
| Server.PendingType | src/index.ts:33 | the error slot is chosen exactly for `error`, the fatal slot exactly for `fatal`, and the data slot otherwise |
| Server.HandledNeverFatal | src/index.ts:31-33 | no severity the collector listens on picks the fatal slot |
| Server.Ingest | src/index.ts:38-44 | appending to one slot creates a missing entry at the end of the key order; it grows exactly that slot by the text, and leaves every other slot of every system and the order of existing keys unchanged |
| Server.ReceivedGrowsOneSlot | src/index.ts:31-44 | a received line grows exactly one slot, the sender's `PendingType` slot, by `log + '\n'`; a `fatal` line changes nothing |
| Server.ReceivedRouting | src/index.ts:33-44 | an `error` line lands in the sender's error slot; an `info`, `warn` or `debug` line lands in its data slot |
| Server.ReceivedKeepsWellFormed | src/index.ts:44 | receiving keeps every slot made of newline-terminated lines and every fatal slot empty |
| Server.Countdown | src/index.ts:47-48 | `for (let i = length; i--;)` calls each handler once with the same line, the last registered first |
| Server.Reversed | src/index.ts:47 | the reverse order is element `n-1-k` at position `k` |
| Server.ReversedPermutes | src/index.ts:47 | the reverse order keeps every handler with its multiplicity |
| Server.NotificationOrder | src/index.ts:46-52 | one line calls the severity's listeners from last to first, then the `all` listeners from last to first, all with the identical line |
| Server.NotificationsCover | src/index.ts:46-52 | one line calls every registration of its severity and of `all` exactly once, counted with multiplicity |
| Server.FileNameInjective | src/index.ts:84-91 | for one date, the file-name template gives different tags different names |
| Server.Cleared | src/index.ts:80 | after a flush every slot of every system is empty, and the keys and their order are unchanged |
| Server.ClearedValid | src/index.ts:80 | a flushed dictionary still has its keys indexed and no partial lines |
| Server.WritesAppend | src/index.ts:71 | the appends queued for two runs of drains are the appends of each, in order |
| Server.EmptiedAll | src/index.ts:74-80 | resetting the three slots one after the other empties the entry |
| Server.LoggerServer.constructor | src/index.ts:21-26 | a new collector keeps its directory and interval, and has no pending entries and no listeners |
| Server.LoggerServer.Receive | src/index.ts:35-53 | the pending entries become `Received(old, tag, req)` and the calls made are `Notifications` for a handled tag; an unhandled `fatal` tag makes no call and changes nothing |
| Server.LoggerServer.CallBackwards | src/index.ts:47-52 | the countdown loop makes exactly `Countdown(hs, log)` calls, the last registered first |
| Server.LoggerServer.On | src/index.ts:62-66 | the handler is appended to its key's list, created if absent; other keys are unchanged; the collector itself is returned |
| Server.LoggerServer.Save | src/index.ts:68-102 | every slot is reset (`Cleared`) and the appends queued are `Writes(Drains(old))`: per system in key order and per slot in order, each non-empty slot once, error and fatal text to the error file first |
| Server.LoggerServer.TakeEntry | src/index.ts:74-96 | the inner loop empties one entry and queues exactly the appends of its non-empty slots, in slot order |
| Server.LoggerServer.TakeSlot | src/index.ts:75-95 | a non-empty slot is read and reset before its appends are queued; an empty slot queues nothing and stays as it is |
| ServerTrace.Run | src/index.ts:44 | a run of deliveries and flushes keeps the key order indexing every entry |
| ServerTrace.Select | src/index.ts:73-75 | selecting drains keeps only matching drains of the input, in order |
| ServerTrace.SelectAppend | src/index.ts:71 | selecting from two runs of drains is selecting from each, in order |
| ServerTrace.DrainsExactlyOnce | src/index.ts:73-80 | a flush takes every non-empty slot of every system exactly once and whole, and nothing from an empty slot |
| ServerTrace.DrainsFaithful | src/index.ts:75-80 | each drain carries the whole text of its own slot and is never empty; for well-formed entries it is whole lines and never a fatal slot |
| ServerTrace.EmptyFlush | src/index.ts:75 | a flush queues no append exactly when nothing is pending |
| ServerTrace.NoLossNoDuplication | src/index.ts:44 | for every system and slot, in any run of deliveries and flushes, what the flushes took followed by what is still pending is what was pending at the start followed by every delivered `log + '\n'`, in arrival order |
| ServerTrace.RunKeepsWellFormed | src/index.ts:31-44 | in any run the slots stay whole lines and no fatal text is ever drained |
| ServerTrace.WritesLength | src/index.ts:82-95 | a flush queues one append per drain plus one per error or fatal drain; it queues none exactly when there are no drains |
| ServerTrace.WritesLayout | src/index.ts:82-95 | each drain's appends are contiguous and in drain order: for an error or fatal drain the error-file append comes first, then the system-file append |
| ServerTrace.DrainFileText | src/index.ts:82-95 | one drain adds its text to the error file when it is an error or fatal drain, and to its own system's file |
| ServerTrace.SystemFileText | src/index.ts:90-95 | the file of a system not called "error" receives exactly that system's drained text, in the order the appends are queued |
| ServerTrace.ErrorFileText | src/index.ts:82-88 | when no system is called "error", the error file receives exactly the error and fatal drains of every system, in the order the appends are queued |
| ServerTrace.ErrorNamedSystemShares | src/index.ts:82-95 | a system called "error" writes its data lines into the shared error file |
| ServerTrace.FlushSystemFile | src/index.ts:73-95 | per flush, a system's file receives its data slot, then its error slot, then its fatal slot, in the order the appends are queued |
| ServerTrace.EntryContents | src/index.ts:74 | an entry's drains carry its data, error and fatal text in that order |
| ServerTrace.ReceivedAsWritten | src/index.ts:38-44 | the handler as written: for a new system named after an `Object.prototype` member the line is not stored; otherwise it behaves as `Received` |
| ServerTrace.InheritedNameLosesLine | src/index.ts:38 | a line from a new system called, for example, "constructor" is delivered, but as written no later flush ever takes it |
| ServerTrace.ConstructorLosesLine | src/index.ts:38-44 | concretely, "x" from system "constructor" leaves the entries empty as written, while the corrected ingestion stores "x\n" |
| CrashHooks.StackOrMessage | src/index.ts:154 | `err.stack \|\| err.message` is the stack, else the message; a thrown string has neither and gives "undefined" |
| CrashHooks.UncaughtMessage | src/index.ts:152-160 | an uncaught exception is reported as a line break followed by its stack or message; `null` or `undefined` makes the hook throw |
| CrashHooks.Explanation | src/index.ts:164 | `err['stack'] \|\| err['message'] \|\| err.toString()` is the stack, else the message, else the Error's name, and for a primitive its own text |
| CrashHooks.RejectionMessageAsWritten | src/index.ts:164 | as written, a `null` or `undefined` rejection reason makes the hook throw, and every other reason, falsy ones included, is reported by its `Explanation` with no leading line break |
| CrashHooks.RejectionFalsyReasons | src/index.ts:164 | as written, the falsy reasons `""`, `0` and `0n` are reported as their own text, where the corrected hook reports `\nUNKNOWN` |
| CrashHooks.RejectionPrecedence | src/index.ts:164 | `'\n' + err` is always truthy, so a truthy reason loses its line break, `false` is not reported as UNKNOWN, and `undefined` crashes the hook |
| CrashHooks.RejectionMessage | src/index.ts:164 | corrected: always a line break first, then the explanation for a truthy reason or UNKNOWN for a falsy one |
| CrashHooks.RejectionExample | src/index.ts:164 | a rejected Error whose stack is "boom" is reported as "boom" as written, and as "\nboom" corrected |
| CrashHooks.RejectionAgreesWithUncaught | src/index.ts:154-164 | corrected, an Error with a stack or a message is reported exactly as an uncaught exception would be |
| CrashHooks.CrashReport | src/index.ts:165-166 | a crash report is a `fatal` message from the emitter's system and cluster whose line ends with the report text |
| CrashHooks.CrashReportDropped | src/index.ts:31 | the collector has no `fatal` handler, so a crash report never reaches a pending slot |

## Left out

- The transport (`fast-ipc`): a delivery is a call to `LoggerServer.Receive`, and a send is an entry in `LoggerClient.sent`.
- The file system: `recurdir.mk`, `appendFile` and `path.join` are left out. `Save` returns the appends with file names relative to the log directory. The directory is never joined in.
- The asynchronous `Promise.all` of `save`: its resolution, and the loss of swapped-out text when an append fails, are not modelled.
- The `setInterval` timer that calls `save`.
- The clock and the timezone offset: the formatter takes the date and time as parameters.
- Save: takes one date for the whole flush. The source recomputes the date for every slot, so a flush that crosses midnight can split across two dates.
- The console: the coloured line and `console.log` are left out. `Log` only reports whether the line would be echoed.
- Client.LoggerClient.Log: `JSON.stringify(msg, null, 1)` is an opaque, total parameter `stringify`. The real call throws on a circular structure or on a BigInt anywhere inside an object (src/index.ts:136). The call then ends before the send at src/index.ts:146 and nothing is sent, so "exactly one send" holds only when the serialisation succeeds.
- Client.Normalize: models numbers only as safe integers. Fractional numbers, `NaN`, infinities and exponent notation in `toString` are not modelled.
- Symbols and functions are not part of `Value`.
- Objects with an own `toString` entry of any kind are not modelled: `Value` has no functions, and JavaScript throws when that entry is not callable. Errors whose `stack` is not a string are not modelled either.
- CrashHooks.RejectionMessageAsWritten: for an object reason with an own `toString` entry, such as `Promise.reject({toString: 'x'})`, the `'\n' + err` at src/index.ts:164 throws a TypeError. `valueOf` returns the object itself and `toString` is not callable. The model reports `Success("[object Object]")` for it.
- `process.exit()` and the registration of the process hooks are left out. The hooks are functions that compute the message they would send.
- Re-entrancy is not modelled: a listener that calls `on` or logs while it is being called.
- JavaScript's key order puts integer-like keys such as `"42"` first, in numeric order. The model keeps every system in creation order, so for integer-like system names the order of a flush's appends differs.
- A system called `__proto__`, whose line would reach `Object.prototype` itself, is not modelled.
- Upper-casing covers ASCII letters only.
- Text.AlignText: string lengths are counted in Unicode characters, while JavaScript's `length` and `slice` (src/index.ts:205-208) count UTF-16 code units. A character outside the Basic Multilingual Plane counts once here and twice in the source. For system "😀😀😀😀" the source computes length 8 > 7 and gives "😀😀😀-", where the model pads to "---😀😀😀😀".
- Text.SliceTo: `end` and the length are counted in Unicode characters, not in the UTF-16 code units of JavaScript's `slice` (src/index.ts:208), so a slice never splits a surrogate pair here.
- Format.ClusterField: its width of 2 is counted in Unicode characters, not UTF-16 code units, as for `Text.AlignText`.
- Format.SystemField: its width of 7 is counted in Unicode characters, not UTF-16 code units, as for `Text.AlignText`.
- Format.SeverityField: its width of 5 is counted in Unicode characters, not UTF-16 code units, as for `Text.AlignText`. The severity names are ASCII, so this matters only in principle.
- Server.LoggerServer.Receive: follows the corrected ingestion. A new system named after an `Object.prototype` member ("constructor", "toString", …) gets its own entry, which the code at src/index.ts:38 does not create. `Server.Received` does the same; `ServerTrace.ReceivedAsWritten` models the code as written.
- Server.LoggerServer.Receive: listeners are taken not to throw. A listener that throws ends the countdown loop at src/index.ts:47-48, so the earlier-registered severity listeners and every `all` listener are not called, while the `calls` in the ensures always list them all.
- Server.FileNameInjective: states that the file-name template `[tag]date.log` is injective. `path.join` at src/index.ts:84 and :91 normalises `.`, `..` and separators inside a system name, so systems "x/../y" and "z/../y" append to the same file.
- ServerTrace.SystemFileText: is stated on the template names. With `path.join`, a system name containing a path separator can share its file with another system.
- ServerTrace.ErrorFileText: is stated on the template names. With `path.join`, system "a/../[error" appends its data lines to `[error]<date>.log`, which `d.system != "error"` does not exclude.
- ServerTrace.FlushSystemFile: holds for the template names only, for the same `path.join` reason as `ServerTrace.SystemFileText`.
- ServerTrace.SystemFileText: a file's text means the queued appends applied one after another in queue order. Every `appendFile` of one flush starts at once (src/index.ts:83-95) and `Promise.all` (src/index.ts:99) only waits for them, so two appends to the same file can land in either order.
- ServerTrace.ErrorFileText: the shared error file's text is likewise the queue order. The concurrent appends of several systems' error text to `[error]<date>.log` have no fixed order.
- ServerTrace.FlushSystemFile: "data, then error" within one file is the queue order. Concurrent `appendFile` calls can leave a system "gw" with data "a\n" and error "b\n" holding "b\na\n".
- The timer set-up at src/index.ts:56-58 and the smoke tests are not part of this model.

## Findings

| source | as written | input that shows it | evidently intended | confidence | as-written member | corrected member |
|---|---|---|---|---|---|---|
| src/index.ts:38 | `if (!this.pending[req[0]])` also finds the members inherited from `Object.prototype`. For such a system no entry is created, the `+=` lands on the inherited function, and `for…in` never visits it | a line from system "constructor" is never written to any file | every system gets its own entry, for example with `Object.create(null)` or a `Map` | medium, not executed | ServerTrace.InheritedNameLosesLine | ServerTrace.NoLossNoDuplication |
| src/index.ts:164 | `'\n' + err ? (…) : 'UNKNOWN'` groups as `('\n' + err) ? … : 'UNKNOWN'`, whose test is always true | `Promise.reject()` makes the hook itself throw; a rejected Error loses its leading line break | `'\n' + (err ? (…) : 'UNKNOWN')` | high, not executed | CrashHooks.RejectionPrecedence | CrashHooks.RejectionMessage |
