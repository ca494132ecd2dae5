/**
 * The collector (`loggerServer`): per-system buffers with a `data`, an
 * `error` and a `fatal` slot, a registry of listeners per severity and for
 * "all", ingestion of one received line, registration, and the
 * swap-then-write flush `save`.
 *
 * The transport is replaced by calls to `Receive`; listener invocations are
 * returned as a sequence of calls; `save` returns the file appends it
 * queues, in the order it queues them, instead of performing them.
 */
module Server {
  import opened Logs

  /** The three slots of a pending entry, in the order `for…in` visits them. */
  datatype Slot = DataSlot | ErrorSlot | FatalSlot

  const Slots: seq<Slot> := [DataSlot, ErrorSlot, FatalSlot]

  /** One system's pending text. */
  datatype Buffer = Buffer(data: string, error: string, fatal: string)
  {
    function Get(slot: Slot): string
    {
      match slot
      case DataSlot => data
      case ErrorSlot => error
      case FatalSlot => fatal
    }

    /** The buffer with one slot replaced and the other two kept. */
    function Put(slot: Slot, text: string): (b: Buffer)
      ensures b.Get(slot) == text
      ensures forall other :: other != slot ==> b.Get(other) == Get(other)
    {
      match slot
      case DataSlot => this.(data := text)
      case ErrorSlot => this.(error := text)
      case FatalSlot => this.(fatal := text)
    }
  }

  /** The entry created for a system on its first line. */
  const EmptyBuffer: Buffer := Buffer("", "", "")

  lemma EmptyBufferIsEmpty(b: Buffer)
    ensures b == EmptyBuffer <==> forall slot :: b.Get(slot) == ""
  {
    if forall slot :: b.Get(slot) == "" {
      assert b.Get(DataSlot) == "" && b.Get(ErrorSlot) == "" && b.Get(FatalSlot) == "";
    }
  }

  /**
   * The channels the collector registers a handler for, the list
   * `['info', 'warn', 'error', 'debug']`: 'fatal' is not one of them.
   */
  predicate Handled(tag: Severity)
  {
    tag == Info || tag == Warn || tag == Error || tag == Debug
  }

  /** `pendingType`: the slot a line of the given severity is appended to. */
  function PendingType(severity: Severity): (slot: Slot)
    ensures slot == ErrorSlot <==> severity == Error
    ensures slot == FatalSlot <==> severity == Fatal
  {
    if severity == Error then ErrorSlot
    else if severity == Fatal then FatalSlot
    else DataSlot
  }

  /** No severity the collector listens on is routed to the fatal slot. */
  lemma HandledNeverFatal(tag: Severity)
    requires Handled(tag)
    ensures PendingType(tag) != FatalSlot
  {
  }

  // ---------------------------------------------------------------
  // The pending dictionary
  // ---------------------------------------------------------------

  /**
   * The `pending` object: the entries, and the order of its keys, which is
   * the order in which the systems first sent a line.
   */
  datatype Pending = Pending(order: seq<string>, buffers: map<string, Buffer>)

  /** The key order lists every entry exactly once. */
  ghost predicate Indexed(p: Pending)
  {
    (forall i, j :: 0 <= i < j < |p.order| ==> p.order[i] != p.order[j]) &&
    (forall s :: s in p.buffers <==> s in p.order)
  }

  /** The text waiting in one slot of one system (nothing if it has no entry). */
  function SlotText(p: Pending, system: string, slot: Slot): string
  {
    if system in p.buffers then p.buffers[system].Get(slot) else ""
  }

  /**
   * Appending `text` to one slot of `system`, creating the entry with three
   * empty slots first if it is missing.
   */
  function Ingest(p: Pending, system: string, slot: Slot, text: string): (r: Pending)
    requires Indexed(p)
    ensures Indexed(r)
    ensures r.buffers.Keys == p.buffers.Keys + {system}
    ensures r.order == if system in p.buffers then p.order else p.order + [system]
    ensures forall s, k :: SlotText(r, s, k) == SlotText(p, s, k) + (if s == system && k == slot then text else "")
  {
    var b := if system in p.buffers then p.buffers[system] else EmptyBuffer;
    var order := if system in p.buffers then p.order else p.order + [system];
    var r := Pending(order, p.buffers[system := b.Put(slot, b.Get(slot) + text)]);
    assert forall s :: s in r.buffers <==> s in r.order by {
      forall s ensures s in r.buffers <==> s in r.order {
        if system !in p.buffers { assert s in order <==> s in p.order || s == system; }
      }
    }
    r
  }

  /** The effect of one received `[system, cluster, log]` on the pending entries. */
  function Received(p: Pending, tag: Severity, req: Envelope): (r: Pending)
    requires Indexed(p)
    ensures Indexed(r)
  {
    if Handled(tag) then Ingest(p, req.system, PendingType(tag), req.log + "\n") else p
  }

  /** What one delivery adds to one slot. */
  function Arrival(tag: Severity, req: Envelope, system: string, slot: Slot): string
  {
    if Handled(tag) && req.system == system && PendingType(tag) == slot then req.log + "\n" else ""
  }

  /**
   * A received line grows exactly one slot, by the line and a newline: the
   * error slot for 'error', the data slot for 'info', 'warn' and 'debug';
   * a 'fatal' line finds no handler and changes nothing.
   */
  lemma ReceivedGrowsOneSlot(p: Pending, tag: Severity, req: Envelope, system: string, slot: Slot)
    requires Indexed(p)
    ensures SlotText(Received(p, tag, req), system, slot) == SlotText(p, system, slot) + Arrival(tag, req, system, slot)
    ensures tag == Fatal ==> Received(p, tag, req) == p
  {
    if Handled(tag) {
      var r := Ingest(p, req.system, PendingType(tag), req.log + "\n");
      assert SlotText(r, system, slot) == SlotText(p, system, slot) + Arrival(tag, req, system, slot);
    }
  }

  /**
   * Where a line lands: an 'error' line in the sender's error slot, an
   * 'info', 'warn' or 'debug' line in its data slot, each with a newline.
   */
  lemma ReceivedRouting(p: Pending, tag: Severity, req: Envelope)
    requires Indexed(p) && Handled(tag)
    ensures tag == Error ==>
      SlotText(Received(p, tag, req), req.system, ErrorSlot) == SlotText(p, req.system, ErrorSlot) + req.log + "\n"
    ensures tag != Error ==>
      SlotText(Received(p, tag, req), req.system, DataSlot) == SlotText(p, req.system, DataSlot) + req.log + "\n"
  {
    var own := PendingType(tag);
    ReceivedGrowsOneSlot(p, tag, req, req.system, own);
    assert SlotText(p, req.system, own) + (req.log + "\n") == SlotText(p, req.system, own) + req.log + "\n";
  }

  /** A slot's text is empty or made of complete, newline-terminated lines. */
  predicate Terminated(text: string)
  {
    text == "" || text[|text| - 1] == '\n'
  }

  /** No partial line in any slot, and nothing ever in a fatal slot. */
  ghost predicate WellFormed(p: Pending)
  {
    forall s, slot :: Terminated(SlotText(p, s, slot)) && SlotText(p, s, FatalSlot) == ""
  }

  lemma ReceivedKeepsWellFormed(p: Pending, tag: Severity, req: Envelope)
    requires Indexed(p) && WellFormed(p)
    ensures Indexed(Received(p, tag, req)) && WellFormed(Received(p, tag, req))
  {
    var r := Received(p, tag, req);
    forall s, slot ensures Terminated(SlotText(r, s, slot)) && SlotText(r, s, FatalSlot) == "" {
      ReceivedGrowsOneSlot(p, tag, req, s, slot);
      ReceivedGrowsOneSlot(p, tag, req, s, FatalSlot);
      assert Terminated(SlotText(p, s, slot));
    }
  }

  // ---------------------------------------------------------------
  // Listeners
  // ---------------------------------------------------------------

  /** The keys `on` accepts: a severity or 'all'. */
  datatype ListenerKey = For(severity: Severity) | All

  /** A registered handler, identified by the function object `on` was given. */
  type Handler = nat

  datatype Call = Call(handler: Handler, log: string)

  function Registered(listeners: map<ListenerKey, seq<Handler>>, key: ListenerKey): seq<Handler>
  {
    if key in listeners then listeners[key] else []
  }

  /** `for (let i = hs.length; i--;) hs[i](log)`: every handler once, last registered first. */
  function Countdown(hs: seq<Handler>, log: string): (calls: seq<Call>)
    ensures |calls| == |hs|
    ensures forall k :: 0 <= k < |hs| ==> calls[k] == Call(hs[|hs| - 1 - k], log)
  {
    if hs == [] then [] else [Call(hs[|hs| - 1], log)] + Countdown(hs[..|hs| - 1], log)
  }

  /** The calls one received line makes: the severity's listeners, then the 'all' listeners. */
  function Notifications(listeners: map<ListenerKey, seq<Handler>>, tag: Severity, log: string): seq<Call>
  {
    Countdown(Registered(listeners, For(tag)), log) + Countdown(Registered(listeners, All), log)
  }

  function HandlersOf(calls: seq<Call>): (hs: seq<Handler>)
    ensures |hs| == |calls| && forall k :: 0 <= k < |calls| ==> hs[k] == calls[k].handler
  {
    seq(|calls|, k requires 0 <= k < |calls| => calls[k].handler)
  }

  function Reversed(hs: seq<Handler>): (r: seq<Handler>)
    ensures |r| == |hs| && forall k :: 0 <= k < |hs| ==> r[k] == hs[|hs| - 1 - k]
  {
    if hs == [] then [] else [hs[|hs| - 1]] + Reversed(hs[..|hs| - 1])
  }

  /** Reversing keeps every element with its multiplicity. */
  lemma {:induction false} ReversedPermutes(hs: seq<Handler>)
    ensures multiset(Reversed(hs)) == multiset(hs)
  {
    if hs != [] {
      ReversedPermutes(hs[..|hs| - 1]);
      assert hs == hs[..|hs| - 1] + [hs[|hs| - 1]];
    }
  }

  /**
   * One received line notifies, with the identical line, every listener of
   * its severity from the last registered to the first, and then every
   * 'all' listener in the same reverse order.
   */
  lemma NotificationOrder(listeners: map<ListenerKey, seq<Handler>>, tag: Severity, log: string)
    ensures var calls := Notifications(listeners, tag, log);
      var hs := Registered(listeners, For(tag));
      var all := Registered(listeners, All);
      |calls| == |hs| + |all| &&
      (forall k :: 0 <= k < |calls| ==> calls[k].log == log) &&
      (forall k :: 0 <= k < |hs| ==> calls[k].handler == hs[|hs| - 1 - k]) &&
      (forall k :: |hs| <= k < |calls| ==> calls[k].handler == all[|all| - 1 - (k - |hs|)])
  {
    var hs := Registered(listeners, For(tag));
    var all := Registered(listeners, All);
    var a := Countdown(hs, log);
    var b := Countdown(all, log);
    var calls := a + b;
    assert calls == Notifications(listeners, tag, log);
    forall k | 0 <= k < |calls|
      ensures calls[k].log == log
      ensures |hs| <= k ==> calls[k].handler == all[|all| - 1 - (k - |hs|)]
    {
      if k < |hs| { assert calls[k] == a[k]; } else { assert calls[k] == b[k - |hs|]; }
    }
  }

  /** Each registration of the severity and of 'all' is called exactly once per line. */
  lemma NotificationsCover(listeners: map<ListenerKey, seq<Handler>>, tag: Severity, log: string)
    ensures multiset(HandlersOf(Notifications(listeners, tag, log)))
      == multiset(Registered(listeners, For(tag))) + multiset(Registered(listeners, All))
  {
    var hs := Registered(listeners, For(tag));
    var all := Registered(listeners, All);
    var a := Countdown(hs, log);
    var b := Countdown(all, log);
    CountdownHandlers(hs, log);
    CountdownHandlers(all, log);
    assert HandlersOf(a + b) == HandlersOf(a) + HandlersOf(b);
    ReversedPermutes(hs);
    ReversedPermutes(all);
  }

  lemma CountdownHandlers(hs: seq<Handler>, log: string)
    ensures HandlersOf(Countdown(hs, log)) == Reversed(hs)
  {
  }

  // ---------------------------------------------------------------
  // Flushing
  // ---------------------------------------------------------------

  /** Content taken out of one slot by a flush. */
  datatype Drain = Drain(system: string, slot: Slot, content: string)

  /** One file append: the file name inside the log directory and the text. */
  datatype Write = Write(file: string, content: string)

  /** `[tag]<date>.log`. */
  function FileName(tag: string, date: string): string
  {
    "[" + tag + "]" + date + ".log"
  }

  /** The dated file shared by the error and fatal lines of every system. */
  function ErrorFile(date: string): string
  {
    FileName("error", date)
  }

  /** For one date, different tags name different files. */
  lemma FileNameInjective(a: string, b: string, date: string)
    requires FileName(a, date) == FileName(b, date)
    ensures a == b
  {
    var fa := FileName(a, date);
    assert |a| == |b|;
    assert fa[1..1 + |a|] == a;
    assert FileName(b, date)[1..1 + |b|] == b;
  }

  /** The non-empty slots of one entry, among `slots`, in that order. */
  function SlotDrains(system: string, b: Buffer, slots: seq<Slot>): seq<Drain>
  {
    if slots == [] then []
    else
      var slot := slots[|slots| - 1];
      SlotDrains(system, b, slots[..|slots| - 1]) + SlotDrain(system, b, slot)
  }

  /** The drain of one slot: nothing when it is empty. */
  function SlotDrain(system: string, b: Buffer, slot: Slot): seq<Drain>
  {
    if b.Get(slot) != "" then [Drain(system, slot, b.Get(slot))] else []
  }

  function EntryDrains(system: string, b: Buffer): seq<Drain>
  {
    SlotDrains(system, b, Slots)
  }

  /** The drains of the entries met in key order `order`. */
  function FlushDrains(order: seq<string>, buffers: map<string, Buffer>): seq<Drain>
  {
    if order == [] then []
    else
      var system := order[|order| - 1];
      FlushDrains(order[..|order| - 1], buffers)
        + (if system in buffers then EntryDrains(system, buffers[system]) else [])
  }

  /** Everything one flush takes, system by system and slot by slot. */
  function Drains(p: Pending): seq<Drain>
  {
    FlushDrains(p.order, p.buffers)
  }

  /** The pending entries after a flush: every slot of every system reset to ''. */
  function Cleared(p: Pending): (r: Pending)
    ensures r.order == p.order && r.buffers.Keys == p.buffers.Keys
    ensures forall s, k :: SlotText(r, s, k) == ""
  {
    Pending(p.order, map s | s in p.buffers :: EmptyBuffer)
  }

  /** A flush keeps the key order and leaves nothing pending. */
  lemma ClearedValid(p: Pending)
    requires Indexed(p)
    ensures Indexed(Cleared(p)) && WellFormed(Cleared(p))
  {
  }

  /** The appends queued for one drain: error and fatal text goes to the error file first. */
  function DrainWrites(d: Drain, date: string): (ws: seq<Write>)
  {
    if d.slot == ErrorSlot || d.slot == FatalSlot then
      [Write(ErrorFile(date), d.content), Write(FileName(d.system, date), d.content)]
    else
      [Write(FileName(d.system, date), d.content)]
  }

  function Writes(ds: seq<Drain>, date: string): seq<Write>
  {
    if ds == [] then [] else Writes(ds[..|ds| - 1], date) + DrainWrites(ds[|ds| - 1], date)
  }

  lemma {:induction false} WritesAppend(a: seq<Drain>, b: seq<Drain>, date: string)
    ensures Writes(a + b, date) == Writes(a, date) + Writes(b, date)
    decreases |b|
  {
    if b != [] {
      var b' := b[..|b| - 1];
      assert (a + b)[..|a + b| - 1] == a + b';
      assert (a + b)[|a + b| - 1] == b[|b| - 1];
      WritesAppend(a, b', date);
      calc {
        Writes(a + b, date);
        Writes(a + b', date) + DrainWrites(b[|b| - 1], date);
        Writes(a, date) + Writes(b', date) + DrainWrites(b[|b| - 1], date);
        Writes(a, date) + Writes(b, date);
      }
    } else {
      assert a + b == a;
    }
  }

  /** The buffer with every slot in `slots` reset to ''. */
  function Emptied(b: Buffer, slots: seq<Slot>): Buffer
  {
    if slots == [] then b else Emptied(b, slots[..|slots| - 1]).Put(slots[|slots| - 1], "")
  }

  lemma {:induction false} EmptiedKeepsOthers(b: Buffer, slots: seq<Slot>, slot: Slot)
    requires slot !in slots
    ensures Emptied(b, slots).Get(slot) == b.Get(slot)
  {
    if slots != [] {
      EmptiedKeepsOthers(b, slots[..|slots| - 1], slot);
    }
  }

  lemma EmptiedAll(b: Buffer)
    ensures Emptied(b, Slots) == EmptyBuffer
  {
    var slots2 := [DataSlot, ErrorSlot];
    assert Slots[..2] == slots2 && slots2[..1] == [DataSlot] && [DataSlot][..0] == [];
    assert Emptied(b, [DataSlot]) == b.Put(DataSlot, "");
    assert Emptied(b, slots2) == b.Put(DataSlot, "").Put(ErrorSlot, "");
    assert Emptied(b, Slots) == b.Put(DataSlot, "").Put(ErrorSlot, "").Put(FatalSlot, "");
  }

  lemma SlotsDistinct(j: nat)
    requires j < |Slots|
    ensures Slots[j] !in Slots[..j]
  {
    if j == 1 { assert Slots[..1] == [DataSlot]; }
    if j == 2 { assert Slots[..2] == [DataSlot, ErrorSlot]; }
  }

  /** The entries with the one of `system` replaced by `b`. */
  function WithEntry(p: Pending, system: string, b: Buffer): (r: Pending)
    ensures r.order == p.order && system in r.buffers && r.buffers[system] == b
  {
    p.(buffers := p.buffers[system := b])
  }

  lemma WithEntryTwice(p: Pending, system: string, b: Buffer, b': Buffer)
    ensures WithEntry(WithEntry(p, system, b), system, b') == WithEntry(p, system, b')
  {
  }

  /** One turn of the inner flush loop, over the first `j` slots. */
  lemma EntryStep(system: string, b: Buffer, j: nat, date: string)
    requires j < |Slots|
    ensures Writes(SlotDrains(system, b, Slots[..j + 1]), date)
      == Writes(SlotDrains(system, b, Slots[..j]), date) + Writes(SlotDrain(system, Emptied(b, Slots[..j]), Slots[j]), date)
    ensures Emptied(b, Slots[..j + 1]) == Emptied(b, Slots[..j]).Put(Slots[j], "")
  {
    assert Slots[..j + 1][..j] == Slots[..j];
    SlotsDistinct(j);
    EmptiedKeepsOthers(b, Slots[..j], Slots[j]);
    WritesAppend(SlotDrains(system, b, Slots[..j]), SlotDrain(system, b, Slots[j]), date);
  }

  lemma PutUnchanged(b: Buffer, slot: Slot)
    requires b.Get(slot) == ""
    ensures b.Put(slot, "") == b
  {
  }

  /** The entries part-way through a flush: the first `i` systems in key order reset. */
  function FlushedUpTo(p: Pending, i: nat): map<string, Buffer>
    requires i <= |p.order|
  {
    map s | s in p.buffers :: if s in p.order[..i] then EmptyBuffer else p.buffers[s]
  }

  /** One turn of the outer flush loop. */
  lemma SaveStep(p: Pending, i: nat)
    requires Indexed(p) && i < |p.order|
    ensures p.order[i] in FlushedUpTo(p, i) && FlushedUpTo(p, i)[p.order[i]] == p.buffers[p.order[i]]
    ensures FlushedUpTo(p, i)[p.order[i] := EmptyBuffer] == FlushedUpTo(p, i + 1)
    ensures FlushDrains(p.order[..i + 1], p.buffers) == FlushDrains(p.order[..i], p.buffers) + EntryDrains(p.order[i], p.buffers[p.order[i]])
  {
    var system := p.order[i];
    assert p.order[..i + 1][..i] == p.order[..i];
    assert p.order[..i + 1] == p.order[..i] + [system];
    assert system !in p.order[..i];
  }

  lemma SaveDone(p: Pending)
    requires Indexed(p)
    ensures Pending(p.order, FlushedUpTo(p, |p.order|)) == Cleared(p)
    ensures FlushDrains(p.order[..|p.order|], p.buffers) == Drains(p)
  {
    assert p.order[..|p.order|] == p.order;
  }

  // ---------------------------------------------------------------
  // The collector object
  // ---------------------------------------------------------------

  class LoggerServer {
    const directory: string
    const saveInterval: int
    var pending: Pending
    var listeners: map<ListenerKey, seq<Handler>>

    ghost predicate Valid()
      reads this
    {
      Indexed(pending) && WellFormed(pending)
    }

    constructor (directory: string, saveInterval: int)
      ensures Valid()
      ensures this.directory == directory && this.saveInterval == saveInterval
      ensures pending == Pending([], map[]) && listeners == map[]
    {
      this.directory := directory;
      this.saveInterval := saveInterval;
      pending := Pending([], map[]);
      listeners := map[];
    }

    /**
     * A line `req = [system, cluster, log]` arriving on channel `tag`. Only
     * the four registered channels have a handler; it appends the line to
     * one slot and then calls the listeners.
     */
    method Receive(tag: Severity, req: Envelope) returns (calls: seq<Call>)
      requires Valid()
      modifies this`pending
      ensures Valid()
      ensures pending == Received(old(pending), tag, req)
      ensures calls == if Handled(tag) then Notifications(listeners, tag, req.log) else []
    {
      if !Handled(tag) {
        return [];
      }
      ghost var p0 := pending;
      ReceivedKeepsWellFormed(p0, tag, req);
      var slot := PendingType(tag);
      var log := req.log;
      if req.system !in pending.buffers {
        pending := Pending(pending.order + [req.system], pending.buffers[req.system := EmptyBuffer]);
      }
      var b := pending.buffers[req.system];
      pending := pending.(buffers := pending.buffers[req.system := b.Put(slot, b.Get(slot) + (log + "\n"))]);
      assert pending == Received(p0, tag, req);

      calls := [];
      if For(tag) in listeners {
        calls := CallBackwards(listeners[For(tag)], log);
      }
      if All in listeners {
        var rest := CallBackwards(listeners[All], log);
        calls := calls + rest;
      }
    }

    /** `for (let i = hs.length; i--;) hs[i](log)`. */
    static method CallBackwards(hs: seq<Handler>, log: string) returns (calls: seq<Call>)
      ensures calls == Countdown(hs, log)
    {
      calls := [];
      var i := |hs|;
      while i > 0
        invariant 0 <= i <= |hs|
        invariant |calls| == |hs| - i
        invariant forall k :: 0 <= k < |hs| - i ==> calls[k] == Call(hs[|hs| - 1 - k], log)
      {
        i := i - 1;
        calls := calls + [Call(hs[i], log)];
      }
    }

    /** `on(key, handler)`: appended to its key's list, created if absent; returns the collector. */
    method On(key: ListenerKey, handler: Handler) returns (self: LoggerServer)
      modifies this`listeners
      ensures self == this
      ensures listeners == old(listeners)[key := Registered(old(listeners), key) + [handler]]
    {
      if key !in listeners {
        listeners := listeners[key := []];
      }
      listeners := listeners[key := listeners[key] + [handler]];
      self := this;
    }

    /**
     * `save()`: for every system in key order and every slot in order,
     * a non-empty slot is read and reset to '' before its appends are
     * queued. `writes` are the queued appends, in order.
     */
    method Save(date: string) returns (writes: seq<Write>)
      requires Valid()
      modifies this`pending
      ensures Valid()
      ensures pending == Cleared(old(pending))
      ensures writes == Writes(Drains(old(pending)), date)
    {
      ghost var p0 := pending;
      writes := [];
      var i := 0;
      while i < |pending.order|
        invariant 0 <= i <= |p0.order|
        invariant pending == Pending(p0.order, FlushedUpTo(p0, i))
        invariant writes == Writes(FlushDrains(p0.order[..i], p0.buffers), date)
      {
        var system := pending.order[i];
        SaveStep(p0, i);
        WritesAppend(FlushDrains(p0.order[..i], p0.buffers), EntryDrains(system, p0.buffers[system]), date);
        var w := TakeEntry(system, date);
        writes := writes + w;
        i := i + 1;
      }
      SaveDone(p0);
      ClearedValid(p0);
    }

    /**
     * The inner `for (severity in pending[system])` loop of `save`: each
     * non-empty slot of the entry, in order, is read, reset and queued.
     */
    method TakeEntry(system: string, date: string) returns (writes: seq<Write>)
      requires system in pending.buffers
      modifies this`pending
      ensures pending == WithEntry(old(pending), system, EmptyBuffer)
      ensures writes == Writes(EntryDrains(system, old(pending).buffers[system]), date)
    {
      ghost var b0 := pending.buffers[system];
      ghost var p0 := pending;
      writes := [];
      var j := 0;
      while j < |Slots|
        invariant 0 <= j <= |Slots|
        invariant pending == WithEntry(p0, system, Emptied(b0, Slots[..j]))
        invariant writes == Writes(SlotDrains(system, b0, Slots[..j]), date)
      {
        EntryStep(system, b0, j, date);
        WithEntryTwice(p0, system, Emptied(b0, Slots[..j]), Emptied(b0, Slots[..j + 1]));
        var w := TakeSlot(system, Slots[j], date);
        writes := writes + w;
        j := j + 1;
      }
      assert Slots[..j] == Slots;
      EmptiedAll(b0);
    }

    /** One slot of the inner loop: a non-empty slot is read, reset to '' and queued. */
    method TakeSlot(system: string, slot: Slot, date: string) returns (writes: seq<Write>)
      requires system in pending.buffers
      modifies this`pending
      ensures pending == WithEntry(old(pending), system, old(pending).buffers[system].Put(slot, ""))
      ensures writes == Writes(SlotDrain(system, old(pending).buffers[system], slot), date)
    {
      var b := pending.buffers[system];
      var log := b.Get(slot);
      writes := [];
      if log != "" {
        pending := pending.(buffers := pending.buffers[system := b.Put(slot, "")]);
        if slot == ErrorSlot || slot == FatalSlot {
          writes := writes + [Write(ErrorFile(date), log)];
        }
        writes := writes + [Write(FileName(system, date), log)];
        assert [Drain(system, slot, log)][..0] == [];
      } else {
        PutUnchanged(b, slot);
      }
    }
  }
}
