/**
 * The collector over time: a run of received lines and flushes, what each
 * flush takes out of the pending entries, and what ends up in each file.
 */
module ServerTrace {
  import opened Logs
  import opened Server

  /** One event seen by the collector: a line on a channel, or a `save()` tick. */
  datatype Op = Deliver(tag: Severity, req: Envelope) | Flush

  /** The pending entries after a run and every drain its flushes made, oldest first. */
  function Run(p: Pending, ops: seq<Op>): (r: (Pending, seq<Drain>))
    requires Indexed(p)
    ensures Indexed(r.0)
    decreases |ops|
  {
    if ops == [] then (p, [])
    else match ops[0]
      case Deliver(tag, req) => Run(Received(p, tag, req), ops[1..])
      case Flush =>
        ClearedValid(p);
        var r := Run(Cleared(p), ops[1..]);
        (r.0, Drains(p) + r.1)
  }

  /** Everything a run delivers to one slot of one system, in order. */
  function Arrived(ops: seq<Op>, system: string, slot: Slot): string
    decreases |ops|
  {
    if ops == [] then ""
    else
      (match ops[0]
       case Deliver(tag, req) => Arrival(tag, req, system, slot)
       case Flush => "")
      + Arrived(ops[1..], system, slot)
  }

  // ---------------------------------------------------------------
  // Selecting drains
  // ---------------------------------------------------------------

  /** Which drains a question is about. */
  datatype Selector =
    | OfSlot(system: string, slot: Slot)
    | OfSystem(system: string)
      /** The error and fatal drains of every system: what the shared error file receives. */
    | Shared

  predicate Selects(sel: Selector, d: Drain)
  {
    match sel
    case OfSlot(system, slot) => d.system == system && d.slot == slot
    case OfSystem(system) => d.system == system
    case Shared => d.slot == ErrorSlot || d.slot == FatalSlot
  }

  /** The selected drains, in their order. */
  function Select(ds: seq<Drain>, sel: Selector): (r: seq<Drain>)
    ensures |r| <= |ds|
    ensures forall d :: d in r ==> d in ds && Selects(sel, d)
  {
    if ds == [] then []
    else Select(ds[..|ds| - 1], sel) + (if Selects(sel, ds[|ds| - 1]) then [ds[|ds| - 1]] else [])
  }

  /** The drained text, concatenated. */
  function Contents(ds: seq<Drain>): string
  {
    if ds == [] then "" else Contents(ds[..|ds| - 1]) + ds[|ds| - 1].content
  }

  lemma {:induction false} SelectAppend(a: seq<Drain>, b: seq<Drain>, sel: Selector)
    ensures Select(a + b, sel) == Select(a, sel) + Select(b, sel)
    decreases |b|
  {
    if b == [] {
      assert a + b == a;
    } else {
      var b' := b[..|b| - 1];
      var last := b[|b| - 1];
      assert a + b == (a + b') + [last];
      assert b == b' + [last];
      SelectAppend(a, b', sel);
      SelectSnoc(a + b', last, sel);
      SelectSnoc(b', last, sel);
      var tail := if Selects(sel, last) then [last] else [];
      assert (Select(a, sel) + Select(b', sel)) + tail == Select(a, sel) + (Select(b', sel) + tail);
    }
  }

  /** Selecting from a run with one more drain at the end. */
  lemma SelectSnoc(init: seq<Drain>, d: Drain, sel: Selector)
    ensures Select(init + [d], sel) == Select(init, sel) + (if Selects(sel, d) then [d] else [])
  {
    assert (init + [d])[..|init|] == init;
  }

  lemma {:induction false} ContentsAppend(a: seq<Drain>, b: seq<Drain>)
    ensures Contents(a + b) == Contents(a) + Contents(b)
    decreases |b|
  {
    if b == [] {
      assert a + b == a;
    } else {
      var b' := b[..|b| - 1];
      var last := b[|b| - 1];
      assert a + b == (a + b') + [last];
      assert b == b' + [last];
      ContentsAppend(a, b');
      ContentsSnoc(a + b', last);
      ContentsSnoc(b', last);
      assert (Contents(a) + Contents(b')) + last.content == Contents(a) + (Contents(b') + last.content);
    }
  }

  /** The contents of a run with one more drain at the end. */
  lemma ContentsSnoc(init: seq<Drain>, d: Drain)
    ensures Contents(init + [d]) == Contents(init) + d.content
  {
    assert (init + [d])[..|init|] == init;
  }

  lemma SelectOne(d: Drain, sel: Selector)
    ensures Select([d], sel) == if Selects(sel, d) then [d] else []
    ensures Contents([d]) == d.content
  {
    assert [d][..0] == [];
  }

  /** Every drain of `ds` is among the drains selected by its own system and slot. */
  lemma {:induction false} SelectMember(ds: seq<Drain>, d: Drain)
    requires d in ds
    ensures d in Select(ds, OfSlot(d.system, d.slot))
  {
    var init := ds[..|ds| - 1];
    assert ds == init + [ds[|ds| - 1]];
    if d != ds[|ds| - 1] {
      SelectMember(init, d);
    }
  }

  /** What the flushes of a run took from one slot: the drained text, in order. */
  function Taken(ds: seq<Drain>, system: string, slot: Slot): string
  {
    Contents(Select(ds, OfSlot(system, slot)))
  }

  // ---------------------------------------------------------------
  // One flush
  // ---------------------------------------------------------------

  predicate DistinctSlots(slots: seq<Slot>)
  {
    forall i, j :: 0 <= i < j < |slots| ==> slots[i] != slots[j]
  }

  /** The drain expected from one slot of a flushed entry: none when the slot is empty. */
  function Expected(system: string, slot: Slot, text: string): seq<Drain>
  {
    if text != "" then [Drain(system, slot, text)] else []
  }

  lemma {:induction false} SlotDrainsSelect(system: string, b: Buffer, slots: seq<Slot>, s: string, k: Slot)
    requires DistinctSlots(slots)
    ensures Select(SlotDrains(system, b, slots), OfSlot(s, k))
      == if s == system && k in slots then Expected(s, k, b.Get(k)) else []
  {
    if slots != [] {
      var init := slots[..|slots| - 1];
      var last := slots[|slots| - 1];
      assert slots == init + [last];
      SlotDrainsSelect(system, b, init, s, k);
      SelectAppend(SlotDrains(system, b, init), SlotDrain(system, b, last), OfSlot(s, k));
      SlotDrainSelect(system, b, last, s, k);
      if k == last {
        assert k !in init;
      }
    }
  }

  /** The drain of one slot is selected exactly by that system and slot. */
  lemma SlotDrainSelect(system: string, b: Buffer, slot: Slot, s: string, k: Slot)
    ensures Select(SlotDrain(system, b, slot), OfSlot(s, k))
      == if s == system && k == slot then Expected(s, k, b.Get(k)) else []
  {
    if b.Get(slot) != "" {
      SelectOne(Drain(system, slot, b.Get(slot)), OfSlot(s, k));
    }
  }

  lemma {:induction false} FlushDrainsSelect(order: seq<string>, buffers: map<string, Buffer>, s: string, k: Slot)
    requires forall i, j :: 0 <= i < j < |order| ==> order[i] != order[j]
    ensures Select(FlushDrains(order, buffers), OfSlot(s, k))
      == if s in order && s in buffers then Expected(s, k, buffers[s].Get(k)) else []
  {
    if order != [] {
      var init := order[..|order| - 1];
      var last := order[|order| - 1];
      assert s in order <==> s in init || s == last by { assert order == init + [last]; }
      assert s == last ==> s !in init;
      FlushDrainsSelect(init, buffers, s, k);
      var tail := if last in buffers then EntryDrains(last, buffers[last]) else [];
      SelectAppend(FlushDrains(init, buffers), tail, OfSlot(s, k));
      if last in buffers {
        EntrySelectSlot(last, buffers[last], s, k);
      }
    }
  }

  lemma EntrySelectSlot(system: string, b: Buffer, s: string, k: Slot)
    ensures Select(EntryDrains(system, b), OfSlot(s, k)) == if s == system then Expected(s, k, b.Get(k)) else []
  {
    assert k in Slots by { assert k == Slots[0] || k == Slots[1] || k == Slots[2]; }
    SlotDrainsSelect(system, b, Slots, s, k);
  }

  /**
   * A flush takes every non-empty slot of every system exactly once, whole,
   * and nothing from an empty slot.
   */
  lemma DrainsExactlyOnce(p: Pending, s: string, k: Slot)
    requires Indexed(p)
    ensures Select(Drains(p), OfSlot(s, k)) == Expected(s, k, SlotText(p, s, k))
    ensures |Select(Drains(p), OfSlot(s, k))| == if SlotText(p, s, k) != "" then 1 else 0
    ensures Taken(Drains(p), s, k) == SlotText(p, s, k)
  {
    FlushDrainsSelect(p.order, p.buffers, s, k);
    if SlotText(p, s, k) != "" {
      SelectOne(Drain(s, k, SlotText(p, s, k)), OfSlot(s, k));
    }
  }

  /**
   * Each drain of a flush carries the whole text of its own slot; with
   * well-formed entries it is complete lines and never a fatal slot.
   */
  lemma DrainsFaithful(p: Pending)
    requires Indexed(p)
    ensures forall d :: d in Drains(p) ==> d.content == SlotText(p, d.system, d.slot) && d.content != ""
    ensures WellFormed(p) ==> forall d :: d in Drains(p) ==> d.slot != FatalSlot && Terminated(d.content)
  {
    forall d | d in Drains(p)
      ensures d.content == SlotText(p, d.system, d.slot) && d.content != ""
    {
      SelectMember(Drains(p), d);
      DrainsExactlyOnce(p, d.system, d.slot);
    }
  }

  /** A flush with nothing pending queues no append, and only then. */
  lemma EmptyFlush(p: Pending, date: string)
    requires Indexed(p)
    ensures Writes(Drains(p), date) == [] <==> forall s, k :: SlotText(p, s, k) == ""
  {
    WritesLength(Drains(p), date);
    if Drains(p) != [] {
      var d := Drains(p)[0];
      DrainsFaithful(p);
      assert SlotText(p, d.system, d.slot) != "";
    } else {
      forall s, k ensures SlotText(p, s, k) == "" {
        DrainsExactlyOnce(p, s, k);
      }
    }
  }

  // ---------------------------------------------------------------
  // A run
  // ---------------------------------------------------------------

  /**
   * No line is lost or written twice: for every slot, what the flushes took
   * followed by what is still pending is what was pending at the start
   * followed by everything delivered to it, in order.
   */
  lemma {:induction false} NoLossNoDuplication(p: Pending, ops: seq<Op>, s: string, k: Slot)
    requires Indexed(p)
    ensures Taken(Run(p, ops).1, s, k) + SlotText(Run(p, ops).0, s, k) == SlotText(p, s, k) + Arrived(ops, s, k)
    decreases |ops|
  {
    if ops == [] {
      assert Run(p, ops).1 == [];
    } else {
      var rest := ops[1..];
      match ops[0]
      case Deliver(tag, req) =>
        var q := Received(p, tag, req);
        NoLossNoDuplication(q, rest, s, k);
        ReceivedGrowsOneSlot(p, tag, req, s, k);
        RunDeliver(p, ops);
        ArrivedDeliver(ops, s, k);
        var r := Run(q, rest);
        Regroup(SlotText(p, s, k), Arrival(tag, req, s, k), Arrived(rest, s, k), SlotText(q, s, k),
                Taken(r.1, s, k) + SlotText(r.0, s, k));
      case Flush =>
        ClearedValid(p);
        var c := Cleared(p);
        NoLossNoDuplication(c, rest, s, k);
        RunFlush(p, ops);
        ArrivedFlush(ops, s, k);
        var r := Run(c, rest);
        TakenAppend(Drains(p), r.1, s, k);
        DrainsExactlyOnce(p, s, k);
        RegroupAfterFlush(SlotText(p, s, k), Taken(r.1, s, k), SlotText(r.0, s, k), SlotText(c, s, k),
                          Arrived(rest, s, k), Taken(Drains(p) + r.1, s, k));
    }
  }

  /** `(before + now) + later` regrouped, kept apart from the induction step above. */
  lemma Regroup(before: string, now: string, later: string, mid: string, total: string)
    requires total == mid + later && mid == before + now
    ensures total == before + (now + later)
  {
  }

  lemma RegroupAfterFlush(before: string, taken: string, left: string, cleared: string, later: string, whole: string)
    requires whole == before + taken && taken + left == cleared + later && cleared == ""
    ensures whole + left == before + later
  {
    assert cleared + later == later;
  }

  /** A run that starts with a received line. */
  lemma RunDeliver(p: Pending, ops: seq<Op>)
    requires Indexed(p) && ops != [] && ops[0].Deliver?
    ensures Run(p, ops) == Run(Received(p, ops[0].tag, ops[0].req), ops[1..])
  {
  }

  /** A run that starts with a flush. */
  lemma RunFlush(p: Pending, ops: seq<Op>)
    requires Indexed(p) && Indexed(Cleared(p)) && ops != [] && ops[0].Flush?
    ensures Run(p, ops) == (Run(Cleared(p), ops[1..]).0, Drains(p) + Run(Cleared(p), ops[1..]).1)
  {
  }

  lemma ArrivedDeliver(ops: seq<Op>, s: string, k: Slot)
    requires ops != [] && ops[0].Deliver?
    ensures Arrived(ops, s, k) == Arrival(ops[0].tag, ops[0].req, s, k) + Arrived(ops[1..], s, k)
  {
  }

  lemma ArrivedFlush(ops: seq<Op>, s: string, k: Slot)
    requires ops != [] && ops[0].Flush?
    ensures Arrived(ops, s, k) == Arrived(ops[1..], s, k)
  {
    assert "" + Arrived(ops[1..], s, k) == Arrived(ops[1..], s, k);
  }

  lemma TakenAppend(a: seq<Drain>, b: seq<Drain>, s: string, k: Slot)
    ensures Taken(a + b, s, k) == Taken(a, s, k) + Taken(b, s, k)
  {
    SelectAppend(a, b, OfSlot(s, k));
    ContentsAppend(Select(a, OfSlot(s, k)), Select(b, OfSlot(s, k)));
  }

  /** Over a whole run, slots stay well formed and no fatal text is ever drained. */
  lemma {:induction false} RunKeepsWellFormed(p: Pending, ops: seq<Op>)
    requires Indexed(p) && WellFormed(p)
    ensures WellFormed(Run(p, ops).0)
    ensures forall d :: d in Run(p, ops).1 ==> d.slot != FatalSlot && d.content != "" && Terminated(d.content)
    decreases |ops|
  {
    if ops != [] {
      var rest := ops[1..];
      match ops[0]
      case Deliver(tag, req) =>
        ReceivedKeepsWellFormed(p, tag, req);
        RunKeepsWellFormed(Received(p, tag, req), rest);
      case Flush =>
        ClearedValid(p);
        RunKeepsWellFormed(Cleared(p), rest);
        DrainsFaithful(p);
        assert Run(p, ops).1 == Drains(p) + Run(Cleared(p), rest).1;
    }
  }

  // ---------------------------------------------------------------
  // Files
  // ---------------------------------------------------------------

  /** The text a sequence of appends adds to one file. */
  function FileText(ws: seq<Write>, file: string): string
  {
    if ws == [] then ""
    else FileText(ws[..|ws| - 1], file) + (if ws[|ws| - 1].file == file then ws[|ws| - 1].content else "")
  }

  lemma {:induction false} FileTextAppend(a: seq<Write>, b: seq<Write>, file: string)
    ensures FileText(a + b, file) == FileText(a, file) + FileText(b, file)
    decreases |b|
  {
    if b == [] {
      assert a + b == a;
    } else {
      var b' := b[..|b| - 1];
      assert (a + b)[..|a + b| - 1] == a + b';
      assert (a + b)[|a + b| - 1] == b[|b| - 1];
      FileTextAppend(a, b', file);
    }
  }

  /** The number of appends: one per drain, and one more for each error or fatal drain. */
  lemma {:induction false} WritesLength(ds: seq<Drain>, date: string)
    ensures |Writes(ds, date)| == |ds| + |Select(ds, Shared)|
    ensures Writes(ds, date) == [] <==> ds == []
  {
    if ds != [] {
      WritesLength(ds[..|ds| - 1], date);
    }
  }

  /**
   * The appends are laid out drain by drain, in drain order: those of the
   * `i`-th drain sit together, the error-file append first when it is an
   * error or fatal drain, then the system file append.
   */
  lemma WritesLayout(ds: seq<Drain>, i: nat, date: string)
    requires i < |ds|
    ensures Writes(ds, date) == Writes(ds[..i], date) + DrainWrites(ds[i], date) + Writes(ds[i + 1..], date)
    ensures var at := |Writes(ds[..i], date)|;
      var d := ds[i];
      if Selects(Shared, d) then
        at + 1 < |Writes(ds, date)| &&
        Writes(ds, date)[at] == Write(ErrorFile(date), d.content) &&
        Writes(ds, date)[at + 1] == Write(FileName(d.system, date), d.content)
      else
        at < |Writes(ds, date)| && Writes(ds, date)[at] == Write(FileName(d.system, date), d.content)
  {
    assert ds == ds[..i] + [ds[i]] + ds[i + 1..];
    WritesAppend(ds[..i] + [ds[i]], ds[i + 1..], date);
    WritesAppend(ds[..i], [ds[i]], date);
    assert Writes([ds[i]], date) == DrainWrites(ds[i], date) by { assert [ds[i]][..0] == []; }
  }

  /** The text one drain adds to a file. */
  lemma DrainFileText(d: Drain, date: string, file: string)
    ensures FileText(DrainWrites(d, date), file)
      == (if Selects(Shared, d) && file == ErrorFile(date) then d.content else "")
       + (if file == FileName(d.system, date) then d.content else "")
  {
    var ws := DrainWrites(d, date);
    if Selects(Shared, d) {
      assert ws[..|ws| - 1] == [ws[0]] && [ws[0]][..0] == [];
      assert FileText(ws, file) == FileText([ws[0]], file) + FileText([ws[1]], file) by {
        FileTextAppend([ws[0]], [ws[1]], file);
        assert ws == [ws[0]] + [ws[1]];
      }
      assert FileText([ws[1]], file) == if ws[1].file == file then d.content else "" by {
        assert [ws[1]][..0] == [];
      }
    } else {
      assert ws[..0] == [];
    }
  }

  /**
   * The file of a system that is not itself called "error" receives exactly
   * that system's drained text, in the order the appends are queued.
   */
  lemma {:induction false} SystemFileText(ds: seq<Drain>, system: string, date: string)
    requires system != "error"
    ensures FileText(Writes(ds, date), FileName(system, date)) == Contents(Select(ds, OfSystem(system)))
  {
    if ds != [] {
      var init := ds[..|ds| - 1];
      var d := ds[|ds| - 1];
      assert ds == init + [d];
      SystemFileText(init, system, date);
      SystemDrainText(d, system, date);
      WritesFileStep(init, d, OfSystem(system), FileName(system, date), date);
    }
  }

  /** One drain adds its text to a system's file exactly when it is that system's drain. */
  lemma SystemDrainText(d: Drain, system: string, date: string)
    requires system != "error"
    ensures FileText(DrainWrites(d, date), FileName(system, date)) == Contents(Select([d], OfSystem(system)))
  {
    var file := FileName(system, date);
    DrainFileText(d, date, file);
    if file == ErrorFile(date) { FileNameInjective(system, "error", date); }
    if file == FileName(d.system, date) { FileNameInjective(system, d.system, date); }
    SelectOne(d, OfSystem(system));
  }

  /**
   * When no system is called "error", the shared error file receives the
   * error and fatal drains of every system and nothing else, in the order
   * the appends are queued.
   */
  lemma {:induction false} ErrorFileText(ds: seq<Drain>, date: string)
    requires forall d :: d in ds ==> d.system != "error"
    ensures FileText(Writes(ds, date), ErrorFile(date)) == Contents(Select(ds, Shared))
  {
    if ds != [] {
      var init := ds[..|ds| - 1];
      var d := ds[|ds| - 1];
      assert ds == init + [d];
      assert d.system != "error";
      ErrorFileText(init, date);
      ErrorDrainText(d, date);
      WritesFileStep(init, d, Shared, ErrorFile(date), date);
    }
  }

  /** One drain from a system not called "error" adds to the error file exactly its shared text. */
  lemma ErrorDrainText(d: Drain, date: string)
    requires d.system != "error"
    ensures FileText(DrainWrites(d, date), ErrorFile(date)) == Contents(Select([d], Shared))
  {
    DrainFileText(d, date, ErrorFile(date));
    if ErrorFile(date) == FileName(d.system, date) { FileNameInjective("error", d.system, date); }
    SelectOne(d, Shared);
  }

  lemma WritesFileStep(init: seq<Drain>, d: Drain, sel: Selector, file: string, date: string)
    requires FileText(Writes(init, date), file) == Contents(Select(init, sel))
    requires FileText(DrainWrites(d, date), file) == Contents(Select([d], sel))
    ensures FileText(Writes(init + [d], date), file) == Contents(Select(init + [d], sel))
  {
    var ds := init + [d];
    assert Writes(ds, date) == Writes(init, date) + DrainWrites(d, date) by {
      assert ds[..|ds| - 1] == init;
    }
    FileTextAppend(Writes(init, date), DrainWrites(d, date), file);
    SelectAppend(init, [d], sel);
    ContentsAppend(Select(init, sel), Select([d], sel));
  }

  /** A system that is itself called "error" writes its data lines into the shared error file. */
  lemma ErrorNamedSystemShares(date: string)
    ensures var ds := [Drain("error", DataSlot, "x\n")];
      Contents(Select(ds, Shared)) == "" && FileText(Writes(ds, date), ErrorFile(date)) == "x\n"
  {
    var d := Drain("error", DataSlot, "x\n");
    SelectOne(d, Shared);
    assert Writes([d], date) == Writes([], date) + DrainWrites(d, date) by { assert [d][..0] == []; }
    assert FileText(Writes([d], date), ErrorFile(date)) == FileText([], ErrorFile(date)) + "x\n" by {
      assert [Write(ErrorFile(date), "x\n")][..0] == [];
    }
  }

  /**
   * Per flush, the system file of `system` receives its data slot and then
   * its error slot (and the fatal slot, always empty in practice), in the
   * order the appends are queued.
   */
  lemma FlushSystemFile(p: Pending, system: string, date: string)
    requires Indexed(p) && system != "error"
    ensures FileText(Writes(Drains(p), date), FileName(system, date))
      == SlotText(p, system, DataSlot) + SlotText(p, system, ErrorSlot) + SlotText(p, system, FatalSlot)
  {
    SystemFileText(Drains(p), system, date);
    FlushDrainsSystem(p.order, p.buffers, system);
    if system in p.buffers {
      EntryContents(system, p.buffers[system]);
    }
  }

  lemma {:induction false} FlushDrainsSystem(order: seq<string>, buffers: map<string, Buffer>, s: string)
    requires forall i, j :: 0 <= i < j < |order| ==> order[i] != order[j]
    ensures Select(FlushDrains(order, buffers), OfSystem(s))
      == if s in order && s in buffers then EntryDrains(s, buffers[s]) else []
  {
    if order != [] {
      var init := order[..|order| - 1];
      var last := order[|order| - 1];
      assert order == init + [last];
      FlushDrainsSystem(init, buffers, s);
      var tail := if last in buffers then EntryDrains(last, buffers[last]) else [];
      SelectAppend(FlushDrains(init, buffers), tail, OfSystem(s));
      if last in buffers {
        EntrySelectSystem(last, buffers[last], Slots, s);
      }
      if s == last {
        assert s !in init;
      }
    }
  }

  lemma {:induction false} EntrySelectSystem(system: string, b: Buffer, slots: seq<Slot>, s: string)
    ensures Select(SlotDrains(system, b, slots), OfSystem(s)) == if s == system then SlotDrains(system, b, slots) else []
  {
    if slots != [] {
      var init := slots[..|slots| - 1];
      var last := slots[|slots| - 1];
      EntrySelectSystem(system, b, init, s);
      SelectAppend(SlotDrains(system, b, init), SlotDrain(system, b, last), OfSystem(s));
      if b.Get(last) != "" {
        SelectOne(Drain(system, last, b.Get(last)), OfSystem(s));
      }
    }
  }

  /** The text of one entry's drains: its data, error and fatal slots in that order. */
  lemma EntryContents(system: string, b: Buffer)
    ensures Contents(EntryDrains(system, b)) == b.data + b.error + b.fatal
  {
    var d0 := SlotDrain(system, b, DataSlot);
    var d1 := SlotDrain(system, b, ErrorSlot);
    var d2 := SlotDrain(system, b, FatalSlot);
    assert Slots[..2] == [DataSlot, ErrorSlot] && Slots[..2][..1] == [DataSlot] && [DataSlot][..0] == [];
    assert SlotDrains(system, b, [DataSlot]) == d0 by {
      assert SlotDrains(system, b, [DataSlot]) == SlotDrains(system, b, []) + d0;
    }
    assert SlotDrains(system, b, [DataSlot, ErrorSlot]) == d0 + d1 by {
      assert [DataSlot, ErrorSlot][..1] == [DataSlot];
    }
    assert EntryDrains(system, b) == d0 + d1 + d2;
    ContentsAppend(d0, d1);
    ContentsAppend(d0 + d1, d2);
    SlotContents(system, b, DataSlot);
    SlotContents(system, b, ErrorSlot);
    SlotContents(system, b, FatalSlot);
  }

  lemma SlotContents(system: string, b: Buffer, slot: Slot)
    ensures Contents(SlotDrain(system, b, slot)) == b.Get(slot)
  {
    if b.Get(slot) != "" {
      SelectOne(Drain(system, slot, b.Get(slot)), Shared);
    }
  }

  // ---------------------------------------------------------------
  // Keys inherited from Object.prototype
  // ---------------------------------------------------------------

  /**
   * The names that `this.pending[name]` finds on `Object.prototype` when
   * the dictionary has no own entry for them (all are functions, hence
   * truthy, and none is enumerable).
   */
  const InheritedNames: set<string> := {
    "constructor", "hasOwnProperty", "isPrototypeOf", "propertyIsEnumerable",
    "toLocaleString", "toString", "valueOf",
    "__defineGetter__", "__defineSetter__", "__lookupGetter__", "__lookupSetter__"
  }

  /**
   * Ingestion as the handler is written: for a system named after an
   * inherited member the `!this.pending[system]` test fails, no entry is
   * created, and the `+=` lands on the inherited function, which `for…in`
   * never visits.
   */
  function ReceivedAsWritten(p: Pending, tag: Severity, req: Envelope): (r: Pending)
    requires Indexed(p)
    ensures Indexed(r)
    ensures req.system !in InheritedNames ==> r == Received(p, tag, req)
  {
    if Handled(tag) && req.system !in p.buffers && req.system in InheritedNames then p
    else Received(p, tag, req)
  }

  /**
   * The line of a system called "constructor" is delivered but no later
   * flush ever takes it, though the collector keeps working.
   */
  lemma InheritedNameLosesLine(p: Pending, tag: Severity, req: Envelope)
    requires Indexed(p) && Handled(tag)
    requires req.system in InheritedNames && req.system !in p.buffers
    ensures var q := ReceivedAsWritten(p, tag, req);
      q == p && Arrival(tag, req, req.system, PendingType(tag)) == req.log + "\n" &&
      Taken(Drains(q), req.system, PendingType(tag)) + SlotText(Cleared(q), req.system, PendingType(tag)) == ""
  {
    DrainsExactlyOnce(p, req.system, PendingType(tag));
  }

  lemma ConstructorLosesLine()
    ensures var p := Pending([], map[]);
      var req := Envelope("constructor", "01", "x");
      ReceivedAsWritten(p, Info, req) == p && Drains(ReceivedAsWritten(p, Info, req)) == [] &&
      SlotText(Received(p, Info, req), "constructor", DataSlot) == "x\n"
  {
    var p := Pending([], map[]);
    var req := Envelope("constructor", "01", "x");
    ReceivedGrowsOneSlot(p, Info, req, "constructor", DataSlot);
  }
}
