/** The crash-safe NAP sequence allocator: two redundant checksummed slots and a legacy mirror.

    The state directory is three files. An allocation is the ordered list of file writes that the
    code performs; a fault lets the machine die before, inside or after any one of them, and a write
    that is cut leaves any prefix of its text. */
module NapSequence {
  import opened Base
  import opened NapRecord

  datatype FileName = Slot0 | Slot1 | Legacy

  datatype File = Missing | Holds(text: string)

  datatype Disk = Disk(slot0: File, slot1: File, legacy: File) {
    function Get(name: FileName): File {
      match name
      case Slot0 => slot0
      case Slot1 => slot1
      case Legacy => legacy
    }
  }

  function Put(d: Disk, w: Write): Disk {
    match w.name
    case Slot0 => d.(slot0 := Holds(w.text))
    case Slot1 => d.(slot1 := Holds(w.text))
    case Legacy => d.(legacy := Holds(w.text))
  }

  datatype Write = Write(name: FileName, text: string) {
    /** The write as it lands when only its first bytes reach the file. */
    function Cut(bytes: nat): Write { Write(name, text[..Min(bytes, |text|)]) }
  }

  /** `Dies(k, torn)`: the machine completes k writes of the call and then dies, having put the first
      `torn` bytes of the next one in place of the file's old text. */
  datatype Fault = NoFault | Dies(completed: nat, torn: Option<nat>)

  /** The legacy mirror is best effort: it may land whole, land cut, or not be opened at all. */
  datatype Mirror = Whole | Partial(bytes: nat) | Skipped

  datatype Refusal = BothSlotsInvalid | LegacyMissing | LegacyInvalid(error: ParseError) | Exhausted

  datatype Outcome = Returned(sequence: nat) | Refused(reason: Refusal) | Died

  datatype Plan = Plan(writes: seq<Write>, outcome: Outcome)

  function SlotValue(h: string -> string, f: File): (r: Option<nat>)
    ensures r.Some? ==> r.value <= U64_MAX
  {
    if f.Missing? then None
    else
      match ParseRecord(h, f.text)
      case Ok(n) => Some(n)
      case Err(_) => None
  }

  /** The legacy file is refused above its byte limit before it is parsed. */
  function LegacyValue(f: File): (r: Option<nat>)
    ensures r.Some? ==> r.value <= U64_MAX
  {
    if f.Missing? || |f.text| > MAX_LEGACY_BYTES then None
    else
      match ParseDecimal(f.text)
      case Ok(n) => Some(n)
      case Err(_) => None
  }

  /** The number the state directory stands for, or `None` when nothing in it can be trusted. */
  function Durable(h: string -> string, d: Disk): (r: Option<nat>)
    ensures r.Some? ==> r.value <= U64_MAX
  {
    match (SlotValue(h, d.slot0), SlotValue(h, d.slot1))
    case (Some(a), Some(b)) => Some(Max(a, b))
    case (Some(a), None) => Some(a)
    case (None, Some(b)) => Some(b)
    case (None, None) => if d.slot0.Missing? && d.slot1.Missing? then LegacyValue(d.legacy) else None
  }

  predicate SomeSlotParses(h: string -> string, d: Disk) {
    SlotValue(h, d.slot0).Some? || SlotValue(h, d.slot1).Some?
  }

  function SlotWrite(h: string -> string, name: FileName, n: nat): Write {
    Write(name, MakeRecord(h, n))
  }

  /** The repair or migration writes that come before the new number is written. */
  function Repairs(h: string -> string, d: Disk): (r: seq<Write>)
    requires Durable(h, d).Some?
  {
    var current := Durable(h, d).value;
    match (SlotValue(h, d.slot0), SlotValue(h, d.slot1))
    case (Some(_), Some(_)) => []
    case (Some(_), None) => [SlotWrite(h, Slot1, current)]
    case (None, Some(_)) => [SlotWrite(h, Slot0, current)]
    case (None, None) => [SlotWrite(h, Slot0, current), SlotWrite(h, Slot1, current)]
  }

  function MirrorWrites(n: nat, mirror: Mirror): seq<Write> {
    var full := Write(Legacy, Decimal.ToText(n) + "\n");
    match mirror
    case Whole => [full]
    case Partial(bytes) => [full.Cut(bytes)]
    case Skipped => []
  }

  /** The older of two readable slots is written first, slot 0 on a tie. */
  predicate Slot0First(h: string -> string, d: Disk) {
    match (SlotValue(h, d.slot0), SlotValue(h, d.slot1))
    case (Some(a), Some(b)) => a <= b
    case _ => true
  }

  function Advances(h: string -> string, d: Disk, next: nat): seq<Write> {
    if Slot0First(h, d) then [SlotWrite(h, Slot0, next), SlotWrite(h, Slot1, next)]
    else [SlotWrite(h, Slot1, next), SlotWrite(h, Slot0, next)]
  }

  function RefusalOf(h: string -> string, d: Disk): Refusal
    requires Durable(h, d).None?
  {
    if !d.slot0.Missing? || !d.slot1.Missing? then BothSlotsInvalid
    else if d.legacy.Missing? then LegacyMissing
    else if |d.legacy.text| > MAX_LEGACY_BYTES then LegacyInvalid(ValueTooLarge)
    else LegacyInvalid(ParseDecimal(d.legacy.text).error)
  }

  /** What one allocation sets out to write, in order, and what it answers if it survives. */
  function AllocationPlan(h: string -> string, d: Disk, mirror: Mirror): Plan {
    if Durable(h, d).None? then Plan([], Refused(RefusalOf(h, d)))
    else
      var current := Durable(h, d).value;
      if current == U64_MAX then Plan(Repairs(h, d), Refused(Exhausted))
      else
        Plan(Repairs(h, d) + Advances(h, d, current + 1) + MirrorWrites(current + 1, mirror),
             Returned(current + 1))
  }

  /** What is left of a fault once k more writes are done. */
  function Later(fault: Fault, k: nat): Fault
    requires fault.Dies? ==> k <= fault.completed
  {
    if fault.Dies? then Dies(fault.completed - k, fault.torn) else NoFault
  }

  /** The disk after a list of writes under a fault, and whether the machine is still alive. */
  function Perform(d: Disk, writes: seq<Write>, fault: Fault): (r: (Disk, bool))
    decreases |writes|
  {
    if writes == [] then (d, !(fault.Dies? && fault.completed == 0))
    else if fault.Dies? && fault.completed == 0 then
      (if fault.torn.None? then d else Put(d, writes[0].Cut(fault.torn.value)), false)
    else
      Perform(Put(d, writes[0]), writes[1..],
              Later(fault, 1))
  }

  lemma PerformOne(d: Disk, w: Write, fault: Fault)
    ensures Perform(d, [w], fault)
            == if fault.Dies? && fault.completed == 0
               then (if fault.torn.None? then d else Put(d, w.Cut(fault.torn.value)), false)
               else (Put(d, w), !(fault.Dies? && fault.completed == 1))
  {
    assert [w][1..] == [];
  }

  datatype Call = Call(fault: Fault, mirror: Mirror)

  function Allocate(h: string -> string, d: Disk, call: Call): (r: (Disk, Outcome)) {
    var plan := AllocationPlan(h, d, call.mirror);
    var (after, alive) := Perform(d, plan.writes, call.fault);
    (after, if alive then plan.outcome else Died)
  }

  // ---------- One write at a time ----------

  lemma SlotWriteReadsBack(h: string -> string, d: Disk, name: FileName, n: nat)
    requires HexDigest(h) && n <= U64_MAX && name != Legacy
    ensures SlotValue(h, Put(d, SlotWrite(h, name, n)).Get(name)) == Some(n)
  {
    RecordRoundTrip(h, n);
  }

  /** A slot write cut anywhere leaves a slot that is unreadable or already holds the new number. */
  lemma CutSlotWrite(h: string -> string, d: Disk, name: FileName, n: nat, bytes: nat)
    requires HexDigest(h) && n <= U64_MAX && name != Legacy
    ensures var f := Put(d, SlotWrite(h, name, n).Cut(bytes)).Get(name);
            SlotValue(h, f) == if bytes < |MakeRecord(h, n)| then None else Some(n)
  {
    var record := MakeRecord(h, n);
    if bytes < |record| {
      NoProperPrefixAccepted(h, n, bytes);
    } else {
      assert record[..|record|] == record;
      RecordRoundTrip(h, n);
    }
  }

  /** A write that cannot lose the number c, wherever it is cut: it does not touch the slots, or it
      puts c or c + 1 into one slot while the other slot is readable and already holds c or c + 1. */
  ghost predicate SafeWrite(h: string -> string, d: Disk, w: Write, c: nat) {
    || w.name == Legacy
    || (&& (w == SlotWrite(h, w.name, c) || (c < U64_MAX && w == SlotWrite(h, w.name, c + 1)))
        && var other := SlotValue(h, d.Get(if w.name == Slot0 then Slot1 else Slot0));
           other.Some? && c <= other.value <= c + 1)
  }

  /** The slots hold c or c + 1: some slot is readable and no readable slot is above c + 1. */
  ghost predicate Holding(h: string -> string, d: Disk, c: nat) {
    SomeSlotParses(h, d) && c <= Durable(h, d).value <= c + 1
  }

  lemma SafeWriteHolds(h: string -> string, d: Disk, w: Write, c: nat, bytes: nat)
    requires HexDigest(h) && Holding(h, d, c) && SafeWrite(h, d, w, c)
    ensures Holding(h, Put(d, w), c) && Holding(h, Put(d, w.Cut(bytes)), c)
  {
    hide ParseRecord, MakeRecord;
    if w.name != Legacy {
      var n := if w == SlotWrite(h, w.name, c) then c else c + 1;
      SlotWriteReadsBack(h, d, w.name, n);
      CutSlotWrite(h, d, w.name, n, bytes);
    }
  }

  ghost predicate SafeWrites(h: string -> string, d: Disk, writes: seq<Write>, c: nat)
    decreases |writes|
  {
    writes == [] || (SafeWrite(h, d, writes[0], c) && SafeWrites(h, Put(d, writes[0]), writes[1..], c))
  }

  /** A list of safe writes keeps the number wherever the machine dies. */
  lemma {:induction false} SafeWritesHold(h: string -> string, d: Disk, writes: seq<Write>, c: nat, fault: Fault)
    requires HexDigest(h) && Holding(h, d, c) && SafeWrites(h, d, writes, c)
    ensures Holding(h, Perform(d, writes, fault).0, c)
    decreases |writes|
  {
    hide ParseRecord, MakeRecord, SafeWrite, Holding;
    if writes != [] {
      SafeWriteHolds(h, d, writes[0], c, if fault.Dies? then fault.torn.GetOr(0) else 0);
      if !(fault.Dies? && fault.completed == 0) {
        SafeWritesHold(h, Put(d, writes[0]), writes[1..], c,
                       Later(fault, 1));
      }
    }
  }

  lemma AliveMeansComplete(d: Disk, writes: seq<Write>, fault: Fault)
    requires Perform(d, writes, fault).1
    ensures Perform(d, writes, fault).0 == Perform(d, writes, NoFault).0
    decreases |writes|
  {
    if writes != [] {
      AliveMeansComplete(Put(d, writes[0]), writes[1..],
                         Later(fault, 1));
    }
  }

  // ---------- One allocation ----------

  /** When a slot is readable, every write of an allocation is safe, and an allocation that gets to
      its end leaves the new number in both slots. */
  lemma AllocationIsSafe(h: string -> string, d: Disk, mirror: Mirror)
    requires HexDigest(h) && SomeSlotParses(h, d)
    ensures var c := Durable(h, d).value;
            var plan := AllocationPlan(h, d, mirror);
            && SafeWrites(h, d, plan.writes, c)
            && var after := Perform(d, plan.writes, NoFault).0;
               var settled := if c == U64_MAX then c else c + 1;
               c < U64_MAX ==> SlotValue(h, after.slot0) == SlotValue(h, after.slot1) == Some(settled)
  {
    hide ParseRecord, MakeRecord, SafeWrite, SafeWrites, Perform, Repairs, Advances, MirrorWrites, SlotValue, Slot0First;
    var c := Durable(h, d).value;
    var d1 := Perform(d, Repairs(h, d), NoFault).0;
    RepairsAreSafe(h, d);
    if c < U64_MAX {
      var advances := Advances(h, d, c + 1);
      AdvancesAreSafe(h, d, d1, c);
      var tail := MirrorWrites(c + 1, mirror);
      var d2 := Perform(d1, advances, NoFault).0;
      MirrorIsSafe(h, d2, c, mirror);
      PerformAppend(d1, advances, tail, NoFault);
      SafeAppend(h, d1, advances, tail, c);
      PerformAppend(d, Repairs(h, d), advances + tail, NoFault);
      SafeAppend(h, d, Repairs(h, d), advances + tail, c);
      assert Repairs(h, d) + advances + tail == Repairs(h, d) + (advances + tail);
    }
  }

  lemma RepairsAreSafe(h: string -> string, d: Disk)
    requires HexDigest(h) && SomeSlotParses(h, d)
    ensures var c := Durable(h, d).value;
            var after := Perform(d, Repairs(h, d), NoFault).0;
            && SafeWrites(h, d, Repairs(h, d), c)
            && SlotValue(h, after.slot0).Some? && SlotValue(h, after.slot1).Some?
            && Durable(h, after).value == c
            && Slot0First(h, d) == Slot0First(h, after)
  {
    hide ParseRecord, MakeRecord, ParseDecimal;
    var c := Durable(h, d).value;
    SlotWriteReadsBack(h, d, Slot0, c);
    SlotWriteReadsBack(h, d, Slot1, c);
  }

  /** `d1` is the directory with both slots readable; the older slot goes first. */
  lemma AdvancesAreSafe(h: string -> string, d: Disk, d1: Disk, c: nat)
    requires HexDigest(h) && c < U64_MAX
    requires SlotValue(h, d1.slot0).Some? && SlotValue(h, d1.slot1).Some? && Durable(h, d1).value == c
    requires Slot0First(h, d) == Slot0First(h, d1)
    ensures var after := Perform(d1, Advances(h, d, c + 1), NoFault).0;
            && SafeWrites(h, d1, Advances(h, d, c + 1), c)
            && SlotValue(h, after.slot0) == SlotValue(h, after.slot1) == Some(c + 1)
  {
    hide ParseRecord, MakeRecord, ParseDecimal;
    var writes := Advances(h, d, c + 1);
    var d2 := Put(d1, writes[0]);
    SlotWriteReadsBack(h, d1, writes[0].name, c + 1);
    SlotWriteReadsBack(h, d2, writes[1].name, c + 1);
    assert SafeWrite(h, d1, writes[0], c) && SafeWrite(h, d2, writes[1], c);
    assert writes[1..] == [writes[1]] && writes[1..][1..] == [];
    assert SafeWrites(h, d2, writes[1..], c);
    assert Perform(d1, writes, NoFault) == Perform(d2, writes[1..], NoFault) == (Put(d2, writes[1]), true);
  }

  lemma MirrorIsSafe(h: string -> string, d: Disk, c: nat, mirror: Mirror)
    ensures var writes := MirrorWrites(c + 1, mirror);
            var after := Perform(d, writes, NoFault).0;
            SafeWrites(h, d, writes, c) && after.slot0 == d.slot0 && after.slot1 == d.slot1
  {
  }

  lemma {:induction false} PerformAppend(d: Disk, a: seq<Write>, b: seq<Write>, fault: Fault)
    ensures Perform(d, a + b, fault)
            == if fault.Dies? && fault.completed < |a| then Perform(d, a, fault)
               else Perform(Perform(d, a, NoFault).0, b, Later(fault, |a|))
    decreases |a|
  {
    if a == [] {
      assert a + b == b;
    } else {
      assert (a + b)[1..] == a[1..] + b;
      if !(fault.Dies? && fault.completed == 0) {
        PerformAppend(Put(d, a[0]), a[1..], b, Later(fault, 1));
      }
    }
  }

  lemma {:induction false} SafeAppend(h: string -> string, d: Disk, a: seq<Write>, b: seq<Write>, c: nat)
    requires SafeWrites(h, d, a, c) && SafeWrites(h, Perform(d, a, NoFault).0, b, c)
    ensures SafeWrites(h, d, a + b, c)
    decreases |a|
  {
    hide SafeWrite;
    if a == [] {
      assert a + b == b;
    } else {
      assert (a + b)[1..] == a[1..] + b;
      SafeAppend(h, Put(d, a[0]), a[1..], b, c);
    }
  }

  /** One allocation from a directory with a readable slot, under any fault: a slot stays readable,
      the number moves by at most one, and a number that is handed out is the next one, already in
      both slots. */
  lemma AllocationStep(h: string -> string, d: Disk, call: Call)
    requires HexDigest(h) && SomeSlotParses(h, d)
    ensures var c := Durable(h, d).value;
            var (after, outcome) := Allocate(h, d, call);
            && Holding(h, after, c) && Durable(h, after).Some?
            && (outcome.Returned? ==>
                  && outcome.sequence == c + 1
                  && SlotValue(h, after.slot0) == SlotValue(h, after.slot1) == Some(c + 1))
  {
    hide ParseRecord, MakeRecord, ParseDecimal;
    var c := Durable(h, d).value;
    var plan := AllocationPlan(h, d, call.mirror);
    AllocationIsSafe(h, d, call.mirror);
    SafeWritesHold(h, d, plan.writes, c, call.fault);
    if Allocate(h, d, call).1.Returned? {
      AliveMeansComplete(d, plan.writes, call.fault);
    }
  }

  /** The first allocation of a directory that has only the legacy file. It behaves like any other
      allocation unless the machine dies inside the very first slot write: then the directory is
      refused from there on, and no number was handed out. */
  lemma MigrationStep(h: string -> string, d: Disk, call: Call)
    requires HexDigest(h) && !SomeSlotParses(h, d) && Durable(h, d).Some?
    ensures var c := Durable(h, d).value;
            var (after, outcome) := Allocate(h, d, call);
            var lost := call.fault.Dies? && call.fault.completed == 0 && call.fault.torn.Some?
                        && call.fault.torn.value < |MakeRecord(h, c)|;
            && (lost <==> Durable(h, after).None?)
            && (lost ==> outcome == Died)
            && (Durable(h, after).Some? ==> c <= Durable(h, after).value <= c + 1)
            && (outcome.Returned? ==> outcome.sequence == c + 1 && Durable(h, after) == Some(c + 1) && SomeSlotParses(h, after))
  {
    hide ParseRecord, MakeRecord, ParseDecimal;
    var c := Durable(h, d).value;
    var plan := AllocationPlan(h, d, call.mirror);
    var w := plan.writes[0];
    assert w == SlotWrite(h, Slot0, c);
    if call.fault.Dies? && call.fault.completed == 0 {
      if call.fault.torn.Some? {
        CutSlotWrite(h, d, Slot0, c, call.fault.torn.value);
      }
    } else {
      var d1 := Put(d, w);
      SlotWriteReadsBack(h, d, Slot0, c);
      var rest := Later(call.fault, 1);
      assert Durable(h, d1) == Some(c);
      assert plan.writes[1..] == AllocationPlan(h, d1, call.mirror).writes;
      assert Allocate(h, d, call) == Allocate(h, d1, Call(rest, call.mirror));
      AllocationStep(h, d1, Call(rest, call.mirror));
    }
  }

  /** A directory that nothing can be read from refuses every allocation and is left as it is. */
  lemma UnreadableStaysUnreadable(h: string -> string, d: Disk, call: Call)
    requires Durable(h, d).None?
    ensures Allocate(h, d, call).0 == d && !Allocate(h, d, call).1.Returned?
  {
  }

  // ---------- Runs ----------

  /** A run of allocations: the final directory and the numbers handed out, in order. */
  function Run(h: string -> string, d: Disk, calls: seq<Call>): (r: (Disk, seq<nat>))
    decreases |calls|
  {
    if calls == [] then (d, [])
    else
      var (after, outcome) := Allocate(h, d, calls[0]);
      var (last, numbers) := Run(h, after, calls[1..]);
      (last, if outcome.Returned? then [outcome.sequence] + numbers else numbers)
  }

  ghost predicate StrictlyIncreasing(s: seq<nat>) { forall i, j | 0 <= i < j < |s| :: s[i] < s[j] }

  ghost predicate AllWithin(s: seq<nat>, low: int, high: int) { forall i | 0 <= i < |s| :: low < s[i] <= high }

  lemma PutFirst(x: nat, s: seq<nat>, low: int, high: int)
    requires StrictlyIncreasing(s) && AllWithin(s, x, high) && low < x <= high
    ensures StrictlyIncreasing([x] + s) && AllWithin([x] + s, low, high)
  {
  }

  lemma Widen(s: seq<nat>, low: int, high: int, low': int, high': int)
    requires AllWithin(s, low, high) && low' <= low && high <= high'
    ensures AllWithin(s, low', high')
  {
  }

  /** What a run of `calls` allocations may do to a directory that stands for `before`. */
  ghost predicate RunSound(before: Option<nat>, after: Option<nat>, numbers: seq<nat>, calls: nat) {
    && StrictlyIncreasing(numbers)
    && (before.None? ==> after.None? && numbers == [])
    && (before.Some? ==>
          && AllWithin(numbers, before.value, before.value + calls)
          && (after.Some? ==>
                && before.value <= after.value <= before.value + calls
                && AllWithin(numbers, before.value, after.value)))
  }

  /** Every run from every directory, with a fault in every call: the numbers handed out strictly
      increase and lie above the number the directory stood for. The directory never falls behind a
      number that was handed out, and moves by at most one per call. A readable slot stays. */
  lemma {:induction false} NumbersNeverRepeat(h: string -> string, d: Disk, calls: seq<Call>)
    requires HexDigest(h)
    ensures var (last, numbers) := Run(h, d, calls);
            && RunSound(Durable(h, d), Durable(h, last), numbers, |calls|)
            && (SomeSlotParses(h, d) ==> SomeSlotParses(h, last))
    decreases |calls|
  {
    hide Allocate, Durable, SomeSlotParses, AllWithin, StrictlyIncreasing;
    if calls == [] {
      NothingWithin(Durable(h, d).GetOr(0), Durable(h, d).GetOr(0));
    } else {
      OneCall(h, d, calls[0]);
      var (after, outcome) := Allocate(h, d, calls[0]);
      var (last, numbers) := Run(h, after, calls[1..]);
      NumbersNeverRepeat(h, after, calls[1..]);
      if Durable(h, d).Some? {
        var b := Durable(h, d).value;
        if Durable(h, after).Some? {
          var m := Durable(h, after).value;
          var ceiling := Durable(h, last).GetOr(b + |calls|);
          Widen(numbers, m, m + |calls| - 1, m, b + |calls|);
          Widen(numbers, m, b + |calls|, b, b + |calls|);
          if Durable(h, last).Some? {
            Widen(numbers, m, ceiling, b, ceiling);
          }
          if outcome.Returned? {
            PutFirst(b + 1, numbers, b, ceiling);
            PutFirst(b + 1, numbers, b, b + |calls|);
          }
        } else {
          NothingWithin(b, b + |calls|);
        }
      }
    }
  }

  lemma NothingWithin(low: int, high: int)
    ensures AllWithin([], low, high) && StrictlyIncreasing([])
  {
  }

  /** One call from any directory, whatever its state. */
  lemma OneCall(h: string -> string, d: Disk, call: Call)
    requires HexDigest(h)
    ensures var (after, outcome) := Allocate(h, d, call);
            && (SomeSlotParses(h, d) ==> SomeSlotParses(h, after) && Durable(h, d).Some? && Durable(h, after).Some?)
            && (Durable(h, d).None? ==> Durable(h, after).None? && !outcome.Returned?)
            && (Durable(h, d).Some? && Durable(h, after).Some? ==>
                  Durable(h, d).value <= Durable(h, after).value <= Durable(h, d).value + 1)
            && (outcome.Returned? ==>
                  && outcome.sequence == Durable(h, d).value + 1
                  && Durable(h, after) == Some(outcome.sequence) && SomeSlotParses(h, after))
  {
    hide ParseRecord, MakeRecord, ParseDecimal, Allocate, SlotValue, LegacyValue;
    if Durable(h, d).None? {
      UnreadableStaysUnreadable(h, d, call);
    } else if SomeSlotParses(h, d) {
      AllocationStep(h, d, call);
    } else {
      MigrationStep(h, d, call);
    }
  }

  /** The directory left by a completed initialisation. */
  function Initialized(h: string -> string, initial: nat): Disk {
    Disk(Holds(MakeRecord(h, initial)), Holds(MakeRecord(h, initial)), Holds(Decimal.ToText(initial) + "\n"))
  }

  function InitialWrites(h: string -> string, initial: nat): seq<Write> {
    [SlotWrite(h, Slot0, initial), SlotWrite(h, Slot1, initial), Write(Legacy, Decimal.ToText(initial) + "\n")]
  }

  /** The first slot gets its whole record before the machine dies. */
  predicate FirstLands(h: string -> string, initial: nat, fault: Fault) {
    fault.Dies? && fault.completed == 0 ==> fault.torn.Some? && fault.torn.value >= |MakeRecord(h, initial)|
  }

  /** The machine dies before it touches the second slot. */
  predicate SecondKept(fault: Fault) {
    fault.Dies? && (fault.completed == 0 || (fault.completed == 1 && fault.torn.None?))
  }

  /** Initialisation over any directory, cut anywhere, and the number it leaves: the old one if nothing was
      written; what the second slot held if the first one is torn; the larger of that and the initial number
      while the second slot is untouched; the initial number from then on. */
  lemma InitialisationCut(h: string -> string, d: Disk, initial: nat, fault: Fault)
    requires HexDigest(h) && initial <= U64_MAX
    ensures var (after, alive) := Perform(d, InitialWrites(h, initial), fault);
            && (alive ==> after == Initialized(h, initial))
            && Durable(h, after)
               == if fault.Dies? && fault.completed == 0 && fault.torn.None? then Durable(h, d)
                  else if !FirstLands(h, initial, fault) then SlotValue(h, d.slot1)
                  else if SecondKept(fault) then Some(Max(initial, SlotValue(h, d.slot1).GetOr(0)))
                  else Some(initial)
  {
    hide ParseRecord, MakeRecord, ParseDecimal, Perform, LegacyValue;
    var writes := InitialWrites(h, initial);
    var d1 := Put(d, writes[0]);
    SlotWriteReadsBack(h, d, Slot0, initial);
    if fault.Dies? && fault.completed == 0 {
      CutOff(d, writes, fault);
      CutSlotWrite(h, d, Slot0, initial, fault.torn.GetOr(0));
    } else {
      GoesOn(d, writes, fault);
      SecondCut(h, d1, initial, Later(fault, 1));
    }
  }

  lemma CutOff(d: Disk, writes: seq<Write>, fault: Fault)
    requires writes != [] && fault.Dies? && fault.completed == 0
    ensures Perform(d, writes, fault) == (if fault.torn.None? then d else Put(d, writes[0].Cut(fault.torn.value)), false)
  {
  }

  lemma GoesOn(d: Disk, writes: seq<Write>, fault: Fault)
    requires writes != [] && !(fault.Dies? && fault.completed == 0)
    ensures Perform(d, writes, fault) == Perform(Put(d, writes[0]), writes[1..], Later(fault, 1))
  {
  }

  lemma SecondCut(h: string -> string, d: Disk, initial: nat, fault: Fault)
    requires HexDigest(h) && initial <= U64_MAX && d.slot0 == Holds(MakeRecord(h, initial))
    requires SlotValue(h, d.slot0) == Some(initial)
    ensures var (after, alive) := Perform(d, InitialWrites(h, initial)[1..], fault);
            && (alive ==> after == Initialized(h, initial))
            && Durable(h, after)
               == if fault.Dies? && fault.completed == 0 && fault.torn.None?
                  then Some(Max(initial, SlotValue(h, d.slot1).GetOr(0))) else Some(initial)
  {
    hide ParseRecord, MakeRecord, ParseDecimal, Perform, LegacyValue;
    var writes := InitialWrites(h, initial)[1..];
    var d1 := Put(d, writes[0]);
    SlotWriteReadsBack(h, d, Slot1, initial);
    if fault.Dies? && fault.completed == 0 {
      CutOff(d, writes, fault);
      CutSlotWrite(h, d, Slot1, initial, fault.torn.GetOr(0));
    } else {
      GoesOn(d, writes, fault);
      assert writes[1..] == [Write(Legacy, Decimal.ToText(initial) + "\n")];
      PerformOne(d1, writes[1], Later(fault, 1));
    }
  }

  /** A new directory can allocate after its initialisation was cut if and only if the record of the first slot
      is whole, and then it goes on from the initial number. */
  lemma NewDirectoryAllocatesIff(h: string -> string, initial: nat, fault: Fault, mirror: Mirror)
    requires HexDigest(h) && initial < U64_MAX
    ensures var after := Perform(Disk(Missing, Missing, Missing), InitialWrites(h, initial), fault).0;
            var outcome := Allocate(h, after, Call(NoFault, mirror)).1;
            if FirstLands(h, initial, fault) then outcome == Returned(initial + 1) else outcome.Refused?
  {
    hide ParseRecord, MakeRecord, ParseDecimal, Perform, Allocate, InitialWrites;
    var d := Disk(Missing, Missing, Missing);
    InitialisationCut(h, d, initial, fault);
    InspectionPredictsAllocation(h, Perform(d, InitialWrites(h, initial), fault).0, mirror);
  }

  /** From an initialised directory every run keeps a readable slot and hands out increasing numbers,
      the n-th of which is at least n above the start, and none more than the number of calls above it. */
  lemma RunsFromInitialisation(h: string -> string, initial: nat, calls: seq<Call>)
    requires HexDigest(h) && initial <= U64_MAX
    ensures var (last, numbers) := Run(h, Initialized(h, initial), calls);
            && SomeSlotParses(h, last)
            && StrictlyIncreasing(numbers)
            && AllWithin(numbers, initial, initial + |calls|)
            && (forall n | 0 <= n < |numbers| :: numbers[n] >= initial + n + 1)
            && Durable(h, last).value <= initial + |calls|
  {
    hide ParseRecord, MakeRecord, ParseDecimal, Run;
    RecordRoundTrip(h, initial);
    NumbersNeverRepeat(h, Initialized(h, initial), calls);
    var numbers := Run(h, Initialized(h, initial), calls).1;
    forall n: nat | n < |numbers| ensures numbers[n] >= initial + n + 1 {
      AtLeast(numbers, initial, initial + |calls|, n);
    }
  }

  lemma {:induction false} AtLeast(numbers: seq<nat>, low: int, high: int, n: nat)
    requires StrictlyIncreasing(numbers) && AllWithin(numbers, low, high) && n < |numbers|
    ensures numbers[n] >= low + n + 1
  {
    if n > 0 {
      AtLeast(numbers, low, high, n - 1);
    }
  }

  // ---------- Inspection ----------

  datatype Health = Healthy | Recovered | LegacyMigrationRequired | Unrecoverable

  datatype Status = Status(health: Health, sequence: Option<nat>, slot0Valid: bool, slot1Valid: bool, legacyValid: bool)

  function Inspect(h: string -> string, d: Disk): Status {
    var slot0 := SlotValue(h, d.slot0);
    var slot1 := SlotValue(h, d.slot1);
    var legacy := LegacyValue(d.legacy);
    if slot0.Some? && slot1.Some? then
      Status(Healthy, Some(Max(slot0.value, slot1.value)), true, true, legacy.Some?)
    else if slot0.Some? || slot1.Some? then
      Status(Recovered, Some(if slot0.Some? then slot0.value else slot1.value), slot0.Some?, slot1.Some?, legacy.Some?)
    else if d.slot0.Missing? && d.slot1.Missing? && legacy.Some? then
      Status(LegacyMigrationRequired, legacy, false, false, true)
    else Status(Unrecoverable, None, false, false, legacy.Some?)
  }

  /** Inspection predicts the next allocation: an undisturbed allocation hands out exactly the number
      after the one inspection shows, and it is refused exactly when inspection shows none or the last. */
  lemma InspectionPredictsAllocation(h: string -> string, d: Disk, mirror: Mirror)
    requires HexDigest(h)
    ensures var status := Inspect(h, d);
            var (after, outcome) := Allocate(h, d, Call(NoFault, mirror));
            && (status.health == Unrecoverable <==> status.sequence.None?)
            && (if status.sequence.Some? && status.sequence.value < U64_MAX
                then outcome == Returned(status.sequence.value + 1)
                     && Inspect(h, after).(legacyValid := false)
                        == Status(Healthy, Some(status.sequence.value + 1), true, true, false)
                else outcome.Refused?
                     && (outcome == Refused(Exhausted) <==> status.sequence == Some(U64_MAX)))
  {
    hide ParseRecord, MakeRecord;
    var call := Call(NoFault, mirror);
    assert Inspect(h, d).sequence == Durable(h, d);
    NoFaultSurvives(d, AllocationPlan(h, d, mirror).writes);
    if Durable(h, d).Some? {
      if SomeSlotParses(h, d) {
        AllocationStep(h, d, call);
      } else {
        var c := Durable(h, d).value;
        var w := SlotWrite(h, Slot0, c);
        var d1 := Put(d, w);
        SlotWriteReadsBack(h, d, Slot0, c);
        assert AllocationPlan(h, d, mirror).writes[1..] == AllocationPlan(h, d1, mirror).writes;
        assert Allocate(h, d, call) == Allocate(h, d1, call);
        AllocationStep(h, d1, call);
      }
    }
  }

  /** And the state inspection shows is the number of repairs the next allocation begins with. */
  lemma InspectionPredictsRepairs(h: string -> string, d: Disk)
    ensures var status := Inspect(h, d);
            && (status.health == Unrecoverable <==> Durable(h, d).None?)
            && (Durable(h, d).Some? ==>
                  && (status.health == Healthy <==> |Repairs(h, d)| == 0)
                  && (status.health == Recovered <==> |Repairs(h, d)| == 1)
                  && (status.health == LegacyMigrationRequired <==> |Repairs(h, d)| == 2)
                  && (status.slot0Valid <==> forall w | w in Repairs(h, d) :: w.name != Slot0)
                  && (status.slot1Valid <==> forall w | w in Repairs(h, d) :: w.name != Slot1))
            && (status.legacyValid <==> Durable(h, Disk(Missing, Missing, d.legacy)).Some?)
  {
    hide ParseRecord, MakeRecord, ParseDecimal;
    if Durable(h, d).Some? {
      var repairs := Repairs(h, d);
      assert !Inspect(h, d).slot0Valid ==> repairs[0].name == Slot0;
      assert !Inspect(h, d).slot1Valid ==> repairs[|repairs| - 1].name == Slot1;
    }
  }

  lemma NoFaultSurvives(d: Disk, writes: seq<Write>)
    ensures Perform(d, writes, NoFault).1
    decreases |writes|
  {
  }
}
