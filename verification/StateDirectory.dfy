/** The allocator as the code runs it: files overwritten one after the other. */
module StateDirectories {
  import opened Base
  import opened NapRecord
  import opened NapSequence

  class StateDirectory {
    var slot0: File
    var slot1: File
    var legacy: File

    ghost function Contents(): Disk
      reads this
    {
      Disk(slot0, slot1, legacy)
    }

    constructor (disk: Disk)
      ensures Contents() == disk
    {
      slot0, slot1, legacy := disk.slot0, disk.slot1, disk.legacy;
    }

    /** Truncates the file and writes the text. `rest` is the fault still ahead of the caller. */
    method DurableWrite(w: Write, fault: Fault) returns (alive: bool, rest: Fault)
      modifies this
      ensures alive == !(fault.Dies? && fault.completed == 0)
      ensures alive ==> Contents() == Put(old(Contents()), w)
      ensures alive ==> rest == Later(fault, 1)
      ensures !alive ==> Contents() == if fault.torn.None? then old(Contents())
                                       else Put(old(Contents()), w.Cut(fault.torn.value))
    {
      alive, rest := true, fault;
      var landed := w.text;
      if fault.Dies? {
        if fault.completed == 0 {
          if fault.torn.None? {
            return false, fault;
          }
          alive := false;
          landed := w.Cut(fault.torn.value).text;
        } else {
          rest := Dies(fault.completed - 1, fault.torn);
        }
      }
      match w.name
      case Slot0 => slot0 := Holds(landed);
      case Slot1 => slot1 := Holds(landed);
      case Legacy => legacy := Holds(landed);
    }

    /** A slot write is followed by reading the slot back; the verification cannot fail. */
    method WriteSlot(h: string -> string, name: FileName, n: nat, fault: Fault)
      returns (alive: bool, verified: bool, rest: Fault)
      requires HexDigest(h) && n <= U64_MAX && name != Legacy
      modifies this
      ensures alive == !(fault.Dies? && fault.completed == 0)
      ensures alive ==> verified && Contents() == Put(old(Contents()), SlotWrite(h, name, n))
      ensures alive ==> rest == Later(fault, 1)
      ensures !alive ==> Contents() == if fault.torn.None? then old(Contents())
                                       else Put(old(Contents()), SlotWrite(h, name, n).Cut(fault.torn.value))
    {
      alive, rest := DurableWrite(SlotWrite(h, name, n), fault);
      verified := false;
      if alive {
        SlotWriteReadsBack(h, old(Contents()), name, n);
        var text := if name == Slot0 then slot0 else slot1;
        verified := SlotValue(h, text) == Some(n);
      }
    }

    /** Brings both slots back to the durable number, or copies the legacy number into both. */
    method Recover(h: string -> string, faultIn: Fault)
      returns (alive: bool, fault: Fault, current: nat, value0: nat, value1: nat)
      requires HexDigest(h) && Durable(h, Contents()).Some?
      modifies this
      ensures var d := old(Contents());
              var repairs := Repairs(h, d);
              && alive == !(faultIn.Dies? && faultIn.completed < |repairs|)
              && Contents() == Perform(d, repairs, faultIn).0
              && (!alive ==> !Perform(d, repairs, faultIn).1)
              && (alive ==>
                    && Contents() == Perform(d, repairs, NoFault).0
                    && fault == Later(faultIn, |repairs|)
                    && current == Durable(h, d).value
                    && value0 <= U64_MAX && value1 <= U64_MAX
                    && (value0 <= value1 <==> Slot0First(h, d)))
    {
      hide ParseRecord, MakeRecord, ParseDecimal;
      ghost var d := Contents();
      alive, fault := true, faultIn;
      var verified;
      var slotValue0, slotValue1 := SlotValue(h, slot0), SlotValue(h, slot1);
      if slotValue0.None? && slotValue1.None? {
        current := LegacyValue(legacy).value;
        value0, value1 := current, current;
        assert Repairs(h, d) == [SlotWrite(h, Slot0, current), SlotWrite(h, Slot1, current)];
        assert Repairs(h, d)[1..] == [SlotWrite(h, Slot1, current)];
        alive, verified, fault := WriteSlot(h, Slot0, current, fault);
        if !alive { return; }
        assert Perform(d, Repairs(h, d), faultIn) == Perform(Contents(), Repairs(h, d)[1..], fault);
        assert Perform(d, Repairs(h, d), NoFault) == Perform(Contents(), Repairs(h, d)[1..], NoFault);
        PerformOne(Contents(), SlotWrite(h, Slot1, current), fault);
        PerformOne(Contents(), SlotWrite(h, Slot1, current), NoFault);
        alive, verified, fault := WriteSlot(h, Slot1, current, fault);
      } else if slotValue0.Some? && slotValue1.None? {
        current := slotValue0.value;
        value0, value1 := current, current;
        PerformOne(d, SlotWrite(h, Slot1, current), fault);
        PerformOne(d, SlotWrite(h, Slot1, current), NoFault);
        alive, verified, fault := WriteSlot(h, Slot1, current, fault);
      } else if slotValue0.None? && slotValue1.Some? {
        current := slotValue1.value;
        value0, value1 := current, current;
        PerformOne(d, SlotWrite(h, Slot0, current), fault);
        PerformOne(d, SlotWrite(h, Slot0, current), NoFault);
        alive, verified, fault := WriteSlot(h, Slot0, current, fault);
      } else {
        value0, value1 := slotValue0.value, slotValue1.value;
        current := Max(value0, value1);
      }
    }

    /** Writes the new number into both slots, the older slot first, then into the mirror. */
    method Advance(h: string -> string, slot0First: bool, next: nat, mirror: Mirror, faultIn: Fault)
      returns (outcome: Outcome)
      requires HexDigest(h) && next <= U64_MAX
      modifies this
      ensures var first := SlotWrite(h, if slot0First then Slot0 else Slot1, next);
              var second := SlotWrite(h, if slot0First then Slot1 else Slot0, next);
              var (after, alive) := Perform(old(Contents()), [first, second] + MirrorWrites(next, mirror), faultIn);
              Contents() == after && outcome == if alive then Returned(next) else Died
    {
      hide ParseRecord, MakeRecord;
      var first, second := if slot0First then Slot0 else Slot1, if slot0First then Slot1 else Slot0;
      ghost var todo := [SlotWrite(h, first, next), SlotWrite(h, second, next)] + MirrorWrites(next, mirror);
      ghost var ending := Perform(Contents(), todo, faultIn);
      var alive, verified, fault := WriteSlot(h, first, next, faultIn);
      if !alive { return Died; }
      todo := todo[1..];
      assert ending == Perform(Contents(), todo, fault);
      alive, verified, fault := WriteSlot(h, second, next, fault);
      if !alive { return Died; }
      todo := todo[1..];
      assert ending == Perform(Contents(), todo, fault) && todo == MirrorWrites(next, mirror);
      if mirror != Skipped {
        var full := Write(Legacy, Decimal.ToText(next) + "\n");
        alive, fault := DurableWrite(if mirror.Whole? then full else full.Cut(mirror.bytes), fault);
        if !alive { return Died; }
        todo := todo[1..];
      }
      assert todo == [] && ending == Perform(Contents(), todo, fault);
      outcome := if fault.Dies? && fault.completed == 0 then Died else Returned(next);
    }

    /** Allocates the next sequence number, as the plan of writes says, wherever the machine dies. */
    method Next(h: string -> string, call: Call) returns (outcome: Outcome)
      requires HexDigest(h)
      modifies this
      ensures (Contents(), outcome) == Allocate(h, old(Contents()), call)
    {
      hide ParseRecord, MakeRecord, ParseDecimal, Repairs, MirrorWrites, SlotValue;
      ghost var d := Contents();
      if SlotValue(h, slot0).None? && SlotValue(h, slot1).None? {
        var unreadable := !slot0.Missing? || !slot1.Missing?;
        if unreadable || LegacyValue(legacy).None? {
          if call.fault.Dies? && call.fault.completed == 0 { return Died; }
          outcome := Refused(
            if unreadable then BothSlotsInvalid
            else if legacy.Missing? then LegacyMissing
            else if |legacy.text| > MAX_LEGACY_BYTES then LegacyInvalid(ValueTooLarge)
            else LegacyInvalid(ParseDecimal(legacy.text).error));
          return;
        }
      }
      ghost var rest := Advances(h, d, Durable(h, d).value + 1)
                        + MirrorWrites(Durable(h, d).value + 1, call.mirror);
      PerformAppend(d, Repairs(h, d), rest, call.fault);
      PerformAppend(d, Repairs(h, d), [], call.fault);
      assert Repairs(h, d) + [] == Repairs(h, d);
      assert Repairs(h, d) + rest
          == Repairs(h, d) + Advances(h, d, Durable(h, d).value + 1)
             + MirrorWrites(Durable(h, d).value + 1, call.mirror);
      var alive, fault, current, value0, value1 := Recover(h, call.fault);
      if !alive { return Died; }
      if current == U64_MAX {
        return if fault.Dies? && fault.completed == 0 then Died else Refused(Exhausted);
      }
      outcome := Advance(h, value0 <= value1, current + 1, call.mirror, fault);
    }

    /** Initialises the directory of a newly enrolled identity, wherever the machine dies. */
    method Initialize(h: string -> string, initial: nat, faultIn: Fault) returns (alive: bool)
      requires HexDigest(h) && initial <= U64_MAX
      modifies this
      ensures (Contents(), alive) == Perform(old(Contents()), InitialWrites(h, initial), faultIn)
    {
      hide MakeRecord;
      ghost var todo := InitialWrites(h, initial);
      ghost var ending := Perform(Contents(), todo, faultIn);
      var verified, fault;
      alive, verified, fault := WriteSlot(h, Slot0, initial, faultIn);
      if !alive { return; }
      todo := todo[1..];
      assert ending == Perform(Contents(), todo, fault);
      alive, verified, fault := WriteSlot(h, Slot1, initial, fault);
      if !alive { return; }
      todo := todo[1..];
      assert ending == Perform(Contents(), todo, fault);
      alive, fault := DurableWrite(Write(Legacy, Decimal.ToText(initial) + "\n"), fault);
      if !alive { return; }
      todo := todo[1..];
      assert todo == [] && ending == Perform(Contents(), todo, fault);
      alive := !(fault.Dies? && fault.completed == 0);
    }
  }
}
