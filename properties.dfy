/** What the semantics promises: ticks, arithmetic, the bus instructions and the three regions. */
module Properties {
  import opened Results
  import opened Words
  import opened Isa
  import opened Bus
  import opened Semantics

  // ---------------------------------------------------------------- tick

  /** A tick at the largest counter value panics in the increment and changes nothing. */
  lemma StepCounterOverflow(m: Machine, devices: seq<Device>, reader: DeviceReader)
    requires m.x == WORD_MAX
    ensures Step(m, devices, reader) == Transition(m, Err(Panic(CounterOverflow)))
  {
  }

  /**
   * A tick whose decode fails reports the decoder's error and changes nothing but the
   * already incremented `x`.
   */
  lemma StepDecodeFailure(m: Machine, devices: seq<Device>, reader: DeviceReader)
    requires m.x < WORD_MAX && Decode(m.program, m.x + 1).Err?
    ensures Step(m, devices, reader) == Transition(m.(x := m.x + 1), Err(Decode(m.program, m.x + 1).error))
  {
  }

  /** Once `x` has passed the last program byte, every tick reports `OutOfInstructions`. */
  lemma StepOutOfInstructions(m: Machine, devices: seq<Device>, reader: DeviceReader)
    requires |m.program| <= m.x < WORD_MAX
    ensures Step(m, devices, reader) == Transition(m.(x := m.x + 1), Err(OutOfInstructions(m.x + 1)))
  {
  }

  /**
   * A tick that decodes executes what it decoded at index `x` (the byte before the
   * incremented counter) on the state with the incremented counter.
   */
  lemma StepExecutesDecoded(m: Machine, devices: seq<Device>, reader: DeviceReader, inst: Instruction)
    requires m.x < WORD_MAX && Decode(m.program, m.x + 1) == Ok(inst)
    ensures var t := Step(m, devices, reader);
      t == Commit(m.(x := m.x + 1), Execute(m.(x := m.x + 1), devices, reader, inst))
  {
  }

  /**
   * The counter moves by one also past an instruction with an operand, so the next tick
   * takes the operand's first byte, at index `x + 1`, as its opcode.
   */
  lemma StepDoesNotSkipOperand(m: Machine, devices: seq<Device>, reader: DeviceReader)
    requires m.x + 1 < WORD_MAX && m.x < |m.program| && m.program[m.x] in OPERAND_OPCODES
    requires Decode(m.program, m.x + 1).Ok?
    ensures var t := Step(m, devices, reader);
      && t.next.x == m.x + 1
      && m.x + 1 + WORD_BYTES <= |m.program|
      && (Decode(t.next.program, t.next.x + 1).Ok? ==>
            OpcodeOf(Decode(t.next.program, t.next.x + 1).value) == t.next.program[m.x + 1])
  {
    var t := Step(m, devices, reader);
    DecodeOpcode(m.program, m.x + 1);
    if Decode(t.next.program, t.next.x + 1).Ok? {
      DecodeOpcode(t.next.program, t.next.x + 1);
    }
  }

  /** The two-instruction program "LoadA 5; PushABus 0", as `Encode` lays it out. */
  function LoadAThenPushCode(): (code: seq<Byte>)
    ensures code == Encode(LoadA(5)) + Encode(PushABus(0))
  {
    [12, 0, 0, 0, 0, 0, 0, 0, 5, 10, 0, 0, 0, 0, 0, 0, 0, 0]
  }

  /**
   * From the initial counter, the program "LoadA 5; PushABus 0" does not store 5: the first
   * tick decodes `LoadA(5)`, an empty arm, and the second decodes the operand byte 0 as `NoOp`.
   */
  lemma LoadAThenPushLeavesCache(m: Machine, devices: seq<Device>, reader: DeviceReader)
    requires m.x == 0 && |m.program| >= 18 && m.program[..18] == LoadAThenPushCode()
    ensures var t1 := Step(m, devices, reader);
      && Decode(m.program, 1) == Ok(LoadA(5))
      && t1 == Transition(m.(x := 1), Ok(()))
      && Decode(m.program, 2) == Ok(NoOp)
      && Step(t1.next, devices, reader) == Transition(m.(x := 2), Ok(()))
  {
    assert m.program[0] == 12 && m.program[1] == 0;
    var operand := m.program[1..9];
    assert operand == m.program[..18][1..9];
    assert operand == [0, 0, 0, 0, 0, 0, 0, 5];
    Pow256Word();
    assert ToBigEndian(5, WORD_BYTES) == operand;
    BeValueOfToBigEndian(5, WORD_BYTES);
  }

  /** A fresh machine running `[3]` (Add with both registers zero): the tick succeeds, `a` stays 0. */
  lemma FreshAddTick(program: seq<Byte>, devices: seq<Device>, reader: DeviceReader)
    requires |program| == PROGRAM_SIZE && program[0] == 3
    ensures var t := Step(Initial(program), devices, reader);
      t.status == Ok(()) && t.next.a == 0 && t.next == Initial(program).(x := 1)
  {
  }

  /** A fresh machine running `[6]` (Divide with `b` zero): the tick fails with a division by zero. */
  lemma FreshDivideTick(program: seq<Byte>, devices: seq<Device>, reader: DeviceReader)
    requires |program| == PROGRAM_SIZE && program[0] == 6
    ensures Step(Initial(program), devices, reader)
      == Transition(Initial(program).(x := 1), Err(Panic(DivideByZero)))
  {
  }

  // ---------------------------------------------------------------- arithmetic

  /** Each ALU instruction fails exactly when the Rust operator would panic. */
  lemma ArithmeticFailures(m: Machine, devices: seq<Device>, reader: DeviceReader)
    ensures Execute(m, devices, reader, Add).Err? <==> m.a + m.b >= WORD_LIMIT
    ensures Execute(m, devices, reader, Subtract).Err? <==> m.a < m.b
    ensures Execute(m, devices, reader, Multiply).Err? <==> m.a * m.b >= WORD_LIMIT
    ensures Execute(m, devices, reader, Divide) == Err(Panic(DivideByZero)) <==> m.b == 0
  {
  }

  /** A division by zero fails and, committed, leaves the machine as it was. */
  lemma DivideByZeroLeavesState(m: Machine, devices: seq<Device>, reader: DeviceReader)
    requires m.b == 0
    ensures Commit(m, Execute(m, devices, reader, Divide)) == Transition(m, Err(Panic(DivideByZero)))
  {
  }

  /**
   * `Add` leaves `a + b` and `Subtract` leaves `a - b` when the result fits a word; `Add` then
   * `Subtract` restore `a`, and `Subtract` then `Add` as well.
   */
  lemma AddSubtractInverse(m: Machine, devices: seq<Device>, reader: DeviceReader)
    ensures m.a + m.b <= WORD_MAX ==> Execute(m, devices, reader, Add) == Ok(m.(a := m.a + m.b))
    ensures m.b <= m.a ==> Execute(m, devices, reader, Subtract) == Ok(m.(a := m.a - m.b))
    ensures Execute(m, devices, reader, Add).Ok? ==>
      Execute(Execute(m, devices, reader, Add).value, devices, reader, Subtract) == Ok(m)
    ensures Execute(m, devices, reader, Subtract).Ok? ==>
      Execute(Execute(m, devices, reader, Subtract).value, devices, reader, Add) == Ok(m)
  {
  }

  /** With a non-zero `b`, `Multiply` then `Divide` restore `a`. */
  lemma MultiplyDivideInverse(m: Machine, devices: seq<Device>, reader: DeviceReader)
    requires m.b != 0 && Execute(m, devices, reader, Multiply).Ok?
    ensures Execute(Execute(m, devices, reader, Multiply).value, devices, reader, Divide) == Ok(m)
  {
    var m1 := Execute(m, devices, reader, Multiply).value;
    assert m1 == m.(a := m.a * m.b);
    MulDivCancel(m.a, m.b);
    assert Execute(m1, devices, reader, Divide) == Ok(m1.(a := m1.a / m1.b));
  }

  /**
   * `Multiply` leaves the product in `a` when it fits a word; it commutes, a zero operand
   * gives zero and `b = 1` is the identity.
   */
  lemma MultiplyProduct(m: Machine, devices: seq<Device>, reader: DeviceReader)
    ensures var swapped := m.(a := m.b, b := m.a);
      && Execute(m, devices, reader, Multiply).Ok? == Execute(swapped, devices, reader, Multiply).Ok?
      && (Execute(m, devices, reader, Multiply).Ok? ==>
            Execute(m, devices, reader, Multiply).value.a == Execute(swapped, devices, reader, Multiply).value.a)
    ensures m.a == 0 || m.b == 0 ==> Execute(m, devices, reader, Multiply) == Ok(m.(a := 0))
    ensures m.b == 1 ==> Execute(m, devices, reader, Multiply) == Ok(m)
    ensures m.a * m.b <= WORD_MAX ==> Execute(m, devices, reader, Multiply) == Ok(m.(a := m.a * m.b))
  {
  }

  /** `Divide` leaves in `a` the largest `q` with `q * b <= a` (unsigned floor division). */
  lemma DivideIsFloor(m: Machine, devices: seq<Device>, reader: DeviceReader)
    requires m.b != 0
    ensures var q := Execute(m, devices, reader, Divide).value.a;
      q * m.b <= m.a < (q + 1) * m.b
  {
  }

  /** `CopyAB` and `CopyBA` make both registers equal to the source register. */
  lemma CopiesEqualize(m: Machine, devices: seq<Device>, reader: DeviceReader)
    ensures Execute(m, devices, reader, CopyAB) == Ok(m.(b := m.a))
    ensures Execute(m, devices, reader, CopyBA) == Ok(m.(a := m.b))
    ensures Execute(m, devices, reader, CopyAB).value.a == Execute(m, devices, reader, CopyAB).value.b
    ensures var m1 := Execute(m, devices, reader, CopyAB).value;
      Execute(m1, devices, reader, CopyBA) == Ok(m1) && Execute(m1, devices, reader, CopyAB) == Ok(m1)
  {
  }

  /** `SwapAB` exchanges `a` and `b`, and applying it twice is the identity. */
  lemma SwapTwiceIsIdentity(m: Machine, devices: seq<Device>, reader: DeviceReader)
    ensures Execute(m, devices, reader, SwapAB).Ok?
    ensures var m1 := Execute(m, devices, reader, SwapAB).value;
      m1.a == m.b && m1.b == m.a && Execute(m1, devices, reader, SwapAB) == Ok(m)
  {
  }

  // ---------------------------------------------------------------- bus instructions

  /** `LoadBusA` and `LoadBusB` put the loaded value into their register, or fail with the load. */
  lemma LoadBusSetsRegister(m: Machine, devices: seq<Device>, reader: DeviceReader, addr: Word)
    ensures Load(m, devices, reader, addr).Ok? ==>
      Execute(m, devices, reader, LoadBusA(addr)) == Ok(m.(a := Load(m, devices, reader, addr).value))
      && Execute(m, devices, reader, LoadBusB(addr)) == Ok(m.(b := Load(m, devices, reader, addr).value))
    ensures Load(m, devices, reader, addr).Err? ==>
      Execute(m, devices, reader, LoadBusA(addr)) == Err(Load(m, devices, reader, addr).error)
      && Execute(m, devices, reader, LoadBusB(addr)) == Err(Load(m, devices, reader, addr).error)
  {
  }

  /** In the cache, `PushABus(addr)` then `LoadBusB(addr)` copies `a` into `b`. */
  lemma PushThenLoadCopies(m: Machine, devices: seq<Device>, reader: DeviceReader, addr: Word)
    requires addr < |m.cache| && RegionOf(addr) == CacheRegion
    ensures Execute(m, devices, reader, PushABus(addr)).Ok?
    ensures var m1 := Execute(m, devices, reader, PushABus(addr)).value;
      Execute(m1, devices, reader, LoadBusB(addr)) == Ok(m1.(b := m.a))
  {
    CacheStoreLoad(m, devices, reader, addr, m.a);
  }

  /** The instructions with an opcode 0 or from 11 on, and `LoadB`, change nothing. */
  predicate Inert(inst: Instruction) {
    inst.LoadB? || OpcodeOf(inst) == 0 || OpcodeOf(inst) > 10
  }

  lemma InertInstructionsChangeNothing(m: Machine, devices: seq<Device>, reader: DeviceReader, inst: Instruction)
    requires Inert(inst)
    ensures Execute(m, devices, reader, inst) == Ok(m)
  {
  }

  /** Only `PushABus` may change memory or the push log; no instruction changes `x` or `s`. */
  lemma OnlyPushChangesMemory(m: Machine, devices: seq<Device>, reader: DeviceReader, inst: Instruction)
    requires !inst.PushABus? && Execute(m, devices, reader, inst).Ok?
    ensures var m' := Execute(m, devices, reader, inst).value;
      m'.cache == m.cache && m'.program == m.program && m'.pushes == m.pushes && m'.x == m.x && m'.s == m.s
  {
  }

  // ---------------------------------------------------------------- address regions

  /** A store changes what no other address loads. */
  lemma StoreFrame(m: Machine, devices: seq<Device>, reader: DeviceReader, addr: Word, val: Word, other: Word)
    requires Store(m, devices, addr, val).Ok? && other != addr
    ensures Load(Store(m, devices, addr, val).value, devices, reader, other) == Load(m, devices, reader, other)
  {
    if RegionOf(other) == ProgramRegion && RegionOf(addr) == ProgramRegion {
      assert ProgramIndex(other) != ProgramIndex(addr);
    }
  }

  /** A cache store is read back unchanged; the program and the log stay as they were. */
  lemma CacheStoreLoad(m: Machine, devices: seq<Device>, reader: DeviceReader, addr: Word, val: Word)
    requires RegionOf(addr) == CacheRegion && addr < |m.cache|
    ensures Store(m, devices, addr, val).Ok?
    ensures var m' := Store(m, devices, addr, val).value;
      Load(m', devices, reader, addr) == Ok(val) && m'.program == m.program && m'.pushes == m.pushes
  {
  }

  /** A program store keeps the low byte of the value; the load widens it back. */
  lemma ProgramStoreLoad(m: Machine, devices: seq<Device>, reader: DeviceReader, addr: Word, val: Word)
    requires RegionOf(addr) == ProgramRegion && ProgramIndex(addr) < |m.program|
    ensures Store(m, devices, addr, val).Ok?
    ensures var m' := Store(m, devices, addr, val).value;
      Load(m', devices, reader, addr) == Ok(val % 256) && m'.cache == m.cache && m'.pushes == m.pushes
  {
  }

  /**
   * The last cell of each region lies one past the 65535-cell arrays, so an access there
   * is Rust's out-of-bounds panic.
   */
  lemma RegionEndsOutOfBounds(m: Machine, devices: seq<Device>, reader: DeviceReader, val: Word)
    requires |m.cache| == CACHE_SIZE && |m.program| == PROGRAM_SIZE
    ensures Load(m, devices, reader, CACHE_LAST) == Err(Panic(IndexOutOfBounds(CACHE_LAST)))
    ensures Store(m, devices, CACHE_LAST, val) == Err(Panic(IndexOutOfBounds(CACHE_LAST)))
    ensures Load(m, devices, reader, PROGRAM_LAST) == Err(Panic(IndexOutOfBounds(PROGRAM_SIZE)))
    ensures Store(m, devices, PROGRAM_LAST, val) == Err(Panic(IndexOutOfBounds(PROGRAM_SIZE)))
  {
  }

  /** As written, a program-region index is never inside the 65535-byte array. */
  lemma ProgramIndexAsWrittenOutOfBounds(m: Machine, addr: Word)
    requires |m.program| == PROGRAM_SIZE && RegionOf(addr) == ProgramRegion
    ensures ProgramIndexAsWritten(addr) >= |m.program|
    ensures ProgramIndex(addr) + PROGRAM_BASE == addr
  {
  }

  /**
   * A device-region load answers with the value of the last device in list order whose
   * range contains the address, and fails with `IllegalAddressLoad` when there is none.
   */
  lemma DeviceLoadLastMatch(m: Machine, devices: seq<Device>, reader: DeviceReader, addr: Word)
    requires RegionOf(addr) == DeviceRegion
    ensures Load(m, devices, reader, addr) == Err(IllegalAddressLoad(addr))
        <==> forall k :: 0 <= k < |devices| ==> !devices[k].Contains(addr)
    ensures forall j :: (0 <= j < |devices| && devices[j].Contains(addr)
        && (forall k :: j < k < |devices| ==> !devices[k].Contains(addr))) ==>
        Load(m, devices, reader, addr) == Ok(reader(j, addr))
  {
    forall j | 0 <= j < |devices| && devices[j].Contains(addr)
        && (forall k :: j < k < |devices| ==> !devices[k].Contains(addr))
      ensures Load(m, devices, reader, addr) == Ok(reader(j, addr))
    {
      var r := LastMatch(devices, addr);
      assert r.Some?;
      assert r.value == j;
    }
  }

  /**
   * A device-region store sends the value to every containing device, in list order,
   * and fails with `IllegalAddressPush`, pushing nothing, when there is none.
   */
  lemma DeviceStorePushesAll(m: Machine, devices: seq<Device>, addr: Word, val: Word)
    requires RegionOf(addr) == DeviceRegion
    ensures Store(m, devices, addr, val) == Err(IllegalAddressPush(addr))
        <==> forall k :: 0 <= k < |devices| ==> !devices[k].Contains(addr)
    ensures Store(m, devices, addr, val).Ok? ==>
      Store(m, devices, addr, val).value == m.(pushes := m.pushes + DevicePushes(devices, addr, val))
  {
    DevicePushesEmpty(devices, addr, val);
  }

  /** Two devices with disjoint ranges: an access inside the first reaches only the first. */
  lemma DisjointDevicesRouteToOwner(m: Machine, reader: DeviceReader, val: Word)
    ensures var devices := [Device(0x20000, 0x2000F), Device(0x30000, 0x3000F)];
      && Load(m, devices, reader, 0x20005) == Ok(reader(0, 0x20005))
      && Store(m, devices, 0x20005, val) == Ok(m.(pushes := m.pushes + [Push(0, 0x20005, val)]))
  {
    var devices := [Device(0x20000, 0x2000F), Device(0x30000, 0x3000F)];
    SingleOwner(devices, reader, 0x20005, val, 0);
  }
}
