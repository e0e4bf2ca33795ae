/**
 * The machine as a value, and what one access, one instruction and one tick do to it.
 * These functions are the specification the methods of `Processor.Cpu` are proved against.
 */
module Semantics {
  import opened Results
  import opened Words
  import opened Isa
  import opened Bus

  /** Number of cells of `cache` and of `instructions` (`[u64; 65535]`, `[u8; 65535]`). */
  const CACHE_SIZE: nat := 65535
  const PROGRAM_SIZE: nat := 65535

  const CACHE_LAST: int := 65535
  const PROGRAM_BASE: int := 65536
  const PROGRAM_LAST: int := 131071

  /** The registers, the two arrays and the pushes the devices have been sent so far. */
  datatype Machine = Machine(
    a: Word, b: Word, s: Word, x: Word,
    cache: seq<Word>, program: seq<Byte>, pushes: seq<Push>)

  /** The state `Cpu::new` builds: registers and cache zeroed, no pushes yet. */
  function Initial(program: seq<Byte>): (m: Machine)
    ensures m.a == m.b == m.s == m.x == 0 && m.program == program && m.pushes == []
    ensures |m.cache| == CACHE_SIZE && forall i :: 0 <= i < CACHE_SIZE ==> m.cache[i] == 0
  {
    Machine(0, 0, 0, 0, seq(CACHE_SIZE, _ => 0), program, [])
  }

  /** The three address regions of `load_base` and `push_base`, by numeric range. */
  datatype Region = CacheRegion | ProgramRegion | DeviceRegion

  function RegionOf(addr: Word): (region: Region) {
    if addr <= CACHE_LAST then CacheRegion
    else if addr <= PROGRAM_LAST then ProgramRegion
    else DeviceRegion
  }

  /**
   * The index of a program-region address into `instructions`. The source indexes with the
   * address itself (see `ProgramIndexAsWritten`); the model subtracts the region base.
   */
  function ProgramIndex(addr: Word): (i: nat)
    requires RegionOf(addr) == ProgramRegion
    ensures i <= PROGRAM_LAST - PROGRAM_BASE
  {
    addr - PROGRAM_BASE
  }

  /** The index src/lib.rs:185 and src/lib.rs:211 actually use for a program-region address. */
  function ProgramIndexAsWritten(addr: Word): (i: int)
    requires RegionOf(addr) == ProgramRegion
  {
    addr
  }

  /** `load_base`. An index past the end of an array is the panic of Rust's indexing. */
  function Load(m: Machine, devices: seq<Device>, reader: DeviceReader, addr: Word): (r: Result<Word, CPUError>)
    ensures r.Err? ==> (r.error.Panic? && r.error.kind.IndexOutOfBounds?) || r.error == IllegalAddressLoad(addr)
    ensures RegionOf(addr) == CacheRegion ==> (r.Ok? <==> addr < |m.cache|)
    ensures RegionOf(addr) == ProgramRegion ==> (r.Ok? <==> ProgramIndex(addr) < |m.program|)
    ensures r.Ok? && RegionOf(addr) == ProgramRegion ==> r.value < 256
    ensures RegionOf(addr) == DeviceRegion ==>
      (r.Ok? <==> exists k :: 0 <= k < |devices| && devices[k].Contains(addr))
  {
    match RegionOf(addr)
    case CacheRegion =>
      if addr < |m.cache| then Ok(m.cache[addr]) else Err(Panic(IndexOutOfBounds(addr)))
    case ProgramRegion =>
      var i := ProgramIndex(addr);
      if i < |m.program| then Ok(m.program[i]) else Err(Panic(IndexOutOfBounds(i)))
    case DeviceRegion =>
      match DeviceLoad(devices, reader, addr)
      case Some(v) => Ok(v)
      case None => Err(IllegalAddressLoad(addr))
  }

  /** `push_base`: a store never touches the registers, never resizes, only appends pushes. */
  function Store(m: Machine, devices: seq<Device>, addr: Word, val: Word): (r: Result<Machine, CPUError>)
    ensures r.Ok? ==> SameRegisters(m, r.value) && SameShape(m, r.value)
  {
    match RegionOf(addr)
    case CacheRegion =>
      if addr < |m.cache| then Ok(m.(cache := m.cache[addr := val]))
      else Err(Panic(IndexOutOfBounds(addr)))
    case ProgramRegion =>
      var i := ProgramIndex(addr);
      if i < |m.program| then Ok(m.(program := m.program[i := val % 256]))
      else Err(Panic(IndexOutOfBounds(i)))
    case DeviceRegion =>
      var ps := DevicePushes(devices, addr, val);
      if ps == [] then Err(IllegalAddressPush(addr)) else Ok(m.(pushes := m.pushes + ps))
  }

  predicate SameRegisters(m: Machine, m': Machine) {
    m'.a == m.a && m'.b == m.b && m'.s == m.s && m'.x == m.x
  }

  /** Array sizes are fixed and the push log is only ever extended. */
  predicate SameShape(m: Machine, m': Machine) {
    |m'.cache| == |m.cache| && |m'.program| == |m.program| && m.pushes <= m'.pushes
  }

  /**
   * `process_instruction`. Only the arms of opcodes 0 to 10 have an effect; the empty arms
   * of the source (which evaluate to `()`) are read as `Ok(())` with nothing changed.
   * No arm writes `x` or `s`.
   */
  function Execute(m: Machine, devices: seq<Device>, reader: DeviceReader, inst: Instruction): (r: Result<Machine, CPUError>)
    ensures r.Ok? ==> r.value.x == m.x && r.value.s == m.s && SameShape(m, r.value)
  {
    match inst
    case NoOp => Ok(m)
    case LoadBusA(addr) => var v :- Load(m, devices, reader, addr); Ok(m.(a := v))
    case LoadBusB(addr) => var v :- Load(m, devices, reader, addr); Ok(m.(b := v))
    case Add => Alu(m, inst)
    case Subtract => Alu(m, inst)
    case Multiply => Alu(m, inst)
    case Divide => Alu(m, inst)
    case CopyAB => Ok(m.(b := m.a))
    case CopyBA => Ok(m.(a := m.b))
    case SwapAB => Ok(m.(a := m.b, b := m.a))
    case PushABus(addr) => Store(m, devices, addr, m.a)
    case PushBBus(_) | LoadA(_) | LoadB(_) | LoadBusX(_) | CopyAX | CopyBX | PushXBus(_)
      | LoadX(_) | CopyXA | CopyXB | LoadBusAS | LoadBusBS | CopyAS | CopyBS | CopyXS
      | CopySA | CopySB | CopySX | SwapAS | SwapBS | PushABusS | PushBBusS | LoadBusXS
      | PushXBusS | SkipEq | SkipGrEq | SkipGr | SkipLe | SkipLeEq =>
      Ok(m)
  }

  /**
   * The arithmetic arms of `process_instruction`: only `a` changes. Arithmetic that
   * overflows is the panic of a debug build, never a wrap-around.
   */
  function Alu(m: Machine, inst: Instruction): (r: Result<Machine, CPUError>)
    requires inst.Add? || inst.Subtract? || inst.Multiply? || inst.Divide?
    ensures r.Ok? ==> r.value == m.(a := r.value.a)
  {
    match inst
    case Add =>
      if m.a + m.b <= WORD_MAX then Ok(m.(a := m.a + m.b)) else Err(Panic(AddOverflow))
    case Subtract =>
      if m.b <= m.a then Ok(m.(a := m.a - m.b)) else Err(Panic(SubtractOverflow))
    case Multiply =>
      if m.a * m.b <= WORD_MAX then Ok(m.(a := m.a * m.b)) else Err(Panic(MultiplyOverflow))
    case Divide =>
      if m.b == 0 then Err(Panic(DivideByZero))
      else
        DivAtMost(m.a, m.b);
        Ok(m.(a := m.a / m.b))
  }

  /** The state after one call, and what the call returned. */
  datatype Transition = Transition(next: Machine, status: Result<(), CPUError>)

  /** A failed execution leaves the state it started from; a successful one replaces it. */
  function Commit(m: Machine, r: Result<Machine, CPUError>): (t: Transition) {
    match r
    case Ok(m') => Transition(m', Ok(()))
    case Err(e) => Transition(m, Err(e))
  }

  /**
   * `tick`: increment `x` by exactly one, decode at the new `x - 1`, execute. The increment
   * stays in place when decoding or executing fails. At u64::MAX the increment panics.
   */
  function Step(m: Machine, devices: seq<Device>, reader: DeviceReader): (t: Transition)
    ensures t.next.x == if m.x < WORD_MAX then m.x + 1 else m.x
    ensures t.next.s == m.s && SameShape(m, t.next)
  {
    if m.x == WORD_MAX then Transition(m, Err(Panic(CounterOverflow)))
    else
      var advanced := m.(x := m.x + 1);
      match Decode(advanced.program, advanced.x)
      case Err(e) => Transition(advanced, Err(e))
      case Ok(inst) => Commit(advanced, Execute(advanced, devices, reader, inst))
  }
}
