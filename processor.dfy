/**
 * `Cpu` of src/lib.rs: four registers, the two fixed-size arrays it updates in place and
 * the list of devices. Each method is proved against its function in `Semantics`.
 */
module Processor {
  import opened Results
  import opened Words
  import opened Isa
  import opened Bus
  import opened Semantics

  class Cpu {
    var regA: Word
    var regB: Word
    var regS: Word
    var regX: Word
    const cache: array<Word>
    const instructions: array<Byte>
    const devices: seq<Device>
    /** Every `device.push(address, value)` the machine has made, in order. */
    var pushLog: seq<Push>

    ghost predicate Valid() {
      cache.Length == CACHE_SIZE && instructions.Length == PROGRAM_SIZE
    }

    /** The machine state as a value. */
    ghost function Snapshot(): (s: Machine)
      reads this, cache, instructions
    {
      Machine(regA, regB, regS, regX, cache[..], instructions[..], pushLog)
    }

    /** `Cpu::new`: registers and cache zeroed, the program and devices as given. */
    constructor (program: seq<Byte>, devices: seq<Device>)
      requires |program| == PROGRAM_SIZE
      ensures Valid() && fresh(cache) && fresh(instructions)
      ensures Snapshot() == Initial(program)
      ensures this.devices == devices
    {
      regA, regB, regS, regX := 0, 0, 0, 0;
      cache := new Word[CACHE_SIZE](_ => 0);
      instructions := new Byte[PROGRAM_SIZE](i requires 0 <= i < PROGRAM_SIZE => program[i]);
      this.devices := devices;
      pushLog := [];
    }

    /** `tick` */
    method Tick(reader: DeviceReader) returns (r: Result<(), CPUError>)
      requires Valid()
      modifies this, cache, instructions
      ensures Step(old(Snapshot()), devices, reader) == Transition(Snapshot(), r)
    {
      if regX == WORD_MAX {
        return Err(Panic(CounterOverflow));
      }
      regX := regX + 1;
      var inst :- Decode(instructions[..], regX);
      r := ProcessInstruction(inst, reader);
    }

    /** `process_instruction` */
    method ProcessInstruction(inst: Instruction, reader: DeviceReader) returns (r: Result<(), CPUError>)
      requires Valid()
      modifies this, cache, instructions
      ensures Commit(old(Snapshot()), Execute(old(Snapshot()), devices, reader, inst)) == Transition(Snapshot(), r)
    {
      ghost var before := Snapshot();
      match inst
      case NoOp =>
        r := Ok(());
      case LoadBusA(arg) =>
        var v :- LoadBase(arg, reader);
        regA := v;
        assert Snapshot() == before.(a := v) == Execute(before, devices, reader, inst).value;
        r := Ok(());
      case LoadBusB(arg) =>
        var v :- LoadBase(arg, reader);
        regB := v;
        assert Snapshot() == before.(b := v) == Execute(before, devices, reader, inst).value;
        r := Ok(());
      case Add =>
        r := Alu(inst);
      case Subtract =>
        r := Alu(inst);
      case Multiply =>
        r := Alu(inst);
      case Divide =>
        r := Alu(inst);
      case CopyAB =>
        regB := regA;
        assert Snapshot() == before.(b := before.a) == Execute(before, devices, reader, inst).value;
        r := Ok(());
      case CopyBA =>
        regA := regB;
        assert Snapshot() == before.(a := before.b) == Execute(before, devices, reader, inst).value;
        r := Ok(());
      case SwapAB =>
        regA, regB := regB, regA;
        assert Snapshot() == before.(a := before.b, b := before.a) == Execute(before, devices, reader, inst).value;
        r := Ok(());
      case PushABus(arg) =>
        r := PushBase(arg, regA);
      // The remaining arms are empty blocks in the source: no effect, `Ok(())`.
      case PushBBus(_) | LoadA(_) | LoadB(_) | LoadBusX(_) | CopyAX | CopyBX | PushXBus(_)
        | LoadX(_) | CopyXA | CopyXB | LoadBusAS | LoadBusBS | CopyAS | CopyBS | CopyXS
        | CopySA | CopySB | CopySX | SwapAS | SwapBS | PushABusS | PushBBusS | LoadBusXS
        | PushXBusS | SkipEq | SkipGrEq | SkipGr | SkipLe | SkipLeEq =>
        assert Execute(before, devices, reader, inst) == Ok(before);
        r := Ok(());
    }

    /**
     * The arms `Add`, `Subtract`, `Multiply` and `Divide` of `process_instruction`. The Rust
     * operators panic on overflow (in a debug build) and on division by zero.
     */
    method Alu(inst: Instruction) returns (r: Result<(), CPUError>)
      requires inst.Add? || inst.Subtract? || inst.Multiply? || inst.Divide?
      modifies this
      ensures Commit(old(Snapshot()), Semantics.Alu(old(Snapshot()), inst)) == Transition(Snapshot(), r)
    {
      if inst == Add {
        if regA + regB > WORD_MAX {
          return Err(Panic(AddOverflow));
        }
        regA := regA + regB;
      } else if inst == Subtract {
        if regB > regA {
          return Err(Panic(SubtractOverflow));
        }
        regA := regA - regB;
      } else if inst == Multiply {
        if regA * regB > WORD_MAX {
          return Err(Panic(MultiplyOverflow));
        }
        regA := regA * regB;
      } else {
        if regB == 0 {
          return Err(Panic(DivideByZero));
        }
        regA := regA / regB;
      }
      r := Ok(());
    }

    /** `load_base`: the linear scan keeps the value of the last containing device. */
    method LoadBase(addr: Word, reader: DeviceReader) returns (r: Result<Word, CPUError>)
      requires Valid()
      ensures r == Load(Snapshot(), devices, reader, addr)
    {
      if addr <= CACHE_LAST {
        // The source indexes `cache[addr]` directly; cell 65535 does not exist.
        if addr < cache.Length {
          r := Ok(cache[addr]);
        } else {
          r := Err(Panic(IndexOutOfBounds(addr)));
        }
      } else if addr <= PROGRAM_LAST {
        // The model subtracts PROGRAM_BASE; src/lib.rs:185 does not (see README, Findings).
        var i := addr - PROGRAM_BASE;
        if i < instructions.Length {
          r := Ok(instructions[i]);
        } else {
          r := Err(Panic(IndexOutOfBounds(i)));
        }
      } else {
        var success: Option<Word> := None;
        var k := 0;
        while k < |devices|
          invariant 0 <= k <= |devices|
          invariant success == DeviceLoad(devices[..k], reader, addr)
        {
          if devices[k].Contains(addr) {
            success := Some(reader(k, addr));
          }
          assert devices[..k + 1][..k] == devices[..k];
          k := k + 1;
        }
        assert devices[..k] == devices;
        match success
        case Some(v) => r := Ok(v);
        case None => r := Err(IllegalAddressLoad(addr));
      }
    }

    /** `push_base`: every containing device is sent the store, in list order. */
    method PushBase(addr: Word, val: Word) returns (r: Result<(), CPUError>)
      requires Valid()
      modifies this, cache, instructions
      ensures Commit(old(Snapshot()), Store(old(Snapshot()), devices, addr, val)) == Transition(Snapshot(), r)
    {
      if addr <= CACHE_LAST {
        // The source writes `cache[addr]` directly; cell 65535 does not exist.
        if addr < cache.Length {
          cache[addr] := val;
          r := Ok(());
        } else {
          r := Err(Panic(IndexOutOfBounds(addr)));
        }
      } else if addr <= PROGRAM_LAST {
        // The model subtracts PROGRAM_BASE; src/lib.rs:211 does not (see README, Findings).
        var i := addr - PROGRAM_BASE;
        if i < instructions.Length {
          instructions[i] := val % 256;
          r := Ok(());
        } else {
          r := Err(Panic(IndexOutOfBounds(i)));
        }
      } else {
        var success := PushDevices(addr, val);
        if success {
          r := Ok(());
        } else {
          r := Err(IllegalAddressPush(addr));
        }
      }
    }

    /** The device scan of `push_base`: `success` tells whether any device took the store. */
    method PushDevices(addr: Word, val: Word) returns (success: bool)
      modifies this`pushLog
      ensures pushLog == old(pushLog) + DevicePushes(devices, addr, val)
      ensures success <==> DevicePushes(devices, addr, val) != []
    {
      success := false;
      var k := 0;
      while k < |devices|
        invariant 0 <= k <= |devices|
        invariant pushLog == old(pushLog) + DevicePushes(devices[..k], addr, val)
        invariant success <==> DevicePushes(devices[..k], addr, val) != []
      {
        if devices[k].Contains(addr) {
          success := true;
          pushLog := pushLog + [Push(k, addr, val)];
        }
        assert devices[..k + 1][..k] == devices[..k];
        k := k + 1;
      }
      assert devices[..k] == devices;
    }
  }
}
