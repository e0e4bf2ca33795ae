/**
 * The instruction set and the decoder (`read_instruction` and `get_args` in src/lib.rs).
 * `Instruction` and `CPUError` are declared from their uses in src/lib.rs; the modules that
 * define them in the repository are not part of this model.
 */
module Isa {
  import opened Results
  import opened Words

  /** The instruction variants, in the order of the opcode table. `LoadB` has no opcode. */
  datatype Instruction =
    | NoOp
    | LoadBusA(arg: Word)
    | LoadBusB(arg: Word)
    | Add
    | Subtract
    | Multiply
    | Divide
    | CopyAB
    | CopyBA
    | SwapAB
    | PushABus(arg: Word)
    | PushBBus(arg: Word)
    | LoadA(arg: Word)
    | LoadB(arg: Word)
    | LoadBusX(arg: Word)
    | CopyAX
    | CopyBX
    | PushXBus(arg: Word)
    | LoadX(arg: Word)
    | CopyXA
    | CopyXB
    | LoadBusAS
    | LoadBusBS
    | CopyAS
    | CopyBS
    | CopyXS
    | CopySA
    | CopySB
    | CopySX
    | SwapAS
    | SwapBS
    | PushABusS
    | PushBBusS
    | LoadBusXS
    | PushXBusS
    | SkipEq
    | SkipGrEq
    | SkipGr
    | SkipLe
    | SkipLeEq

  /**
   * Conditions under which the Rust code panics instead of returning an error.
   * They are not error kinds of the source; the model reports them as `Panic(kind)`.
   */
  datatype PanicKind =
    | CounterOverflow           // `reg_x += 1` at u64::MAX
    | AddOverflow               // `reg_a += reg_b`
    | SubtractOverflow          // `reg_a - reg_b` with reg_b > reg_a
    | MultiplyOverflow          // `reg_a * reg_b`
    | DivideByZero              // `reg_a / reg_b` with reg_b == 0
    | IndexOutOfBounds(index: int)  // `cache[..]` or `instructions[..]` at index 65535
    | OperandPastEnd(start: int)    // `get_args` slice running past the program

  /** The source's error kinds, keeping only the offending number of each message. */
  datatype CPUError =
    | OutOfInstructions(position: int)
    | IllegalInstruction(opcode: int)
    | IllegalAddressLoad(address: int)
    | IllegalAddressPush(address: int)
    | Panic(kind: PanicKind)

  const LAST_OPCODE: int := 38

  /** The opcodes whose instruction reads an 8-byte operand. */
  const OPERAND_OPCODES: set<int> := {1, 2, 10, 11, 12, 13, 16, 17}

  predicate HasOperand(inst: Instruction) {
    || inst.LoadBusA? || inst.LoadBusB? || inst.PushABus? || inst.PushBBus?
    || inst.LoadA? || inst.LoadB? || inst.LoadBusX? || inst.PushXBus? || inst.LoadX?
  }

  /**
   * `get_args(start)`: the big-endian word in the 8 bytes starting at `start`.
   * The Rust slice panics when those bytes run past the program; here that is an error.
   */
  function Operand(program: seq<Byte>, start: nat): (r: Result<Word, CPUError>)
    ensures r.Ok? <==> start + WORD_BYTES <= |program|
    ensures r.Ok? ==> r.value < Pow256(WORD_BYTES) && ToBigEndian(r.value, WORD_BYTES) == program[start..start + WORD_BYTES]
    ensures r.Err? ==> r.error == Panic(OperandPastEnd(start))
  {
    if start + WORD_BYTES <= |program| then
      var bytes := program[start..start + WORD_BYTES];
      Pow256Word();
      ToBigEndianOfBeValue(bytes);
      Ok(BeValue(bytes))
    else
      Err(Panic(OperandPastEnd(start)))
  }

  /**
   * `read_instruction`: decodes the opcode at index `x - 1`, where `x` is `reg_x` after the
   * increment of `tick`; operands are read from index `x` on.
   */
  function Decode(program: seq<Byte>, x: Word): (r: Result<Instruction, CPUError>)
    requires 1 <= x
    ensures r.Ok? ==> x - 1 < |program| && !r.value.LoadB?
    ensures r.Ok? && HasOperand(r.value) ==> x + WORD_BYTES <= |program|
    ensures r.Err? ==> r.error.OutOfInstructions? || r.error.IllegalInstruction? || r.error == Panic(OperandPastEnd(x))
  {
    if x - 1 >= |program| then Err(OutOfInstructions(x))
    else
      match program[x - 1]
      case 0 => Ok(NoOp)
      case 1 => var arg :- Operand(program, x); Ok(LoadBusA(arg))
      case 2 => var arg :- Operand(program, x); Ok(LoadBusB(arg))
      case 3 => Ok(Add)
      case 4 => Ok(Subtract)
      case 5 => Ok(Multiply)
      case 6 => Ok(Divide)
      case 7 => Ok(CopyAB)
      case 8 => Ok(CopyBA)
      case 9 => Ok(SwapAB)
      case 10 => var arg :- Operand(program, x); Ok(PushABus(arg))
      case 11 => var arg :- Operand(program, x); Ok(PushBBus(arg))
      case 12 => var arg :- Operand(program, x); Ok(LoadA(arg))
      case 13 => var arg :- Operand(program, x); Ok(LoadBusX(arg))
      case 14 => Ok(CopyAX)
      case 15 => Ok(CopyBX)
      case 16 => var arg :- Operand(program, x); Ok(PushXBus(arg))
      case 17 => var arg :- Operand(program, x); Ok(LoadX(arg))
      case 18 => Ok(CopyXA)
      case 19 => Ok(CopyXB)
      case 20 => Ok(LoadBusAS)
      case 21 => Ok(LoadBusBS)
      case 22 => Ok(CopyAS)
      case 23 => Ok(CopyBS)
      case 24 => Ok(CopyXS)
      case 25 => Ok(CopySA)
      case 26 => Ok(CopySB)
      case 27 => Ok(CopySX)
      case 28 => Ok(SwapAS)
      case 29 => Ok(SwapBS)
      case 30 => Ok(PushABusS)
      case 31 => Ok(PushBBusS)
      case 32 => Ok(LoadBusXS)
      case 33 => Ok(PushXBusS)
      case 34 => Ok(SkipEq)
      case 35 => Ok(SkipGrEq)
      case 36 => Ok(SkipGr)
      case 37 => Ok(SkipLe)
      case 38 => Ok(SkipLeEq)
      case e => Err(IllegalInstruction(e))
  }

  /** The opcode of every instruction that has one: the inverse of the table in `Decode`. */
  function OpcodeOf(inst: Instruction): (op: Byte)
    requires !inst.LoadB?
    ensures op <= LAST_OPCODE
    ensures HasOperand(inst) <==> op in OPERAND_OPCODES
  {
    match inst
    case NoOp => 0
    case LoadBusA(_) => 1
    case LoadBusB(_) => 2
    case Add => 3
    case Subtract => 4
    case Multiply => 5
    case Divide => 6
    case CopyAB => 7
    case CopyBA => 8
    case SwapAB => 9
    case PushABus(_) => 10
    case PushBBus(_) => 11
    case LoadA(_) => 12
    case LoadBusX(_) => 13
    case CopyAX => 14
    case CopyBX => 15
    case PushXBus(_) => 16
    case LoadX(_) => 17
    case CopyXA => 18
    case CopyXB => 19
    case LoadBusAS => 20
    case LoadBusBS => 21
    case CopyAS => 22
    case CopyBS => 23
    case CopyXS => 24
    case CopySA => 25
    case CopySB => 26
    case CopySX => 27
    case SwapAS => 28
    case SwapBS => 29
    case PushABusS => 30
    case PushBBusS => 31
    case LoadBusXS => 32
    case PushXBusS => 33
    case SkipEq => 34
    case SkipGrEq => 35
    case SkipGr => 36
    case SkipLe => 37
    case SkipLeEq => 38
  }

  /** The bytes that decode to `inst`: its opcode, then its operand in big-endian order. */
  function Encode(inst: Instruction): (bytes: seq<Byte>)
    requires !inst.LoadB?
  {
    Pow256Word();
    [OpcodeOf(inst)] + (if HasOperand(inst) then ToBigEndian(inst.arg, WORD_BYTES) else [])
  }

  /** Decoding fails with `OutOfInstructions` exactly when `x - 1` is not an index of the program. */
  lemma DecodeOutOfInstructions(program: seq<Byte>, x: Word)
    requires 1 <= x
    ensures Decode(program, x) == Err(OutOfInstructions(x)) <==> x > |program|
  {
  }

  /** Every opcode byte above 38 is illegal, and it is the only way to get `IllegalInstruction`. */
  lemma DecodeIllegalInstruction(program: seq<Byte>, x: Word)
    requires 1 <= x
    ensures Decode(program, x).Err? && Decode(program, x).error.IllegalInstruction?
        <==> x <= |program| && program[x - 1] > LAST_OPCODE
    ensures x <= |program| && program[x - 1] > LAST_OPCODE ==>
        Decode(program, x) == Err(IllegalInstruction(program[x - 1]))
  {
  }

  /** An operand opcode whose operand runs past the program fails, and nothing else panics. */
  lemma DecodeOperandPastEnd(program: seq<Byte>, x: Word)
    requires 1 <= x
    ensures Decode(program, x) == Err(Panic(OperandPastEnd(x)))
        <==> x <= |program| && program[x - 1] in OPERAND_OPCODES && x + WORD_BYTES > |program|
  {
  }

  /** Encoding an instruction into the program at `x - 1` and decoding it there gives it back. */
  lemma DecodeEncode(program: seq<Byte>, x: Word, inst: Instruction)
    requires 1 <= x && !inst.LoadB?
    requires x - 1 + |Encode(inst)| <= |program|
    requires program[x - 1..x - 1 + |Encode(inst)|] == Encode(inst)
    ensures Decode(program, x) == Ok(inst)
  {
    var code := Encode(inst);
    assert program[x - 1] == code[0] == OpcodeOf(inst);
    if HasOperand(inst) {
      Pow256Word();
      assert program[x..x + WORD_BYTES] == code[1..];
      BeValueOfToBigEndian(inst.arg, WORD_BYTES);
    }
  }

  /** A successful decode reads back the opcode of what it returns, and its operand. */
  lemma DecodeOpcode(program: seq<Byte>, x: Word)
    requires 1 <= x && Decode(program, x).Ok?
    ensures var inst := Decode(program, x).value;
      && !inst.LoadB?
      && OpcodeOf(inst) == program[x - 1]
      && (HasOperand(inst) ==> Operand(program, x) == Ok(inst.arg))
  {
    var op := program[x - 1];
    if op < 3 {
    } else if op < 7 {
    } else if op < 10 {
    } else if op < 12 {
    } else if op < 14 {
    } else if op < 16 {
    } else if op < 18 {
    } else if op < 23 {
    } else if op < 28 {
    } else if op < 33 {
    } else {
    }
  }

  /**
   * Whatever decodes successfully is the encoding of the decoded instruction; no opcode
   * decodes to `LoadB`, and exactly the opcodes in `OPERAND_OPCODES` carry an operand.
   */
  lemma DecodeSound(program: seq<Byte>, x: Word)
    requires 1 <= x && Decode(program, x).Ok?
    ensures var inst := Decode(program, x).value;
      && !inst.LoadB?
      && x - 1 + |Encode(inst)| <= |program|
      && program[x - 1..x - 1 + |Encode(inst)|] == Encode(inst)
      && (HasOperand(inst) <==> program[x - 1] in OPERAND_OPCODES)
  {
    var inst := Decode(program, x).value;
    DecodeOpcode(program, x);
    var code := Encode(inst);
    if HasOperand(inst) {
      assert program[x - 1..x - 1 + |code|] == [program[x - 1]] + program[x..x + WORD_BYTES];
    }
  }
}
