# u_risc_interpreter: a verified model of the CPU core

This project models the fetch-decode-execute cycle of the small emulated CPU in
`src/lib.rs` of u_risc_interpreter, and proves properties of that model in Dafny.

The machine has four 64-bit registers: `a`, `b`, `s` and `x`. Register `x` is both
the program counter and an ordinary register. The machine also has a 65535-word
`cache`, a 65535-byte `instructions` array and an ordered list of devices. One
`tick` does three things: it increments `x` by one, decodes the opcode byte at
index `x - 1`, and executes the decoded instruction. Loads and stores go through
an address router with three regions:

- addresses `0..=65535` go to `cache`;
- addresses `65536..=131071` go to `instructions`, one byte per address;
- every other address goes to the devices whose inclusive `[min, max]` range
  contains it.

Files, one module each:

- `results.dfy` (`Results`): `Option` and `Result`, usable with `:-` the way the
  source uses `?`.
- `words.dfy` (`Words`): `Word` (`u64`), `Byte` (`u8`), and big-endian conversion
  with both round trips proved.
- `isa.dfy` (`Isa`): the `Instruction` and `CPUError` types, the decoder
  `Decode` (`read_instruction` with `get_args`), the opcode table `OpcodeOf` and
  its `Encode`.
- `bus.dfy` (`Bus`): devices as address ranges. It defines the last-match rule
  for loads and the pushes that a store sends to every matching device.
- `semantics.dfy` (`Semantics`): the machine as a value. `Load`, `Store`,
  `Execute` and `Step` describe one access, one instruction and one tick.
- `processor.dfy` (`Processor`): `class Cpu`. Its registers are fields, its
  arrays are updated in place, and its methods contain the source's loops. Each
  method is proved against a pure function: `Semantics.Step`, `Semantics.Execute`,
  `Semantics.Alu`, `Semantics.Load` and `Semantics.Store`, and for the device
  store loop `Bus.DevicePushes`.
- `properties.dfy` (`Properties`): lemmas about ticks, arithmetic, the bus
  instructions and the three address regions.

How the model reads the code:

- **Empty arms.** The executor has empty arms for every instruction from
  `PushBBus` on, at src/lib.rs:147-175. As written, these blocks evaluate to
  `()` and do not compile. The model reads each as "no change, `Ok`". So every
  arm from `PushBBus` on has no effect: among them `LoadA`, `LoadBusX`,
  `PushXBus`, `LoadX`, the `…BusS` variants, the copies and swaps involving `s`
  and `x`, and the five skip instructions. No opcode decodes to `LoadB`.
- **Program counter.** `x` advances by exactly one per tick, including after an
  instruction with an 8-byte operand. The next tick therefore decodes the
  operand's first byte as an opcode.
- **Panics.** Where Rust panics, the model returns the error `Panic(kind)`
  instead. This covers four cases:
  - arithmetic overflow and underflow (debug build), and division by zero;
  - an increment of `x` past `u64::MAX`;
  - an operand slice that runs past the program;
  - an index one past the end of either array.
  A panic changes nothing, except while a tick is running: there, the increment
  of `x` is already done.
- **Array sizes.** Both arrays have 65535 cells, as declared at
  src/lib.rs:20-21. Each region, however, spans 65536 addresses. So address
  65535, and (with the model's `addr - 65536` offset) address 131071, index one
  past the end of their array. As written the program region indexes much
  further past the end; see "## Findings". The model
  reports both as `Panic(IndexOutOfBounds(..))`.
- **Program-region index.** The program region is indexed with `addr - 65536`.
  The source omits the offset; see "## Findings".
- **Device scan.** The source's device scan compares `success` with `Some`, it
  moves `self.devices` out inside the loop, and the load scan's `let mut success;`
  (src/lib.rs:188) is read uninitialised when no device matches. As written,
  none of these compiles. The
  model follows the evident intent:
  - a load takes the value of the last matching device;
  - a store is pushed to every matching device, in list order;
  - if no device matches, the result is `IllegalAddressLoad` or
    `IllegalAddressPush`.

## Model

| member | source | states |
|---|---|---|
| Words.BeValue | src/lib.rs:102 | the big-endian value of n bytes is below 256^n, so 8 bytes always make a `u64` |
| Words.BeValueOfToBigEndian | src/lib.rs:102 | encoding a word big-endian and reading it back with `from_be_bytes` returns the word |
| Words.ToBigEndianOfBeValue | src/lib.rs:102 | every byte string is the big-endian encoding of its value (the other round trip) |
| Isa.Operand | src/lib.rs:101-103 | `get_args(start)` succeeds exactly when 8 bytes from `start` lie in the program; its word is then the one whose big-endian encoding is those bytes; otherwise it reports the slice panic |
| Isa.OpcodeOf | src/lib.rs:56-95 | every opcode in the table is at most 38, and exactly the opcodes 1, 2, 10, 11, 12, 13, 16 and 17 belong to instructions with an operand |
| Isa.Decode | src/lib.rs:52-103 | `read_instruction` with `get_args`: a successful decode has its opcode inside the program and is never `LoadB`; an operand instruction has its 8 operand bytes inside the program; the only errors are `OutOfInstructions`, `IllegalInstruction` and the operand-slice panic at `x`. The `Decode*` lemmas below state each case exactly |
| Isa.DecodeOutOfInstructions | src/lib.rs:52-54 | decoding yields `OutOfInstructions(x)` if and only if `x - 1` is not an index of the program |
| Isa.DecodeIllegalInstruction | src/lib.rs:96 | decoding yields `IllegalInstruction` if and only if the opcode byte is above 38, and then it carries that byte |
| Isa.DecodeOperandPastEnd | src/lib.rs:58-74 | decoding panics on the operand slice if and only if an operand opcode has fewer than 8 bytes after it |
| Isa.DecodeOpcode | src/lib.rs:56-95 | a successful decode is never `LoadB`; the opcode of what it returns is the byte at `x - 1`; its operand is the word at `x` |
| Isa.DecodeEncode | src/lib.rs:52-103 | an instruction's encoding, placed at `x - 1`, decodes back to that instruction |
| Isa.DecodeSound | src/lib.rs:52-103 | whatever decodes is the bytes of its own encoding, and it carries an operand exactly when its opcode is in {1, 2, 10, 11, 12, 13, 16, 17} |
| Bus.LastMatch | src/lib.rs:187-196 | the scan finds the last device in list order whose inclusive range contains the address, or reports that none contains it |
| Bus.DeviceLoad | src/lib.rs:187-200 | the device-region load yields nothing exactly when no device contains the address; otherwise it yields `reader(k, addr)` for a containing device `k` after which no device contains the address |
| Bus.DevicePushes | src/lib.rs:213-221 | a store reaches exactly the devices whose range contains the address. Each receives the address and value once, in list order |
| Bus.DevicePushesEmpty | src/lib.rs:213-227 | a store pushes nothing exactly when no device contains the address |
| Bus.SingleOwner | src/lib.rs:187-228 | when one device `k` alone contains the address, a load answers `reader(k, addr)` and a store pushes to it alone |
| Semantics.Initial | src/lib.rs:32-42 | a new machine has zero registers, a zeroed 65535-word cache, the given program and no pushes |
| Semantics.ProgramIndex | src/lib.rs:184-186 | a program-region address maps to an index from 0 to 65535 |
| Semantics.Load | src/lib.rs:179-203 | `load_base` fails only with an index panic or `IllegalAddressLoad(addr)`; a cache or program load succeeds exactly when its index is inside the array, a program load yields a byte (`as u64` of a `u8`), and a device load succeeds exactly when some device contains the address |
| Semantics.Store | src/lib.rs:205-230 | a store never changes a register or an array size, and only extends the push log |
| Semantics.Alu | src/lib.rs:115-130 | `Add`, `Subtract`, `Multiply` and `Divide` change `a` and nothing else |
| Semantics.Execute | src/lib.rs:104-177 | no instruction writes `x` or `s` or resizes an array. The push log only grows |
| Semantics.Step | src/lib.rs:48-51 | a tick increments `x` by exactly one (unless at `u64::MAX`). Every other change leaves `s` and the array sizes alone |
| Processor.Cpu.constructor | src/lib.rs:32-42 | `Cpu::new` builds the initial machine from the program and the device list |
| Processor.Cpu.Tick | src/lib.rs:48-51 | the new state and the result of `tick` are those of `Semantics.Step` on the old state |
| Processor.Cpu.ProcessInstruction | src/lib.rs:104-177 | its effect is `Semantics.Execute`, and a failing instruction changes nothing |
| Processor.Cpu.Alu | src/lib.rs:115-130 | the in-place arithmetic arms have the effect of `Semantics.Alu` |
| Processor.Cpu.LoadBase | src/lib.rs:179-203 | the region dispatch and the device scan loop return `Semantics.Load` of the current state |
| Processor.Cpu.PushBase | src/lib.rs:205-230 | the store writes the array cell in place or pushes to the devices. Its effect is `Semantics.Store` |
| Processor.Cpu.PushDevices | src/lib.rs:213-221 | the device loop appends `Bus.DevicePushes` to the push log and reports whether any device matched |
| Properties.StepCounterOverflow | src/lib.rs:49 | at `x = u64::MAX` the increment panics and nothing changes |
| Properties.StepDecodeFailure | src/lib.rs:48-54 | a tick whose decode fails reports the decoder's error and changes only `x`, which it incremented |
| Properties.StepOutOfInstructions | src/lib.rs:52-54 | a tick with `x` past the last program byte yields `OutOfInstructions` |
| Properties.StepExecutesDecoded | src/lib.rs:48-51 | a tick executes the instruction decoded at the new `x - 1`, on the state with `x` already incremented |
| Properties.StepDoesNotSkipOperand | src/lib.rs:48-51 | after an operand instruction decodes, `x` has moved by one only, whether or not its execution succeeds, so the next tick takes the operand's first byte as its opcode |
| Properties.LoadAThenPushLeavesCache | src/lib.rs:48-69 | the program "LoadA 5; PushABus 0" leaves the cache unchanged: `LoadA` is an empty arm, and the next tick decodes operand byte 0 as `NoOp` |
| Properties.FreshAddTick | src/lib.rs:115-118 | a new machine running `Add` ticks successfully, with `a` still 0 |
| Properties.FreshDivideTick | src/lib.rs:127-130 | a new machine running `Divide` (with `b` = 0) fails with a division by zero, and only `x` advances |
| Properties.ArithmeticFailures | src/lib.rs:115-130 | `Add`, `Subtract` and `Multiply` fail exactly when the result leaves 0..2^64-1. `Divide` fails exactly when `b` is 0 |
| Properties.DivideByZeroLeavesState | src/lib.rs:127-130 | a division by zero reports the panic and leaves the machine unchanged |
| Properties.AddSubtractInverse | src/lib.rs:115-122 | `Add` leaves `a + b` and `Subtract` leaves `a - b` in `a` whenever the result fits a word; `Add` then `Subtract` restores the machine whenever `Add` succeeds, and `Subtract` then `Add` does too |
| Properties.MultiplyDivideInverse | src/lib.rs:123-130 | with `b` non-zero, `Multiply` then `Divide` restores the machine |
| Properties.MultiplyProduct | src/lib.rs:123-126 | `Multiply` leaves `a * b` in `a` whenever the product fits a word; it succeeds for `(a, b)` exactly when it does for `(b, a)`, with the same result; a zero operand gives 0 and `b = 1` leaves the machine unchanged |
| Properties.DivideIsFloor | src/lib.rs:127-130 | `Divide` leaves the largest `q` with `q * b <= a` |
| Properties.CopiesEqualize | src/lib.rs:131-138 | `CopyAB` sets `b := a` and `CopyBA` sets `a := b`, and nothing else changes; after `CopyAB` both registers are equal, so a further `CopyAB` or `CopyBA` changes nothing |
| Properties.SwapTwiceIsIdentity | src/lib.rs:139-142 | `SwapAB` exchanges `a` and `b`, and applying it twice is the identity |
| Properties.LoadBusSetsRegister | src/lib.rs:107-114 | `LoadBusA`/`LoadBusB` set their register to the loaded value, or fail with the load's error and change nothing |
| Properties.PushThenLoadCopies | src/lib.rs:143-146 | in the cache region, `PushABus(addr)` then `LoadBusB(addr)` copies `a` into `b` |
| Properties.InertInstructionsChangeNothing | src/lib.rs:147-175 | opcode 0, every opcode from 11 to 38, and `LoadB` leave every register and all memory unchanged |
| Properties.OnlyPushChangesMemory | src/lib.rs:104-177 | apart from `PushABus`, no instruction changes the cache, the program, the push log, `x` or `s` |
| Properties.StoreFrame | src/lib.rs:205-212 | after a store, every other cache or program address loads what it loaded before; for a device address the equality holds only because device answers are the `reader` input (see Left out) |
| Properties.CacheStoreLoad | src/lib.rs:207-209 | a cache store followed by a load of that address returns the value. The program and the push log are unchanged |
| Properties.ProgramStoreLoad | src/lib.rs:210-212 | a program-region store followed by a load returns `v mod 256`. The cache and the push log are unchanged |
| Properties.RegionEndsOutOfBounds | src/lib.rs:181-185 | addresses 65535 and 131071 index one past the 65535-cell arrays, and both loads and stores there panic |
| Properties.ProgramIndexAsWrittenOutOfBounds | src/lib.rs:185 | as written, every program-region address indexes past the end of the 65535-byte array |
| Properties.DeviceLoadLastMatch | src/lib.rs:187-201 | a device-region load fails with `IllegalAddressLoad` exactly when no device contains the address. Otherwise it returns the value of the last containing device |
| Properties.DeviceStorePushesAll | src/lib.rs:213-228 | a device-region store fails with `IllegalAddressPush` exactly when no device contains the address, and then pushes nothing; otherwise it appends one push per containing device |
| Properties.DisjointDevicesRouteToOwner | src/lib.rs:187-228 | with devices `[0x20000, 0x2000F]` and `[0x30000, 0x3000F]`, an access to `0x20005` reaches only the first device |

## Findings

| source | as written | input that shows it | evidently intended | confidence | as-written member | corrected member |
|---|---|---|---|---|---|---|
| src/lib.rs:185 | the program region indexes `instructions` with the address itself (line 211 does the same for stores) | address 65536: index 65536 of a 65535-byte array, a panic. Every program-region address does the same | index `addr - 65536`, so that address 65536 is program byte 0 | high; not executed | Properties.ProgramIndexAsWrittenOutOfBounds | Properties.ProgramStoreLoad |

## Left out

- `get_version` (src/lib.rs:11-13) is left out: it only returns a build-time constant.
- `debug` (src/lib.rs:44-46) is left out: it only returns `self`. The `debug`,
  `errors`, `instructions` and `mem` modules are not part of this model.
  `Instruction` and `CPUError` are declared from their uses in src/lib.rs.
- Error messages keep only the error kind and the offending number. The
  `format!` text is not modelled.
- Devices are foreign trait objects, so the model sees only their behaviour at
  the bus:
  - The value `device.load(addr)` returns is a parameter (`DeviceReader`), given
    per device index and address.
  - What `device.push` does inside the device is not modelled. The store appears
    only in the push log.
  - `get_address_space` is taken to return a fixed range per device.
  - `device.load` is called on every matching device (src/lib.rs:192), and only
    the last answer is kept. The model takes `load` to have no effect on a device,
    so the earlier calls are not recorded.
  - Device load answers are the `reader` input and are not related to earlier
    pushes: a device that changes its state in `push` (possible through `&self`
    with interior mutability, src/lib.rs:28) is not captured.
- Properties.StoreFrame: for a device-region `other`, its equality holds only
  because device answers are the `reader` input; the source does not promise
  that a push leaves other device addresses (or the same one) unchanged.
- `Box<dyn Device>` ownership and borrowing are not modelled; the model has no
  concurrency.
- A release build's wrap-around arithmetic is not modelled. Overflow is the
  panic of a debug build.
