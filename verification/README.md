# A Dafny model of a small 6502-style CPU core

This project models the CPU core of a small 6502 emulator written in Rust,
together with two pure helpers of its graphical front end. It proves
properties of that model.

- **Memory.** A flat array of 0xFFFF bytes. Address 0xFFFF itself is not
  addressable. There are byte and little-endian word read/write helpers.
- **Status register.** One byte with six named flags at fixed bit positions:
  N=7, V=6, D=3, I=2, Z=1, C=0.
- **Addressing-mode resolver.** `get_operand_address` supports Immediate,
  ZeroPage, Absolute, ZeroPageX and ZeroPageY. Every other mode reaches the
  resolver's fall-through panic.
- **Instruction handlers.** `lda`, `tax` and `inx`, each of which recomputes
  the Zero and Negative flags.
- **Machine life cycle.** `new`, `reset`, `load`, `load_and_run`, and the
  fetch/decode/execute loop `run`. The loop dispatches LDA immediate (0xA9),
  LDA zero page (0xA5), TAX (0xAA), INX (0xE8) and BRK (0x00). Every other
  byte reaches `todo!()`.
- **Opcode table.** The 18-entry descriptor table and the lookup map built
  from it.
- **Front end.** The palette `color` (nine colours over all 256 byte values), and `read_screen_state`. The
  latter copies the 32x32 video window at 0x200..0x5FF into an RGBA frame.

## Modelling choices

- **Immutable state.** The Rust `CPU` struct is mutated in place. Here it is
  an immutable `Cpu` record, and every operation is a pure function from one
  state to the next.
- **Panics become errors.** Every panic of the Rust code is an `Error` value
  inside a `Result`:
  - an out-of-bounds index (memory, a slice of it, or the frame) is
    `OutOfBounds`;
  - the resolver's fall-through is `ModeNotImplemented`;
  - the dispatcher's `todo!()` is `Unimplemented(opcode, at)`.
- **Integer types.** Bytes and words are the integer ranges `u8` and `u16`.
  `wrapping_add` is written out as a reduction modulo 256. The status
  register is a `bv8`, because the source only ever touches it with masks.
- **One addressing-mode type.** The table file names modes that the enum in
  cpu/src/lib.rs lacks: `ZeroPage_X`, `Absolute_X`, `Absolute_Y`,
  `Indirect_X`, `Indirect_Y` and `None`. The model has one closed
  `AddressingMode` type covering both sets. `ZeroPage_X` (the table's mode
  for 0xB5 and 0x95) stays a variant of its own, separate from the enum's
  `ZeroPageX`. `get_operand_address` has no arm for it, so resolving it
  reaches the fall-through panic (`Agreement.TableZeroPageXUnresolved`).
- **Quirks kept as written:**
  - `reset` leaves Y untouched.
  - BRK's table mode is Absolute.
  - Every LDA entry has size 2, LDA absolute included.
  - `read_screen_state` writes each changed pixel's blue byte a second time,
    into `frame[4k+4]`. That byte is the next pixel's red. For the last pixel
    the index is 4096, which is out of bounds: if the last pixel has to change
    the model returns `OutOfBounds(4096)`. Otherwise the spilled byte is
    compared again at the next pixel, so the finished frame is correct.
    `update` reports exactly whether some pixel of the incoming frame differed
    from its colour.
- **`run` never consults the opcode table.** It decides everything on the
  byte it fetches (cpu/src/lib.rs:167-186). 0xFF, which the table does not
  list, and 0x85 (STA, which the table does list) both reach the `todo!()`
  arm at cpu/src/lib.rs:185, so there is one failure for every byte outside
  the five dispatched ones and no separate failure for bytes missing from
  the table.
- **BRK leaves `pc` one past the BRK byte.** `pc` is incremented at
  cpu/src/lib.rs:165, before the byte is dispatched, so a BRK first
  instruction halts with `pc` at 0x8001, one past the reset-vector value.
  `Processor.LoadAndRunBrkFirst` states this.
- **No overflow error.** The Rust code has five `u16` additions that would
  panic on overflow in a debug build: `program_counter += 1` at
  cpu/src/lib.rs:165, 170 and 175, and `pos + 1` in the two word helpers
  (cpu/src/lib.rs:132 and 140). The increments at 170 and 175 follow `lda`'s
  read of the operand at `pc`. None of them can overflow. Each follows a successful
  access to the cell at that same address, so that address is below 0xFFFF.
  Dafny checks this through the `u16` range of the results, so the model
  needs no error variant for it.

## Model

| member | source | states |
|---|---|---|
| Words.WrappingAdd | cpu/src/lib.rs:118 | the 8-bit sum is the plain sum when it fits and the sum less 256 otherwise |
| Words.SplitJoin | cpu/src/lib.rs:130-141 | joining a word's low and high byte gives the word back |
| Words.JoinSplit | cpu/src/lib.rs:130-141 | the low and high byte of a joined word are the bytes it was joined from |
| Memory.Zeroed | cpu/src/lib.rs:36 | a new memory holds zero in every one of its 0xFFFF cells |
| Memory.MemRead | cpu/src/lib.rs:122-124 | a byte read succeeds exactly below 0xFFFF, returning the byte stored there, and otherwise fails at that index |
| Memory.MemWrite | cpu/src/lib.rs:126-128 | a byte write succeeds exactly below 0xFFFF; the cell then reads back the byte and no other cell changes |
| Memory.MemReadU16 | cpu/src/lib.rs:130-134 | a word read succeeds exactly when both cells are addressable; its low byte is the cell at pos and its high byte the next cell; otherwise it fails at the first unreadable index |
| Memory.MemWriteU16 | cpu/src/lib.rs:136-141 | a word write stores the low byte at pos and the high byte at pos+1, changes no other cell, and fails exactly when pos+1 is not addressable |
| Memory.WriteThenReadU16 | cpu/src/lib.rs:130-141 | for every pos up to 0xFFFD, reading a word back after writing it returns the word written |
| Memory.ReadU16AfterWriteElsewhere | cpu/src/lib.rs:122-134 | a byte write outside a word's two cells does not change what the word read returns |
| Flags.Position | cpu/src/lib.rs:59-68 | each flag sits at its own bit below 8, and bits 4 and 5 belong to no flag |
| Flags.GetFlag | cpu/src/lib.rs:59-68 | get_flag is nonzero exactly when the flag's bit is set, and the result has no other bit set |
| Flags.SetFlag | cpu/src/lib.rs:70-79 | set_flag turns the flag's bit on and leaves the other seven bits as they were |
| Flags.UnsetFlag | cpu/src/lib.rs:81-90 | unset_flag turns the flag's bit off and leaves the other seven bits as they were |
| Flags.GetAfterSetAndUnset | cpu/src/lib.rs:59-90 | after set_flag, get_flag reports the flag; after unset_flag it does not; neither changes what get_flag says of any other flag |
| Flags.SetIdempotent | cpu/src/lib.rs:70-79 | setting a flag twice gives the same byte as setting it once |
| Flags.UnsetIdempotent | cpu/src/lib.rs:81-90 | clearing a flag twice gives the same byte as clearing it once |
| Flags.UpdateZeroAndNegative | cpu/src/lib.rs:92-104 | Zero is set iff the value is 0, Negative is set iff the value is at least 0x80, and the other six bits are unchanged |
| Flags.ZeroNegativeUnique | cpu/src/lib.rs:92-104 | those three conditions determine the new status byte completely |
| Processor.New | cpu/src/lib.rs:29-38 | a new CPU has every register, pc and every memory cell at zero |
| Processor.GetOperandAddress | cpu/src/lib.rs:40-57 | Immediate gives pc; ZeroPage gives mem[pc]; Absolute gives mem[pc] + 256*mem[pc+1] and fails when pc+1 is 0xFFFF; ZeroPageX/Y give mem[pc] plus X/Y wrapped below 0x100; an unreadable pc fails there; any other mode is the not-implemented error |
| Processor.Lda | cpu/src/lib.rs:106-110 | lda succeeds exactly when the operand address resolves and is readable; A then holds the byte there, X, Y, pc and memory are unchanged, and Zero/Negative describe A |
| Processor.Tax | cpu/src/lib.rs:112-115 | tax copies A into X, keeps A, Y, pc and memory, and sets Zero/Negative from X |
| Processor.Inx | cpu/src/lib.rs:117-120 | inx adds one to X, with 0xFF wrapping to 0x00 and setting Zero; A, Y, pc and memory are unchanged, and Zero/Negative describe the new X |
| Processor.Step | cpu/src/lib.rs:163-186 | one loop iteration raises pc by one or two and keeps memory and Y; it halts exactly on a 0x00 byte, with pc one past it and nothing else changed; it fails as unimplemented exactly on a byte outside the five dispatched ones; an unreadable pc fails at pc itself, and any other failure is an out-of-bounds read at pc or pc+1 |
| Processor.StepLdaImmediate | cpu/src/lib.rs:168-171 | 0xA9 loads A from the byte after the opcode with flags and leaves pc two past the opcode; at the top of memory the operand read fails |
| Processor.StepLdaZeroPage | cpu/src/lib.rs:173-176 | 0xA5 loads A from the zero-page cell the operand names, with flags, and leaves pc two past the opcode; at 0xFFFE the operand read fails at 0xFFFF |
| Processor.StepTax | cpu/src/lib.rs:178 | 0xAA copies A into X with flags and leaves pc one past the opcode |
| Processor.StepInx | cpu/src/lib.rs:179 | 0xE8 adds one to X modulo 256 with flags (0xFF becomes 0x00 and sets Zero) and leaves pc one past the opcode |
| Processor.StepUnimplemented | cpu/src/lib.rs:185 | any byte other than the five dispatched ones stops the machine with an unimplemented error naming the byte and its address |
| Processor.Run | cpu/src/lib.rs:162-188 | a completed run has raised pc, kept memory and Y, and stopped just past a 0x00 byte; a failed run is an out-of-bounds or unimplemented error |
| Processor.RunLoop | cpu/src/lib.rs:162-188 | the loop computes the same result as the step-by-step definition and executes at most 0xFFFF instructions; a completed run executes at least one, and no more than the distance pc moved |
| Processor.Reset | cpu/src/lib.rs:143-149 | reset zeroes A, X and status, keeps Y and memory, and loads pc from the little-endian word at 0xFFFC-0xFFFD |
| Processor.CopyInto | cpu/src/lib.rs:152 | the slice copy puts program byte i at start+i and leaves every cell outside the slice unchanged |
| Processor.LoadedMemory | cpu/src/lib.rs:151-154 | after load, the program occupies 0x8000 onwards except the two reset-vector cells, which hold 0x8000 little-endian (so a 0x7FFF-byte program keeps its last byte at 0xFFFE), and every other cell is unchanged |
| Processor.Load | cpu/src/lib.rs:151-154 | load succeeds exactly when the program fits below 0xFFFF, changes only memory, and otherwise fails at the end index of the slice |
| Processor.LoadAndReset | cpu/src/lib.rs:156-158 | load then reset, for a program that fits: A, X and status are zero, Y is kept, pc is 0x8000 and memory is the loaded memory |
| Processor.LoadAndRun | cpu/src/lib.rs:156-160 | load, then reset, then run: a program longer than 0x7FFF bytes fails before anything runs, and a completed run ends with memory exactly as load left it and Y unchanged |
| Processor.LoadAndRunAdvances | cpu/src/lib.rs:156-160 | a completed load_and_run ends with pc above 0x8000 and Y as it was |
| Processor.LoadAndRunBrkFirst | cpu/src/lib.rs:156-160 | a program starting with BRK halts at once with A, X and status zero and pc at 0x8001 |
| Processor.ResetAfterLoad | cpu/src/lib.rs:143-154 | after load, reset sets pc to 0x8000, which holds the program's first byte |
| OpCodes.BuildMap | cpu/src/opcode.rs:61-67 | the map's keys are exactly the table entries' bytes, and each key maps to an entry with that byte |
| OpCodes.BuildMapFinds | cpu/src/opcode.rs:61-67 | when the bytes are distinct, looking up an entry's byte returns that entry |
| OpCodes.OrderIrrelevant | cpu/src/opcode.rs:61-67 | when the bytes are distinct, two tables holding the same entries in any order build the same map |
| OpCodes.TableHexesDistinct | cpu/src/opcode.rs:31-60 | no two table entries share an opcode byte |
| OpCodes.TableLookup | cpu/src/opcode.rs:31-67 | looking up the byte of any table entry returns that very entry |
| OpCodes.TableBytes | cpu/src/opcode.rs:31-60 | the table has 18 entries with the listed bytes, in order |
| OpCodes.MapDomain | cpu/src/opcode.rs:31-67 | a byte is in the lookup map exactly when it is one of the 18 listed bytes; 0xFF is absent |
| OpCodes.TableNames | cpu/src/opcode.rs:32-58 | the first eight entries are LDA and the last seven STA |
| OpCodes.SizesInRange | cpu/src/opcode.rs:31-60 | every entry's size is 1, 2 or 3 |
| OpCodes.NamedEntries | cpu/src/opcode.rs:33-49 | the full entries for 0xA9, 0xA5, 0xAA, 0xE8, 0x00 and 0xAD: TAX and INX have size 1 and no operand, BRK has size 1 and mode Absolute, LDA absolute has size 2 |
| Agreement.StepAdvanceMatchesTable | cpu/src/lib.rs:167-179 | for every instruction run executes without halting, pc moves by exactly that opcode's table size |
| Agreement.HaltAdvanceMatchesTable | cpu/src/opcode.rs:49 | BRK is in the table with mode Absolute, and the halted pc is one table size past it |
| Agreement.DispatchedInTable | cpu/src/lib.rs:167-183 | every byte run dispatches has a table entry |
| Agreement.UndispatchedAreLoadsAndStores | cpu/src/opcode.rs:31-60 | every table entry run does not dispatch is an LDA or an STA |
| Agreement.TableZeroPageXUnresolved | cpu/src/opcode.rs:35-53 | the table's mode for 0xB5 and 0x95, `ZeroPage_X`, is not one `get_operand_address` handles, so resolving it gives the not-implemented error on any machine |
| Screen.Color | emulator/src/lib.rs:17-29 | 0 is black, 1 is white, 8 and every byte from 15 up are cyan, and every channel is 0, 128 or 255 |
| Screen.ColorRepeats | emulator/src/lib.rs:21-26 | for b from 2 to 7, bytes b and b+7 have the same colour |
| Screen.ColorsDistinct | emulator/src/lib.rs:17-29 | bytes 0 to 8 have nine different colours |
| Screen.RewrittenHasStaleWitness | emulator/src/lib.rs:37-43 | a pixel is rewritten only if it, or an earlier pixel, was stale in the incoming frame |
| Screen.StaleForcesRewrite | emulator/src/lib.rs:37-43 | a stale pixel is rewritten unless the pixel before it was rewritten |
| Screen.SomeRewrittenIffSomeStale | emulator/src/lib.rs:33-46 | some comparison finds a difference exactly when some pixel of the incoming frame was stale |
| Screen.AnyRewrittenStep | emulator/src/lib.rs:42 | the update flag after one more pixel is the flag before it or'd with that pixel's comparison |
| Screen.Repaint | emulator/src/lib.rs:38-41 | repainting pixel n sets its RGB and the next pixel's red byte, and leaves every alpha byte and every other colour byte unchanged |
| Screen.ScanStep | emulator/src/lib.rs:34-45 | one loop iteration compares the byte it would rewrite, and keeps the loop state: finished pixels correct, alpha untouched, later pixels untouched apart from the spill |
| Screen.ReadScreenState | emulator/src/lib.rs:31-47 | the conversion fails exactly when the last pixel must be rewritten, at index 4096; otherwise every pixel k shows the colour of cell 0x200+k, no alpha byte changes, and the result is true exactly when some incoming pixel differed from its colour |
| Scenarios.Ready | cpu/src/lib.rs:156-158 | after load and reset of a short program, pc is 0x8000 and A, X and status are zero |
| Scenarios.ReadyProgram | cpu/src/lib.rs:151-154 | after load and reset of a program of at most eight bytes, the program's bytes are at 0x8000 onwards |
| Scenarios.ReadyZeroPage | cpu/src/lib.rs:151-154 | load and reset of any program that fits leave the zero page as it was |
| Scenarios.RunsFromReady | cpu/src/lib.rs:156-160 | load_and_run continues with run on the loaded and reset machine |
| Scenarios.RunLdaTaxBrk | cpu/src/lib.rs:162-188 | running A9 05 AA 00 from 0x8000 ends with A = X = 5, Zero and Negative clear, and pc 0x8004 |
| Scenarios.LdaTaxBrk | cpu/src/lib.rs:156-160 | load_and_run of A9 05 AA 00 from any machine ends with A = X = 5, Zero and Negative clear, and pc 0x8004 |
| Scenarios.RunLdaZero | cpu/src/lib.rs:168-183 | running A9 00 00 ends with A = 0, Zero set and Negative clear |
| Scenarios.LdaZeroSetsZero | cpu/src/lib.rs:156-160 | load_and_run of A9 00 00 ends with A = 0, Zero set, Negative clear and pc 0x8003 |
| Scenarios.RunLdaNegative | cpu/src/lib.rs:168-183 | running A9 FF 00 ends with A = 0xFF, Negative set and Zero clear |
| Scenarios.LdaNegativeSetsNegative | cpu/src/lib.rs:156-160 | load_and_run of A9 FF 00 ends with A = 0xFF, Negative set, Zero clear and pc 0x8003 |
| Scenarios.RunInxTwice | cpu/src/lib.rs:179-183 | running E8 E8 00 adds two to an X below 0xFE, keeps A, and ends with pc 0x8003 |
| Scenarios.RunInxTwiceFromZero | cpu/src/lib.rs:179-183 | from X = 0, running E8 E8 00 ends with X = 2 |
| Scenarios.InxTwice | cpu/src/lib.rs:156-160 | load_and_run of E8 E8 00 ends with X = 2, because reset has cleared X |
| Scenarios.RunLdaZeroPage | cpu/src/lib.rs:173-183 | running A5 10 00 loads A from cell 0x10 |
| Scenarios.LdaZeroPageReadsCell | cpu/src/lib.rs:156-160 | load_and_run of A5 10 00 loads A with whatever cell 0x10 held before the call |
| Scenarios.RunUnimplemented | cpu/src/lib.rs:185 | running a program whose first byte is 0xFF or 0x85 fails as unimplemented at 0x8000 |
| Scenarios.UnknownOpcodeFails | cpu/src/lib.rs:156-160 | load_and_run of FF 00 or 85 00 fails as unimplemented at 0x8000, for a byte absent from the table and for one present in it |

## Left out

- The `cycles` field of the opcode descriptors: it is informational and nothing reads it.
- emulator/src/ui_scene.rs: GPU pipeline, texture and buffer setup, and `f32` camera maths.
- `Stage` and the async event loop of emulator/src/lib.rs: window, surface and input handling.
- The random byte written to 0xFE after each `run`, and the key codes written to 0xFF: these are I/O performed by the event loop.
- The `rand` generator and the embedded `game_code` program: they are inputs of the event loop. The game code mostly uses opcodes the dispatcher does not implement.
- The `lazy_static` and `HashMap` mechanics: the lookup map is the pure map `OpCodes.OpcodesMap`.
- The panic messages: each panic is a distinct `Error` variant, and its text is not kept.
- `pc += 1` and `pos + 1` overflowing a `u16`: this cannot happen, for the reason given above, so it has no error variant.
- The emulator calls `cpu.mem_read` and imports a `Mem` trait. Neither is public in the version of cpu/src/lib.rs modelled here. `Screen.ReadScreenState` reads memory cells directly.
- Scenarios.Ready: it is stated only for programs of at most eight bytes, which covers every scenario proved here.
- Scenarios.ReadyProgram: it is stated only for programs of at most eight bytes. Such a program stays clear of the reset vector, while a program of 0x7FFD bytes or more has its bytes at 0xFFFC-0xFFFD overwritten by it. `Processor.LoadedMemory` states the general placement.
