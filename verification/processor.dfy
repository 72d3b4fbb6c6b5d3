/** The CPU of cpu/src/lib.rs: registers, the addressing-mode resolver, the
    instruction handlers and the fetch/decode/execute loop.  The Rust struct
    is mutated in place; here every operation maps a state to a new one. */
module Processor {
  import opened Results
  import opened Words
  import opened Memory
  import opened Flags
  import opened Addressing

  datatype Cpu = Cpu(a: u8, x: u8, status: bv8, y: u8, pc: u16, mem: Mem)

  /** Where `load` places a program, and where the reset vector lives. */
  const ProgramStart: u16 := 0x8000
  const ResetVector: u16 := 0xFFFC

  /** The opcodes `run` dispatches: LDA #imm, LDA zp, TAX, INX, BRK. */
  const Dispatched: set<u8> := {0xA9, 0xA5, 0xAA, 0xE8, 0x00}

  /** `CPU::new`: every register and every memory cell is zero. */
  function New(): (c: Cpu)
    ensures c.a == 0 && c.x == 0 && c.y == 0 && c.status == 0 && c.pc == 0
    ensures forall i :: 0 <= i < MemSize ==> c.mem[i] == 0
  {
    Cpu(0, 0, 0, 0, 0, Zeroed())
  }

  /** `get_operand_address`: the effective address of the operand whose
      first byte is at `c.pc`.  Zero-page indexing wraps within page 0. */
  function GetOperandAddress(c: Cpu, mode: AddressingMode): (r: Result<u16>)
    ensures mode == Immediate ==> r == Ok(c.pc)
    ensures mode != Immediate && Resolvable(mode) && c.pc >= MemSize ==> r == Err(OutOfBounds(c.pc))
    ensures mode == ZeroPage && c.pc < MemSize ==> r == Ok(c.mem[c.pc])
    ensures mode == Absolute && c.pc + 1 == MemSize ==> r == Err(OutOfBounds(MemSize))
    ensures mode == Absolute && c.pc + 1 < MemSize ==>
              r.Ok? && r.value == c.mem[c.pc] as int + 256 * c.mem[c.pc + 1] as int
    ensures mode in {ZeroPageX, ZeroPageY} && c.pc < MemSize ==>
              var index := if mode == ZeroPageX then c.x else c.y;
              && r.Ok? && r.value < 0x100
              && (r.value == c.mem[c.pc] + index || r.value == c.mem[c.pc] + index - 0x100)
    ensures !Resolvable(mode) ==> r == Err(ModeNotImplemented)
  {
    match mode
    case Immediate => Ok(c.pc)
    case ZeroPage =>
      var operand :- MemRead(c.mem, c.pc);
      Ok(operand)
    case Absolute =>
      var word :- MemReadU16(c.mem, c.pc);
      SplitJoin(word);
      Ok(word)
    case ZeroPageX =>
      var base :- MemRead(c.mem, c.pc);
      Ok(WrappingAdd(base, c.x))
    case ZeroPageY =>
      var base :- MemRead(c.mem, c.pc);
      Ok(WrappingAdd(base, c.y))
    case _ => Err(ModeNotImplemented)
  }

  /** What every value-producing handler leaves behind: only the register it
      names and the Zero/Negative flags may change, and those flags describe
      the value it produced. */
  ghost predicate Produced(c: Cpu, r: Cpu, v: u8) {
    && ZeroNegativeFrom(c.status, r.status, v)
    && r.y == c.y && r.pc == c.pc && r.mem == c.mem
  }

  /** `lda`: the accumulator takes the byte at the operand address. */
  function Lda(c: Cpu, mode: AddressingMode): (r: Result<Cpu>)
    ensures r.Ok? <==> GetOperandAddress(c, mode).Ok? && GetOperandAddress(c, mode).value < MemSize
    ensures r.Ok? ==> c.pc < MemSize
    ensures r.Ok? ==> var addr := GetOperandAddress(c, mode).value;
              r.value.a == c.mem[addr] && r.value.x == c.x && Produced(c, r.value, c.mem[addr])
  {
    var addr :- GetOperandAddress(c, mode);
    var v :- MemRead(c.mem, addr);
    Ok(c.(a := v, status := UpdateZeroAndNegative(c.status, v)))
  }

  /** `tax`: X takes a copy of the accumulator. */
  function Tax(c: Cpu): (r: Cpu)
    ensures r.x == c.a && r.a == c.a && Produced(c, r, c.a)
  {
    c.(x := c.a, status := UpdateZeroAndNegative(c.status, c.a))
  }

  /** `inx`: X goes up by one, with 0xFF wrapping round to 0x00. */
  function Inx(c: Cpu): (r: Cpu)
    ensures c.x < 0xFF ==> r.x == c.x + 1
    ensures c.x == 0xFF ==> r.x == 0 && Bit(r.status, Position(Zero))
    ensures r.a == c.a && Produced(c, r, r.x)
  {
    var x := WrappingAdd(c.x, 1);
    c.(x := x, status := UpdateZeroAndNegative(c.status, x))
  }

  /** The result of one trip round the loop of `run`. */
  datatype Outcome = Continue(cpu: Cpu) | Halt(cpu: Cpu)

  /** One iteration of the loop in `run`: fetch the opcode at `pc`, move
      past it, execute it.  LDA then skips its operand byte; BRK returns. */
  function Step(c: Cpu): (r: Result<Outcome>)
    ensures r.Ok? ==> c.pc < MemSize && c.pc < r.value.cpu.pc <= c.pc + 2
    ensures r.Ok? ==> r.value.cpu.mem == c.mem && r.value.cpu.y == c.y
    ensures (r.Ok? && r.value.Halt?) <==> c.pc < MemSize && c.mem[c.pc] == 0x00
    ensures r.Ok? && r.value.Halt? ==> r.value.cpu == c.(pc := c.pc + 1)
    ensures (r.Err? && r.error.Unimplemented?) <==> c.pc < MemSize && c.mem[c.pc] !in Dispatched
    ensures c.pc >= MemSize ==> r == Err(OutOfBounds(c.pc))
    ensures r.Err? ==> || r.error == OutOfBounds(c.pc)
                       || r.error == OutOfBounds(c.pc + 1)
                       || (c.pc < MemSize && r.error == Unimplemented(c.mem[c.pc], c.pc))
  {
    var opcode :- MemRead(c.mem, c.pc);
    // The fetch succeeded, so pc < 0xFFFF and `pc += 1` cannot overflow.
    var c1 := c.(pc := c.pc + 1);
    match opcode
    case 0xA9 =>
      var c2 :- Lda(c1, Immediate);
      Ok(Continue(c2.(pc := c2.pc + 1)))
    case 0xA5 =>
      var c2 :- Lda(c1, ZeroPage);
      Ok(Continue(c2.(pc := c2.pc + 1)))
    case 0xAA => Ok(Continue(Tax(c1)))
    case 0xE8 => Ok(Continue(Inx(c1)))
    case 0x00 => Ok(Halt(c1))
    case _ => Err(Unimplemented(opcode, c.pc))
  }

  /** 0xA9, LDA immediate: A takes the byte after the opcode, with flags;
      `pc` ends two past the opcode.  At 0xFFFE the operand is unreadable. */
  lemma StepLdaImmediate(c: Cpu)
    requires c.pc < MemSize && c.mem[c.pc] == 0xA9
    ensures c.pc + 1 == MemSize ==> Step(c) == Err(OutOfBounds(MemSize))
    ensures c.pc + 1 < MemSize ==>
              && Step(c).Ok? && Step(c).value.Continue?
              && var n := Step(c).value.cpu;
              && n.a == c.mem[c.pc + 1] && n.x == c.x && n.pc == c.pc + 2
              && ZeroNegativeFrom(c.status, n.status, n.a)
  {
  }

  /** 0xA5, LDA zero page: A takes the byte at the zero-page address named
      by the operand, with flags; `pc` ends two past the opcode.  At 0xFFFE
      the operand is unreadable. */
  lemma StepLdaZeroPage(c: Cpu)
    requires c.pc < MemSize && c.mem[c.pc] == 0xA5
    ensures c.pc + 1 == MemSize ==> Step(c) == Err(OutOfBounds(MemSize))
    ensures c.pc + 1 < MemSize ==>
              && Step(c).Ok? && Step(c).value.Continue?
              && var n := Step(c).value.cpu;
              && n.a == c.mem[c.mem[c.pc + 1]] && n.x == c.x && n.pc == c.pc + 2
              && ZeroNegativeFrom(c.status, n.status, n.a)
  {
  }

  /** 0xAA, TAX: X takes A, with flags; `pc` ends one past the opcode. */
  lemma StepTax(c: Cpu)
    requires c.pc < MemSize && c.mem[c.pc] == 0xAA
    ensures Step(c).Ok? && Step(c).value.Continue?
    ensures var n := Step(c).value.cpu;
            n.x == c.a && n.a == c.a && n.pc == c.pc + 1 && ZeroNegativeFrom(c.status, n.status, n.x)
  {
  }

  /** 0xE8, INX: X goes up by one modulo 256, with flags; 0xFF becomes 0x00
      and sets Zero.  `pc` ends one past the opcode. */
  lemma StepInx(c: Cpu)
    requires c.pc < MemSize && c.mem[c.pc] == 0xE8
    ensures Step(c).Ok? && Step(c).value.Continue?
    ensures var n := Step(c).value.cpu;
            && n.x == (c.x + 1) % 0x100 && n.a == c.a && n.pc == c.pc + 1
            && ZeroNegativeFrom(c.status, n.status, n.x)
    ensures c.x == 0xFF ==> Step(c).value.cpu.x == 0 && Bit(Step(c).value.cpu.status, Position(Zero))
  {
  }

  /** Any byte outside the five dispatched ones stops the machine with an
      "unimplemented" failure naming the byte and where it was fetched;
      that includes the STA opcodes the table lists and 0xFF, which it does
      not. */
  lemma StepUnimplemented(c: Cpu)
    requires c.pc < MemSize && c.mem[c.pc] !in Dispatched
    ensures Step(c) == Err(Unimplemented(c.mem[c.pc], c.pc))
  {
  }

  /** `run`: step until BRK or a failure.  Every step strictly raises `pc`,
      so the loop cannot go on forever. */
  function Run(c: Cpu): (r: Result<Cpu>)
    ensures r.Ok? ==> c.pc < r.value.pc && r.value.mem == c.mem && r.value.y == c.y
    ensures r.Ok? ==> r.value.mem[r.value.pc - 1] == 0x00
    ensures r.Err? ==> r.error.OutOfBounds? || r.error.Unimplemented?
    decreases 0x1_0000 - c.pc
  {
    match Step(c)
    case Err(e) => Err(e)
    case Ok(Halt(next)) => Ok(next)
    case Ok(Continue(next)) => Run(next)
  }

  /** `run` as the loop it is.  `steps` counts the instructions executed
      (BRK included), which can never exceed 0xFFFF. */
  method RunLoop(c: Cpu) returns (r: Result<Cpu>, steps: nat)
    ensures r == Run(c)
    ensures steps <= 0xFFFF
    ensures r.Ok? ==> 1 <= steps <= r.value.pc - c.pc
  {
    var cur := c;
    steps := 0;
    while true
      invariant Run(cur) == Run(c)
      invariant c.pc <= cur.pc && steps <= cur.pc - c.pc
      decreases 0x1_0000 - cur.pc
    {
      match Step(cur)
      case Err(e) =>
        return Err(e), steps;
      case Ok(Halt(next)) =>
        return Ok(next), steps + 1;
      case Ok(Continue(next)) =>
        cur, steps := next, steps + 1;
    }
  }

  /** `reset`: A, X and the status byte are cleared and `pc` is loaded from
      the reset vector; Y and memory are left as they were. */
  function Reset(c: Cpu): (r: Cpu)
    ensures r.a == 0 && r.x == 0 && r.status == 0
    ensures r.y == c.y && r.mem == c.mem
    ensures Lo(r.pc) == c.mem[ResetVector] && Hi(r.pc) == c.mem[ResetVector + 1]
  {
    var vector := MemReadU16(c.mem, ResetVector);
    c.(a := 0, x := 0, status := 0, pc := vector.value)
  }

  /** `memory[start..start + |program|].copy_from_slice(program)`, for a
      program that fits. */
  function CopyInto(m: Mem, start: nat, program: seq<u8>): (r: Mem)
    requires start + |program| <= MemSize
    ensures forall i :: 0 <= i < |program| ==> r[start + i] == program[i]
    ensures forall i :: 0 <= i < MemSize && !(start <= i < start + |program|) ==> r[i] == m[i]
  {
    var r := m[..start] + program + m[start + |program|..];
    assert forall i :: 0 <= i < |program| ==> r[start + i] == program[i];
    r
  }

  /** The memory `load` leaves: the program at 0x8000 onwards, then the
      reset vector (0xFFFC-0xFFFD) pointing at 0x8000, written last. */
  function LoadedMemory(m: Mem, program: seq<u8>): (r: Mem)
    requires ProgramStart + |program| <= MemSize
    ensures r[ResetVector] == Lo(ProgramStart) && r[ResetVector + 1] == Hi(ProgramStart)
    ensures forall i :: 0 <= i < |program| && ProgramStart + i != ResetVector && ProgramStart + i != ResetVector + 1 ==>
              r[ProgramStart + i] == program[i]
    ensures forall i :: (0 <= i < MemSize && !(ProgramStart <= i < ProgramStart + |program|) &&
              i != ResetVector && i != ResetVector + 1) ==> r[i] == m[i]
  {
    var copied := CopyInto(m, ProgramStart, program);
    var r := MemWriteU16(copied, ResetVector, ProgramStart).value;
    LoadedProgram(m, program, copied, r);
    LoadedElsewhere(m, program, copied, r);
    r
  }

  lemma LoadedProgram(m: Mem, program: seq<u8>, copied: Mem, r: Mem)
    requires ProgramStart + |program| <= MemSize
    requires copied == CopyInto(m, ProgramStart, program)
    requires MemWriteU16(copied, ResetVector, ProgramStart) == Ok(r)
    ensures forall i :: 0 <= i < |program| && ProgramStart + i != ResetVector && ProgramStart + i != ResetVector + 1 ==>
              r[ProgramStart + i] == program[i]
  {
    forall i | 0 <= i < |program| && ProgramStart + i != ResetVector && ProgramStart + i != ResetVector + 1
      ensures r[ProgramStart + i] == program[i]
    {
      assert r[ProgramStart + i] == copied[ProgramStart + i];
    }
  }

  lemma LoadedElsewhere(m: Mem, program: seq<u8>, copied: Mem, r: Mem)
    requires ProgramStart + |program| <= MemSize
    requires copied == CopyInto(m, ProgramStart, program)
    requires MemWriteU16(copied, ResetVector, ProgramStart) == Ok(r)
    ensures forall i :: (0 <= i < MemSize && !(ProgramStart <= i < ProgramStart + |program|) &&
              i != ResetVector && i != ResetVector + 1) ==> r[i] == m[i]
  {
    forall i | (0 <= i < MemSize && !(ProgramStart <= i < ProgramStart + |program|) &&
              i != ResetVector && i != ResetVector + 1)
      ensures r[i] == m[i]
    {
      assert r[i] == copied[i];
    }
  }

  /** `load`: a program longer than 0x7FFF bytes overruns memory (the slice
      end is checked); otherwise only memory changes. */
  function Load(c: Cpu, program: seq<u8>): (r: Result<Cpu>)
    ensures r.Ok? <==> ProgramStart + |program| <= MemSize
    ensures r.Err? ==> r.error == OutOfBounds(ProgramStart + |program|)
    ensures r.Ok? ==> r.value == c.(mem := LoadedMemory(c.mem, program))
  {
    if ProgramStart + |program| > MemSize then
      Err(OutOfBounds(ProgramStart + |program|))
    else
      Ok(c.(mem := LoadedMemory(c.mem, program)))
  }

  /** The first two calls of `load_and_run`: the machine is then ready to
      run the program from its first byte. */
  function LoadAndReset(c: Cpu, program: seq<u8>): (r: Result<Cpu>)
    ensures r.Ok? <==> ProgramStart + |program| <= MemSize
    ensures r.Ok? ==> r.value.a == 0 && r.value.x == 0 && r.value.status == 0 && r.value.y == c.y
    ensures r.Ok? ==> r.value.pc == ProgramStart && r.value.mem == LoadedMemory(c.mem, program)
  {
    var loaded :- Load(c, program);
    ResetAfterLoad(c, program);
    Ok(Reset(loaded))
  }

  /** `load_and_run`: load, reset, run.  A program that does not fit fails
      before anything runs; a completed run starts from the loaded memory,
      which running never changes. */
  function LoadAndRun(c: Cpu, program: seq<u8>): (r: Result<Cpu>)
    ensures ProgramStart + |program| > MemSize ==> r == Err(OutOfBounds(ProgramStart + |program|))
    ensures r.Ok? ==> r.value.mem == LoadedMemory(c.mem, program) && r.value.y == c.y
  {
    match LoadAndReset(c, program)
    case Err(e) => Err(e)
    case Ok(ready) => Run(ready)
  }

  /** A completed `load_and_run` has executed at least one instruction of
      the program and has not touched Y. */
  lemma LoadAndRunAdvances(c: Cpu, program: seq<u8>)
    ensures var r := LoadAndRun(c, program);
            r.Ok? ==> ProgramStart < r.value.pc && r.value.y == c.y
  {
    if LoadAndReset(c, program).Ok? {
      var ready := LoadAndReset(c, program).value;
      assert LoadAndRun(c, program) == Run(ready);
    }
  }

  /** A program that starts with BRK halts at once: A, X and the flags are
      cleared and `pc` is one past the reset-vector target. */
  lemma LoadAndRunBrkFirst(c: Cpu, program: seq<u8>)
    requires 0 < |program| <= MemSize - ProgramStart && program[0] == 0x00
    ensures LoadAndRun(c, program) ==
              Ok(c.(mem := LoadedMemory(c.mem, program), a := 0, x := 0, status := 0, pc := ProgramStart + 1))
  {
    var ready := LoadAndReset(c, program).value;
    ResetAfterLoad(c, program);
    assert Step(ready) == Ok(Halt(ready.(pc := ProgramStart + 1)));
  }

  /** After `load`, `reset` starts execution at 0x8000, on the program's
      first byte. */
  lemma ResetAfterLoad(c: Cpu, program: seq<u8>)
    requires ProgramStart + |program| <= MemSize
    ensures Reset(Load(c, program).value).pc == ProgramStart
    ensures 0 < |program| ==> Reset(Load(c, program).value).mem[ProgramStart] == program[0]
  {
    var loaded := Load(c, program).value;
    var pc := Reset(loaded).pc;
    assert Lo(pc) == Lo(ProgramStart) && Hi(pc) == Hi(ProgramStart);
    SplitJoin(pc);
    SplitJoin(ProgramStart);
  }
}
