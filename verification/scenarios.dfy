/** Whole-program runs of `load_and_run` on small programs, from any
    starting machine: the program is loaded at 0x8000, the reset vector is
    pointed there, and execution starts on its first byte. */
module Scenarios {
  import opened Results
  import opened Words
  import opened Memory
  import opened Flags
  import opened Processor

  /** The machine right after `load` and `reset` has `pc` on 0x8000 and A,
      X and the status byte cleared. */
  lemma Ready(c: Cpu, program: seq<u8>) returns (r: Cpu)
    requires 0 < |program| <= 8
    ensures LoadAndReset(c, program) == Ok(r)
    ensures r.pc == ProgramStart && r.status == 0 && r.x == 0 && r.a == 0
  {
    r := LoadAndReset(c, program).value;
  }

  /** Memory holds `program` from 0x8000 onwards. */
  predicate HoldsProgram(m: Mem, program: seq<u8>)
    requires |program| <= 8
  {
    forall i :: 0 <= i < |program| ==> m[ProgramStart + i] == program[i]
  }

  lemma ProgramCell(m: Mem, program: seq<u8>, i: nat)
    requires |program| <= 8 && HoldsProgram(m, program) && i < |program|
    ensures m[ProgramStart + i] == program[i]
  {
  }

  /** ... and holds the program bytes at 0x8000 onwards. */
  lemma ReadyProgram(c: Cpu, program: seq<u8>, r: Cpu)
    requires 0 < |program| <= 8 && LoadAndReset(c, program) == Ok(r)
    ensures HoldsProgram(r.mem, program)
  {
    LoadedHolds(c.mem, program);
  }

  lemma LoadedHolds(m: Mem, program: seq<u8>)
    requires |program| <= 8
    ensures HoldsProgram(LoadedMemory(m, program), program)
  {
    var l := LoadedMemory(m, program);
    forall i | 0 <= i < |program|
      ensures l[ProgramStart + i] == program[i]
    {
      assert ProgramStart + i < ResetVector;
    }
  }

  /** ... and leaves the zero page as it was. */
  lemma ReadyZeroPage(c: Cpu, program: seq<u8>, r: Cpu, addr: u16)
    requires LoadAndReset(c, program) == Ok(r) && addr < 0x100
    ensures r.mem[addr] == c.mem[addr]
  {
  }

  /** `load_and_run` continues with `run` on the machine `load` and `reset`
      leave. */
  lemma RunsFromReady(c: Cpu, program: seq<u8>, r: Cpu)
    requires LoadAndReset(c, program) == Ok(r)
    ensures LoadAndRun(c, program) == Run(r)
  {
  }

  /** LDA #$05; TAX; BRK at `pc` leaves A = X = 5, Zero and Negative clear,
      and `pc` one past the BRK. */
  lemma RunLdaTaxBrk(c: Cpu, p: seq<u8>)
    requires p == [0xA9, 0x05, 0xAA, 0x00] && HoldsProgram(c.mem, p)
    requires c.pc == ProgramStart
    ensures var r := Run(c);
            && r.Ok? && r.value.a == 5 && r.value.x == 5 && r.value.pc == 0x8004
            && GetFlag(r.value.status, Zero) == 0 && GetFlag(r.value.status, Negative) == 0
  {
    ProgramCell(c.mem, p, 0);
    ProgramCell(c.mem, p, 1);
    ProgramCell(c.mem, p, 2);
    ProgramCell(c.mem, p, 3);
    StepLdaImmediate(c);
    var c1 := Step(c).value.cpu;
    StepTax(c1);
    var c2 := Step(c1).value.cpu;
    assert Step(c2) == Ok(Halt(c2.(pc := 0x8004)));
    assert Run(c1) == Run(c2);
  }

  /** ... and so does `load_and_run` of that program, from any machine. */
  lemma LdaTaxBrk(c: Cpu, p: seq<u8>)
    requires p == [0xA9, 0x05, 0xAA, 0x00]
    ensures var r := LoadAndRun(c, p);
            && r.Ok? && r.value.a == 5 && r.value.x == 5 && r.value.pc == 0x8004
            && GetFlag(r.value.status, Zero) == 0 && GetFlag(r.value.status, Negative) == 0
  {
    var c0 := Ready(c, p);
    ReadyProgram(c, p, c0);
    RunsFromReady(c, p, c0);
    RunLdaTaxBrk(c0, p);
  }

  /** LDA #$00; BRK at `pc` sets Zero. */
  lemma RunLdaZero(c: Cpu, p: seq<u8>)
    requires p == [0xA9, 0x00, 0x00] && HoldsProgram(c.mem, p)
    requires c.pc == ProgramStart
    ensures var r := Run(c);
            && r.Ok? && r.value.a == 0 && r.value.pc == 0x8003
            && GetFlag(r.value.status, Zero) != 0 && GetFlag(r.value.status, Negative) == 0
  {
    ProgramCell(c.mem, p, 0);
    ProgramCell(c.mem, p, 1);
    ProgramCell(c.mem, p, 2);
    StepLdaImmediate(c);
    var c1 := Step(c).value.cpu;
    assert Step(c1) == Ok(Halt(c1.(pc := 0x8003)));
  }

  lemma LdaZeroSetsZero(c: Cpu, p: seq<u8>)
    requires p == [0xA9, 0x00, 0x00]
    ensures var r := LoadAndRun(c, p);
            && r.Ok? && r.value.a == 0 && r.value.pc == 0x8003
            && GetFlag(r.value.status, Zero) != 0 && GetFlag(r.value.status, Negative) == 0
  {
    var c0 := Ready(c, p);
    ReadyProgram(c, p, c0);
    RunsFromReady(c, p, c0);
    RunLdaZero(c0, p);
  }

  /** LDA #$FF; BRK at `pc` sets Negative and clears Zero. */
  lemma RunLdaNegative(c: Cpu, p: seq<u8>)
    requires p == [0xA9, 0xFF, 0x00] && HoldsProgram(c.mem, p)
    requires c.pc == ProgramStart
    ensures var r := Run(c);
            && r.Ok? && r.value.a == 0xFF && r.value.pc == 0x8003
            && GetFlag(r.value.status, Negative) != 0 && GetFlag(r.value.status, Zero) == 0
  {
    ProgramCell(c.mem, p, 0);
    ProgramCell(c.mem, p, 1);
    ProgramCell(c.mem, p, 2);
    StepLdaImmediate(c);
    var c1 := Step(c).value.cpu;
    assert Step(c1) == Ok(Halt(c1.(pc := 0x8003)));
  }

  lemma LdaNegativeSetsNegative(c: Cpu, p: seq<u8>)
    requires p == [0xA9, 0xFF, 0x00]
    ensures var r := LoadAndRun(c, p);
            && r.Ok? && r.value.a == 0xFF && r.value.pc == 0x8003
            && GetFlag(r.value.status, Negative) != 0 && GetFlag(r.value.status, Zero) == 0
  {
    var c0 := Ready(c, p);
    ReadyProgram(c, p, c0);
    RunsFromReady(c, p, c0);
    RunLdaNegative(c0, p);
  }

  /** INX; INX; BRK at `pc` adds two to X. */
  lemma RunInxTwice(c: Cpu, p: seq<u8>)
    requires p == [0xE8, 0xE8, 0x00] && HoldsProgram(c.mem, p)
    requires c.pc == ProgramStart && c.x < 0xFE
    ensures var r := Run(c);
            r.Ok? && r.value.x == c.x + 2 && r.value.a == c.a && r.value.pc == 0x8003
  {
    ProgramCell(c.mem, p, 0);
    ProgramCell(c.mem, p, 1);
    ProgramCell(c.mem, p, 2);
    StepInx(c);
    var c1 := Step(c).value.cpu;
    StepInx(c1);
    var c2 := Step(c1).value.cpu;
    assert Step(c2) == Ok(Halt(c2.(pc := 0x8003)));
    assert Run(c1) == Run(c2);
  }

  /** From a cleared X, INX; INX; BRK leaves X = 2. */
  lemma RunInxTwiceFromZero(c: Cpu, p: seq<u8>)
    requires p == [0xE8, 0xE8, 0x00] && HoldsProgram(c.mem, p)
    requires c.pc == ProgramStart && c.x == 0
    ensures var r := Run(c);
            r.Ok? && r.value.x == 2 && r.value.pc == 0x8003
  {
    RunInxTwice(c, p);
  }

  /** ... so after the reset has cleared X, `load_and_run` leaves X = 2. */
  lemma InxTwice(c: Cpu, p: seq<u8>)
    requires p == [0xE8, 0xE8, 0x00]
    ensures var r := LoadAndRun(c, p);
            r.Ok? && r.value.x == 2 && r.value.pc == 0x8003
  {
    var c0 := Ready(c, p);
    ReadyProgram(c, p, c0);
    RunsFromReady(c, p, c0);
    RunInxTwiceFromZero(c0, p);
  }

  /** LDA $10; BRK at `pc` loads A from zero-page cell 0x10. */
  lemma RunLdaZeroPage(c: Cpu, p: seq<u8>)
    requires p == [0xA5, 0x10, 0x00] && HoldsProgram(c.mem, p)
    requires c.pc == ProgramStart
    ensures var r := Run(c);
            r.Ok? && r.value.a == c.mem[0x10] && r.value.pc == 0x8003
  {
    ProgramCell(c.mem, p, 0);
    ProgramCell(c.mem, p, 1);
    ProgramCell(c.mem, p, 2);
    StepLdaZeroPage(c);
    var c1 := Step(c).value.cpu;
    assert Step(c1) == Ok(Halt(c1.(pc := 0x8003)));
  }

  /** ... and `load` and `reset` leave that cell as it was, so
      `load_and_run` reads the value the machine held before. */
  lemma LdaZeroPageReadsCell(c: Cpu, p: seq<u8>)
    requires p == [0xA5, 0x10, 0x00]
    ensures var r := LoadAndRun(c, p);
            r.Ok? && r.value.a == c.mem[0x10]
  {
    var c0 := Ready(c, p);
    ReadyProgram(c, p, c0);
    ReadyZeroPage(c, p, c0, 0x10);
    RunsFromReady(c, p, c0);
    RunLdaZeroPage(c0, p);
  }

  /** A byte the dispatcher does not handle at `pc` stops `run` there. */
  lemma RunUnimplemented(c: Cpu, p: seq<u8>, op: u8)
    requires (op == 0xFF || op == 0x85) && p == [op, 0x00] && HoldsProgram(c.mem, p)
    requires c.pc == ProgramStart
    ensures Run(c) == Err(Unimplemented(op, ProgramStart))
  {
    ProgramCell(c.mem, p, 0);
    StepUnimplemented(c);
  }

  /** A byte the dispatcher does not handle stops `load_and_run` with an
      "unimplemented" failure at 0x8000: 0xFF (not in the table) and 0x85
      (STA zero page, in the table but not dispatched) alike. */
  lemma UnknownOpcodeFails(c: Cpu, op: u8, p: seq<u8>)
    requires (op == 0xFF || op == 0x85) && p == [op, 0x00]
    ensures LoadAndRun(c, p) == Err(Unimplemented(op, ProgramStart))
  {
    var c0 := Ready(c, p);
    ReadyProgram(c, p, c0);
    RunsFromReady(c, p, c0);
    RunUnimplemented(c0, p, op);
  }
}
