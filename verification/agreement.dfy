/** The opcode table and the dispatcher in `run` agree: for every opcode
    `run` executes, the table's length is exactly how far `pc` moves. */
module Agreement {
  import opened Results
  import opened Words
  import opened Memory
  import opened Addressing
  import opened OpCodes
  import opened Processor

  lemma StepAdvanceMatchesTable(c: Cpu)
    requires Step(c).Ok? && Step(c).value.Continue?
    ensures c.mem[c.pc] in OpcodesMap
    ensures Step(c).value.cpu.pc == c.pc + OpcodesMap[c.mem[c.pc]].size
  {
    NamedEntries();
  }

  /** BRK's length is one too, so the halted `pc` is also one table length
      past the opcode, although BRK's table mode (Absolute) is never used. */
  lemma HaltAdvanceMatchesTable(c: Cpu)
    requires Step(c).Ok? && Step(c).value.Halt?
    ensures c.mem[c.pc] in OpcodesMap && OpcodesMap[c.mem[c.pc]].mode == Absolute
    ensures Step(c).value.cpu.pc == c.pc + OpcodesMap[c.mem[c.pc]].size
  {
    NamedEntries();
  }

  /** Every byte `run` dispatches is in the table. */
  lemma DispatchedInTable()
    ensures forall b :: b in Dispatched ==> b in OpcodesMap
  {
    NamedEntries();
  }

  /** The table also lists bytes `run` does not dispatch: the six other LDA
      modes and the seven STA opcodes.  Those fail as unimplemented. */
  lemma UndispatchedAreLoadsAndStores(b: u8)
    requires b in OpcodesMap && b !in Dispatched
    ensures OpcodesMap[b].name == "STA" || OpcodesMap[b].name == "LDA"
  {
    var i :| 0 <= i < |CpuOpCodes| && CpuOpCodes[i].hex == b;
    TableLookup(i);
    TableBytes();
    TableNames();
    assert i != 0 && i != 1 && i != 8 && i != 9 && i != 10;
  }

  /** The table gives LDA and STA zero page,X the mode `ZeroPage_X`, which
      the resolver does not handle: resolving it fails on any machine. */
  lemma TableZeroPageXUnresolved(c: Cpu)
    ensures 0xB5 in OpcodesMap && 0x95 in OpcodesMap
    ensures GetOperandAddress(c, OpcodesMap[0xB5].mode) == Err(ModeNotImplemented)
    ensures GetOperandAddress(c, OpcodesMap[0x95].mode) == Err(ModeNotImplemented)
  {
    TableLookup(2);
    TableLookup(12);
    assert CpuOpCodes[2].hex == 0xB5 && CpuOpCodes[2].mode == ZeroPage_X;
    assert CpuOpCodes[12].hex == 0x95 && CpuOpCodes[12].mode == ZeroPage_X;
  }
}
