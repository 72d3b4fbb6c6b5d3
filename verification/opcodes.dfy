/** The static opcode descriptor table of cpu/src/opcode.rs and the lookup
    map built from it.  The `cycles` column is informational in the source
    and is not modelled. */
module OpCodes {
  import opened Words
  import opened Addressing

  /** One descriptor: the opcode byte, its mnemonic, its length in bytes
      (the opcode byte included) and its addressing mode. */
  datatype OpCode = OpCode(hex: u8, name: string, size: nat, mode: AddressingMode)

  /** `CPU_OP_CODES`, in source order, with the source's values as written
      (LDA absolute/indexed/indirect listed with size 2, BRK with mode
      Absolute). */
  const CpuOpCodes: seq<OpCode> := [
    OpCode(0xA9, "LDA", 2, Immediate),
    OpCode(0xA5, "LDA", 2, ZeroPage),
    OpCode(0xB5, "LDA", 2, ZeroPage_X),
    OpCode(0xAD, "LDA", 2, Absolute),
    OpCode(0xBD, "LDA", 2, AbsoluteX),
    OpCode(0xB9, "LDA", 2, AbsoluteY),
    OpCode(0xA1, "LDA", 2, IndirectX),
    OpCode(0xB1, "LDA", 2, IndirectY),
    OpCode(0xAA, "TAX", 1, None),
    OpCode(0xE8, "INX", 1, None),
    OpCode(0x00, "BRK", 1, Absolute),
    OpCode(0x85, "STA", 2, ZeroPage),
    OpCode(0x95, "STA", 2, ZeroPage_X),
    OpCode(0x8D, "STA", 3, Absolute),
    OpCode(0x9D, "STA", 3, AbsoluteX),
    OpCode(0x99, "STA", 3, AbsoluteY),
    OpCode(0x81, "STA", 3, IndirectX),
    OpCode(0x91, "STA", 3, IndirectY)
  ]

  /** No two descriptors share an opcode byte. */
  ghost predicate DistinctHexes(ops: seq<OpCode>) {
    forall i, j :: 0 <= i < j < |ops| ==> ops[i].hex != ops[j].hex
  }

  /** The `OPCODES_MAP` construction: each descriptor is inserted under its
      byte in table order, so a later duplicate would replace an earlier one.
      The keys are exactly the entries' bytes, and each maps to a descriptor
      carrying that byte. */
  function BuildMap(ops: seq<OpCode>): (m: map<u8, OpCode>)
    ensures m.Keys == set i | 0 <= i < |ops| :: ops[i].hex
    ensures forall h :: h in m ==> m[h].hex == h
    decreases |ops|
  {
    if |ops| == 0 then map[]
    else
      var last := ops[|ops| - 1];
      var m := BuildMap(ops[..|ops| - 1]);
      assert forall i :: 0 <= i < |ops| - 1 ==> ops[..|ops| - 1][i] == ops[i];
      m[last.hex := last]
  }

  /** The lookup map, built once from the table. */
  const OpcodesMap: map<u8, OpCode> := BuildMap(CpuOpCodes)

  /** With distinct bytes, looking up an entry's byte finds that entry. */
  lemma {:induction false} BuildMapFinds(ops: seq<OpCode>, i: nat)
    requires DistinctHexes(ops) && i < |ops|
    ensures ops[i].hex in BuildMap(ops) && BuildMap(ops)[ops[i].hex] == ops[i]
    decreases |ops|
  {
    if i < |ops| - 1 {
      var prefix := ops[..|ops| - 1];
      assert prefix[i] == ops[i];
      BuildMapFinds(prefix, i);
    }
  }

  /** With distinct bytes the map does not depend on the insertion order:
      two tables holding the same descriptors build the same map. */
  lemma OrderIrrelevant(a: seq<OpCode>, b: seq<OpCode>)
    requires DistinctHexes(a) && DistinctHexes(b)
    requires forall o :: o in a <==> o in b
    ensures BuildMap(a) == BuildMap(b)
  {
    var ma, mb := BuildMap(a), BuildMap(b);
    forall h | h in ma
      ensures h in mb && mb[h] == ma[h]
    {
      var i :| 0 <= i < |a| && a[i].hex == h;
      assert a[i] in a;
      var j :| 0 <= j < |b| && b[j] == a[i];
      BuildMapFinds(a, i);
      BuildMapFinds(b, j);
    }
    forall h | h in mb
      ensures h in ma
    {
      var j :| 0 <= j < |b| && b[j].hex == h;
      assert b[j] in b;
      var i :| 0 <= i < |a| && a[i] == b[j];
    }
    assert ma.Keys == mb.Keys;
  }

  /** Looking up the byte of table entry `i` finds entry `i`. */
  lemma TableLookup(i: nat)
    requires i < |CpuOpCodes|
    ensures CpuOpCodes[i].hex in OpcodesMap && OpcodesMap[CpuOpCodes[i].hex] == CpuOpCodes[i]
  {
    TableHexesDistinct();
    BuildMapFinds(CpuOpCodes, i);
  }

  /** The opcode bytes of the table, in table order. */
  const TableCodes: seq<u8> := [0xA9, 0xA5, 0xB5, 0xAD, 0xBD, 0xB9, 0xA1, 0xB1,
                                0xAA, 0xE8, 0x00,
                                0x85, 0x95, 0x8D, 0x9D, 0x99, 0x81, 0x91]

  lemma TableBytes()
    ensures |CpuOpCodes| == |TableCodes| == 18
    ensures forall i :: 0 <= i < 18 ==> CpuOpCodes[i].hex == TableCodes[i]
  {
  }

  /** Position of a byte in the table, for the bytes it lists. */
  function TableIndex(h: u8): int {
    match h
    case 0xA9 => 0  case 0xA5 => 1  case 0xB5 => 2  case 0xAD => 3
    case 0xBD => 4  case 0xB9 => 5  case 0xA1 => 6  case 0xB1 => 7
    case 0xAA => 8  case 0xE8 => 9  case 0x00 => 10
    case 0x85 => 11 case 0x95 => 12 case 0x8D => 13 case 0x9D => 14
    case 0x99 => 15 case 0x81 => 16 case 0x91 => 17
    case _ => -1
  }

  /** The table as written has pairwise distinct bytes: each entry's byte
      determines the entry's position. */
  lemma TableHexesDistinct()
    ensures DistinctHexes(CpuOpCodes)
  {
    TableBytes();
    assert forall i :: 0 <= i < 18 ==> TableIndex(TableCodes[i]) == i;
  }

  /** The lookup domain is exactly the 18 listed bytes: eight LDA, TAX,
      INX, BRK and seven STA.  Any other byte, 0xFF for one, is absent. */
  lemma MapDomain()
    ensures forall h :: h in OpcodesMap <==> h in TableCodes
    ensures 0xFF !in OpcodesMap
  {
    TableBytes();
    forall h | h in TableCodes
      ensures h in OpcodesMap
    {
      var i :| 0 <= i < 18 && TableCodes[i] == h;
      TableLookup(i);
    }
    forall h | h in OpcodesMap
      ensures h in TableCodes
    {
      var i :| 0 <= i < 18 && CpuOpCodes[i].hex == h;
      assert TableCodes[i] == h;
    }
  }

  /** The first eight descriptors are LDA, the last seven STA. */
  lemma TableNames()
    ensures forall i :: 0 <= i < 8 ==> CpuOpCodes[i].name == "LDA"
    ensures forall i :: 11 <= i < 18 ==> CpuOpCodes[i].name == "STA"
  {
  }

  /** Every descriptor's length is 1, 2 or 3 bytes, the opcode byte included. */
  lemma SizesInRange()
    ensures forall h :: h in OpcodesMap ==> 1 <= OpcodesMap[h].size <= 3
  {
    assert forall i :: 0 <= i < |CpuOpCodes| ==> 1 <= CpuOpCodes[i].size <= 3;
    forall h | h in OpcodesMap
      ensures 1 <= OpcodesMap[h].size <= 3
    {
      var i :| 0 <= i < |CpuOpCodes| && CpuOpCodes[i].hex == h;
      TableLookup(i);
    }
  }

  /** The entries the dispatcher relies on, and the quirks kept as written:
      TAX and INX take no operand, BRK is listed as Absolute with size 1,
      LDA absolute is listed with size 2. */
  lemma NamedEntries()
    ensures 0xA9 in OpcodesMap && OpcodesMap[0xA9] == OpCode(0xA9, "LDA", 2, Immediate)
    ensures 0xA5 in OpcodesMap && OpcodesMap[0xA5] == OpCode(0xA5, "LDA", 2, ZeroPage)
    ensures 0xAA in OpcodesMap && OpcodesMap[0xAA] == OpCode(0xAA, "TAX", 1, None)
    ensures 0xE8 in OpcodesMap && OpcodesMap[0xE8] == OpCode(0xE8, "INX", 1, None)
    ensures 0x00 in OpcodesMap && OpcodesMap[0x00] == OpCode(0x00, "BRK", 1, Absolute)
    ensures 0xAD in OpcodesMap && OpcodesMap[0xAD] == OpCode(0xAD, "LDA", 2, Absolute)
  {
    TableLookup(0);
    TableLookup(1);
    TableLookup(3);
    TableLookup(8);
    TableLookup(9);
    TableLookup(10);
  }
}
