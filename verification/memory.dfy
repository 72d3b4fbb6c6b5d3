/** The flat memory of the CPU, `[u8; 0xFFFF]`, with byte and little-endian
    word accessors (cpu/src/lib.rs). */
module Memory {
  import opened Results
  import opened Words

  /** Number of cells.  The array has 0xFFFF cells, so the top address
      0xFFFF is NOT addressable and indexing it panics. */
  const MemSize: nat := 0xFFFF

  type Mem = m: seq<u8> | |m| == MemSize witness seq(MemSize, _ => 0)

  /** The all-zero memory of a freshly constructed CPU. */
  function Zeroed(): (m: Mem)
    ensures forall i :: 0 <= i < MemSize ==> m[i] == 0
  {
    seq(MemSize, _ => 0)
  }

  function MemRead(m: Mem, addr: u16): (r: Result<u8>)
    ensures r.Ok? <==> addr < MemSize
    ensures r.Ok? ==> r.value == m[addr]
    ensures r.Err? ==> r.error == OutOfBounds(addr)
  {
    if addr < MemSize then Ok(m[addr]) else Err(OutOfBounds(addr))
  }

  function MemWrite(m: Mem, addr: u16, data: u8): (r: Result<Mem>)
    ensures r.Ok? <==> addr < MemSize
    ensures r.Err? ==> r.error == OutOfBounds(addr)
    ensures r.Ok? ==> MemRead(r.value, addr) == Ok(data)
    ensures r.Ok? ==> forall i :: 0 <= i < MemSize && i != addr ==> r.value[i] == m[i]
  {
    if addr < MemSize then Ok(m[addr := data]) else Err(OutOfBounds(addr))
  }

  /** Little-endian word at `pos`: low byte at `pos`, high byte at `pos + 1`.
      There is no wrap-around: the second byte must be addressable. */
  function MemReadU16(m: Mem, pos: u16): (r: Result<u16>)
    ensures r.Ok? <==> pos + 1 < MemSize
    ensures r.Ok? ==> Lo(r.value) == m[pos] && Hi(r.value) == m[pos + 1]
    ensures r.Err? ==> r.error == OutOfBounds(if pos == 0xFFFF then pos else pos + 1)
  {
    var lo :- MemRead(m, pos);
    // `pos + 1` cannot overflow the u16: reading `pos` succeeded, so pos < 0xFFFF.
    var hi :- MemRead(m, pos + 1);
    JoinSplit(lo, hi);
    Ok(Join(lo, hi))
  }

  /** Stores `data` little-endian at `pos` and `pos + 1`. */
  function MemWriteU16(m: Mem, pos: u16, data: u16): (r: Result<Mem>)
    ensures r.Ok? <==> pos + 1 < MemSize
    ensures r.Err? ==> r.error == OutOfBounds(if pos == 0xFFFF then pos else pos + 1)
    ensures r.Ok? ==> r.value[pos] == Lo(data) && r.value[pos + 1] == Hi(data)
    ensures r.Ok? ==> forall i :: 0 <= i < MemSize && i != pos && i != pos + 1 ==> r.value[i] == m[i]
  {
    var m1 :- MemWrite(m, pos, Lo(data));
    // As in MemReadU16, the first write succeeding rules out an overflow.
    MemWrite(m1, pos + 1, Hi(data))
  }

  /** Reading a word back returns what was written, for every position whose
      two cells are addressable (0xFFFE and 0xFFFF are rejected by both). */
  lemma WriteThenReadU16(m: Mem, pos: u16, data: u16)
    requires pos + 1 < MemSize
    ensures MemWriteU16(m, pos, data).Ok?
    ensures MemReadU16(MemWriteU16(m, pos, data).value, pos) == Ok(data)
  {
    var m' := MemWriteU16(m, pos, data).value;
    var r := MemReadU16(m', pos);
    SplitJoin(r.value);
    SplitJoin(data);
  }

  /** A word read is unaffected by a byte write outside its two cells. */
  lemma ReadU16AfterWriteElsewhere(m: Mem, pos: u16, addr: u16, data: u8)
    requires pos + 1 < MemSize && addr < MemSize
    requires addr != pos && addr != pos + 1
    ensures MemWrite(m, addr, data).Ok?
    ensures MemReadU16(MemWrite(m, addr, data).value, pos) == MemReadU16(m, pos)
  {
    var m' := MemWrite(m, addr, data).value;
    var r, r' := MemReadU16(m, pos), MemReadU16(m', pos);
    SplitJoin(r.value);
    SplitJoin(r'.value);
  }
}
