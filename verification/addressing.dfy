/** The addressing modes.  cpu/src/lib.rs declares five of them and
    cpu/src/opcode.rs refers to six more; this closed type is the union. */
module Addressing {

  datatype AddressingMode =
    | Immediate
    | ZeroPage
    | Absolute
    | ZeroPageX
    /** The table's spelling of zero page,X.  It is a variant of its own,
        not `ZeroPageX`, so the resolver has no arm for it. */
    | ZeroPage_X
    | ZeroPageY
    | AbsoluteX
    | AbsoluteY
    | IndirectX
    | IndirectY
    /** The instruction has no operand. */
    | None

  /** The modes `get_operand_address` handles; the others reach its
      fall-through panic. */
  predicate Resolvable(mode: AddressingMode) {
    mode in {Immediate, ZeroPage, Absolute, ZeroPageX, ZeroPageY}
  }
}
