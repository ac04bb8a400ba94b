/**
 * The four kinds of instruction. Each constructor takes its fields in the
 * order of the Java constructor, so `Rtype(opcode, rd, rs, rt)` and
 * `Itype(opcode, rt, rs, imm)`; an instruction is a value and never changes.
 */
module Instructions {
  import opened Wrappers
  import opened Tokens
  import JavaInt

  datatype Inst =
    | Rtype(opcode: Token, rd: Token, rs: Token, rt: Token)
    | Itype(opcode: Token, rt: Token, rs: Token, imm: Token)
    | Jtype(opcode: Token, address: Token)
    | Print(rd: Token)

  /** A token whose literal is an `int`, as the interpreter's `(Integer)` casts need. */
  predicate HasIntLiteral(t: Token) {
    t.literal.Some? && JavaInt.IsInt(t.literal.value)
  }

  /** The immediate of an I-type and the address of a J-type carry an `int` literal. */
  predicate WellFormed(i: Inst) {
    match i
    case Itype(_, _, _, imm) => HasIntLiteral(imm)
    case Jtype(_, address) => HasIntLiteral(address)
    case _ => true
  }
}
