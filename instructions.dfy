/** The instruction records that walk.py copies and patches. */
module Instructions {

  /** An instruction's `arg`: absent, a resolved integer, or a symbolic label.
      `Label(a)` stands for the string `'L' + str(a)` that walk.py builds from
      the previous operand `a`; labels are kept as tagged operands rather than
      as their decimal spelling. */
  datatype Operand = NoArg | Int(n: int) | Label(of: Operand)

  /** The value of an instruction record: its opcode, its byte offset within
      its code unit, and its operand. */
  datatype Inst = Inst(opcode: int, offset: int, arg: Operand)

  /** A mutable instruction record. Membership in a backpatch set is by object
      identity, so a copy is never a member of its original's set. */
  class Instruction {
    var opcode: int
    var offset: int
    var arg: Operand

    /** A shallow copy: a new object whose fields equal those of `src`. */
    constructor Copy(src: Instruction)
      ensures Value() == src.Value()
    {
      opcode := src.opcode;
      offset := src.offset;
      arg := src.arg;
    }

    function Value(): Inst
      reads this
    {
      Inst(opcode, offset, arg)
    }
  }
}
