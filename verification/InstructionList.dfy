/** The list of instructions of a function, as the compiler hands it over. */
module InstructionList {
  import opened Bytecode
  import opened Encoding

  /** size: in dwords. stackInc: how far the instruction moves the stack. max: the largest index into the table of a JMPP.
      line and section belong to LINE. marked and stackSize are set when the list is searched. */
  datatype Node = Node(op: Instr, size: nat, stackInc: int, max: nat, line: int, section: int, marked: bool, stackSize: int)
  {
    predicate SameInstr(n: Node) { this == n.(marked := marked, stackSize := stackSize) }
  }

  function Ops(nodes: seq<Node>): (c: seq<Instr>)
    ensures |c| == |nodes| && forall i :: 0 <= i < |c| ==> c[i] == nodes[i].op
  {
    seq(|nodes|, i requires 0 <= i < |nodes| => nodes[i].op)
  }

  /** Every node moves the stack as the table of its operation says, and has the size the table says. A line cue has the size
      of what it is to become: a suspend, or nothing. */
  predicate Tabled(nodes: seq<Node>, withoutCues: bool) {
    forall n :: n in nodes ==> n.stackInc == StackInc(n.op) && n.size == if n.op.LINE? && !withoutCues then 1 else SizeOf(n.op)
  }
}
