/** Postfix instructions: a tag saying which buffer the id indexes. */
module Instructions {
  datatype NodeType = PrimitiveNode | OperationNode

  /** The enumerator's value, as stored in an instruction's tag (PRIMITIVE = 0, OPERATION = 1). */
  function Tag(t: NodeType): (v: nat)
    ensures v < 2
    ensures v == 0 <==> t == PrimitiveNode
  {
    match t
    case PrimitiveNode => 0
    case OperationNode => 1
  }

  datatype Instruction = Instruction(tag: nat, id: nat)
}
