/** The CSG operator kinds, their numeric codes and their display names. */
module Operations {
  import opened Wrappers

  datatype OpType = OpNone | OpUnion | OpIntersection | OpDifference

  /** The enumerator's value, as stored in an operation record. */
  function OpValue(t: OpType): (v: nat)
    ensures v <= 4
    ensures v == 0 <==> t == OpNone
  {
    match t
    case OpNone => 0
    case OpUnion => 1
    case OpIntersection => 2
    case OpDifference => 4
  }

  /** The enumerator a raw value names, if any (the reading side of a cast to op_types). */
  function OpTypeOf(v: int): (r: Option<OpType>)
    ensures r.Some? ==> OpValue(r.value) == v
    ensures r.None? <==> v !in {0, 1, 2, 4}
  {
    if v == 0 then Some(OpNone)
    else if v == 1 then Some(OpUnion)
    else if v == 2 then Some(OpIntersection)
    else if v == 4 then Some(OpDifference)
    else None
  }

  /** Decoding an encoded operator gives it back; so the four values are distinct. */
  lemma OpValueRoundTrip(t: OpType)
    ensures OpTypeOf(OpValue(t)) == Some(t)
  {
  }

  lemma OpValueInjective(s: OpType, t: OpType)
    ensures OpValue(s) == OpValue(t) <==> s == t
  {
    OpValueRoundTrip(s);
    OpValueRoundTrip(t);
  }

  /** get_op_name applied to a value cast to op_types. */
  function GetOpName(code: int): (name: string)
    ensures name == "Union" <==> OpTypeOf(code) == Some(OpUnion)
    ensures name == "Intersection" <==> OpTypeOf(code) == Some(OpIntersection)
    ensures name == "Difference" <==> OpTypeOf(code) == Some(OpDifference)
    ensures name == "Unknown ()" <==> OpTypeOf(code) in {None, Some(OpNone)}
  {
    if code == OpValue(OpUnion) then "Union"
    else if code == OpValue(OpIntersection) then "Intersection"
    else if code == OpValue(OpDifference) then "Difference"
    else "Unknown ()"
  }

  /** A flattened operation record: operator code and the ids its two operands returned. */
  datatype Operation = Operation(opType: nat, operand1: nat, operand2: nat)
}
