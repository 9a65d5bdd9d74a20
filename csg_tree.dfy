/**
  CSG tree nodes and the flattener that lowers a tree into three buffers:
  primitives, operations and a postfix instruction program.
*/
module CsgTree {
  import opened Wrappers
  import opened Geometry
  import opened Operations
  import opened Primitives
  import opened Instructions

  /**
    A node, field for field. A null child pointer is None. The operator
    constructor fills left, right and op; the primitive constructor fills
    primitive; every other field keeps its default.
  */
  datatype Node = Node(
    left: Option<Node>,
    right: Option<Node>,
    op: OpType,
    primitive: PrimitiveType,
    transform: Transform,
    color: Vec3)

  /** The operator constructor. */
  function NewOpNode(t: OpType, l: Option<Node>, r: Option<Node>): (n: Node)
    ensures n.left == l && n.right == r && n.op == t
    ensures n.primitive == PrimNone && n.transform == Identity && n.color == White
  {
    Node(l, r, t, PrimNone, Identity, White)
  }

  /** The primitive constructor. */
  function NewPrimitiveNode(t: PrimitiveType): (n: Node)
    ensures IsLeave(n) && n.op == OpNone && n.primitive == t
    ensures n.transform == Identity && n.color == White
  {
    Node(None, None, OpNone, t, Identity, White)
  }

  /** is_leave: a node is treated as a leaf as soon as one child pointer is null. */
  predicate IsLeave(n: Node) {
    n.left.None? || n.right.None?
  }

  /**
    Which nodes the flattener treats as leaves: every primitive node, and an
    operator node exactly when one of its children is null.
  */
  lemma LeaveKinds(t: OpType, l: Node, r: Node, p: PrimitiveType)
    ensures IsLeave(NewPrimitiveNode(p))
    ensures !IsLeave(NewOpNode(t, Some(l), Some(r)))
    ensures IsLeave(NewOpNode(t, Some(l), None)) && IsLeave(NewOpNode(t, None, Some(r)))
  {
  }

  /**
    The intended shape of a tree: a leaf has no children, a primitive kind and no
    operator; an internal node has two well-formed children, an operator and no
    primitive kind. No node has exactly one child.
  */
  predicate WellFormed(n: Node) {
    match (n.left, n.right)
    case (None, None) => n.primitive != PrimNone && n.op == OpNone
    case (Some(l), Some(r)) => n.op != OpNone && n.primitive == PrimNone && WellFormed(l) && WellFormed(r)
    case _ => false
  }

  function Leaves(node: Option<Node>): nat {
    match node
    case None => 0
    case Some(n) => if IsLeave(n) then 1 else Leaves(n.left) + Leaves(n.right)
  }

  function Internals(node: Option<Node>): nat {
    match node
    case None => 0
    case Some(n) => if IsLeave(n) then 0 else 1 + Internals(n.left) + Internals(n.right)
  }

  /** What flatten_tree returns for a null node. */
  const NullId: nat := 255

  /** The primitive record emitted for a leaf: its kind, colour with alpha 1, specular 0, its transform. */
  function PrimitiveOf(n: Node): (p: Primitive)
    ensures p.kind == n.primitive && p.transform == n.transform
    ensures p.mat.albedo == Vec4(n.color.x, n.color.y, n.color.z, 1.0) && p.mat.spec == 0.0
  {
    Primitive(n.primitive, Material(Vec4(n.color.x, n.color.y, n.color.z, 1.0), 0.0), n.transform)
  }

  /** What one call of flatten_tree appends to each buffer, and the id it returns. */
  datatype Flat = Flat(prims: seq<Primitive>, ops: seq<Operation>, instrs: seq<Instruction>, id: nat)

  /**
    flatten_tree called with a primitive buffer of length np and an operation
    buffer of length no: the records it appends and the id it returns.
  */
  function Flatten(node: Option<Node>, np: nat, no: nat): Flat {
    match node
    case None => Flat([], [], [], NullId)
    case Some(n) => FlattenNode(n, np, no)
  }

  /** Flatten at a non-null node. An internal node has both children, so it recurses on nodes. */
  function FlattenNode(n: Node, np: nat, no: nat): Flat {
    if IsLeave(n) then
      Flat([PrimitiveOf(n)], [], [Instruction(Tag(PrimitiveNode), np)], np)
    else
      var l := FlattenNode(n.left.value, np, no);
      var r := FlattenNode(n.right.value, np + |l.prims|, no + |l.ops|);
      var id := no + |l.ops| + |r.ops|;
      Flat(l.prims + r.prims,
           l.ops + r.ops + [Operation(OpValue(n.op), l.id, r.id)],
           l.instrs + r.instrs + [Instruction(Tag(OperationNode), id)],
           id)
  }

  /** Flatten unfolded at a leaf. */
  lemma FlattenLeaf(n: Node, np: nat, no: nat)
    requires IsLeave(n)
    ensures Flatten(Some(n), np, no) == Flat([PrimitiveOf(n)], [], [Instruction(Tag(PrimitiveNode), np)], np)
  {
  }

  /** Flatten unfolded at an internal node, in terms of its children's flattenings. */
  lemma {:induction false} FlattenInternal(n: Node, np: nat, no: nat, l: Flat, r: Flat)
    requires !IsLeave(n)
    requires l == FlattenNode(n.left.value, np, no)
    requires r == FlattenNode(n.right.value, np + |l.prims|, no + |l.ops|)
    ensures FlattenNode(n, np, no).prims == l.prims + r.prims
    ensures FlattenNode(n, np, no).ops == l.ops + r.ops + [Operation(OpValue(n.op), l.id, r.id)]
    ensures FlattenNode(n, np, no).instrs
         == l.instrs + r.instrs + [Instruction(Tag(OperationNode), no + |l.ops| + |r.ops|)]
    ensures FlattenNode(n, np, no).id == no + |l.ops| + |r.ops|
  {
  }

  lemma AppendAssoc<T>(a: seq<T>, b: seq<T>, c: seq<T>, d: seq<T>)
    ensures a + b + c == a + (b + c)
    ensures a + b + c + d == a + (b + c + d)
  {
  }

  /** The three vectors flatten_tree appends to. */
  class FlatBuffers {
    var primitives: seq<Primitive>
    var operations: seq<Operation>
    var instructions: seq<Instruction>

    constructor ()
      ensures primitives == [] && operations == [] && instructions == []
    {
      primitives, operations, instructions := [], [], [];
    }
  }

  class Tree {
    const root: Node

    constructor (root: Node)
      ensures this.root == root
    {
      this.root := root;
    }

    /** flatten_tree: a post-order traversal appending to the three buffers. */
    method FlattenTree(node: Option<Node>, out: FlatBuffers) returns (id: nat)
      modifies out
      ensures out.primitives == old(out.primitives) + Flatten(node, |old(out.primitives)|, |old(out.operations)|).prims
      ensures out.operations == old(out.operations) + Flatten(node, |old(out.primitives)|, |old(out.operations)|).ops
      ensures out.instructions == old(out.instructions) + Flatten(node, |old(out.primitives)|, |old(out.operations)|).instrs
      ensures id == Flatten(node, |old(out.primitives)|, |old(out.operations)|).id
      decreases node
    {
      if node.None? {
        return NullId;
      }
      var n := node.value;
      if IsLeave(n) {
        id := |out.primitives|;
        out.instructions := out.instructions + [Instruction(Tag(PrimitiveNode), id)];
        var m := Material(Vec4(n.color.x, n.color.y, n.color.z, 1.0), 0.0);
        out.primitives := out.primitives + [Primitive(n.primitive, m, n.transform)];
        FlattenLeaf(n, id, |old(out.operations)|);
        return id;
      }
      ghost var p0, o0, i0 := out.primitives, out.operations, out.instructions;
      ghost var l := FlattenNode(n.left.value, |p0|, |o0|);
      var opType := OpValue(n.op);
      var operand1 := FlattenTree(n.left, out);
      assert Flatten(n.left, |p0|, |o0|) == l;
      ghost var p1, o1, i1 := out.primitives, out.operations, out.instructions;
      ghost var r := FlattenNode(n.right.value, |p1|, |o1|);
      var operand2 := FlattenTree(n.right, out);
      assert Flatten(n.right, |p1|, |o1|) == r;
      id := |out.operations|;
      out.operations := out.operations + [Operation(opType, operand1, operand2)];
      out.instructions := out.instructions + [Instruction(Tag(OperationNode), id)];
      FlattenInternal(n, |p0|, |o0|, l, r);
      AppendAssoc(p0, l.prims, r.prims, []);
      AppendAssoc(o0, l.ops, r.ops, [Operation(opType, operand1, operand2)]);
      AppendAssoc(i0, l.instrs, r.instrs, [Instruction(Tag(OperationNode), id)]);
    }
  }
}
