/**
  What the flattened buffers promise to the stack-based evaluator: sizes, id
  order, a postfix program that never underflows, and operand references that
  agree with the order in which the program produces its values.
*/
module FlattenProofs {
  import opened Wrappers
  import opened Operations
  import opened Primitives
  import opened Instructions
  import opened CsgTree

  /** Sizes: one primitive per leaf, one operation per internal node, one instruction per node. */
  lemma {:induction false} FlattenCounts(n: Node, np: nat, no: nat)
    ensures |FlattenNode(n, np, no).prims| == Leaves(Some(n))
    ensures |FlattenNode(n, np, no).ops| == Internals(Some(n))
    ensures |FlattenNode(n, np, no).instrs| == Leaves(Some(n)) + Internals(Some(n))
    decreases n
  {
    if !IsLeave(n) {
      var l := FlattenNode(n.left.value, np, no);
      FlattenInternal(n, np, no, l, FlattenNode(n.right.value, np + |l.prims|, no + |l.ops|));
      FlattenCounts(n.left.value, np, no);
      FlattenCounts(n.right.value, np + |l.prims|, no + |l.ops|);
    }
  }

  /** The last instruction emitted for a node refers to that node's own record, by the id returned. */
  lemma {:induction false} FlattenLast(n: Node, np: nat, no: nat)
    ensures var f := FlattenNode(n, np, no);
      && f.instrs != []
      && f.instrs[|f.instrs| - 1]
         == Instruction(if IsLeave(n) then Tag(PrimitiveNode) else Tag(OperationNode), f.id)
      && (IsLeave(n) ==> f.id == np && |f.prims| == 1 && f.ops == [])
      && (!IsLeave(n) ==> f.id == no + |f.ops| - 1 && |f.ops| > 0)
  {
  }

  /** The stack depth after running a program from depth d, or None if an operation underflows. */
  function StackDepth(prog: seq<Instruction>, d: nat): Option<nat>
    decreases |prog|
  {
    if prog == [] then Some(d)
    else if prog[0].tag == Tag(PrimitiveNode) then StackDepth(prog[1..], d + 1)
    else if prog[0].tag == Tag(OperationNode) && d >= 2 then StackDepth(prog[1..], d - 1)
    else None
  }

  lemma {:induction false} StackDepthAppend(a: seq<Instruction>, b: seq<Instruction>, d: nat)
    ensures StackDepth(a + b, d)
         == match StackDepth(a, d) case None => None case Some(e) => StackDepth(b, e)
    decreases |a|
  {
    if a != [] {
      assert (a + b)[1..] == a[1..] + b;
      if a[0].tag == Tag(PrimitiveNode) {
        StackDepthAppend(a[1..], b, d + 1);
      } else if a[0].tag == Tag(OperationNode) && d >= 2 {
        StackDepthAppend(a[1..], b, d - 1);
      }
    } else {
      assert a + b == b;
    }
  }

  lemma PostfixStep(li: seq<Instruction>, ri: seq<Instruction>, last: Instruction, d: nat)
    requires StackDepth(li, d) == Some(d + 1) && StackDepth(ri, d + 1) == Some(d + 2)
    requires last.tag == Tag(OperationNode)
    ensures StackDepth(li + ri + [last], d) == Some(d + 1)
  {
    StackDepthAppend(li + ri, [last], d);
    StackDepthAppend(li, ri, d);
  }

  /** The instructions of a subtree are a postfix program that leaves exactly one more value. */
  lemma {:induction false} FlattenIsPostfix(n: Node, np: nat, no: nat, d: nat)
    ensures StackDepth(FlattenNode(n, np, no).instrs, d) == Some(d + 1)
    decreases n
  {
    if !IsLeave(n) {
      var l := FlattenNode(n.left.value, np, no);
      var r := FlattenNode(n.right.value, np + |l.prims|, no + |l.ops|);
      FlattenInternal(n, np, no, l, r);
      FlattenIsPostfix(n.left.value, np, no, d);
      FlattenIsPostfix(n.right.value, np + |l.prims|, no + |l.ops|, d + 1);
      PostfixStep(l.instrs, r.instrs, Instruction(Tag(OperationNode), no + |l.ops| + |r.ops|), d);
    }
  }

  /** The ids carried by the instructions with the given tag, in program order. */
  function IdsWithTag(prog: seq<Instruction>, tag: nat): seq<nat> {
    if prog == [] then []
    else (if prog[0].tag == tag then [prog[0].id] else []) + IdsWithTag(prog[1..], tag)
  }

  lemma {:induction false} IdsWithTagAppend(a: seq<Instruction>, b: seq<Instruction>, tag: nat)
    ensures IdsWithTag(a + b, tag) == IdsWithTag(a, tag) + IdsWithTag(b, tag)
    decreases |a|
  {
    if a == [] {
      assert a + b == b;
    } else {
      var h := if a[0].tag == tag then [a[0].id] else [];
      assert (a + b)[0] == a[0] && (a + b)[1..] == a[1..] + b;
      IdsWithTagAppend(a[1..], b, tag);
      assert IdsWithTag(a + b, tag) == h + IdsWithTag(a[1..] + b, tag);
      assert IdsWithTag(a, tag) == h + IdsWithTag(a[1..], tag);
    }
  }

  /** lo, lo + 1, ..., lo + count - 1. */
  function Range(lo: nat, count: nat): (r: seq<nat>)
    ensures |r| == count && forall i | 0 <= i < count :: r[i] == lo + i
  {
    seq(count, i requires 0 <= i < count => lo + i)
  }

  lemma RangeAppend(lo: nat, a: nat, b: nat)
    ensures Range(lo, a) + Range(lo + a, b) == Range(lo, a + b)
  {
    var x, y := Range(lo, a) + Range(lo + a, b), Range(lo, a + b);
    assert forall i | 0 <= i < a + b :: x[i] == y[i];
  }

  lemma IdsStep(li: seq<Instruction>, ri: seq<Instruction>, np: nat, lp: nat, rp: nat, no: nat, lo: nat, ro: nat)
    requires IdsWithTag(li, Tag(PrimitiveNode)) == Range(np, lp) && IdsWithTag(li, Tag(OperationNode)) == Range(no, lo)
    requires IdsWithTag(ri, Tag(PrimitiveNode)) == Range(np + lp, rp)
    requires IdsWithTag(ri, Tag(OperationNode)) == Range(no + lo, ro)
    ensures var prog := li + ri + [Instruction(Tag(OperationNode), no + lo + ro)];
      && IdsWithTag(prog, Tag(PrimitiveNode)) == Range(np, lp + rp)
      && IdsWithTag(prog, Tag(OperationNode)) == Range(no, lo + ro + 1)
  {
    var last := [Instruction(Tag(OperationNode), no + lo + ro)];
    IdsWithTagAppend(li + ri, last, Tag(PrimitiveNode));
    IdsWithTagAppend(li, ri, Tag(PrimitiveNode));
    IdsWithTagAppend(li + ri, last, Tag(OperationNode));
    IdsWithTagAppend(li, ri, Tag(OperationNode));
    assert IdsWithTag(last, Tag(PrimitiveNode)) == [];
    assert IdsWithTag(last, Tag(OperationNode)) == [no + lo + ro];
    RangeAppend(np, lp, rp);
    RangeAppend(no, lo, ro);
    RangeAppend(no, lo + ro, 1);
  }

  /**
    PRIMITIVE instructions carry the ids np, np + 1, ... in order and OPERATION
    instructions the ids no, no + 1, ...: each record is referenced exactly once.
  */
  lemma {:induction false} FlattenIdsInOrder(n: Node, np: nat, no: nat)
    ensures var f := FlattenNode(n, np, no);
      && IdsWithTag(f.instrs, Tag(PrimitiveNode)) == Range(np, |f.prims|)
      && IdsWithTag(f.instrs, Tag(OperationNode)) == Range(no, |f.ops|)
    decreases n
  {
    if !IsLeave(n) {
      var l := FlattenNode(n.left.value, np, no);
      var r := FlattenNode(n.right.value, np + |l.prims|, no + |l.ops|);
      FlattenInternal(n, np, no, l, r);
      FlattenIdsInOrder(n.left.value, np, no);
      FlattenIdsInOrder(n.right.value, np + |l.prims|, no + |l.ops|);
      IdsStep(l.instrs, r.instrs, np, |l.prims|, |r.prims|, no, |l.ops|, |r.ops|);
    } else {
      assert IdsWithTag([Instruction(Tag(PrimitiveNode), np)], Tag(PrimitiveNode)) == [np];
    }
  }

  /** The solid a node stands for: a leaf's primitive record, or an operator applied to two solids. */
  datatype Shape = Solid(prim: Primitive) | Combined(opType: nat, a: Shape, b: Shape)

  function Denote(n: Node): Shape {
    if IsLeave(n) then Solid(PrimitiveOf(n))
    else Combined(OpValue(n.op), Denote(n.left.value), Denote(n.right.value))
  }

  /** A value on the evaluator's stack, with the instruction that produced it. */
  datatype Slot = Slot(shape: Shape, ref: Instruction)

  /**
    A stack evaluator over the three buffers. It fails on an unknown tag, an
    out-of-range id, a stack underflow, or an operation record whose operand ids
    are not the ids of the two values it pops.
  */
  function Evaluate(prog: seq<Instruction>, prims: seq<Primitive>, ops: seq<Operation>, stack: seq<Slot>)
    : Option<seq<Slot>>
    decreases |prog|
  {
    if prog == [] then Some(stack)
    else
      var ins := prog[0];
      if ins.tag == Tag(PrimitiveNode) && ins.id < |prims| then
        Evaluate(prog[1..], prims, ops, stack + [Slot(Solid(prims[ins.id]), ins)])
      else if && ins.tag == Tag(OperationNode) && ins.id < |ops| && |stack| >= 2
              && ops[ins.id].operand1 == stack[|stack| - 2].ref.id
              && ops[ins.id].operand2 == stack[|stack| - 1].ref.id then
        var a, b := stack[|stack| - 2], stack[|stack| - 1];
        Evaluate(prog[1..], prims, ops,
                 stack[..|stack| - 2] + [Slot(Combined(ops[ins.id].opType, a.shape, b.shape), ins)])
      else None
  }

  lemma {:induction false} EvaluateAppend(a: seq<Instruction>, b: seq<Instruction>,
                                          prims: seq<Primitive>, ops: seq<Operation>, stack: seq<Slot>)
    ensures Evaluate(a + b, prims, ops, stack)
         == match Evaluate(a, prims, ops, stack)
            case None => None
            case Some(s) => Evaluate(b, prims, ops, s)
    decreases |a|
  {
    if a == [] {
      assert a + b == b;
    } else {
      assert (a + b)[1..] == a[1..] + b;
      var ins := a[0];
      if ins.tag == Tag(PrimitiveNode) && ins.id < |prims| {
        EvaluateAppend(a[1..], b, prims, ops, stack + [Slot(Solid(prims[ins.id]), ins)]);
      } else if && ins.tag == Tag(OperationNode) && ins.id < |ops| && |stack| >= 2
                && ops[ins.id].operand1 == stack[|stack| - 2].ref.id
                && ops[ins.id].operand2 == stack[|stack| - 1].ref.id {
        var x, y := stack[|stack| - 2], stack[|stack| - 1];
        EvaluateAppend(a[1..], b, prims, ops,
                       stack[..|stack| - 2] + [Slot(Combined(ops[ins.id].opType, x.shape, y.shape), ins)]);
      }
    }
  }

  /** The records of f sit at positions np and no of the whole buffers. */
  predicate PlacedAt(f: Flat, np: nat, no: nat, prims: seq<Primitive>, ops: seq<Operation>) {
    && np + |f.prims| <= |prims| && prims[np..np + |f.prims|] == f.prims
    && no + |f.ops| <= |ops| && ops[no..no + |f.ops|] == f.ops
  }

  /** Where the children's records of an internal node sit in the whole buffers. */
  lemma PlacedChildren(n: Node, np: nat, no: nat, f: Flat, l: Flat, r: Flat, prims: seq<Primitive>, ops: seq<Operation>)
    requires !IsLeave(n) && f == FlattenNode(n, np, no)
    requires l == FlattenNode(n.left.value, np, no)
    requires r == FlattenNode(n.right.value, np + |l.prims|, no + |l.ops|)
    requires PlacedAt(f, np, no, prims, ops)
    ensures PlacedAt(l, np, no, prims, ops)
    ensures PlacedAt(r, np + |l.prims|, no + |l.ops|, prims, ops)
    ensures no + |l.ops| + |r.ops| < |ops| && ops[no + |l.ops| + |r.ops|] == Operation(OpValue(n.op), l.id, r.id)
    ensures l.instrs != []
  {
    FlattenInternal(n, np, no, l, r);
    FlattenLast(n.left.value, np, no);
    PlacedParts(f, l, r, Operation(OpValue(n.op), l.id, r.id), np, no, prims, ops);
  }

  lemma PlacedParts(f: Flat, l: Flat, r: Flat, last: Operation, np: nat, no: nat, prims: seq<Primitive>, ops: seq<Operation>)
    requires f.prims == l.prims + r.prims && f.ops == l.ops + r.ops + [last]
    requires PlacedAt(f, np, no, prims, ops)
    ensures PlacedAt(l, np, no, prims, ops)
    ensures PlacedAt(r, np + |l.prims|, no + |l.ops|, prims, ops)
    ensures no + |l.ops| + |r.ops| < |ops| && ops[no + |l.ops| + |r.ops|] == last
  {
    PlacedSplit(l.prims, r.prims, prims, np);
    PlacedSplit(l.ops, r.ops + [last], ops, no);
    PlacedSplit(r.ops, [last], ops, no + |l.ops|);
  }

  /** A slice that holds a + b holds a at its start and b right after. */
  lemma PlacedSplit<T>(a: seq<T>, b: seq<T>, s: seq<T>, lo: nat)
    requires lo + |a| + |b| <= |s| && s[lo..lo + |a| + |b|] == a + b
    ensures s[lo..lo + |a|] == a && s[lo + |a|..lo + |a| + |b|] == b
  {
    assert s[lo..lo + |a|] == (a + b)[..|a|];
    assert s[lo + |a|..lo + |a| + |b|] == (a + b)[|a|..];
  }

  /** The last step of an internal node's program: the operation combines the two values on top. */
  lemma EvaluateOperation(opI: Instruction, prims: seq<Primitive>, ops: seq<Operation>,
                          stack: seq<Slot>, sl: Slot, sr: Slot)
    requires opI.tag == Tag(OperationNode) && opI.id < |ops|
    requires ops[opI.id].operand1 == sl.ref.id && ops[opI.id].operand2 == sr.ref.id
    ensures Evaluate([opI], prims, ops, stack + [sl] + [sr])
         == Some(stack + [Slot(Combined(ops[opI.id].opType, sl.shape, sr.shape), opI)])
  {
    var s2 := stack + [sl] + [sr];
    assert s2[..|s2| - 2] == stack;
    assert s2[|s2| - 2] == sl && s2[|s2| - 1] == sr;
  }

  /** A leaf's program pushes the leaf's own primitive record. */
  lemma EvaluateLeaf(n: Node, np: nat, prims: seq<Primitive>, ops: seq<Operation>, stack: seq<Slot>)
    requires IsLeave(n) && np < |prims| && prims[np] == PrimitiveOf(n)
    ensures var ins := Instruction(Tag(PrimitiveNode), np);
      Evaluate([ins], prims, ops, stack) == Some(stack + [Slot(Denote(n), ins)])
  {
  }

  /** Chaining the two children's programs and the operation. */
  lemma EvaluateStep(li: seq<Instruction>, ri: seq<Instruction>, opI: Instruction,
                     prims: seq<Primitive>, ops: seq<Operation>, stack: seq<Slot>, sl: Slot, sr: Slot)
    requires Evaluate(li, prims, ops, stack) == Some(stack + [sl])
    requires Evaluate(ri, prims, ops, stack + [sl]) == Some(stack + [sl] + [sr])
    requires opI.tag == Tag(OperationNode) && opI.id < |ops|
    requires ops[opI.id].operand1 == sl.ref.id && ops[opI.id].operand2 == sr.ref.id
    ensures Evaluate(li + ri + [opI], prims, ops, stack)
         == Some(stack + [Slot(Combined(ops[opI.id].opType, sl.shape, sr.shape), opI)])
  {
    EvaluateAppend(li + ri, [opI], prims, ops, stack);
    EvaluateAppend(li, ri, prims, ops, stack);
    EvaluateOperation(opI, prims, ops, stack, sl, sr);
  }

  /**
    Running the instructions of a subtree pushes exactly one value, the solid
    the subtree stands for, tagged with the subtree's own instruction; every
    operation record it reads names as operands the ids of the two values it pops.
  */
  lemma {:induction false} FlattenEvaluates(n: Node, np: nat, no: nat, f: Flat,
                                            prims: seq<Primitive>, ops: seq<Operation>, stack: seq<Slot>)
    requires f == FlattenNode(n, np, no)
    requires PlacedAt(f, np, no, prims, ops)
    ensures f.instrs != []
    ensures Evaluate(f.instrs, prims, ops, stack) == Some(stack + [Slot(Denote(n), f.instrs[|f.instrs| - 1])])
    decreases n
  {
    if IsLeave(n) {
      FlattenLeaf(n, np, no);
      EvaluateLeaf(n, np, prims, ops, stack);
    } else {
      var l := FlattenNode(n.left.value, np, no);
      var r := FlattenNode(n.right.value, np + |l.prims|, no + |l.ops|);
      PlacedChildren(n, np, no, f, l, r, prims, ops);
      var sl := Slot(Denote(n.left.value), l.instrs[|l.instrs| - 1]);
      FlattenEvaluates(n.right.value, np + |l.prims|, no + |l.ops|, r, prims, ops, stack + [sl]);
      FlattenEvaluates(n.left.value, np, no, l, prims, ops, stack);
      FlattenEvaluatesInternal(n, np, no, l, r, prims, ops, stack);
    }
  }

  lemma FlattenEvaluatesInternal(n: Node, np: nat, no: nat, l: Flat, r: Flat,
                                 prims: seq<Primitive>, ops: seq<Operation>, stack: seq<Slot>)
    requires !IsLeave(n)
    requires l == FlattenNode(n.left.value, np, no)
    requires r == FlattenNode(n.right.value, np + |l.prims|, no + |l.ops|)
    requires no + |l.ops| + |r.ops| < |ops| && ops[no + |l.ops| + |r.ops|] == Operation(OpValue(n.op), l.id, r.id)
    requires l.instrs != [] && r.instrs != []
    requires Evaluate(l.instrs, prims, ops, stack)
          == Some(stack + [Slot(Denote(n.left.value), l.instrs[|l.instrs| - 1])])
    requires Evaluate(r.instrs, prims, ops, stack + [Slot(Denote(n.left.value), l.instrs[|l.instrs| - 1])])
          == Some(stack + [Slot(Denote(n.left.value), l.instrs[|l.instrs| - 1])]
                        + [Slot(Denote(n.right.value), r.instrs[|r.instrs| - 1])])
    ensures var f := FlattenNode(n, np, no);
      Evaluate(f.instrs, prims, ops, stack) == Some(stack + [Slot(Denote(n), f.instrs[|f.instrs| - 1])])
  {
    FlattenInternal(n, np, no, l, r);
    FlattenLast(n.left.value, np, no);
    FlattenLast(n.right.value, np + |l.prims|, no + |l.ops|);
    var opI := Instruction(Tag(OperationNode), no + |l.ops| + |r.ops|);
    var sl := Slot(Denote(n.left.value), l.instrs[|l.instrs| - 1]);
    var sr := Slot(Denote(n.right.value), r.instrs[|r.instrs| - 1]);
    EvaluateStep(l.instrs, r.instrs, opI, prims, ops, stack, sl, sr);
  }

  /**
    The buffers flatten_tree produces from empty ones for a non-null root form a
    complete postfix program: it never underflows, ends with one value, and that
    value is the solid the whole tree stands for.
  */
  lemma {:induction false} FlattenRootProgram(root: Node)
    ensures var f := Flatten(Some(root), 0, 0);
      && |f.instrs| == Leaves(Some(root)) + Internals(Some(root))
      && StackDepth(f.instrs, 0) == Some(1)
      && Evaluate(f.instrs, f.prims, f.ops, []) == Some([Slot(Denote(root), f.instrs[|f.instrs| - 1])])
  {
    var f := FlattenNode(root, 0, 0);
    FlattenCounts(root, 0, 0);
    FlattenIsPostfix(root, 0, 0, 0);
    assert f.prims[0..|f.prims|] == f.prims && f.ops[0..|f.ops|] == f.ops;
    FlattenEvaluates(root, 0, 0, f, f.prims, f.ops, []);
    var top := Slot(Denote(root), f.instrs[|f.instrs| - 1]);
    assert [] + [top] == [top];
  }

  /** flatten_tree of a null node appends nothing and returns 255. */
  lemma FlattenNull(np: nat, no: nat)
    ensures Flatten(None, np, no) == Flat([], [], [], 255)
  {
  }

  /**
    The transform and colour of an internal node never reach the buffers: a
    multmatrix or color block around an operator changes nothing in the output.
  */
  lemma FlattenIgnoresInternalAnnotations(n: Node, t: Geometry.Transform, c: Geometry.Vec3, np: nat, no: nat)
    requires !IsLeave(n)
    ensures FlattenNode(n.(transform := t, color := c), np, no) == FlattenNode(n, np, no)
  {
  }
}
