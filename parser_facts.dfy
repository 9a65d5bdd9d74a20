/**
  What the parser promises about operator, matrix and colour blocks, and the
  whole front end from source text to the three GPU buffers.
*/
module ParserFacts {
  import opened Wrappers
  import opened Geometry
  import opened Operations
  import opened CsgTree
  import opened Grammar
  import opened SceneText
  import opened SceneSource
  import opened FlattenProofs
  import opened Lexer

  /** Where parse_op's left child starts: after `(`, `)` and `{`. */
  function OpBody(ts: Tokens, pos: nat): (q: nat)
    requires pos <= |ts|
    ensures pos <= q <= |ts|
  {
    Skip(ts, Skip(ts, Skip(ts, pos, "("), ")"), "{")
  }

  /** parse_op gives null as soon as its left child, or its right child, is null. */
  lemma ParseOpNullChild(ts: Tokens, pos: nat, kw: string, stof: Stof)
    requires pos <= |ts|
    ensures var l := ParseExp(ts, OpBody(ts, pos), stof);
      && (l.out == Returned(None) ==> ParseOp(ts, pos, kw, stof) == l)
      && (l.out.Returned? && l.out.node.Some? && ParseExp(ts, Skip(ts, l.pos, ";"), stof).out == Returned(None)
          ==> ParseOp(ts, pos, kw, stof).out == Returned(None))
  {
  }

  /**
    A node parse_op returns is a fresh operator node: the keyword's operator,
    the default transform and colour, the first expression as its left child
    and the one after it (and an optional `;`) as its right child.
  */
  lemma ParseOpBuilds(ts: Tokens, pos: nat, kw: string, stof: Stof)
    requires pos <= |ts|
    ensures var p := ParseOp(ts, pos, kw, stof);
      p.out.Returned? && p.out.node.Some? ==>
        var n := p.out.node.value;
        var l := ParseExp(ts, OpBody(ts, pos), stof);
        && n.left.Some? && n.right.Some? && !IsLeave(n)
        && l.out == Returned(n.left)
        && ParseExp(ts, Skip(ts, l.pos, ";"), stof).out == Returned(n.right)
        && n.op == OpTypeOfKeyword(kw)
        && n.transform == Identity && n.color == White
  {
    var l := ParseExp(ts, OpBody(ts, pos), stof);
    if l.out.Returned? && l.out.node.Some? {
      var r := ParseExp(ts, Skip(ts, l.pos, ";"), stof);
      if r.out.Returned? && r.out.node.Some? {
        assert ParseOp(ts, pos, kw, stof).out == Returned(Some(NewOpNode(OpTypeOfKeyword(kw), l.out.node, r.out.node)));
      }
    }
  }

  /** The tree two nested multmatrix blocks denote. */
  lemma NestedEval(outer: Cells, inner: Cells, leaf: Scene)
    ensures Eval(MatrixBlock(outer, MatrixBlock(inner, leaf)))
         == Eval(leaf).(transform := MatrixOf(outer) + MatrixOf(inner) + Eval(leaf).transform)
  {
    var n := Eval(leaf);
    var m := Eval(MatrixBlock(inner, leaf));
    assert m == n.(transform := Mul(MatrixOf(inner), n.transform));
  }

  /** Nested multmatrix blocks compose outer * inner * leaf transform. */
  lemma NestedMultmatrix(outer: Cells, inner: Cells, leaf: Scene, show: real -> string, stof: Stof)
    requires CellsReadBack(outer, show, stof) && CellsReadBack(inner, show, stof) && Readable(leaf, show, stof)
    ensures Parse(Print(MatrixBlock(outer, MatrixBlock(inner, leaf)), show), stof)
         == Returned(Some(Eval(leaf).(transform := MatrixOf(outer) + MatrixOf(inner) + Eval(leaf).transform)))
  {
    ParsePrint(MatrixBlock(outer, MatrixBlock(inner, leaf)), show, stof);
    NestedEval(outer, inner, leaf);
  }

  /** A colour block replaces only its child's colour; a fourth component changes nothing. */
  lemma ColorOnlyColour(rgb: Vec3, alpha: real, child: Scene, show: real -> string, stof: Stof)
    requires VecReadsBack(rgb, show, stof) && Readable(child, show, stof)
    ensures Parse(Print(ColorBlock(rgb, Some(alpha), child), show), stof) == Returned(Some(Eval(child).(color := rgb)))
    ensures Parse(Print(ColorBlock(rgb, None, child), show), stof)
         == Parse(Print(ColorBlock(rgb, Some(alpha), child), show), stof)
  {
    ParsePrint(ColorBlock(rgb, Some(alpha), child), show, stof);
    ParsePrint(ColorBlock(rgb, None, child), show, stof);
  }

  /** The shape calls (sphere, cube, cylinder) a scene writes. */
  function Calls(s: Scene): nat {
    match s
    case OpBlock(_, a, b) => Calls(a) + Calls(b)
    case MatrixBlock(_, child) => Calls(child)
    case ColorBlock(_, _, child) => Calls(child)
    case _ => 1
  }

  /** The union, difference and intersection blocks a scene writes. */
  function OpBlocks(s: Scene): nat {
    match s
    case OpBlock(_, a, b) => 1 + OpBlocks(a) + OpBlocks(b)
    case MatrixBlock(_, child) => OpBlocks(child)
    case ColorBlock(_, _, child) => OpBlocks(child)
    case _ => 0
  }

  /** Every shape call becomes a leaf and every set-operation block an internal node. */
  lemma {:induction false} EvalCounts(s: Scene)
    ensures Leaves(Some(Eval(s))) == Calls(s) && Internals(Some(Eval(s))) == OpBlocks(s)
  {
    match s
    case OpBlock(_, a, b) => EvalCounts(a); EvalCounts(b);
    case MatrixBlock(_, child) => EvalCounts(child);
    case ColorBlock(_, _, child) => EvalCounts(child);
    case _ =>
  }

  /**
    The front end end to end: source text whose non-blank characters spell a
    printed scene parses to a tree that flattens to one primitive per shape
    call, one operation per set-operation block, and a postfix program that
    leaves exactly one value, the solid the scene stands for.
  */
  lemma SourceToBuffers(text: string, s: Scene, show: real -> string, stof: Stof)
    requires Readable(s, show, stof) && Spelled(show)
    requires Strip(text) == Concat(Print(s, show))
    ensures var r := Parse(Lex(text), stof);
      && r == Returned(Some(Eval(s)))
      && var f := Flatten(r.node, 0, 0);
      && |f.prims| == Calls(s) && |f.ops| == OpBlocks(s)
      && f.instrs != []
      && StackDepth(f.instrs, 0) == Some(1)
      && Evaluate(f.instrs, f.prims, f.ops, []) == Some([Slot(Denote(Eval(s)), f.instrs[|f.instrs| - 1])])
  {
    ParseSource(text, s, show, stof);
    EvalCounts(s);
    FlattenCounts(Eval(s), 0, 0);
    FlattenRootProgram(Eval(s));
  }
}
