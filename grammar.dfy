/**
  The recursive-descent parser of csg_parser as functions over the token list:
  every parse_* method becomes a function from a cursor position to what the
  method returns together with the cursor it leaves behind. The Parser class in
  module CsgParser runs the same steps on a mutable cursor and is proved to agree
  with these functions; the lemmas about parsing are stated here.
*/
module Grammar {
  import opened Wrappers
  import opened Geometry
  import opened Operations
  import opened Primitives
  import opened CsgTree

  type Tokens = seq<string>

  /** std::stof: the number a token denotes, or None where the conversion throws. */
  type Stof = string -> Option<real>

  /**
    What a parse method hands back to its caller: a node pointer (None is
    nullptr), or an exception from std::stof that nothing in the parser catches.
  */
  datatype Outcome = Returned(node: Option<Node>) | Threw

  datatype Parsed = Parsed(out: Outcome, pos: nat)

  /** A value read from the tokens and the cursor after reading it. */
  datatype Scan<T> = Scan(value: T, pos: nat)

  /** peek: the token under the cursor, or the empty string past the end. */
  function Peek(ts: Tokens, pos: nat): string {
    if pos < |ts| then ts[pos] else ""
  }

  /** The cursor after consume: one further, except at the end. */
  function Next(ts: Tokens, pos: nat): (q: nat)
    ensures pos <= |ts| ==> q <= |ts|
  {
    if pos < |ts| then pos + 1 else pos
  }

  /** The cursor after expect(t), and after the optional `if (peek() == t) consume();`. */
  function Skip(ts: Tokens, pos: nat, t: string): (q: nat)
    ensures pos <= |ts| ==> q <= |ts|
  {
    if Peek(ts, pos) == t then Next(ts, pos) else pos
  }

  /** `std::stof(consume())`: the conversion of the token under the cursor, which is consumed either way. */
  function ReadNumber(ts: Tokens, pos: nat, stof: Stof): Scan<Option<real>> {
    Scan(stof(Peek(ts, pos)), Next(ts, pos))
  }

  predicate IsOpKeyword(t: string) {
    t == "union" || t == "difference" || t == "intersection"
  }

  /** The tokens parse_exp dispatches on. */
  predicate IsKeyword(t: string) {
    || IsOpKeyword(t) || t == "multmatrix" || t == "color"
    || t == "sphere" || t == "cube" || t == "cylinder"
  }

  /** The operator parse_op gives a node for its keyword; anything else keeps op_none. */
  function OpTypeOfKeyword(t: string): (op: OpType)
    ensures op == OpUnion <==> t == "union"
    ensures op == OpDifference <==> t == "difference"
    ensures op == OpIntersection <==> t == "intersection"
    ensures op == OpNone <==> !IsOpKeyword(t)
  {
    if t == "intersection" then OpIntersection
    else if t == "difference" then OpDifference
    else if t == "union" then OpUnion
    else OpNone
  }

  // ---------------------------------------------------------------------------
  // Leaves

  /** A sphere leaf of the given radius: scale(radius) on the identity. */
  function SphereNode(radius: real): Node {
    NewPrimitiveNode(Sphere).(transform := ScaleBy(Identity, Uniform(radius)))
  }

  /** A cube leaf: C * scale(size), times translate(0.5, 0.5, 0.5) when not centred. */
  function CubeNode(size: Vec3, center: bool): Node {
    var m := ScaleBy(Identity, size);
    NewPrimitiveNode(Cube).(transform := Mul([ZToYUp], if center then m else TranslateBy(m, Uniform(0.5))))
  }

  /** A cylinder leaf: scale(r1, h, r1), times translate(0, 0.5, 0) when not centred; no C. */
  function CylinderNode(h: real, r1: real, center: bool): Node {
    var m := ScaleBy(Identity, Vec3(r1, h, r1));
    NewPrimitiveNode(Cylinder).(transform := if center then m else TranslateBy(m, Vec3(0.0, 0.5, 0.0)))
  }

  /** Whether a parameter loop runs another iteration. */
  predicate MoreArgs(ts: Tokens, pos: nat) {
    Peek(ts, pos) != ")" && Peek(ts, pos) != ""
  }

  /** One iteration of parse_sphere's loop; a radius that does not convert is ignored. */
  function SphereArg(ts: Tokens, pos: nat, radius: real, stof: Stof): (s: Scan<real>)
    requires pos < |ts|
    ensures pos < s.pos <= |ts|
  {
    var q := pos + 1;
    var v :=
      if Peek(ts, q) != "=" then Scan(radius, q)
      else if ts[pos] == "r" then
        var n := ReadNumber(ts, Next(ts, q), stof);
        Scan(if n.value.Some? then n.value.value else radius, n.pos)
      else Scan(radius, Next(ts, Next(ts, q)));
    Scan(v.value, Skip(ts, v.pos, ","))
  }

  /** parse_sphere's loop, from the cursor and radius at its head to those at its exit. */
  function SphereArgs(ts: Tokens, pos: nat, radius: real, stof: Stof): (s: Scan<real>)
    requires pos <= |ts|
    ensures pos <= s.pos <= |ts| && !MoreArgs(ts, s.pos)
    decreases |ts| - pos
  {
    if !MoreArgs(ts, pos) then Scan(radius, pos)
    else
      var a := SphereArg(ts, pos, radius, stof);
      SphereArgs(ts, a.pos, a.value, stof)
  }

  function ParseSphere(ts: Tokens, pos: nat, stof: Stof): (r: Parsed)
    requires pos <= |ts|
    ensures pos <= r.pos <= |ts|
  {
    var a := SphereArgs(ts, Skip(ts, pos, "("), 1.0, stof);
    Parsed(Returned(Some(SphereNode(a.value))), Skip(ts, Skip(ts, a.pos, ")"), ";"))
  }

  datatype CubeParams = CubeParams(size: Vec3, center: bool)

  /** `x, y, z`: three numbers separated by commas; None as soon as one throws. */
  function ReadTriple(ts: Tokens, pos: nat, stof: Stof): (s: Scan<Option<Vec3>>)
    requires pos <= |ts|
    ensures pos <= s.pos <= |ts|
  {
    var x := ReadNumber(ts, pos, stof);
    if x.value.None? then Scan(None, x.pos) else
    var y := ReadNumber(ts, Skip(ts, x.pos, ","), stof);
    if y.value.None? then Scan(None, y.pos) else
    var z := ReadNumber(ts, Skip(ts, y.pos, ","), stof);
    if z.value.None? then Scan(None, z.pos) else
    Scan(Some(Vec3(x.value.value, y.value.value, z.value.value)), z.pos)
  }

  /** One iteration of parse_cube's loop; None when std::stof throws. */
  function CubeArg(ts: Tokens, pos: nat, c: CubeParams, stof: Stof): (s: Scan<Option<CubeParams>>)
    requires pos < |ts|
    ensures pos < s.pos <= |ts|
  {
    var q := pos + 1;
    if ts[pos] == "size" then
      var q1 := Skip(ts, q, "=");
      var v :=
        if Peek(ts, q1) == "[" then
          var t := ReadTriple(ts, Next(ts, q1), stof);
          if t.value.None? then t else Scan(t.value, Skip(ts, t.pos, "]"))
        else
          var n := ReadNumber(ts, q1, stof);
          Scan(if n.value.Some? then Some(Uniform(n.value.value)) else None, n.pos);
      if v.value.None? then Scan(None, v.pos)
      else Scan(Some(c.(size := v.value.value)), Skip(ts, v.pos, ","))
    else if ts[pos] == "center" then
      var q1 := Skip(ts, q, "=");
      Scan(Some(if Peek(ts, q1) == "false" then c.(center := false) else c), Skip(ts, Next(ts, q1), ","))
    else Scan(Some(c), Skip(ts, q, ","))
  }

  function CubeArgs(ts: Tokens, pos: nat, c: CubeParams, stof: Stof): (s: Scan<Option<CubeParams>>)
    requires pos <= |ts|
    ensures pos <= s.pos <= |ts|
    ensures s.value.Some? ==> !MoreArgs(ts, s.pos)
    decreases |ts| - pos
  {
    if !MoreArgs(ts, pos) then Scan(Some(c), pos)
    else
      var a := CubeArg(ts, pos, c, stof);
      if a.value.None? then a else CubeArgs(ts, a.pos, a.value.value, stof)
  }

  function ParseCube(ts: Tokens, pos: nat, stof: Stof): (r: Parsed)
    requires pos <= |ts|
    ensures pos <= r.pos <= |ts|
  {
    var a := CubeArgs(ts, Skip(ts, pos, "("), CubeParams(Uniform(1.0), true), stof);
    match a.value
    case None => Parsed(Threw, a.pos)
    case Some(c) => Parsed(Returned(Some(CubeNode(c.size, c.center))), Skip(ts, Skip(ts, a.pos, ")"), ";"))
  }

  datatype CylinderParams = CylinderParams(h: real, r1: real, r2: real, center: bool)

  /**
    One iteration of parse_cylinder's loop: the two if-chains of the source one
    after the other, the second starting where the first left the cursor.
  */
  function CylinderArg(ts: Tokens, pos: nat, c: CylinderParams, stof: Stof): (s: Scan<Option<CylinderParams>>)
    requires pos < |ts|
    ensures pos < s.pos <= |ts|
  {
    var param, q := ts[pos], pos + 1;
    var first :=
      if param == "h" || param == "height" then
        var n := ReadNumber(ts, Skip(ts, q, "="), stof);
        Scan(if n.value.Some? then Some(c.(h := n.value.value)) else None, n.pos)
      else if param == "r1" || param == "radius" then
        var n := ReadNumber(ts, Skip(ts, q, "="), stof);
        Scan(if n.value.Some? then Some(c.(r1 := n.value.value)) else None, n.pos)
      else Scan(Some(c), q);
    if first.value.None? then first else
    var c1 := first.value.value;
    var second :=
      if param == "r2" then
        var n := ReadNumber(ts, Skip(ts, first.pos, "="), stof);
        Scan(if n.value.Some? then Some(c1.(r2 := n.value.value)) else None, n.pos)
      else if param == "center" then
        var q1 := Skip(ts, first.pos, "=");
        Scan(Some(if Peek(ts, q1) == "false" then c1.(center := false) else c1), Next(ts, q1))
      else Scan(Some(c1), first.pos);
    if second.value.None? then second else Scan(second.value, Skip(ts, second.pos, ","))
  }

  function CylinderArgs(ts: Tokens, pos: nat, c: CylinderParams, stof: Stof): (s: Scan<Option<CylinderParams>>)
    requires pos <= |ts|
    ensures pos <= s.pos <= |ts|
    ensures s.value.Some? ==> !MoreArgs(ts, s.pos)
    decreases |ts| - pos
  {
    if !MoreArgs(ts, pos) then Scan(Some(c), pos)
    else
      var a := CylinderArg(ts, pos, c, stof);
      if a.value.None? then a else CylinderArgs(ts, a.pos, a.value.value, stof)
  }

  function ParseCylinder(ts: Tokens, pos: nat, stof: Stof): (r: Parsed)
    requires pos <= |ts|
    ensures pos <= r.pos <= |ts|
  {
    var a := CylinderArgs(ts, Skip(ts, pos, "("), CylinderParams(1.0, 1.0, 1.0, true), stof);
    match a.value
    case None => Parsed(Threw, a.pos)
    case Some(c) => Parsed(Returned(Some(CylinderNode(c.h, c.r1, c.center))), Skip(ts, Skip(ts, a.pos, ")"), ";"))
  }

  // ---------------------------------------------------------------------------
  // Matrix literal

  /** The value stored for one matrix cell: its conversion, or 0 when std::stof fails. */
  function CellOrZero(v: Option<real>): real {
    if v.Some? then v.value else 0.0
  }

  /** The cells of one matrix row from column col on; a cell that does not convert is 0. */
  function RowCells(ts: Tokens, pos: nat, col: nat, stof: Stof): (s: Scan<seq<real>>)
    requires pos <= |ts| && col <= 4
    ensures pos <= s.pos <= |ts| && |s.value| == 4 - col
    decreases 4 - col
  {
    if col == 4 then Scan([], pos)
    else
      var n := ReadNumber(ts, pos, stof);
      var rest := RowCells(ts, if col < 3 then Skip(ts, n.pos, ",") else n.pos, col + 1, stof);
      Scan([CellOrZero(n.value)] + rest.value, rest.pos)
  }

  /** One row `[a, b, c, d]` and, after any but the last, the comma that follows it. */
  function Row(ts: Tokens, pos: nat, row: nat, stof: Stof): (s: Scan<seq<real>>)
    requires pos <= |ts|
    ensures pos <= s.pos <= |ts| && |s.value| == 4
  {
    var cells := RowCells(ts, Skip(ts, pos, "["), 0, stof);
    var q := Skip(ts, cells.pos, "]");
    Scan(cells.value, if row < 3 then Skip(ts, q, ",") else q)
  }

  /** The rows of a matrix literal from row on. */
  function Rows(ts: Tokens, pos: nat, row: nat, stof: Stof): (s: Scan<seq<real>>)
    requires pos <= |ts| && row <= 4
    ensures pos <= s.pos <= |ts| && |s.value| == 4 * (4 - row)
    decreases 4 - row
  {
    if row == 4 then Scan([], pos)
    else
      var r := Row(ts, pos, row, stof);
      var rest := Rows(ts, r.pos, row + 1, stof);
      Scan(r.value + rest.value, rest.pos)
  }

  /** Rows unfolded one step, in terms of the row and the rows after it. */
  lemma RowsStep(ts: Tokens, pos: nat, row: nat, stof: Stof, r: Scan<seq<real>>, rs: Scan<seq<real>>)
    requires pos <= |ts| && row < 4
    requires r == Row(ts, pos, row, stof) && rs == Rows(ts, r.pos, row + 1, stof)
    ensures Rows(ts, pos, row, stof) == Scan(r.value + rs.value, rs.pos)
  {
  }

  /** After row `row`, read from p0 up to p1, the rows still to come are the rest of all. */
  lemma RowsAfter(ts: Tokens, p0: nat, p1: nat, row: nat, stof: Stof, all: seq<real>)
    requires p0 <= |ts| && row < 4 && |all| == 16
    requires Rows(ts, p0, row, stof).value == all[4 * row..] && p1 == Row(ts, p0, row, stof).pos
    ensures Rows(ts, p1, row + 1, stof).value == all[4 * (row + 1)..]
    ensures Rows(ts, p1, row + 1, stof).pos == Rows(ts, p0, row, stof).pos
  {
    var r := Row(ts, p0, row, stof);
    var rs := Rows(ts, p1, row + 1, stof);
    RowsStep(ts, p0, row, stof, r, rs);
    assert all[4 * (row + 1)..] == all[4 * row..][4..];
  }

  /** The matrix C * transpose(make_mat4(cells)) * C^-1 of a literal `[[...], ..., [...]]`. */
  function MatrixOf(cells: seq<real>): Transform {
    [ZToYUp, RowMajor(cells), ZToYUpInverse]
  }

  function ParseMatrixData(ts: Tokens, pos: nat, stof: Stof): (s: Scan<Transform>)
    requires pos <= |ts|
    ensures pos <= s.pos <= |ts|
  {
    var cells := Rows(ts, Skip(ts, pos, "["), 0, stof);
    Scan(MatrixOf(cells.value), Skip(ts, cells.pos, "]"))
  }

  // ---------------------------------------------------------------------------
  // Expressions

  /** The cursor after an optional `;` and the expected `}` that close a block. */
  function CloseBlock(ts: Tokens, pos: nat): (q: nat)
    ensures pos <= |ts| ==> pos <= q <= |ts|
  {
    Skip(ts, Skip(ts, pos, ";"), "}")
  }

  /**
    parse_exp. Null at the end of input and, without consuming it, on `}`; an
    unknown token is consumed alone and gives null. Any node it returns is a
    well-formed tree, and the cursor has moved past the keyword it started with.
  */
  function ParseExp(ts: Tokens, pos: nat, stof: Stof): (r: Parsed)
    requires pos <= |ts|
    ensures pos <= r.pos <= |ts|
    ensures pos == |ts| ==> r == Parsed(Returned(None), pos)
    ensures pos < |ts| && ts[pos] == "}" ==> r == Parsed(Returned(None), pos)
    ensures pos < |ts| && ts[pos] != "}" && !IsKeyword(ts[pos]) ==> r == Parsed(Returned(None), pos + 1)
    ensures r.out.Returned? && r.out.node.Some? ==>
              pos < r.pos && IsKeyword(ts[pos]) && WellFormed(r.out.node.value)
    decreases |ts| - pos, 0
  {
    if pos == |ts| then Parsed(Returned(None), pos)
    else
      var t := ts[pos];
      if IsOpKeyword(t) then ParseOp(ts, pos + 1, t, stof)
      else if t == "multmatrix" then ParseMultmatrix(ts, pos + 1, stof)
      else if t == "color" then ParseColor(ts, pos + 1, stof)
      else if t == "sphere" then ParseSphere(ts, pos + 1, stof)
      else if t == "cube" then ParseCube(ts, pos + 1, stof)
      else if t == "cylinder" then ParseCylinder(ts, pos + 1, stof)
      else if t == "}" then Parsed(Returned(None), pos)
      else Parsed(Returned(None), pos + 1)
  }

  /**
    parse_op, called after its keyword: null as soon as either child is null,
    otherwise a fresh internal node whose children are the two expressions in
    the order they appear.
  */
  function ParseOp(ts: Tokens, pos: nat, kw: string, stof: Stof): (r: Parsed)
    requires pos <= |ts|
    ensures pos <= r.pos <= |ts|
    ensures IsOpKeyword(kw) && r.out.Returned? && r.out.node.Some? ==> WellFormed(r.out.node.value)
    decreases |ts| - pos, 1
  {
    var l := ParseExp(ts, Skip(ts, Skip(ts, Skip(ts, pos, "("), ")"), "{"), stof);
    match l.out
    case Returned(Some(left)) =>
      var r := ParseExp(ts, Skip(ts, l.pos, ";"), stof);
      (match r.out
       case Returned(Some(right)) =>
         Parsed(Returned(Some(NewOpNode(OpTypeOfKeyword(kw), Some(left), Some(right)))), CloseBlock(ts, r.pos))
       case _ => r)
    case _ => l
  }

  /** parse_multimatrix: the child, with the literal's matrix multiplied onto its transform from the left. */
  function ParseMultmatrix(ts: Tokens, pos: nat, stof: Stof): (r: Parsed)
    requires pos <= |ts|
    ensures pos <= r.pos <= |ts|
    ensures r.out.Returned? && r.out.node.Some? ==> WellFormed(r.out.node.value)
    decreases |ts| - pos, 1
  {
    var m := ParseMatrixData(ts, Skip(ts, pos, "("), stof);
    var c := ParseExp(ts, Skip(ts, Skip(ts, m.pos, ")"), "{"), stof);
    match c.out
    case Returned(Some(child)) =>
      Parsed(Returned(Some(child.(transform := Mul(m.value, child.transform)))), CloseBlock(ts, c.pos))
    case _ => c
  }

  /**
    The head of a colour block, `([r, g, b])` or `([r, g, b, a])` and the `{`:
    the colour and the cursor where the child starts, or None and the cursor
    where std::stof threw. The token after a comma following b is skipped unread.
  */
  function ColorHeader(ts: Tokens, pos: nat, stof: Stof): (s: Scan<Option<Vec3>>)
    requires pos <= |ts|
    ensures pos <= s.pos <= |ts|
  {
    var rgb := ReadTriple(ts, Skip(ts, Skip(ts, pos, "("), "["), stof);
    if rgb.value.None? then rgb else
    var q := if Peek(ts, rgb.pos) == "," then Next(ts, Next(ts, rgb.pos)) else rgb.pos;
    Scan(rgb.value, Skip(ts, Skip(ts, Skip(ts, q, "]"), ")"), "{"))
  }

  /** parse_color: the child with its colour replaced; a fourth component is skipped. */
  function ParseColor(ts: Tokens, pos: nat, stof: Stof): (r: Parsed)
    requires pos <= |ts|
    ensures pos <= r.pos <= |ts|
    ensures r.out.Returned? && r.out.node.Some? ==> WellFormed(r.out.node.value)
    decreases |ts| - pos, 1
  {
    var h := ColorHeader(ts, pos, stof);
    if h.value.None? then Parsed(Threw, h.pos) else
    var c := ParseExp(ts, h.pos, stof);
    match c.out
    case Returned(Some(child)) =>
      Parsed(Returned(Some(child.(color := h.value.value))), CloseBlock(ts, c.pos))
    case _ => c
  }

  /** parse: null on an empty token list, otherwise one expression from the start. */
  function Parse(ts: Tokens, stof: Stof): (r: Outcome)
    ensures ts == [] ==> r == Returned(None)
    ensures r.Returned? && r.node.Some? ==> WellFormed(r.node.value)
  {
    if |ts| == 0 then Returned(None) else ParseExp(ts, 0, stof).out
  }
}
