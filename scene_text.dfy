/**
  Scenes written in the parser's own syntax, and what parsing them yields.

  A Scene is an abstract description of a CSG expression; Print writes it out
  as the token list the parser reads, and Eval says which tree it denotes. The
  main theorem, ParseExpPrint, proves parse_exp reads exactly the printed tokens
  and returns that tree. Numbers are written by a function `show`, and
  std::stof need only read back the numbers the scene's parse converts.
  Module SceneSource carries the theorem from tokens to source text, spaced in
  any way the lexer strips.
*/
module SceneText {
  import opened Wrappers
  import opened Geometry
  import opened Operations
  import opened Primitives
  import opened Instructions
  import opened CsgTree
  import opened Grammar
  import ShapeFacts
  import Lexer

  datatype SetOp = Union | Difference | Intersection

  /** Sixteen matrix cells, row by row. */
  type Cells = c: seq<real> | |c| == 16 witness seq(16, _ => 0.0)

  datatype Scene =
    | SphereCall(radius: real)
    | CubeCall(size: Vec3, center: bool)
    | CylinderCall(h: real, r1: real, r2: real, center: bool)
    | OpBlock(op: SetOp, left: Scene, right: Scene)
    | MatrixBlock(cells: Cells, child: Scene)
    | ColorBlock(rgb: Vec3, alpha: Option<real>, child: Scene)

  function Keyword(op: SetOp): string {
    match op
    case Union => "union"
    case Difference => "difference"
    case Intersection => "intersection"
  }

  function OpOf(op: SetOp): OpType {
    match op
    case Union => OpUnion
    case Difference => OpDifference
    case Intersection => OpIntersection
  }

  /** The keyword parse_exp dispatches on maps to the operator the scene names. */
  lemma KeywordOp(op: SetOp)
    ensures IsOpKeyword(Keyword(op)) && OpTypeOfKeyword(Keyword(op)) == OpOf(op)
  {
  }

  function BoolText(b: bool): string {
    if b then "true" else "false"
  }

  /** `show` writes x as a token that std::stof reads back as x. */
  ghost predicate ReadsBack(x: real, show: real -> string, stof: Stof) {
    stof(show(x)) == Some(x)
  }

  /** The three components of v read back. */
  ghost predicate VecReadsBack(v: Vec3, show: real -> string, stof: Stof) {
    ReadsBack(v.x, show, stof) && ReadsBack(v.y, show, stof) && ReadsBack(v.z, show, stof)
  }

  /** The sixteen cells of a matrix literal read back. */
  ghost predicate CellsReadBack(cells: Cells, show: real -> string, stof: Stof) {
    forall i | 0 <= i < 16 :: ReadsBack(cells[i], show, stof)
  }

  /**
    Every number of the scene that the parser converts with std::stof reads
    back: radii, sizes, heights, matrix cells and colour components. A colour's
    fourth component is skipped unread, so it need not.
  */
  ghost predicate Readable(s: Scene, show: real -> string, stof: Stof) {
    match s
    case SphereCall(r) => ReadsBack(r, show, stof)
    case CubeCall(size, _) => VecReadsBack(size, show, stof)
    case CylinderCall(h, r1, r2, _) => ReadsBack(h, show, stof) && ReadsBack(r1, show, stof) && ReadsBack(r2, show, stof)
    case OpBlock(_, a, b) => Readable(a, show, stof) && Readable(b, show, stof)
    case MatrixBlock(cells, child) => CellsReadBack(cells, show, stof) && Readable(child, show, stof)
    case ColorBlock(rgb, _, child) => VecReadsBack(rgb, show, stof) && Readable(child, show, stof)
  }

  /** One matrix row `[a, b, c, d]`. */
  function RowText(cells: Cells, row: nat, show: real -> string): (w: seq<string>)
    requires row < 4
    ensures |w| == 9
  {
    ["[", show(cells[4 * row]), ",", show(cells[4 * row + 1]), ",",
     show(cells[4 * row + 2]), ",", show(cells[4 * row + 3]), "]"]
  }

  /** The comma after every row but the last. */
  function RowSep(row: nat): (w: seq<string>)
    ensures |w| == if row < 3 then 1 else 0
  {
    if row < 3 then [","] else []
  }

  /** The rows from row on, separated by commas. */
  function RowsText(cells: Cells, row: nat, show: real -> string): seq<string>
    requires row <= 4
    decreases 4 - row
  {
    if row == 4 then []
    else RowText(cells, row, show) + RowSep(row) + RowsText(cells, row + 1, show)
  }

  /** A matrix literal `[[...], [...], [...], [...]]`. */
  function MatrixText(cells: Cells, show: real -> string): seq<string> {
    ["["] + RowsText(cells, 0, show) + ["]"]
  }

  function AlphaText(alpha: Option<real>, show: real -> string): (w: seq<string>)
    ensures |w| == AlphaLength(alpha)
  {
    match alpha
    case None => []
    case Some(a) => [",", show(a)]
  }

  /** The two tokens `, a` of a fourth colour component, or none. */
  function AlphaLength(alpha: Option<real>): nat {
    if alpha.Some? then 2 else 0
  }

  /** `union() {` and its siblings. */
  function OpHead(op: SetOp): (w: seq<string>)
    ensures |w| == 4
  {
    [Keyword(op), "(", ")", "{"]
  }

  /** `multmatrix([...]) {`. */
  function MatrixHead(cells: Cells, show: real -> string): (w: seq<string>)
    ensures |w| == 45
  {
    ["multmatrix", "("] + MatrixText(cells, show) + [")", "{"]
  }

  /** `color([r, g, b]) {` or `color([r, g, b, a]) {`. */
  function ColorHead(rgb: Vec3, alpha: Option<real>, show: real -> string): (w: seq<string>)
    ensures |w| == 11 + AlphaLength(alpha)
  {
    ["color", "(", "[", show(rgb.x), ",", show(rgb.y), ",", show(rgb.z)] + AlphaText(alpha, show) + ["]", ")", "{"]
  }

  /** The scene as the token list the lexer makes of its text. */
  function Print(s: Scene, show: real -> string): seq<string> {
    match s
    case SphereCall(r) => ["sphere", "(", "r", "=", show(r), ")", ";"]
    case CubeCall(size, center) =>
      ["cube", "(", "size", "=", "[", show(size.x), ",", show(size.y), ",", show(size.z), "]", ",",
       "center", "=", BoolText(center), ")", ";"]
    case CylinderCall(h, r1, r2, center) =>
      ["cylinder", "(", "h", "=", show(h), ",", "r1", "=", show(r1), ",", "r2", "=", show(r2), ",",
       "center", "=", BoolText(center), ")", ";"]
    case OpBlock(op, a, b) => OpHead(op) + Print(a, show) + Print(b, show) + ["}"]
    case MatrixBlock(cells, child) => MatrixHead(cells, show) + Print(child, show) + ["}"]
    case ColorBlock(rgb, alpha, child) => ColorHead(rgb, alpha, show) + Print(child, show) + ["}"]
  }

  /** The number of tokens a scene prints to. */
  function Size(s: Scene): nat {
    match s
    case SphereCall(_) => 7
    case CubeCall(_, _) => 17
    case CylinderCall(_, _, _, _) => 19
    case OpBlock(_, a, b) => 5 + Size(a) + Size(b)
    case MatrixBlock(_, child) => 46 + Size(child)
    case ColorBlock(_, alpha, child) => 12 + AlphaLength(alpha) + Size(child)
  }

  /**
    The tree a scene denotes: leaves with their scale/translate products, an
    operator node over its two children, a matrix block's matrix multiplied onto
    its child's transform from the left, a colour block's colour on its child.
  */
  function Eval(s: Scene): Node {
    match s
    case SphereCall(r) => SphereNode(r)
    case CubeCall(size, center) => CubeNode(size, center)
    case CylinderCall(h, r1, _, center) => CylinderNode(h, r1, center)
    case OpBlock(op, a, b) => NewOpNode(OpOf(op), Some(Eval(a)), Some(Eval(b)))
    case MatrixBlock(cells, child) =>
      var n := Eval(child);
      n.(transform := Mul(MatrixOf(cells), n.transform))
    case ColorBlock(rgb, _, child) => Eval(child).(color := rgb)
  }

  /** The tokens w sit in ts from pos on. */
  ghost predicate At(ts: Tokens, pos: nat, w: seq<string>) {
    pos + |w| <= |ts| && ts[pos..pos + |w|] == w
  }

  lemma AtIndex(ts: Tokens, pos: nat, w: seq<string>)
    requires At(ts, pos, w)
    ensures forall i | 0 <= i < |w| :: ts[pos + i] == w[i]
  {
    forall i | 0 <= i < |w| ensures ts[pos + i] == w[i] {
      assert ts[pos..pos + |w|][i] == ts[pos + i];
    }
  }

  lemma AtSplit(ts: Tokens, pos: nat, a: seq<string>, b: seq<string>)
    requires At(ts, pos, a + b)
    ensures At(ts, pos, a) && At(ts, pos + |a|, b)
  {
    var s := ts[pos..pos + |a| + |b|];
    assert ts[pos..pos + |a|] == s[..|a|] == (a + b)[..|a|] == a;
    assert ts[pos + |a|..pos + |a| + |b|] == s[|a|..] == (a + b)[|a|..] == b;
  }

  // ---------------------------------------------------------------------------
  // Leaves
  /** The tokens of a sphere call, one by one. */
  ghost predicate SphereAt(ts: Tokens, pos: nat, r: real, show: real -> string) {
    && pos + 7 <= |ts|
    && ts[pos + 1] == "(" && ts[pos + 2] == "r" && ts[pos + 3] == "=" && ts[pos + 4] == show(r)
    && ts[pos + 5] == ")" && ts[pos + 6] == ";"
  }

  lemma SphereTokens(ts: Tokens, pos: nat, r: real, show: real -> string)
    requires At(ts, pos, Print(SphereCall(r), show))
    ensures ts[pos] == "sphere" && SphereAt(ts, pos, r, show)
  {
    var w := Print(SphereCall(r), show);
    AtIndex(ts, pos, w);
    assert ts[pos + 0] == w[0];
    assert ts[pos + 1] == w[1];
    assert ts[pos + 2] == w[2];
    assert ts[pos + 3] == w[3];
    assert ts[pos + 4] == w[4];
    assert ts[pos + 5] == w[5];
    assert ts[pos + 6] == w[6];
  }

  /** `sphere(r = x);` parses to a sphere leaf of radius x. */
  lemma SpherePrint(ts: Tokens, pos: nat, r: real, show: real -> string, stof: Stof)
    requires ReadsBack(r, show, stof) && SphereAt(ts, pos, r, show)
    ensures ParseSphere(ts, pos + 1, stof) == Parsed(Returned(Some(SphereNode(r))), pos + 7)
  {
    ShapeFacts.SphereRadius(ts, pos + 1, stof);
  }

  /** The tokens of a cube call, one by one. */
  ghost predicate CubeAt(ts: Tokens, pos: nat, size: Vec3, center: bool, show: real -> string) {
    && pos + 17 <= |ts|
    && ts[pos + 1] == "(" && ts[pos + 2] == "size" && ts[pos + 3] == "=" && ts[pos + 4] == "["
    && ts[pos + 5] == show(size.x) && ts[pos + 6] == "," && ts[pos + 7] == show(size.y)
    && ts[pos + 8] == "," && ts[pos + 9] == show(size.z) && ts[pos + 10] == "]" && ts[pos + 11] == ","
    && ts[pos + 12] == "center" && ts[pos + 13] == "=" && ts[pos + 14] == BoolText(center)
    && ts[pos + 15] == ")" && ts[pos + 16] == ";"
  }

  lemma CubeTokens(ts: Tokens, pos: nat, size: Vec3, center: bool, show: real -> string)
    requires At(ts, pos, Print(CubeCall(size, center), show))
    ensures ts[pos] == "cube" && CubeAt(ts, pos, size, center, show)
  {
    var w := Print(CubeCall(size, center), show);
    AtIndex(ts, pos, w);
    assert ts[pos + 0] == w[0];
    assert ts[pos + 1] == w[1];
    assert ts[pos + 2] == w[2];
    assert ts[pos + 3] == w[3];
    assert ts[pos + 4] == w[4];
    assert ts[pos + 5] == w[5];
    assert ts[pos + 6] == w[6];
    assert ts[pos + 7] == w[7];
    assert ts[pos + 8] == w[8];
    assert ts[pos + 9] == w[9];
    assert ts[pos + 10] == w[10];
    assert ts[pos + 11] == w[11];
    assert ts[pos + 12] == w[12];
    assert ts[pos + 13] == w[13];
    assert ts[pos + 14] == w[14];
    assert ts[pos + 15] == w[15];
    assert ts[pos + 16] == w[16];
  }

  /** `cube(size = [x, y, z], center = b);` parses to a cube leaf of that size, centred unless b is false. */
  lemma CubePrint(ts: Tokens, pos: nat, size: Vec3, center: bool, show: real -> string, stof: Stof)
    requires VecReadsBack(size, show, stof) && CubeAt(ts, pos, size, center, show)
    ensures ParseCube(ts, pos + 1, stof) == Parsed(Returned(Some(CubeNode(size, center))), pos + 17)
  {
    assert ShapeFacts.VectorAt(ts, pos + 5, stof) == Some(size);
    ShapeFacts.CubeVector(ts, pos + 1, stof);
  }

  /** The tokens of a cylinder call, one by one. */
  ghost predicate CylinderAt(ts: Tokens, pos: nat, h: real, r1: real, r2: real, center: bool, show: real -> string) {
    && pos + 19 <= |ts|
    && ts[pos + 1] == "(" && ts[pos + 2] == "h" && ts[pos + 3] == "=" && ts[pos + 4] == show(h)
    && ts[pos + 5] == "," && ts[pos + 6] == "r1" && ts[pos + 7] == "=" && ts[pos + 8] == show(r1)
    && ts[pos + 9] == "," && ts[pos + 10] == "r2" && ts[pos + 11] == "=" && ts[pos + 12] == show(r2)
    && ts[pos + 13] == "," && ts[pos + 14] == "center" && ts[pos + 15] == "=" && ts[pos + 16] == BoolText(center)
    && ts[pos + 17] == ")" && ts[pos + 18] == ";"
  }

  lemma CylinderTokens(ts: Tokens, pos: nat, h: real, r1: real, r2: real, center: bool, show: real -> string)
    requires At(ts, pos, Print(CylinderCall(h, r1, r2, center), show))
    ensures ts[pos] == "cylinder" && CylinderAt(ts, pos, h, r1, r2, center, show)
  {
    var w := Print(CylinderCall(h, r1, r2, center), show);
    AtIndex(ts, pos, w);
    assert ts[pos + 0] == w[0];
    assert ts[pos + 1] == w[1];
    assert ts[pos + 2] == w[2];
    assert ts[pos + 3] == w[3];
    assert ts[pos + 4] == w[4];
    assert ts[pos + 5] == w[5];
    assert ts[pos + 6] == w[6];
    assert ts[pos + 7] == w[7];
    assert ts[pos + 8] == w[8];
    assert ts[pos + 9] == w[9];
    assert ts[pos + 10] == w[10];
    assert ts[pos + 11] == w[11];
    assert ts[pos + 12] == w[12];
    assert ts[pos + 13] == w[13];
    assert ts[pos + 14] == w[14];
    assert ts[pos + 15] == w[15];
    assert ts[pos + 16] == w[16];
    assert ts[pos + 17] == w[17];
    assert ts[pos + 18] == w[18];
  }

  /** `cylinder(h = .., r1 = .., r2 = .., center = b);` parses to a cylinder leaf of that height and radius r1. */
  lemma CylinderPrint(ts: Tokens, pos: nat, h: real, r1: real, r2: real, center: bool,
                      show: real -> string, stof: Stof)
    requires ReadsBack(h, show, stof) && ReadsBack(r1, show, stof) && ReadsBack(r2, show, stof)
    requires CylinderAt(ts, pos, h, r1, r2, center, show)
    ensures ParseCylinder(ts, pos + 1, stof) == Parsed(Returned(Some(CylinderNode(h, r1, center))), pos + 19)
  {
    assert ShapeFacts.CylinderNumbers(ts, pos + 1, stof) == Some(Vec3(h, r1, r2));
    ShapeFacts.CylinderFull(ts, pos + 1, stof);
  }

  // ---------------------------------------------------------------------------
  // Matrix literals

  /** The tokens of row `row` of a matrix literal, one by one. */
  ghost predicate RowAt(ts: Tokens, pos: nat, cells: Cells, row: nat, show: real -> string)
    requires row < 4
  {
    && pos + 9 <= |ts|
    && ts[pos] == "[" && ts[pos + 1] == show(cells[4 * row]) && ts[pos + 2] == ","
    && ts[pos + 3] == show(cells[4 * row + 1]) && ts[pos + 4] == ","
    && ts[pos + 5] == show(cells[4 * row + 2]) && ts[pos + 6] == ","
    && ts[pos + 7] == show(cells[4 * row + 3]) && ts[pos + 8] == "]"
  }

  lemma RowTokens(ts: Tokens, pos: nat, cells: Cells, row: nat, show: real -> string)
    requires row < 4 && At(ts, pos, RowText(cells, row, show))
    ensures RowAt(ts, pos, cells, row, show)
  {
    var w := RowText(cells, row, show);
    AtIndex(ts, pos, w);
    assert ts[pos] == w[0];
    assert ts[pos + 1] == w[1];
    assert ts[pos + 2] == w[2];
    assert ts[pos + 3] == w[3];
    assert ts[pos + 4] == w[4];
    assert ts[pos + 5] == w[5];
    assert ts[pos + 6] == w[6];
    assert ts[pos + 7] == w[7];
    assert ts[pos + 8] == w[8];
  }

  /** A printed row has the shape of a row, and its values are its four cells. */
  lemma RowAtValues(ts: Tokens, pos: nat, cells: Cells, row: nat, show: real -> string, stof: Stof)
    requires row < 4 && CellsReadBack(cells, show, stof) && RowAt(ts, pos, cells, row, show)
    ensures ShapeFacts.RowShape(ts, pos) && ShapeFacts.RowValues(ts, pos, stof) == cells[4 * row..4 * row + 4]
  {
    var k := 4 * row;
    // Name the cells, so that CellsReadBack's quantifier is instantiated at each.
    assert ReadsBack(cells[k], show, stof) && ReadsBack(cells[k + 1], show, stof);
    assert ReadsBack(cells[k + 2], show, stof) && ReadsBack(cells[k + 3], show, stof);
  }

  /** The number of tokens the rows from row on take. */
  function RowsLength(row: nat): nat
    requires row <= 4
  {
    if row == 4 then 0 else 10 * (4 - row) - 1
  }

  /** The tokens of the rows of a matrix literal from row on, row by row. */
  ghost predicate RowsAt(ts: Tokens, pos: nat, cells: Cells, row: nat, show: real -> string)
    requires row <= 4
    decreases 4 - row
  {
    row < 4 ==>
      && RowAt(ts, pos, cells, row, show)
      && (row < 3 ==> pos + 10 <= |ts| && ts[pos + 9] == "," && RowsAt(ts, pos + 10, cells, row + 1, show))
  }

  lemma {:induction false} RowsTokens(ts: Tokens, pos: nat, cells: Cells, row: nat, show: real -> string)
    requires row <= 4 && At(ts, pos, RowsText(cells, row, show))
    ensures RowsAt(ts, pos, cells, row, show) && |RowsText(cells, row, show)| == RowsLength(row)
    decreases 4 - row
  {
    if row < 4 {
      var line, rest := RowText(cells, row, show), RowsText(cells, row + 1, show);
      AtSplit(ts, pos, line + RowSep(row), rest);
      AtSplit(ts, pos, line, RowSep(row));
      RowTokens(ts, pos, cells, row, show);
      RowsTokens(ts, pos + 9 + |RowSep(row)|, cells, row + 1, show);
      if row < 3 {
        AtIndex(ts, pos + 9, RowSep(row));
        assert ts[pos + 9 + 0] == RowSep(row)[0];
      }
    }
  }

  /** The tokens of a matrix literal: its brackets and its rows. */
  ghost predicate MatrixAt(ts: Tokens, pos: nat, cells: Cells, show: real -> string) {
    pos + 41 <= |ts| && ts[pos] == "[" && RowsAt(ts, pos + 1, cells, 0, show) && ts[pos + 40] == "]"
  }

  lemma MatrixTokens(ts: Tokens, pos: nat, cells: Cells, show: real -> string)
    requires At(ts, pos, MatrixText(cells, show))
    ensures MatrixAt(ts, pos, cells, show) && |MatrixText(cells, show)| == 41
  {
    var rows := RowsText(cells, 0, show);
    AtSplit(ts, pos, ["["] + rows, ["]"]);
    AtSplit(ts, pos, ["["], rows);
    RowsTokens(ts, pos + 1, cells, 0, show);
    assert |rows| == 39;
    AtIndex(ts, pos, ["["]);
    AtIndex(ts, pos + 40, ["]"]);
    assert ts[pos + 0] == ["["][0];
    assert ts[pos + 40 + 0] == ["]"][0];
  }

  /** A printed matrix literal has the shape of a literal, and its values are its cells. */
  lemma MatrixAtValues(ts: Tokens, pos: nat, cells: Cells, show: real -> string, stof: Stof)
    requires CellsReadBack(cells, show, stof) && MatrixAt(ts, pos, cells, show)
    ensures ShapeFacts.MatrixShape(ts, pos) && ShapeFacts.MatrixValues(ts, pos, stof) == cells
  {
    assert RowsAt(ts, pos + 1, cells, 0, show) && RowsAt(ts, pos + 11, cells, 1, show);
    assert RowsAt(ts, pos + 21, cells, 2, show) && RowsAt(ts, pos + 31, cells, 3, show);
    RowAtValues(ts, pos + 1, cells, 0, show, stof);
    RowAtValues(ts, pos + 11, cells, 1, show, stof);
    RowAtValues(ts, pos + 21, cells, 2, show, stof);
    RowAtValues(ts, pos + 31, cells, 3, show, stof);
    assert cells == cells[0..4] + (cells[4..8] + (cells[8..12] + cells[12..16]));
  }

  /** A printed matrix literal reads back as C * transpose(make_mat4(cells)) * C^-1. */
  lemma MatrixPrint(ts: Tokens, pos: nat, cells: Cells, show: real -> string, stof: Stof)
    requires CellsReadBack(cells, show, stof) && MatrixAt(ts, pos, cells, show)
    ensures ParseMatrixData(ts, pos, stof) == Scan(MatrixOf(cells), pos + 41)
  {
    MatrixAtValues(ts, pos, cells, show, stof);
    ShapeFacts.MatrixRead(ts, pos, stof);
  }


  // ---------------------------------------------------------------------------
  // Blocks

  /** The keyword a printed scene starts with. */
  function Head(s: Scene): (t: string)
    ensures IsKeyword(t)
  {
    match s
    case SphereCall(_) => "sphere"
    case CubeCall(_, _) => "cube"
    case CylinderCall(_, _, _, _) => "cylinder"
    case OpBlock(op, _, _) => Keyword(op)
    case MatrixBlock(_, _) => "multmatrix"
    case ColorBlock(_, _, _) => "color"
  }

  /** The tokens of a colour block's head, one by one; the optional fourth component sits before `]`. */
  ghost predicate ColorAt(ts: Tokens, pos: nat, rgb: Vec3, alpha: Option<real>, show: real -> string) {
    var k := 8 + AlphaLength(alpha);
    && pos + k + 3 <= |ts|
    && ts[pos + 1] == "(" && ts[pos + 2] == "[" && ts[pos + 3] == show(rgb.x) && ts[pos + 4] == ","
    && ts[pos + 5] == show(rgb.y) && ts[pos + 6] == "," && ts[pos + 7] == show(rgb.z)
    && (alpha.Some? ==> ts[pos + 8] == "," && ts[pos + 9] == show(alpha.value))
    && ts[pos + k] == "]" && ts[pos + k + 1] == ")" && ts[pos + k + 2] == "{"
  }

  /**
    The tokens of a printed scene, position by position: its keyword first, a
    leaf's arguments, a block's head, its children where their sizes place them
    and the closing brace.
  */
  ghost predicate TextAt(ts: Tokens, pos: nat, s: Scene, show: real -> string)
    decreases s
  {
    match s
    case SphereCall(r) => pos < |ts| && ts[pos] == "sphere" && SphereAt(ts, pos, r, show)
    case CubeCall(size, center) => pos < |ts| && ts[pos] == "cube" && CubeAt(ts, pos, size, center, show)
    case CylinderCall(h, r1, r2, center) =>
      pos < |ts| && ts[pos] == "cylinder" && CylinderAt(ts, pos, h, r1, r2, center, show)
    case OpBlock(op, a, b) =>
      && pos + Size(s) <= |ts|
      && ts[pos] == Keyword(op) && ts[pos + 1] == "(" && ts[pos + 2] == ")" && ts[pos + 3] == "{"
      && TextAt(ts, pos + 4, a, show) && TextAt(ts, pos + 4 + Size(a), b, show)
      && ts[pos + 4 + Size(a) + Size(b)] == "}"
    case MatrixBlock(cells, child) =>
      && pos + Size(s) <= |ts|
      && ts[pos] == "multmatrix" && ts[pos + 1] == "(" && MatrixAt(ts, pos + 2, cells, show)
      && ts[pos + 43] == ")" && ts[pos + 44] == "{"
      && TextAt(ts, pos + 45, child, show) && ts[pos + 45 + Size(child)] == "}"
    case ColorBlock(rgb, alpha, child) =>
      var k := 11 + AlphaLength(alpha);
      && pos + Size(s) <= |ts|
      && ts[pos] == "color" && ColorAt(ts, pos, rgb, alpha, show)
      && TextAt(ts, pos + k, child, show) && ts[pos + k + Size(child)] == "}"
  }

  /** A block of n head tokens: its head, its body and the closing brace. */
  lemma BlockTokens(ts: Tokens, pos: nat, h: seq<string>, body: seq<string>, n: nat)
    requires |h| == n && At(ts, pos, h + body + ["}"])
    ensures At(ts, pos, h) && At(ts, pos + n, body)
    ensures pos + n + |body| < |ts| && ts[pos + n + |body|] == "}"
  {
    AtSplit(ts, pos, h + body, ["}"]);
    AtSplit(ts, pos, h, body);
    AtIndex(ts, pos + n + |body|, ["}"]);
    assert ts[pos + n + |body| + 0] == ["}"][0];
  }

  lemma OpHeadTokens(ts: Tokens, pos: nat, op: SetOp)
    requires At(ts, pos, OpHead(op))
    ensures ts[pos] == Keyword(op) && ts[pos + 1] == "(" && ts[pos + 2] == ")" && ts[pos + 3] == "{"
  {
    var w := OpHead(op);
    AtIndex(ts, pos, w);
    assert ts[pos + 0] == w[0] && ts[pos + 1] == w[1] && ts[pos + 2] == w[2] && ts[pos + 3] == w[3];
  }

  /** The tokens around the two children of a printed operator block. */
  lemma OpLayout(ts: Tokens, pos: nat, op: SetOp, pa: seq<string>, pb: seq<string>)
    requires At(ts, pos, OpHead(op) + pa + pb + ["}"])
    ensures ts[pos] == Keyword(op) && ts[pos + 1] == "(" && ts[pos + 2] == ")" && ts[pos + 3] == "{"
    ensures At(ts, pos + 4, pa) && At(ts, pos + 4 + |pa|, pb)
    ensures pos + 4 + |pa| + |pb| < |ts| && ts[pos + 4 + |pa| + |pb|] == "}"
  {
    BlockTokens(ts, pos, OpHead(op) + pa, pb, 4 + |pa|);
    AtSplit(ts, pos, OpHead(op), pa);
    OpHeadTokens(ts, pos, op);
  }

  /** `multmatrix ( <matrix> ) {` at pos. */
  ghost predicate MatrixHeadAt(ts: Tokens, pos: nat, cells: Cells, show: real -> string) {
    && pos + 45 <= |ts|
    && ts[pos] == "multmatrix" && ts[pos + 1] == "(" && MatrixAt(ts, pos + 2, cells, show)
    && ts[pos + 43] == ")" && ts[pos + 44] == "{"
  }

  lemma MatrixHeadTokens(ts: Tokens, pos: nat, cells: Cells, show: real -> string)
    requires At(ts, pos, MatrixHead(cells, show))
    ensures MatrixHeadAt(ts, pos, cells, show)
  {
    var m := MatrixText(cells, show);
    var a, b := ["multmatrix", "("], [")", "{"];
    AtSplit(ts, pos, a + m, b);
    AtSplit(ts, pos, a, m);
    MatrixTokens(ts, pos + 2, cells, show);
    AtIndex(ts, pos, a);
    AtIndex(ts, pos + 43, b);
    assert ts[pos + 0] == a[0] && ts[pos + 1] == a[1];
    assert ts[pos + 43 + 0] == b[0] && ts[pos + 43 + 1] == b[1];
  }

  lemma ColorHeadTokens(ts: Tokens, pos: nat, rgb: Vec3, alpha: Option<real>, show: real -> string)
    requires At(ts, pos, ColorHead(rgb, alpha, show))
    ensures ts[pos] == "color" && ColorAt(ts, pos, rgb, alpha, show)
  {
    var w := ColorHead(rgb, alpha, show);
    var k := 8 + AlphaLength(alpha);
    AtIndex(ts, pos, w);
    assert ts[pos + 0] == w[0] && ts[pos + 1] == w[1] && ts[pos + 2] == w[2] && ts[pos + 3] == w[3];
    assert ts[pos + 4] == w[4] && ts[pos + 5] == w[5] && ts[pos + 6] == w[6] && ts[pos + 7] == w[7];
    if alpha.Some? {
      assert ts[pos + 8] == w[8] && ts[pos + 9] == w[9];
    }
    assert ts[pos + k] == w[k] && ts[pos + k + 1] == w[k + 1] && ts[pos + k + 2] == w[k + 2];
  }

  /** Printed text lies in ts exactly when its tokens do, and it is Size tokens long. */
  lemma {:induction false} PrintTokens(ts: Tokens, pos: nat, s: Scene, show: real -> string)
    requires At(ts, pos, Print(s, show))
    ensures TextAt(ts, pos, s, show) && |Print(s, show)| == Size(s)
    decreases s, 1
  {
    match s
    case SphereCall(r) => SphereTokens(ts, pos, r, show);
    case CubeCall(size, center) => CubeTokens(ts, pos, size, center, show);
    case CylinderCall(h, r1, r2, center) => CylinderTokens(ts, pos, h, r1, r2, center, show);
    case OpBlock(op, a, b) => OpBlockTokens(ts, pos, op, a, b, show);
    case MatrixBlock(cells, child) => MatrixBlockTokens(ts, pos, cells, child, show);
    case ColorBlock(rgb, alpha, child) => ColorBlockTokens(ts, pos, rgb, alpha, child, show);
  }

  lemma {:induction false} OpBlockTokens(ts: Tokens, pos: nat, op: SetOp, a: Scene, b: Scene, show: real -> string)
    requires At(ts, pos, Print(OpBlock(op, a, b), show))
    ensures TextAt(ts, pos, OpBlock(op, a, b), show) && |Print(OpBlock(op, a, b), show)| == Size(OpBlock(op, a, b))
    decreases OpBlock(op, a, b), 0
  {
    var pa, pb := Print(a, show), Print(b, show);
    OpLayout(ts, pos, op, pa, pb);
    var mid, end := pos + 4 + |pa|, pos + 4 + |pa| + |pb|;
    PrintTokens(ts, pos + 4, a, show);
    PrintTokens(ts, mid, b, show);
    OpTextAt(ts, pos, op, a, b, mid, end, show);
  }

  /** An operator block's tokens, from its head, its children (the second at mid) and its closing brace (at end). */
  lemma OpTextAt(ts: Tokens, pos: nat, op: SetOp, a: Scene, b: Scene, mid: nat, end: nat, show: real -> string)
    requires mid == pos + 4 + Size(a) && end == mid + Size(b) && end < |ts|
    requires ts[pos] == Keyword(op) && ts[pos + 1] == "(" && ts[pos + 2] == ")" && ts[pos + 3] == "{"
    requires TextAt(ts, pos + 4, a, show) && TextAt(ts, mid, b, show) && ts[end] == "}"
    ensures TextAt(ts, pos, OpBlock(op, a, b), show)
  {
  }

  lemma {:induction false} MatrixBlockTokens(ts: Tokens, pos: nat, cells: Cells, child: Scene, show: real -> string)
    requires At(ts, pos, Print(MatrixBlock(cells, child), show))
    ensures TextAt(ts, pos, MatrixBlock(cells, child), show)
    ensures |Print(MatrixBlock(cells, child), show)| == Size(MatrixBlock(cells, child))
    decreases MatrixBlock(cells, child), 0
  {
    var pc := Print(child, show);
    var body, end := pos + 45, pos + 45 + |pc|;
    assert Print(MatrixBlock(cells, child), show) == MatrixHead(cells, show) + pc + ["}"];
    BlockTokens(ts, pos, MatrixHead(cells, show), pc, 45);
    MatrixHeadTokens(ts, pos, cells, show);
    PrintTokens(ts, body, child, show);
    MatrixTextAt(ts, pos, cells, child, end, show);
  }

  /** A matrix block's tokens, from its head, its child and its closing brace (at end). */
  lemma MatrixTextAt(ts: Tokens, pos: nat, cells: Cells, child: Scene, end: nat, show: real -> string)
    requires end == pos + 45 + Size(child) && end < |ts|
    requires MatrixHeadAt(ts, pos, cells, show) == true && TextAt(ts, pos + 45, child, show) == true && ts[end] == "}"
    ensures TextAt(ts, pos, MatrixBlock(cells, child), show)
  {
  }

  lemma {:induction false} ColorBlockTokens(ts: Tokens, pos: nat, rgb: Vec3, alpha: Option<real>, child: Scene,
                                            show: real -> string)
    requires At(ts, pos, Print(ColorBlock(rgb, alpha, child), show))
    ensures TextAt(ts, pos, ColorBlock(rgb, alpha, child), show)
    ensures |Print(ColorBlock(rgb, alpha, child), show)| == Size(ColorBlock(rgb, alpha, child))
    decreases ColorBlock(rgb, alpha, child), 0
  {
    var pc := Print(child, show);
    var k := 11 + AlphaLength(alpha);
    var body, end := pos + k, pos + k + |pc|;
    BlockTokens(ts, pos, ColorHead(rgb, alpha, show), pc, k);
    ColorHeadTokens(ts, pos, rgb, alpha, show);
    PrintTokens(ts, body, child, show);
    ColorTextAt(ts, pos, rgb, alpha, child, body, end, show);
  }

  /** A colour block's tokens, from its head, its child (at body) and its closing brace (at end). */
  lemma ColorTextAt(ts: Tokens, pos: nat, rgb: Vec3, alpha: Option<real>, child: Scene, body: nat, end: nat,
                    show: real -> string)
    requires body == pos + 11 + AlphaLength(alpha) && end == body + Size(child) && end < |ts|
    requires ts[pos] == "color" && ColorAt(ts, pos, rgb, alpha, show)
    requires TextAt(ts, body, child, show) && ts[end] == "}"
    ensures TextAt(ts, pos, ColorBlock(rgb, alpha, child), show)
  {
  }

  // ---------------------------------------------------------------------------
  // Parsing the tokens of a scene

  /**
    parse_exp over an operator block whose two children parse to x (ending at
    mid) and y (ending at end, just before the closing brace).
  */
  lemma OpStep(ts: Tokens, pos: nat, kw: string, x: Node, y: Node, mid: nat, end: nat, stof: Stof)
    requires pos + 4 <= mid <= end < |ts| && ts[pos] == kw && IsOpKeyword(kw)
    requires ts[pos + 1] == "(" && ts[pos + 2] == ")" && ts[pos + 3] == "{"
    requires ParseExp(ts, pos + 4, stof) == Parsed(Returned(Some(x)), mid) && ts[mid] != ";"
    requires ParseExp(ts, mid, stof) == Parsed(Returned(Some(y)), end) && ts[end] == "}"
    ensures ParseExp(ts, pos, stof) == Parsed(Returned(Some(NewOpNode(OpTypeOfKeyword(kw), Some(x), Some(y)))), end + 1)
  {
    CloseBrace(ts, end);
  }

  /** parse_multimatrix over a block whose matrix reads as m and whose child parses to x, ending at end. */
  lemma MultmatrixStep(ts: Tokens, pos: nat, m: Transform, x: Node, end: nat, stof: Stof)
    requires pos + 45 <= end < |ts| && ts[pos + 1] == "("
    requires ParseMatrixData(ts, pos + 2, stof) == Scan(m, pos + 43) && ts[pos + 43] == ")" && ts[pos + 44] == "{"
    requires ParseExp(ts, pos + 45, stof) == Parsed(Returned(Some(x)), end) && ts[end] == "}"
    ensures ParseMultmatrix(ts, pos + 1, stof) == Parsed(Returned(Some(x.(transform := Mul(m, x.transform)))), end + 1)
  {
    CloseBrace(ts, end);
  }

  /** parse_exp over a multmatrix block whose matrix reads as m and whose child parses to x, ending at end. */
  lemma MatrixStep(ts: Tokens, pos: nat, m: Transform, x: Node, end: nat, stof: Stof)
    requires pos + 45 <= end < |ts| && ts[pos] == "multmatrix" && ts[pos + 1] == "("
    requires ParseMatrixData(ts, pos + 2, stof) == Scan(m, pos + 43) && ts[pos + 43] == ")" && ts[pos + 44] == "{"
    requires ParseExp(ts, pos + 45, stof) == Parsed(Returned(Some(x)), end) && ts[end] == "}"
    ensures ParseExp(ts, pos, stof) == Parsed(Returned(Some(x.(transform := Mul(m, x.transform)))), end + 1)
  {
    MultmatrixStep(ts, pos, m, x, end, stof);
  }

  /** A colour block's head reads as its colour, and the cursor stops at its child. */
  lemma ColorHeadParse(ts: Tokens, pos: nat, rgb: Vec3, alpha: Option<real>, show: real -> string, stof: Stof)
    requires VecReadsBack(rgb, show, stof) && ColorAt(ts, pos, rgb, alpha, show)
    ensures ColorHeader(ts, pos + 1, stof) == Scan(Some(rgb), pos + 11 + AlphaLength(alpha))
  {
    var x, y, z := rgb.x, rgb.y, rgb.z;
    assert stof(show(x)) == Some(x) && stof(show(y)) == Some(y) && stof(show(z)) == Some(z);
    assert Skip(ts, Skip(ts, pos + 1, "("), "[") == pos + 3;
    assert ReadTriple(ts, pos + 3, stof) == Scan(Some(rgb), pos + 8);
  }

  /** parse_color over a block whose colour reads as rgb and whose child, at body, parses to x, ending at end. */
  lemma ColorParseStep(ts: Tokens, pos: nat, rgb: Vec3, x: Node, body: nat, end: nat, stof: Stof)
    requires pos + 1 <= body <= end < |ts|
    requires ColorHeader(ts, pos + 1, stof) == Scan(Some(rgb), body)
    requires ParseExp(ts, body, stof) == Parsed(Returned(Some(x)), end) && ts[end] == "}"
    ensures ParseColor(ts, pos + 1, stof) == Parsed(Returned(Some(x.(color := rgb))), end + 1)
  {
    CloseBrace(ts, end);
  }

  /** The `}` that closes a block is consumed, with no `;` before it. */
  lemma CloseBrace(ts: Tokens, end: nat)
    requires end < |ts| && ts[end] == "}"
    ensures CloseBlock(ts, end) == end + 1
  {
  }

  /** parse_exp over a colour block whose child, at body, parses to x, ending at end. */
  lemma ColorStep(ts: Tokens, pos: nat, rgb: Vec3, alpha: Option<real>, x: Node, body: nat, end: nat,
                  show: real -> string, stof: Stof)
    requires VecReadsBack(rgb, show, stof) && ColorAt(ts, pos, rgb, alpha, show) && ts[pos] == "color"
    requires body == pos + 11 + AlphaLength(alpha) && body <= end < |ts|
    requires ParseExp(ts, body, stof) == Parsed(Returned(Some(x)), end) && ts[end] == "}"
    ensures ParseExp(ts, pos, stof) == Parsed(Returned(Some(x.(color := rgb))), end + 1)
  {
    ColorHeadParse(ts, pos, rgb, alpha, show, stof);
    ColorParseStep(ts, pos, rgb, x, body, end, stof);
  }

  /**
    parse_exp, at a position where the tokens of a scene lie, returns the tree
    the scene denotes and leaves the cursor just after them, whatever follows.
  */
  lemma {:induction false} ParseExpText(ts: Tokens, pos: nat, s: Scene, show: real -> string, stof: Stof)
    requires Readable(s, show, stof) == true && TextAt(ts, pos, s, show) == true
    ensures ParseExp(ts, pos, stof) == Parsed(Returned(Some(Eval(s))), pos + Size(s))
    decreases s, 2
  {
    match s
    case SphereCall(r) => SphereText(ts, pos, r, show, stof);
    case CubeCall(size, center) => CubeText(ts, pos, size, center, show, stof);
    case CylinderCall(h, r1, r2, center) => CylinderText(ts, pos, h, r1, r2, center, show, stof);
    case OpBlock(op, a, b) =>
      OpBlockParse(ts, pos, op, a, b, show, stof);
      OpBlockValue(ParseExp(ts, pos, stof), pos, op, a, b);
    case MatrixBlock(cells, child) =>
      MatrixBlockParse(ts, pos, cells, child, show, stof);
      MatrixBlockValue(ParseExp(ts, pos, stof), pos, cells, child);
    case ColorBlock(rgb, alpha, child) =>
      ColorBlockParse(ts, pos, rgb, alpha, child, show, stof);
      ColorBlockValue(ParseExp(ts, pos, stof), pos, rgb, alpha, child);
  }

  /** parse_exp over the tokens of a sphere call. */
  lemma SphereText(ts: Tokens, pos: nat, r: real, show: real -> string, stof: Stof)
    requires ReadsBack(r, show, stof) && TextAt(ts, pos, SphereCall(r), show)
    ensures ParseExp(ts, pos, stof) == Parsed(Returned(Some(Eval(SphereCall(r)))), pos + Size(SphereCall(r)))
  {
    SpherePrint(ts, pos, r, show, stof);
  }

  /** parse_exp over the tokens of a cube call. */
  lemma CubeText(ts: Tokens, pos: nat, size: Vec3, center: bool, show: real -> string, stof: Stof)
    requires VecReadsBack(size, show, stof) && TextAt(ts, pos, CubeCall(size, center), show)
    ensures ParseExp(ts, pos, stof) == Parsed(Returned(Some(Eval(CubeCall(size, center)))), pos + Size(CubeCall(size, center)))
  {
    CubePrint(ts, pos, size, center, show, stof);
  }

  /** parse_exp over the tokens of a cylinder call. */
  lemma CylinderText(ts: Tokens, pos: nat, h: real, r1: real, r2: real, center: bool, show: real -> string, stof: Stof)
    requires ReadsBack(h, show, stof) && ReadsBack(r1, show, stof) && ReadsBack(r2, show, stof) && TextAt(ts, pos, CylinderCall(h, r1, r2, center), show)
    ensures ParseExp(ts, pos, stof)
         == Parsed(Returned(Some(Eval(CylinderCall(h, r1, r2, center)))), pos + Size(CylinderCall(h, r1, r2, center)))
  {
    CylinderPrint(ts, pos, h, r1, r2, center, show, stof);
  }

  /** An operator block's node and length, in the terms of Eval and Size. */
  lemma OpBlockValue(p: Parsed, pos: nat, op: SetOp, a: Scene, b: Scene)
    requires p == Parsed(Returned(Some(NewOpNode(OpOf(op), Some(Eval(a)), Some(Eval(b))))), pos + 4 + Size(a) + Size(b) + 1)
    ensures p == Parsed(Returned(Some(Eval(OpBlock(op, a, b)))), pos + Size(OpBlock(op, a, b)))
  {
  }

  /** A matrix block's node and length, in the terms of Eval and Size. */
  lemma MatrixBlockValue(p: Parsed, pos: nat, cells: Cells, child: Scene)
    requires p == Parsed(Returned(Some(Eval(child).(transform := Mul(MatrixOf(cells), Eval(child).transform)))),
                         pos + 45 + Size(child) + 1)
    ensures p == Parsed(Returned(Some(Eval(MatrixBlock(cells, child)))), pos + Size(MatrixBlock(cells, child)))
  {
  }

  /** A colour block's node and length, in the terms of Eval and Size. */
  lemma ColorBlockValue(p: Parsed, pos: nat, rgb: Vec3, alpha: Option<real>, child: Scene)
    requires p == Parsed(Returned(Some(Eval(child).(color := rgb))), pos + 11 + AlphaLength(alpha) + Size(child) + 1)
    ensures p == Parsed(Returned(Some(Eval(ColorBlock(rgb, alpha, child)))), pos + Size(ColorBlock(rgb, alpha, child)))
  {
  }

  /** The tokens of an operator block, read apart: its head, its children (the second at mid), its brace (at end). */
  lemma OpTextParts(ts: Tokens, pos: nat, op: SetOp, a: Scene, b: Scene, mid: nat, end: nat, show: real -> string)
    requires TextAt(ts, pos, OpBlock(op, a, b), show) && mid == pos + 4 + Size(a) && end == mid + Size(b)
    ensures end < |ts| && ts[pos] == Keyword(op) && ts[pos + 1] == "(" && ts[pos + 2] == ")" && ts[pos + 3] == "{"
    ensures TextAt(ts, pos + 4, a, show) && TextAt(ts, mid, b, show) && ts[end] == "}"
  {
  }

  /** The tokens of a matrix block, read apart: its head, its child, its brace (at end). */
  lemma MatrixTextParts(ts: Tokens, pos: nat, cells: Cells, child: Scene, end: nat, show: real -> string)
    requires TextAt(ts, pos, MatrixBlock(cells, child), show) && end == pos + 45 + Size(child)
    ensures end < |ts| && ts[pos] == "multmatrix" && ts[pos + 1] == "(" && MatrixAt(ts, pos + 2, cells, show)
    ensures ts[pos + 43] == ")" && ts[pos + 44] == "{"
    ensures TextAt(ts, pos + 45, child, show) && ts[end] == "}"
  {
  }

  /** The tokens of a colour block, read apart: its head, its child (at body), its brace (at end). */
  lemma ColorTextParts(ts: Tokens, pos: nat, rgb: Vec3, alpha: Option<real>, child: Scene, body: nat, end: nat,
                       show: real -> string)
    requires TextAt(ts, pos, ColorBlock(rgb, alpha, child), show)
    requires body == pos + 11 + AlphaLength(alpha) && end == body + Size(child)
    ensures end < |ts| && ts[pos] == "color" && ColorAt(ts, pos, rgb, alpha, show)
    ensures TextAt(ts, body, child, show) && ts[end] == "}"
  {
  }

  /** No keyword is a separator. */
  lemma KeywordNotSeparator(t: string)
    requires IsKeyword(t)
    ensures t != ";"
  {
  }

  lemma {:induction false} OpBlockParse(ts: Tokens, pos: nat, op: SetOp, a: Scene, b: Scene, show: real -> string, stof: Stof)
    requires Readable(a, show, stof) && Readable(b, show, stof) && TextAt(ts, pos, OpBlock(op, a, b), show)
    ensures ParseExp(ts, pos, stof) == Parsed(Returned(Some(NewOpNode(OpOf(op), Some(Eval(a)), Some(Eval(b))))),
                                              pos + 4 + Size(a) + Size(b) + 1)
    decreases OpBlock(op, a, b), 1
  {
    var mid := pos + 4 + Size(a);
    var end := mid + Size(b);
    OpTextParts(ts, pos, op, a, b, mid, end, show);
    ParseExpText(ts, pos + 4, a, show, stof);
    OpSecondParse(ts, pos, op, a, b, mid, end, show, stof);
  }

  /** The second half of an operator block: once the first child has parsed up to mid, the rest of the block parses. */
  lemma {:induction false} OpSecondParse(ts: Tokens, pos: nat, op: SetOp, a: Scene, b: Scene, mid: nat, end: nat, show: real -> string, stof: Stof)
    requires Readable(b, show, stof) == true && mid == pos + 4 + Size(a) && end == mid + Size(b) && end < |ts|
    requires ts[pos] == Keyword(op) && ts[pos + 1] == "(" && ts[pos + 2] == ")" && ts[pos + 3] == "{"
    requires ParseExp(ts, pos + 4, stof) == Parsed(Returned(Some(Eval(a))), mid)
    requires TextAt(ts, mid, b, show) == true && ts[end] == "}"
    ensures ParseExp(ts, pos, stof) == Parsed(Returned(Some(NewOpNode(OpOf(op), Some(Eval(a)), Some(Eval(b))))), end + 1)
    decreases OpBlock(op, a, b), 0
  {
    ParseExpText(ts, mid, b, show, stof);
    OpFinish(ts, pos, op, Eval(a), Eval(b), mid, end, stof);
  }

  /** An operator block whose children parse to x (up to mid) and y (up to end) parses to their operator node. */
  lemma OpFinish(ts: Tokens, pos: nat, op: SetOp, x: Node, y: Node, mid: nat, end: nat, stof: Stof)
    requires pos + 4 <= mid <= end < |ts|
    requires ts[pos] == Keyword(op) && ts[pos + 1] == "(" && ts[pos + 2] == ")" && ts[pos + 3] == "{"
    requires ParseExp(ts, pos + 4, stof) == Parsed(Returned(Some(x)), mid)
    requires ParseExp(ts, mid, stof) == Parsed(Returned(Some(y)), end) && ts[end] == "}"
    ensures ParseExp(ts, pos, stof) == Parsed(Returned(Some(NewOpNode(OpOf(op), Some(x), Some(y)))), end + 1)
  {
    KeywordNotSeparator(ts[mid]);
    KeywordOp(op);
    OpStep(ts, pos, Keyword(op), x, y, mid, end, stof);
  }

  lemma {:induction false} MatrixBlockParse(ts: Tokens, pos: nat, cells: Cells, child: Scene, show: real -> string, stof: Stof)
    requires CellsReadBack(cells, show, stof) && Readable(child, show, stof) && TextAt(ts, pos, MatrixBlock(cells, child), show)
    ensures ParseExp(ts, pos, stof) == Parsed(Returned(Some(Eval(child).(transform := Mul(MatrixOf(cells), Eval(child).transform)))),
                                              pos + 45 + Size(child) + 1)
    decreases MatrixBlock(cells, child), 1
  {
    var end := pos + 45 + Size(child);
    MatrixTextParts(ts, pos, cells, child, end, show);
    ParseExpText(ts, pos + 45, child, show, stof);
    MatrixFinish(ts, pos, cells, Eval(child), end, show, stof);
  }

  /** A multmatrix block whose literal shows cells and whose child parses to x (up to end) parses to x moved by the matrix. */
  lemma MatrixFinish(ts: Tokens, pos: nat, cells: Cells, x: Node, end: nat, show: real -> string, stof: Stof)
    requires CellsReadBack(cells, show, stof) && pos + 45 <= end < |ts| && ts[pos] == "multmatrix" && ts[pos + 1] == "("
    requires MatrixAt(ts, pos + 2, cells, show) && ts[pos + 43] == ")" && ts[pos + 44] == "{"
    requires ParseExp(ts, pos + 45, stof) == Parsed(Returned(Some(x)), end) && ts[end] == "}"
    ensures ParseExp(ts, pos, stof) == Parsed(Returned(Some(x.(transform := Mul(MatrixOf(cells), x.transform)))), end + 1)
  {
    MatrixPrint(ts, pos + 2, cells, show, stof);
    MatrixStep(ts, pos, MatrixOf(cells), x, end, stof);
  }

  lemma {:induction false} ColorBlockParse(ts: Tokens, pos: nat, rgb: Vec3, alpha: Option<real>, child: Scene,
                                           show: real -> string, stof: Stof)
    requires VecReadsBack(rgb, show, stof) && Readable(child, show, stof) && TextAt(ts, pos, ColorBlock(rgb, alpha, child), show)
    ensures ParseExp(ts, pos, stof) == Parsed(Returned(Some(Eval(child).(color := rgb))),
                                              pos + 11 + AlphaLength(alpha) + Size(child) + 1)
    decreases ColorBlock(rgb, alpha, child), 1
  {
    var body := pos + 11 + AlphaLength(alpha);
    var end := body + Size(child);
    ColorTextParts(ts, pos, rgb, alpha, child, body, end, show);
    ParseExpText(ts, body, child, show, stof);
    ColorStep(ts, pos, rgb, alpha, Eval(child), body, end, show, stof);
  }

  /**
    The main theorem: wherever the printed tokens of a scene appear, parse_exp
    started on them returns the scene's tree and stops right after them.
  */
  lemma ParseExpPrint(ts: Tokens, pos: nat, s: Scene, show: real -> string, stof: Stof)
    requires Readable(s, show, stof) && At(ts, pos, Print(s, show))
    ensures ParseExp(ts, pos, stof) == Parsed(Returned(Some(Eval(s))), pos + |Print(s, show)|)
  {
    PrintTokens(ts, pos, s, show);
    ParseExpText(ts, pos, s, show, stof);
  }

  /** parse on exactly the printed tokens of a scene returns its tree. */
  lemma ParsePrint(s: Scene, show: real -> string, stof: Stof)
    requires Readable(s, show, stof)
    ensures Parse(Print(s, show), stof) == Returned(Some(Eval(s)))
  {
    var ts := Print(s, show);
    assert ts[0..|ts|] == ts;
    ParseExpPrint(ts, 0, s, show, stof);
  }
}
