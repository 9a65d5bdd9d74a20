/**
  csg_parser: a token vector and a cursor that the parse methods advance. Every
  method is proved to leave the cursor, and return the node, that the function
  of the same name in module Grammar computes from the cursor it started at.
*/
module CsgParser {
  import opened Wrappers
  import opened Geometry
  import opened Operations
  import opened Primitives
  import opened CsgTree
  import Lexer
  import Grammar

  class Parser {
    const tokens: seq<string>
    var pos: nat
    /** std::stof, the one foreign call the parser makes. */
    const stof: Grammar.Stof

    /** The cursor never passes the end of the tokens. */
    predicate Valid()
      reads this
    {
      pos <= |tokens|
    }

    /** csg_parser(input): the tokens of the input, with the cursor at the first one. */
    constructor (input: string, stof: Grammar.Stof)
      ensures tokens == Lexer.Lex(input) && pos == 0 && this.stof == stof
      ensures Valid()
    {
      var ts := Lexer.Tokenize(input);
      tokens := ts;
      pos := 0;
      this.stof := stof;
    }

    /** parse: null when there are no tokens, otherwise one expression. */
    method Parse() returns (r: Grammar.Outcome)
      requires Valid()
      modifies this
      ensures Valid()
      ensures |tokens| == 0 ==> r == Grammar.Returned(None) && pos == old(pos)
      ensures |tokens| > 0 ==> Grammar.Parsed(r, pos) == Grammar.ParseExp(tokens, old(pos), stof)
      ensures old(pos) == 0 ==> r == Grammar.Parse(tokens, stof)
    {
      if |tokens| == 0 {
        return Grammar.Returned(None);
      }
      r := ParseExp();
    }

    /** peek never moves the cursor. */
    method Peek() returns (t: string)
      requires Valid()
      ensures t == Grammar.Peek(tokens, pos)
      ensures t == "" <==> pos == |tokens| || tokens[pos] == ""
    {
      if pos < |tokens| {
        return tokens[pos];
      }
      return "";
    }

    /** consume: the token under the cursor and one step forward, or "" and no move at the end. */
    method Consume() returns (t: string)
      requires Valid()
      modifies this
      ensures Valid()
      ensures old(pos) < |tokens| ==> t == tokens[old(pos)] && pos == old(pos) + 1
      ensures old(pos) == |tokens| ==> t == "" && pos == old(pos)
      ensures t == Grammar.Peek(tokens, old(pos)) && pos == Grammar.Next(tokens, old(pos))
    {
      if pos >= |tokens| {
        return "";
      }
      t := tokens[pos];
      pos := pos + 1;
    }

    /** expect: moves past the token under the cursor exactly when it is t. */
    method Expect(t: string)
      requires Valid()
      modifies this
      ensures Valid()
      ensures pos == Grammar.Skip(tokens, old(pos), t)
      ensures pos == old(pos) + 1 <==> old(pos) < |tokens| && tokens[old(pos)] == t
      ensures pos == old(pos) || pos == old(pos) + 1
    {
      var p := Peek();
      if p == t {
        p := Consume();
      }
    }

    method ParseExp() returns (r: Grammar.Outcome)
      requires Valid()
      modifies this
      ensures Valid()
      ensures Grammar.Parsed(r, pos) == Grammar.ParseExp(tokens, old(pos), stof)
      decreases |tokens| - pos, 0
    {
      if pos >= |tokens| {
        return Grammar.Returned(None);
      }
      var token := Peek();
      if token == "union" || token == "difference" || token == "intersection" {
        token := Consume();
        r := ParseOp(token);
      } else if token == "multmatrix" {
        token := Consume();
        r := ParseMultimatrix();
      } else if token == "color" {
        token := Consume();
        r := ParseColor();
      } else if token == "sphere" {
        token := Consume();
        r := ParseSphere();
      } else if token == "cube" {
        token := Consume();
        r := ParseCube();
      } else if token == "cylinder" {
        token := Consume();
        r := ParseCylinder();
      } else if token == "}" {
        r := Grammar.Returned(None);
      } else {
        token := Consume();
        r := Grammar.Returned(None);
      }
    }

    /**
      A child expression, followed by an optional ';' when it is a node
      (`parse_exp()` then `if(peek() == ";") consume();`).
    */
    method ParseChild() returns (r: Grammar.Outcome)
      requires Valid()
      modifies this
      ensures Valid()
      ensures r == Grammar.ParseExp(tokens, old(pos), stof).out
      ensures pos == if r.Returned? && r.node.Some?
                     then Grammar.Skip(tokens, Grammar.ParseExp(tokens, old(pos), stof).pos, ";")
                     else Grammar.ParseExp(tokens, old(pos), stof).pos
      decreases |tokens| - pos, 1
    {
      r := ParseExp();
      if r.Returned? && r.node.Some? {
        var p := Peek();
        if p == ";" { p := Consume(); }
      }
    }

    /** The operation a keyword names; anything else is op_none. */
    static method OpTypeFor(typeStr: string) returns (opType: OpType)
      ensures opType == Grammar.OpTypeOfKeyword(typeStr)
    {
      opType := OpNone;
      if typeStr == "union" { opType := OpUnion; }
      if typeStr == "difference" { opType := OpDifference; }
      if typeStr == "intersection" { opType := OpIntersection; }
    }

    method ParseOp(typeStr: string) returns (r: Grammar.Outcome)
      requires Valid()
      modifies this
      ensures Valid()
      ensures Grammar.Parsed(r, pos) == Grammar.ParseOp(tokens, old(pos), typeStr, stof)
      decreases |tokens| - pos, 2
    {
      var opType := OpTypeFor(typeStr);

      Expect("("); Expect(")"); Expect("{");

      var left := ParseChild();
      if left.Threw? || left.node.None? {
        return left;
      }
      var right := ParseChild();
      if right.Threw? || right.node.None? {
        return right;
      }
      Expect("}");

      r := Grammar.Returned(Some(NewOpNode(opType, left.node, right.node)));
    }

    /** parse_multimatrix: the child's transform becomes the literal's matrix times it. */
    method ParseMultimatrix() returns (r: Grammar.Outcome)
      requires Valid()
      modifies this
      ensures Valid()
      ensures Grammar.Parsed(r, pos) == Grammar.ParseMultmatrix(tokens, old(pos), stof)
      decreases |tokens| - pos, 2
    {
      Expect("(");
      var mat := ParseMatrixData();
      Expect(")");
      Expect("{");

      var child := ParseChild();
      if child.Threw? || child.node.None? {
        return child;
      }
      Expect("}");

      var n := child.node.value;
      r := Grammar.Returned(Some(n.(transform := Mul(mat, n.transform))));
    }

    /** parse_color: three components, an optional fourth that is dropped, then the child. */
    method ParseColor() returns (r: Grammar.Outcome)
      requires Valid()
      modifies this
      ensures Valid()
      ensures Grammar.Parsed(r, pos) == Grammar.ParseColor(tokens, old(pos), stof)
      decreases |tokens| - pos, 2
    {
      Expect("(");
      Expect("[");
      var rgb := ReadTriple();
      if rgb.None? {
        return Grammar.Threw;
      }
      var p := Peek();
      if p == "," { p := Consume(); p := Consume(); }
      Expect("]");
      Expect(")");
      Expect("{");

      var child := ParseChild();
      if child.Threw? || child.node.None? {
        return child;
      }
      Expect("}");

      r := Grammar.Returned(Some(child.node.value.(color := rgb.value)));
    }

    /** `std::stof(consume()); expect(","); std::stof(consume()); expect(","); std::stof(consume())`. */
    method ReadTriple() returns (v: Option<Vec3>)
      requires Valid()
      modifies this
      ensures Valid()
      ensures Grammar.Scan(v, pos) == Grammar.ReadTriple(tokens, old(pos), stof)
    {
      var t := Consume();
      var x := stof(t);
      if x.None? { return None; }
      Expect(",");
      t := Consume();
      var y := stof(t);
      if y.None? { return None; }
      Expect(",");
      t := Consume();
      var z := stof(t);
      if z.None? { return None; }
      v := Some(Vec3(x.value, y.value, z.value));
    }

    /** parse_sphere: `r = value` sets the radius unless the value fails to convert; other parameters are skipped. */
    method ParseSphere() returns (r: Grammar.Outcome)
      requires Valid()
      modifies this
      ensures Valid()
      ensures Grammar.Parsed(r, pos) == Grammar.ParseSphere(tokens, old(pos), stof)
    {
      var radius := 1.0;
      Expect("(");
      ghost var exit := Grammar.SphereArgs(tokens, pos, radius, stof);
      var t := Peek();
      while t != ")" && t != ""
        invariant Valid() && t == Grammar.Peek(tokens, pos)
        invariant Grammar.SphereArgs(tokens, pos, radius, stof) == exit
        decreases |tokens| - pos
      {
        radius := SphereParam(radius);
        t := Peek();
      }
      Expect(")");
      var p := Peek();
      if p == ";" { p := Consume(); }
      r := Grammar.Returned(Some(Grammar.SphereNode(radius)));
    }

    /** One pass of parse_sphere's parameter loop. */
    method SphereParam(radius: real) returns (radius': real)
      requires Valid() && pos < |tokens|
      modifies this
      ensures Valid()
      ensures Grammar.Scan(radius', pos) == Grammar.SphereArg(tokens, old(pos), radius, stof)
    {
      radius' := radius;
      var param := Consume();
      var t := Peek();
      if param == "r" {
        if t == "=" {
          t := Consume();
          t := Consume();
          var v := stof(t);
          if v.Some? { radius' := v.value; }
        }
      } else {
        if t == "=" {
          t := Consume();
          t := Consume();
        }
      }
      t := Peek();
      if t == "," { t := Consume(); }
    }

    /** parse_cube: `size` as a number or a list, `center` false only on the literal `false`. */
    method ParseCube() returns (r: Grammar.Outcome)
      requires Valid()
      modifies this
      ensures Valid()
      ensures Grammar.Parsed(r, pos) == Grammar.ParseCube(tokens, old(pos), stof)
    {
      var size := Uniform(1.0);
      var center := true;
      Expect("(");
      ghost var exit := Grammar.CubeArgs(tokens, pos, Grammar.CubeParams(size, center), stof);
      var t := Peek();
      while t != ")" && t != ""
        invariant Valid() && t == Grammar.Peek(tokens, pos)
        invariant Grammar.CubeArgs(tokens, pos, Grammar.CubeParams(size, center), stof) == exit
        decreases |tokens| - pos
      {
        var next := CubeParam(size, center);
        if next.None? {
          return Grammar.Threw;
        }
        size, center := next.value.size, next.value.center;
        t := Peek();
      }
      Expect(")");
      var p := Peek();
      if p == ";" { p := Consume(); }
      r := Grammar.Returned(Some(Grammar.CubeNode(size, center)));
    }

    /** One pass of parse_cube's parameter loop; None when std::stof throws. */
    method CubeParam(size: Vec3, center: bool) returns (next: Option<Grammar.CubeParams>)
      requires Valid() && pos < |tokens|
      modifies this
      ensures Valid()
      ensures Grammar.Scan(next, pos) == Grammar.CubeArg(tokens, old(pos), Grammar.CubeParams(size, center), stof)
    {
      var size', center' := size, center;
      var param := Consume();
      var t;
      if param == "size" {
        t := Peek();
        if t == "=" { t := Consume(); }
        assert pos == Grammar.Skip(tokens, old(pos) + 1, "=");
        t := Peek();
        if t == "[" {
          t := Consume();
          var v := ReadTriple();
          if v.None? { return None; }
          Expect("]");
          size' := v.value;
        } else {
          t := Consume();
          var s := stof(t);
          if s.None? { return None; }
          size' := Uniform(s.value);
        }
      } else if param == "center" {
        t := Peek();
        if t == "=" { t := Consume(); }
        var val := Consume();
        if val == "false" { center' := false; }
      }
      ghost var mid := pos;
      t := Peek();
      if t == "," { t := Consume(); }
      assert pos == Grammar.Skip(tokens, mid, ",");
      next := Some(Grammar.CubeParams(size', center'));
    }

    /** `if (peek() == "=") consume(); x = std::stof(consume());` for one cylinder parameter. */
    method ReadAssigned() returns (v: Option<real>)
      requires Valid()
      modifies this
      ensures Valid()
      ensures Grammar.Scan(v, pos) == Grammar.ReadNumber(tokens, Grammar.Skip(tokens, old(pos), "="), stof)
    {
      Expect("=");
      var t := Consume();
      v := stof(t);
    }

    /** parse_cylinder: r2 is read but never used. */
    method ParseCylinder() returns (r: Grammar.Outcome)
      requires Valid()
      modifies this
      ensures Valid()
      ensures Grammar.Parsed(r, pos) == Grammar.ParseCylinder(tokens, old(pos), stof)
    {
      var h, r1, r2 := 1.0, 1.0, 1.0;
      var center := true;
      Expect("(");
      ghost var exit := Grammar.CylinderArgs(tokens, pos, Grammar.CylinderParams(h, r1, r2, center), stof);
      var t := Peek();
      while t != ")" && t != ""
        invariant Valid() && t == Grammar.Peek(tokens, pos)
        invariant Grammar.CylinderArgs(tokens, pos, Grammar.CylinderParams(h, r1, r2, center), stof) == exit
        decreases |tokens| - pos
      {
        var next := CylinderParam(h, r1, r2, center);
        if next.None? {
          return Grammar.Threw;
        }
        h, r1, r2, center := next.value.h, next.value.r1, next.value.r2, next.value.center;
        t := Peek();
      }
      Expect(")");
      var p := Peek();
      if p == ";" { p := Consume(); }
      r := Grammar.Returned(Some(Grammar.CylinderNode(h, r1, center)));
    }

    /** One pass of parse_cylinder's parameter loop: its two if-chains; None when std::stof throws. */
    method CylinderParam(h: real, r1: real, r2: real, center: bool) returns (next: Option<Grammar.CylinderParams>)
      requires Valid() && pos < |tokens|
      modifies this
      ensures Valid()
      ensures Grammar.Scan(next, pos) == Grammar.CylinderArg(tokens, old(pos), Grammar.CylinderParams(h, r1, r2, center), stof)
    {
      var h', r1', r2', center' := h, r1, r2, center;
      var param := Consume();
      if param == "h" || param == "height" {
        var v := ReadAssigned();
        if v.None? { return None; }
        h' := v.value;
      } else if param == "r1" || param == "radius" {
        var v := ReadAssigned();
        if v.None? { return None; }
        r1' := v.value;
      }
      var t;
      if param == "r2" {
        var v := ReadAssigned();
        if v.None? { return None; }
        r2' := v.value;
      } else if param == "center" {
        t := Peek();
        if t == "=" { t := Consume(); }
        var val := Consume();
        if val == "false" { center' := false; }
      }
      t := Peek();
      if t == "," { t := Consume(); }
      next := Some(Grammar.CylinderParams(h', r1', r2', center'));
    }

    /** One cell of a row: `stof(consume())` stored at 4 * row + col, 0 when it does not convert. */
    method ReadCell(temp: array<real>, row: nat, col: nat, ghost line: seq<real>)
      requires Valid() && row < 4 && col < 4 && temp.Length == 16 && |line| == 4
      requires Grammar.RowCells(tokens, pos, col, stof).value == line[col..]
      modifies this, temp
      ensures Valid()
      ensures temp[..] == old(temp[..])[4 * row + col := line[col]]
      ensures Grammar.RowCells(tokens, pos, col + 1, stof).value == line[col + 1..]
      ensures Grammar.RowCells(tokens, pos, col + 1, stof).pos == Grammar.RowCells(tokens, old(pos), col, stof).pos
    {
      ghost var cells := Grammar.RowCells(tokens, pos, col, stof);
      var valStr := Consume();
      var v := stof(valStr);
      var cell := Grammar.CellOrZero(v);
      if col < 3 { Expect(","); }
      assert cell == cells.value[0] == line[col];
      assert cells.value[1..] == line[col + 1..];
      temp[4 * row + col] := cell;
    }

    /** The column loop of parse_matrix_data: four cells stored from temp[4 * row] on. */
    method ReadCells(temp: array<real>, row: nat)
      requires Valid() && row < 4 && temp.Length == 16
      modifies this, temp
      ensures Valid()
      ensures forall k :: 0 <= k < 4 * row ==> temp[k] == old(temp[k])
      ensures forall j :: 0 <= j < 4 ==> temp[4 * row + j] == Grammar.RowCells(tokens, old(pos), 0, stof).value[j]
      ensures pos == Grammar.RowCells(tokens, old(pos), 0, stof).pos
    {
      ghost var line := Grammar.RowCells(tokens, pos, 0, stof);
      ghost var init := temp[..];
      for col := 0 to 4
        invariant Valid()
        invariant temp[..4 * row] == init[..4 * row]
        invariant temp[4 * row..4 * row + col] == line.value[..col]
        invariant Grammar.RowCells(tokens, pos, col, stof).value == line.value[col..]
        invariant Grammar.RowCells(tokens, pos, col, stof).pos == line.pos
      {
        ghost var before := temp[..];
        ReadCell(temp, row, col, line.value);
        StoreNext(before, temp[..], 4 * row, col, line.value);
      }
      assert temp[4 * row..4 * row + 4] == line.value;
    }

    /** Storing cell col of a line right after its first col cells extends them by one and leaves the slots before a alone. */
    static lemma StoreNext(before: seq<real>, after: seq<real>, a: nat, col: nat, line: seq<real>)
      requires col < |line| && a + col < |before| && after == before[a + col := line[col]]
      requires before[a..a + col] == line[..col]
      ensures after[..a] == before[..a]
      ensures after[a..a + col + 1] == line[..col + 1]
    {
      assert after[a..a + col + 1] == before[a..a + col] + [line[col]];
    }

    /** One row of parse_matrix_data: `[`, four cells stored from temp[4 * row] on, `]` and the comma between rows. */
    method ReadRow(temp: array<real>, row: nat)
      requires Valid() && row < 4 && temp.Length == 16
      modifies this, temp
      ensures Valid()
      ensures forall k :: 0 <= k < 4 * row ==> temp[k] == old(temp[k])
      ensures forall j :: 0 <= j < 4 ==> temp[4 * row + j] == Grammar.Row(tokens, old(pos), row, stof).value[j]
      ensures pos == Grammar.Row(tokens, old(pos), row, stof).pos
    {
      Expect("[");
      ReadCells(temp, row);
      Expect("]");
      if row < 3 { Expect(","); }
    }

    /** If s from i on is b followed by c, then b sits at i and c right after it. */
    static lemma SliceHead<T>(s: seq<T>, i: nat, b: seq<T>, c: seq<T>)
      requires i <= |s| && s[i..] == b + c
      ensures i + |b| <= |s| && s[i + |b|..] == c
      ensures forall j :: 0 <= j < |b| ==> s[i + j] == b[j]
    {
      assert s[i + |b|..] == s[i..][|b|..];
      forall j | 0 <= j < |b|
        ensures s[i + j] == b[j]
      {
        assert s[i..][j] == (b + c)[j];
      }
    }

    /** One pass of the row loop: row `row` lands in its four slots of the buffer. */
    method RowStep(temp: array<real>, row: nat, ghost all: seq<real>)
      requires Valid() && row < 4 && temp.Length == 16 && |all| == 16
      requires forall k :: 0 <= k < 4 * row ==> temp[k] == all[k]
      requires Grammar.Rows(tokens, pos, row, stof).value == all[4 * row..]
      modifies this, temp
      ensures Valid()
      ensures forall k :: 0 <= k < 4 * (row + 1) ==> temp[k] == all[k]
      ensures Grammar.Rows(tokens, pos, row + 1, stof).value == all[4 * (row + 1)..]
      ensures Grammar.Rows(tokens, pos, row + 1, stof).pos == Grammar.Rows(tokens, old(pos), row, stof).pos
    {
      ghost var line := Grammar.Row(tokens, pos, row, stof);
      ghost var start := pos;
      ghost var rest := Grammar.Rows(tokens, line.pos, row + 1, stof);
      Grammar.RowsStep(tokens, pos, row, stof, line, rest);
      SliceHead(all, 4 * row, line.value, rest.value);
      ReadRow(temp, row);
      Grammar.RowsAfter(tokens, start, pos, row, stof, all);
      forall k | 4 * row <= k < 4 * row + 4
        ensures temp[k] == all[k]
      {
        var j := k - 4 * row;
        assert temp[4 * row + j] == line.value[j] == all[4 * row + j];
      }
    }

    /** The four rows of a matrix literal, read into the sixteen-cell buffer in row-major order. */
    method ReadRows(temp: array<real>)
      requires Valid() && temp.Length == 16
      modifies this, temp
      ensures Valid()
      ensures temp[..] == Grammar.Rows(tokens, old(pos), 0, stof).value
      ensures pos == Grammar.Rows(tokens, old(pos), 0, stof).pos
    {
      ghost var all := Grammar.Rows(tokens, pos, 0, stof);
      for row := 0 to 4
        invariant Valid()
        invariant forall k :: 0 <= k < 4 * row ==> temp[k] == all.value[k]
        invariant Grammar.Rows(tokens, pos, row, stof).value == all.value[4 * row..]
        invariant Grammar.Rows(tokens, pos, row, stof).pos == all.pos
      {
        RowStep(temp, row, all.value);
      }
      assert temp[..] == all.value;
    }

    /**
      parse_matrix_data: sixteen cells read row by row into a buffer, a cell that
      does not convert stored as 0 in its own slot.
    */
    method ParseMatrixData() returns (m: Transform)
      requires Valid()
      modifies this
      ensures Valid()
      ensures Grammar.Scan(m, pos) == Grammar.ParseMatrixData(tokens, old(pos), stof)
    {
      Expect("[");
      var temp := new real[16];
      ReadRows(temp);
      Expect("]");
      m := Grammar.MatrixOf(temp[..]);
    }
  }
}
