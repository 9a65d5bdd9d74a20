/**
  What parse_sphere, parse_cube, parse_cylinder and parse_matrix_data build
  from the tokens in front of them, for any tokens and any stof: the leaf
  transforms with their defaults, a conversion that is caught or escapes, and
  the row-major read of a matrix literal. Each lemma starts at the `(` (or the
  outer `[`) that follows the keyword.
*/
module ShapeFacts {
  import opened Wrappers
  import opened Geometry
  import opened CsgTree
  import opened Grammar

  // ---------------------------------------------------------------------------
  // parse_sphere

  /** `();`: the default radius 1. */
  lemma SphereDefault(ts: Tokens, pos: nat, stof: Stof)
    requires pos + 3 <= |ts| && ts[pos] == "(" && ts[pos + 1] == ")" && ts[pos + 2] == ";"
    ensures ParseSphere(ts, pos, stof) == Parsed(Returned(Some(SphereNode(1.0))), pos + 3)
  {
    assert SphereArgs(ts, pos + 1, 1.0, stof) == Scan(1.0, pos + 1);
  }

  /** `(r = t);`: the radius t converts to, or the default 1 when the conversion throws and is caught. */
  lemma SphereRadius(ts: Tokens, pos: nat, stof: Stof)
    requires pos + 6 <= |ts| && ts[pos] == "(" && ts[pos + 1] == "r" && ts[pos + 2] == "="
    requires ts[pos + 4] == ")" && ts[pos + 5] == ";"
    ensures stof(ts[pos + 3]).Some? ==>
      ParseSphere(ts, pos, stof) == Parsed(Returned(Some(SphereNode(stof(ts[pos + 3]).value))), pos + 6)
    ensures stof(ts[pos + 3]).None? ==> ParseSphere(ts, pos, stof) == Parsed(Returned(Some(SphereNode(1.0))), pos + 6)
  {
    var n := stof(ts[pos + 3]);
    var radius := if n.Some? then n.value else 1.0;
    assert ReadNumber(ts, pos + 3, stof) == Scan(n, pos + 4);
    assert SphereArg(ts, pos + 1, 1.0, stof) == Scan(radius, pos + 4);
    assert SphereArgs(ts, pos + 4, radius, stof) == Scan(radius, pos + 4);
    assert SphereArgs(ts, pos + 1, 1.0, stof) == Scan(radius, pos + 4);
  }

  // ---------------------------------------------------------------------------
  // parse_cube

  /** `();`: the unit cube, centred. */
  lemma CubeDefault(ts: Tokens, pos: nat, stof: Stof)
    requires pos + 3 <= |ts| && ts[pos] == "(" && ts[pos + 1] == ")" && ts[pos + 2] == ";"
    ensures ParseCube(ts, pos, stof) == Parsed(Returned(Some(CubeNode(Uniform(1.0), true))), pos + 3)
  {
  }

  /** `(size = t);`: a scalar size n scales all three axes by n; a throw escapes. */
  lemma CubeScalar(ts: Tokens, pos: nat, stof: Stof)
    requires pos + 6 <= |ts| && ts[pos] == "(" && ts[pos + 1] == "size" && ts[pos + 2] == "="
    requires ts[pos + 3] != "[" && ts[pos + 4] == ")" && ts[pos + 5] == ";"
    ensures stof(ts[pos + 3]).Some? ==>
      ParseCube(ts, pos, stof) == Parsed(Returned(Some(CubeNode(Uniform(stof(ts[pos + 3]).value), true))), pos + 6)
    ensures stof(ts[pos + 3]).None? ==> ParseCube(ts, pos, stof).out == Threw
  {
    var c0 := CubeParams(Uniform(1.0), true);
    var n := stof(ts[pos + 3]);
    assert ReadNumber(ts, pos + 3, stof) == Scan(n, pos + 4);
    if n.Some? {
      var c1 := c0.(size := Uniform(n.value));
      assert CubeArg(ts, pos + 1, c0, stof) == Scan(Some(c1), pos + 4);
      assert CubeArgs(ts, pos + 4, c1, stof) == Scan(Some(c1), pos + 4);
    } else {
      assert CubeArg(ts, pos + 1, c0, stof).value == None;
    }
  }

  /** The tokens `(size = [a, b, c], center = t);`, one by one. */
  ghost predicate CubeVectorAt(ts: Tokens, pos: nat) {
    && pos + 16 <= |ts|
    && ts[pos] == "(" && ts[pos + 1] == "size" && ts[pos + 2] == "=" && ts[pos + 3] == "["
    && ts[pos + 5] == "," && ts[pos + 7] == "," && ts[pos + 9] == "]" && ts[pos + 10] == ","
    && ts[pos + 11] == "center" && ts[pos + 12] == "=" && ts[pos + 14] == ")" && ts[pos + 15] == ";"
  }

  /** The three numbers of `[a, b, c]` at pos, or None when one of them throws. */
  function VectorAt(ts: Tokens, pos: nat, stof: Stof): Option<Vec3>
    requires pos + 5 <= |ts|
  {
    var x, y, z := stof(ts[pos]), stof(ts[pos + 2]), stof(ts[pos + 4]);
    if x.Some? && y.Some? && z.Some? then Some(Vec3(x.value, y.value, z.value)) else None
  }

  /** `x, y, z` reads as VectorAt and stops after z. */
  lemma TripleRead(ts: Tokens, pos: nat, stof: Stof)
    requires pos + 5 <= |ts| && ts[pos + 1] == "," && ts[pos + 3] == ","
    ensures ReadTriple(ts, pos, stof).value == VectorAt(ts, pos, stof)
    ensures VectorAt(ts, pos, stof).Some? ==> ReadTriple(ts, pos, stof).pos == pos + 5
  {
    assert ReadNumber(ts, pos, stof) == Scan(stof(ts[pos]), pos + 1);
    assert ReadNumber(ts, pos + 2, stof) == Scan(stof(ts[pos + 2]), pos + 3);
    assert ReadNumber(ts, pos + 4, stof) == Scan(stof(ts[pos + 4]), pos + 5);
  }

  /** The `size = [a, b, c],` argument of a cube: the size is set, or the conversion throws. */
  lemma CubeVectorArg(ts: Tokens, pos: nat, c: CubeParams, stof: Stof)
    requires CubeVectorAt(ts, pos)
    ensures CubeArg(ts, pos + 1, c, stof).value
         == if VectorAt(ts, pos + 4, stof).Some? then Some(c.(size := VectorAt(ts, pos + 4, stof).value)) else None
    ensures VectorAt(ts, pos + 4, stof).Some? ==> CubeArg(ts, pos + 1, c, stof).pos == pos + 11
  {
    TripleRead(ts, pos + 4, stof);
  }

  /** The `center = t` argument of a cube, before the closing `)`: false exactly on the token `false`. */
  lemma CubeCenterArgs(ts: Tokens, pos: nat, c: CubeParams, stof: Stof)
    requires CubeVectorAt(ts, pos) && c.center
    ensures CubeArgs(ts, pos + 11, c, stof) == Scan(Some(c.(center := ts[pos + 13] != "false")), pos + 14)
  {
    var c1 := c.(center := ts[pos + 13] != "false");
    assert CubeArg(ts, pos + 11, c, stof) == Scan(Some(c1), pos + 14);
    assert CubeArgs(ts, pos + 14, c1, stof) == Scan(Some(c1), pos + 14);
  }

  /** One turn of the cube's argument loop: an argument that is read and set hands the loop on to the next one. */
  lemma CubeArgsStep(ts: Tokens, p: nat, c: CubeParams, c': CubeParams, q: nat, stof: Stof)
    requires p < |ts| && MoreArgs(ts, p) && CubeArg(ts, p, c, stof) == Scan(Some(c'), q)
    ensures CubeArgs(ts, p, c, stof) == CubeArgs(ts, q, c', stof)
  {
  }

  /** The argument loop of `(size = [a, b, c], center = t)` whose three numbers convert: size and center are set. */
  lemma CubeVectorArgs(ts: Tokens, pos: nat, stof: Stof)
    requires CubeVectorAt(ts, pos) && VectorAt(ts, pos + 4, stof).Some?
    ensures CubeArgs(ts, pos + 1, CubeParams(Uniform(1.0), true), stof)
         == Scan(Some(CubeParams(VectorAt(ts, pos + 4, stof).value, ts[pos + 13] != "false")), pos + 14)
  {
    var c0 := CubeParams(Uniform(1.0), true);
    var c1 := c0.(size := VectorAt(ts, pos + 4, stof).value);
    CubeVectorArg(ts, pos, c0, stof);
    CubeArgsStep(ts, pos + 1, c0, c1, pos + 11, stof);
    CubeCenterArgs(ts, pos, c1, stof);
  }

  /** The argument loop of `(size = [a, b, c], ...` one of whose numbers throws: the exception escapes. */
  lemma CubeVectorThrow(ts: Tokens, pos: nat, stof: Stof)
    requires CubeVectorAt(ts, pos) && VectorAt(ts, pos + 4, stof).None?
    ensures CubeArgs(ts, pos + 1, CubeParams(Uniform(1.0), true), stof).value.None?
  {
    CubeVectorArg(ts, pos, CubeParams(Uniform(1.0), true), stof);
  }

  /**
    `(size = [a, b, c], center = t);`: C × scale(a, b, c), times translate(0.5)
    exactly when t is the token `false`; a conversion that throws escapes.
  */
  lemma CubeVector(ts: Tokens, pos: nat, stof: Stof)
    requires CubeVectorAt(ts, pos)
    ensures VectorAt(ts, pos + 4, stof).Some? ==>
      ParseCube(ts, pos, stof)
      == Parsed(Returned(Some(CubeNode(VectorAt(ts, pos + 4, stof).value, ts[pos + 13] != "false"))), pos + 16)
    ensures VectorAt(ts, pos + 4, stof).None? ==> ParseCube(ts, pos, stof).out == Threw
  {
    assert Skip(ts, pos, "(") == pos + 1;
    if VectorAt(ts, pos + 4, stof).Some? {
      CubeVectorArgs(ts, pos, stof);
      assert Skip(ts, Skip(ts, pos + 14, ")"), ";") == pos + 16;
    } else {
      CubeVectorThrow(ts, pos, stof);
    }
  }

  // ---------------------------------------------------------------------------
  // parse_cylinder

  /** `();`: height 1 and radius 1, centred. */
  lemma CylinderDefault(ts: Tokens, pos: nat, stof: Stof)
    requires pos + 3 <= |ts| && ts[pos] == "(" && ts[pos + 1] == ")" && ts[pos + 2] == ";"
    ensures ParseCylinder(ts, pos, stof) == Parsed(Returned(Some(CylinderNode(1.0, 1.0, true))), pos + 3)
  {
  }

  /**
    The tokens `(h = a, r1 = b, r2 = c, center = t);`, one by one; `height`
    may stand for `h` and `radius` for `r1`.
  */
  ghost predicate CylinderFullAt(ts: Tokens, pos: nat) {
    && pos + 18 <= |ts|
    && ts[pos] == "(" && (ts[pos + 1] == "h" || ts[pos + 1] == "height") && ts[pos + 2] == "=" && ts[pos + 4] == ","
    && (ts[pos + 5] == "r1" || ts[pos + 5] == "radius") && ts[pos + 6] == "=" && ts[pos + 8] == ","
    && ts[pos + 9] == "r2" && ts[pos + 10] == "=" && ts[pos + 12] == ","
    && ts[pos + 13] == "center" && ts[pos + 14] == "=" && ts[pos + 16] == ")" && ts[pos + 17] == ";"
  }

  /** The height, r1 and r2 of a full cylinder call, or None when one of them throws. */
  function CylinderNumbers(ts: Tokens, pos: nat, stof: Stof): Option<Vec3>
    requires pos + 12 <= |ts|
  {
    var h, r1, r2 := stof(ts[pos + 3]), stof(ts[pos + 7]), stof(ts[pos + 11]);
    if h.Some? && r1.Some? && r2.Some? then Some(Vec3(h.value, r1.value, r2.value)) else None
  }

  /** The `h = a,` argument: the height is set, or the conversion throws. */
  lemma CylinderHeightArg(ts: Tokens, pos: nat, c: CylinderParams, stof: Stof)
    requires CylinderFullAt(ts, pos)
    ensures CylinderArg(ts, pos + 1, c, stof)
         == if stof(ts[pos + 3]).Some? then Scan(Some(c.(h := stof(ts[pos + 3]).value)), pos + 5)
            else Scan(None, pos + 4)
  {
    assert ReadNumber(ts, pos + 3, stof) == Scan(stof(ts[pos + 3]), pos + 4);
  }

  /** The `r1 = b,` argument: the first radius is set, or the conversion throws. */
  lemma CylinderRadiusArg(ts: Tokens, pos: nat, c: CylinderParams, stof: Stof)
    requires CylinderFullAt(ts, pos)
    ensures CylinderArg(ts, pos + 5, c, stof)
         == if stof(ts[pos + 7]).Some? then Scan(Some(c.(r1 := stof(ts[pos + 7]).value)), pos + 9)
            else Scan(None, pos + 8)
  {
    assert ReadNumber(ts, pos + 7, stof) == Scan(stof(ts[pos + 7]), pos + 8);
  }

  /** The `r2 = c,` argument: read, and stored, but unused by the leaf; its conversion may throw. */
  lemma CylinderRadius2Arg(ts: Tokens, pos: nat, c: CylinderParams, stof: Stof)
    requires CylinderFullAt(ts, pos)
    ensures CylinderArg(ts, pos + 9, c, stof)
         == if stof(ts[pos + 11]).Some? then Scan(Some(c.(r2 := stof(ts[pos + 11]).value)), pos + 13)
            else Scan(None, pos + 12)
  {
    assert ReadNumber(ts, pos + 11, stof) == Scan(stof(ts[pos + 11]), pos + 12);
  }

  /** The `center = t` argument, before the closing `)`: false exactly on the token `false`. */
  lemma CylinderCenterArgs(ts: Tokens, pos: nat, c: CylinderParams, stof: Stof)
    requires CylinderFullAt(ts, pos) && c.center
    ensures CylinderArgs(ts, pos + 13, c, stof) == Scan(Some(c.(center := ts[pos + 15] != "false")), pos + 16)
  {
    var c1 := c.(center := ts[pos + 15] != "false");
    assert CylinderArg(ts, pos + 13, c, stof) == Scan(Some(c1), pos + 16);
    assert CylinderArgs(ts, pos + 16, c1, stof) == Scan(Some(c1), pos + 16);
  }

  /** One turn of the cylinder's argument loop: an argument that is read and set hands the loop on to the next one. */
  lemma CylinderArgsStep(ts: Tokens, p: nat, c: CylinderParams, c': CylinderParams, q: nat, stof: Stof)
    requires p < |ts| && MoreArgs(ts, p) && CylinderArg(ts, p, c, stof) == Scan(Some(c'), q)
    ensures CylinderArgs(ts, p, c, stof) == CylinderArgs(ts, q, c', stof)
  {
  }

  /** The argument loop of a full cylinder call whose three numbers convert: all four parameters are set. */
  lemma CylinderFullArgs(ts: Tokens, pos: nat, stof: Stof)
    requires CylinderFullAt(ts, pos) && CylinderNumbers(ts, pos, stof).Some?
    ensures CylinderArgs(ts, pos + 1, CylinderParams(1.0, 1.0, 1.0, true), stof)
         == Scan(Some(CylinderParams(stof(ts[pos + 3]).value, stof(ts[pos + 7]).value, stof(ts[pos + 11]).value,
                                     ts[pos + 15] != "false")), pos + 16)
  {
    var c0 := CylinderParams(1.0, 1.0, 1.0, true);
    var c1 := c0.(h := stof(ts[pos + 3]).value);
    var c2 := c1.(r1 := stof(ts[pos + 7]).value);
    var c3 := c2.(r2 := stof(ts[pos + 11]).value);
    CylinderHeightArg(ts, pos, c0, stof);
    CylinderArgsStep(ts, pos + 1, c0, c1, pos + 5, stof);
    CylinderRadiusArg(ts, pos, c1, stof);
    CylinderArgsStep(ts, pos + 5, c1, c2, pos + 9, stof);
    CylinderRadius2Arg(ts, pos, c2, stof);
    CylinderArgsStep(ts, pos + 9, c2, c3, pos + 13, stof);
    CylinderCenterArgs(ts, pos, c3, stof);
  }

  /** The argument loop of a full cylinder call one of whose numbers throws: the exception escapes. */
  lemma CylinderArgsThrow(ts: Tokens, pos: nat, stof: Stof)
    requires CylinderFullAt(ts, pos) && CylinderNumbers(ts, pos, stof).None?
    ensures CylinderArgs(ts, pos + 1, CylinderParams(1.0, 1.0, 1.0, true), stof).value.None?
  {
    var c0 := CylinderParams(1.0, 1.0, 1.0, true);
    CylinderHeightArg(ts, pos, c0, stof);
    if stof(ts[pos + 3]).Some? {
      var c1 := c0.(h := stof(ts[pos + 3]).value);
      CylinderArgsStep(ts, pos + 1, c0, c1, pos + 5, stof);
      CylinderRadiusArg(ts, pos, c1, stof);
      if stof(ts[pos + 7]).Some? {
        var c2 := c1.(r1 := stof(ts[pos + 7]).value);
        CylinderArgsStep(ts, pos + 5, c1, c2, pos + 9, stof);
        CylinderRadius2Arg(ts, pos, c2, stof);
        assert CylinderArgs(ts, pos + 9, c2, stof).value.None?;
      }
    }
  }

  /**
    `(h = a, r1 = b, r2 = c, center = t);`: scale(b, a, b), times
    translate(0, 0.5, 0) exactly when t is the token `false`. c is read, so its
    conversion can throw, but it does not reach the leaf.
  */
  lemma CylinderFull(ts: Tokens, pos: nat, stof: Stof)
    requires CylinderFullAt(ts, pos)
    ensures CylinderNumbers(ts, pos, stof).Some? ==>
      ParseCylinder(ts, pos, stof)
      == Parsed(Returned(Some(CylinderNode(stof(ts[pos + 3]).value, stof(ts[pos + 7]).value, ts[pos + 15] != "false"))),
                pos + 18)
    ensures CylinderNumbers(ts, pos, stof).None? ==> ParseCylinder(ts, pos, stof).out == Threw
  {
    assert Skip(ts, pos, "(") == pos + 1;
    if CylinderNumbers(ts, pos, stof).Some? {
      CylinderFullArgs(ts, pos, stof);
      assert Skip(ts, Skip(ts, pos + 16, ")"), ";") == pos + 18;
    } else {
      CylinderArgsThrow(ts, pos, stof);
    }
  }

  // ---------------------------------------------------------------------------
  // parse_matrix_data

  /** The tokens of one row `[a, b, c, d]` at pos, whatever its four cells are. */
  ghost predicate RowShape(ts: Tokens, pos: nat) {
    && pos + 9 <= |ts|
    && ts[pos] == "[" && ts[pos + 2] == "," && ts[pos + 4] == "," && ts[pos + 6] == "," && ts[pos + 8] == "]"
  }

  /** The four values a row stores: each cell's conversion, or 0 where it throws. */
  function RowValues(ts: Tokens, pos: nat, stof: Stof): (v: seq<real>)
    requires pos + 9 <= |ts|
    ensures |v| == 4
  {
    [CellOrZero(stof(ts[pos + 1])), CellOrZero(stof(ts[pos + 3])),
     CellOrZero(stof(ts[pos + 5])), CellOrZero(stof(ts[pos + 7]))]
  }

  /** The tokens of a matrix literal `[[...], [...], [...], [...]]` at pos: four rows, ten tokens apart. */
  ghost predicate MatrixShape(ts: Tokens, pos: nat) {
    && pos + 41 <= |ts| && ts[pos] == "[" && ts[pos + 40] == "]"
    && RowShape(ts, pos + 1) && ts[pos + 10] == ","
    && RowShape(ts, pos + 11) && ts[pos + 20] == ","
    && RowShape(ts, pos + 21) && ts[pos + 30] == ","
    && RowShape(ts, pos + 31)
  }

  /** The sixteen values a matrix literal stores, row by row. */
  function MatrixValues(ts: Tokens, pos: nat, stof: Stof): (v: seq<real>)
    requires pos + 41 <= |ts|
    ensures |v| == 16
  {
    RowValues(ts, pos + 1, stof) + (RowValues(ts, pos + 11, stof) + (RowValues(ts, pos + 21, stof) + RowValues(ts, pos + 31, stof)))
  }

  /** Cell c of a row at p sits at p + 1 + 2c. */
  lemma RowValuesAt(ts: Tokens, p: nat, stof: Stof, c: nat)
    requires p + 9 <= |ts| && c < 4
    ensures RowValues(ts, p, stof)[c] == CellOrZero(stof(ts[p + 1 + 2 * c]))
  {
  }

  /** Cell c of row r of the literal sits at pos + 2 + 10r + 2c and lands in slot 4r + c. */
  lemma MatrixValuesRowMajor(ts: Tokens, pos: nat, stof: Stof, r: nat, c: nat)
    requires pos + 41 <= |ts| && r < 4 && c < 4
    ensures MatrixValues(ts, pos, stof)[4 * r + c] == CellOrZero(stof(ts[pos + 2 + 10 * r + 2 * c]))
  {
    var v0, v1 := RowValues(ts, pos + 1, stof), RowValues(ts, pos + 11, stof);
    var v2, v3 := RowValues(ts, pos + 21, stof), RowValues(ts, pos + 31, stof);
    var v := MatrixValues(ts, pos, stof);
    RowValuesAt(ts, pos + 1 + 10 * r, stof, c);
    if r == 0 {
      assert v[c] == v0[c];
    } else if r == 1 {
      assert v[4 + c] == v1[c];
    } else if r == 2 {
      assert v[8 + c] == v2[c];
    } else {
      assert v[12 + c] == v3[c];
    }
  }

  /** One cell, then the comma before the next: its conversion or 0 goes first. */
  lemma CellRead(ts: Tokens, pos: nat, col: nat, rest: seq<real>, end: nat, stof: Stof)
    requires col < 4 && pos < |ts|
    requires col < 3 ==> pos + 2 <= |ts| && ts[pos + 1] == ","
    requires RowCells(ts, pos + if col < 3 then 2 else 1, col + 1, stof) == Scan(rest, end)
    ensures RowCells(ts, pos, col, stof) == Scan([CellOrZero(stof(ts[pos]))] + rest, end)
  {
    assert ReadNumber(ts, pos, stof) == Scan(stof(ts[pos]), pos + 1);
  }

  /** The cells of a row, between its brackets, read as RowValues. */
  lemma RowCellsRead(ts: Tokens, pos: nat, stof: Stof)
    requires RowShape(ts, pos)
    ensures RowCells(ts, pos + 1, 0, stof) == Scan(RowValues(ts, pos, stof), pos + 8)
  {
    var x0, x1 := CellOrZero(stof(ts[pos + 1])), CellOrZero(stof(ts[pos + 3]));
    var x2, x3 := CellOrZero(stof(ts[pos + 5])), CellOrZero(stof(ts[pos + 7]));
    var s3 := [x3] + [];
    var s2 := [x2] + s3;
    var s1 := [x1] + s2;
    CellRead(ts, pos + 7, 3, [], pos + 8, stof);
    CellRead(ts, pos + 5, 2, s3, pos + 8, stof);
    CellRead(ts, pos + 3, 1, s2, pos + 8, stof);
    CellRead(ts, pos + 1, 0, s1, pos + 8, stof);
    assert [x0] + s1 == RowValues(ts, pos, stof);
  }

  /** A row, and the comma after it when it is not the last, reads as RowValues. */
  lemma RowRead(ts: Tokens, pos: nat, row: nat, stof: Stof)
    requires row < 4 && RowShape(ts, pos)
    requires row < 3 ==> pos + 10 <= |ts| && ts[pos + 9] == ","
    ensures Row(ts, pos, row, stof) == Scan(RowValues(ts, pos, stof), pos + if row < 3 then 10 else 9)
  {
    RowCellsRead(ts, pos, stof);
  }

  /** The last row of a literal reads as its values. */
  lemma LastRow(ts: Tokens, p: nat, stof: Stof)
    requires RowShape(ts, p)
    ensures Rows(ts, p, 3, stof) == Scan(RowValues(ts, p, stof), p + 9)
  {
    var r := Row(ts, p, 3, stof);
    RowRead(ts, p, 3, stof);
    RowsStep(ts, p, 3, stof, r, Scan([], p + 9));
    assert r.value + [] == r.value;
  }

  /** A row, followed by later rows that read as rest, starts rows that read as its values and then rest. */
  lemma RowThenRows(ts: Tokens, p: nat, row: nat, rest: seq<real>, end: nat, stof: Stof)
    requires row < 3 && RowShape(ts, p) && p + 10 <= |ts| && ts[p + 9] == ","
    requires Rows(ts, p + 10, row + 1, stof) == Scan(rest, end)
    ensures Rows(ts, p, row, stof) == Scan(RowValues(ts, p, stof) + rest, end)
  {
    RowRead(ts, p, row, stof);
    RowsStep(ts, p, row, stof, Row(ts, p, row, stof), Scan(rest, end));
  }

  /** The four rows of a literal, from the `[` of its first row to the `]` of its last. */
  lemma RowsRead(ts: Tokens, pos: nat, stof: Stof)
    requires MatrixShape(ts, pos)
    ensures Rows(ts, pos + 1, 0, stof) == Scan(MatrixValues(ts, pos, stof), pos + 40)
  {
    var v1, v2, v3 := RowValues(ts, pos + 11, stof), RowValues(ts, pos + 21, stof), RowValues(ts, pos + 31, stof);
    LastRow(ts, pos + 31, stof);
    RowThenRows(ts, pos + 21, 2, v3, pos + 40, stof);
    RowThenRows(ts, pos + 11, 1, v2 + v3, pos + 40, stof);
    RowThenRows(ts, pos + 1, 0, v1 + (v2 + v3), pos + 40, stof);
  }

  /**
    A matrix literal reads row-major into C × transpose(raw) × C⁻¹, each cell
    being its conversion or 0, and exactly its 41 tokens are consumed.
  */
  lemma MatrixRead(ts: Tokens, pos: nat, stof: Stof)
    requires MatrixShape(ts, pos)
    ensures ParseMatrixData(ts, pos, stof) == Scan(MatrixOf(MatrixValues(ts, pos, stof)), pos + 41)
  {
    RowsRead(ts, pos, stof);
  }
}
