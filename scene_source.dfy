/**
  Scene source text: the characters a printed scene is written in, with any
  whitespace between them, read by lexer::tokenize and then by parse.

  The printed tokens are a sequence tokenize can produce (ValidTokens): each is
  a punctuation character or a word, and a word is always followed by
  punctuation. So the lexer gives them back from any text whose non-blank
  characters spell them, and the parser's theorem on Print gives the scene's tree.
*/
module SceneSource {
  import opened Wrappers
  import opened Geometry
  import opened Grammar
  import opened SceneText
  import opened Lexer

  /** `show` writes every real as one run of ordinary characters (like `1.5` or `-2`). */
  ghost predicate Spelled(show: real -> string) {
    forall x :: IsWord(show(x))
  }

  /** A punctuation token, which is never a word. */
  predicate Sep(p: string) {
    IsPunctToken(p) && !IsWord(p)
  }

  /** The sequence is not empty and its last token is punctuation. */
  predicate EndsSep(w: seq<string>) {
    |w| > 0 && Sep(w[|w| - 1])
  }

  /** A punctuation character makes a punctuation token. */
  lemma PunctToken(c: char)
    requires IsPunct(c)
    ensures Sep([c])
  {
    assert [c][0] == c;
  }

  /** A run of lower-case letters and digits is a word. */
  lemma PlainWord(t: string)
    requires |t| > 0 && forall i | 0 <= i < |t| :: 'a' <= t[i] <= 'z' || '0' <= t[i] <= '9'
    ensures IsWord(t)
  {
  }

  /** The punctuation the printer writes. */
  lemma Seps()
    ensures Sep("(") && Sep(")") && Sep("{") && Sep("}") && Sep("[") && Sep("]")
    ensures Sep(",") && Sep(";") && Sep("=")
  {
    PunctToken('(');
    PunctToken(')');
    PunctToken('{');
    PunctToken('}');
    PunctToken('[');
    PunctToken(']');
    PunctToken(',');
    PunctToken(';');
    PunctToken('=');
  }

  /** Two valid token sequences stay valid side by side unless a word would meet a word. */
  lemma ValidJoin(a: seq<string>, b: seq<string>)
    requires ValidTokens(a) && ValidTokens(b)
    requires a != [] && b != [] ==> !(IsWord(a[|a| - 1]) && IsWord(b[0]))
    ensures ValidTokens(a + b)
  {
    var ab := a + b;
    forall i | 0 <= i < |ab| - 1
      ensures !(IsWord(ab[i]) && IsWord(ab[i + 1]))
    {
      if i < |a| - 1 {
        assert ab[i] == a[i] && ab[i + 1] == a[i + 1];
      } else if i == |a| - 1 {
        assert ab[i] == a[|a| - 1] && ab[i + 1] == b[0];
      } else {
        assert ab[i] == b[i - |a|] && ab[i + 1] == b[i - |a| + 1];
      }
    }
  }

  /** After punctuation any valid sequence may follow; the join ends as the second part does. */
  lemma JoinAfterSep(a: seq<string>, b: seq<string>)
    requires ValidTokens(a) && ValidTokens(b) && EndsSep(a)
    ensures ValidTokens(a + b)
    ensures b == [] || EndsSep(b) ==> EndsSep(a + b)
  {
    ValidJoin(a, b);
    if b == [] {
      assert a + b == a;
    } else {
      assert (a + b)[|a + b| - 1] == b[|b| - 1];
    }
  }

  lemma SepValid(p: string)
    requires Sep(p)
    ensures ValidTokens([p]) && EndsSep([p])
  {
  }

  // ---------------------------------------------------------------------------
  // The shapes the printer writes, with their tokens left abstract

  /** `k ( n = x ) ;` */
  lemma SphereShape(k: string, n: string, x: string, lp: string, eq: string, rp: string, semi: string)
    requires IsWord(k) && IsWord(n) && IsWord(x)
    requires Sep(lp) && Sep(eq) && Sep(rp) && Sep(semi)
    ensures ValidTokens([k, lp, n, eq, x, rp, semi]) && EndsSep([k, lp, n, eq, x, rp, semi])
  {
  }

  /** `k ( n1 = [ x , y , z ] , n2 = b ) ;` */
  lemma CubeShape(k: string, n1: string, x: string, y: string, z: string, n2: string, b: string,
                  lp: string, eq: string, lb: string, comma: string, rb: string, rp: string, semi: string)
    requires IsWord(k) && IsWord(n1) && IsWord(x) && IsWord(y) && IsWord(z) && IsWord(n2) && IsWord(b)
    requires Sep(lp) && Sep(eq) && Sep(lb) && Sep(comma) && Sep(rb) && Sep(rp) && Sep(semi)
    ensures ValidTokens([k, lp, n1, eq, lb, x, comma, y, comma, z, rb, comma, n2, eq, b, rp, semi])
    ensures EndsSep([k, lp, n1, eq, lb, x, comma, y, comma, z, rb, comma, n2, eq, b, rp, semi])
  {
  }

  /** `k ( n1 = x , n2 = y , n3 = z , n4 = b ) ;` */
  lemma CylinderShape(k: string, n1: string, x: string, n2: string, y: string, n3: string, z: string,
                      n4: string, b: string, lp: string, eq: string, comma: string, rp: string, semi: string)
    requires IsWord(k) && IsWord(n1) && IsWord(x) && IsWord(n2) && IsWord(y) && IsWord(n3) && IsWord(z)
    requires IsWord(n4) && IsWord(b)
    requires Sep(lp) && Sep(eq) && Sep(comma) && Sep(rp) && Sep(semi)
    ensures ValidTokens([k, lp, n1, eq, x, comma, n2, eq, y, comma, n3, eq, z, comma, n4, eq, b, rp, semi])
    ensures EndsSep([k, lp, n1, eq, x, comma, n2, eq, y, comma, n3, eq, z, comma, n4, eq, b, rp, semi])
  {
  }

  /** `[ a , b , c , d ]` */
  lemma RowShape(a: string, b: string, c: string, d: string, lb: string, comma: string, rb: string)
    requires IsWord(a) && IsWord(b) && IsWord(c) && IsWord(d) && Sep(lb) && Sep(comma) && Sep(rb)
    ensures ValidTokens([lb, a, comma, b, comma, c, comma, d, rb]) && EndsSep([lb, a, comma, b, comma, c, comma, d, rb])
  {
  }

  /** `k ( ) {` */
  lemma OpHeadShape(k: string, lp: string, rp: string, lc: string)
    requires IsWord(k) && Sep(lp) && Sep(rp) && Sep(lc)
    ensures ValidTokens([k, lp, rp, lc]) && EndsSep([k, lp, rp, lc])
  {
  }

  /** `k (` */
  lemma CallShape(k: string, lp: string)
    requires IsWord(k) && Sep(lp)
    ensures ValidTokens([k, lp]) && EndsSep([k, lp])
  {
  }

  /** `) {` */
  lemma CloseShape(rp: string, lc: string)
    requires Sep(rp) && Sep(lc)
    ensures ValidTokens([rp, lc]) && EndsSep([rp, lc])
  {
  }

  /** `k ( [ x , y , z ] ) {` */
  lemma ColorShape(k: string, x: string, y: string, z: string,
                   lp: string, lb: string, comma: string, rb: string, rp: string, lc: string)
    requires IsWord(k) && IsWord(x) && IsWord(y) && IsWord(z)
    requires Sep(lp) && Sep(lb) && Sep(comma) && Sep(rb) && Sep(rp) && Sep(lc)
    ensures ValidTokens([k, lp, lb, x, comma, y, comma, z] + [] + [rb, rp, lc])
    ensures EndsSep([k, lp, lb, x, comma, y, comma, z] + [] + [rb, rp, lc])
  {
  }

  /** `k ( [ x , y , z , a ] ) {` */
  lemma ColorAlphaShape(k: string, x: string, y: string, z: string, a: string,
                        lp: string, lb: string, comma: string, rb: string, rp: string, lc: string)
    requires IsWord(k) && IsWord(x) && IsWord(y) && IsWord(z) && IsWord(a)
    requires Sep(lp) && Sep(lb) && Sep(comma) && Sep(rb) && Sep(rp) && Sep(lc)
    ensures ValidTokens([k, lp, lb, x, comma, y, comma, z] + [comma, a] + [rb, rp, lc])
    ensures EndsSep([k, lp, lb, x, comma, y, comma, z] + [comma, a] + [rb, rp, lc])
  {
  }

  // ---------------------------------------------------------------------------
  // The printed tokens are valid

  lemma {:induction false} RowsValid(cells: Cells, row: nat, show: real -> string)
    requires Spelled(show) && row <= 4
    ensures ValidTokens(RowsText(cells, row, show))
    ensures RowsText(cells, row, show) == [] || EndsSep(RowsText(cells, row, show))
    decreases 4 - row
  {
    if row < 4 {
      Seps();
      var w := RowText(cells, row, show);
      var a, b, c, d := cells[4 * row], cells[4 * row + 1], cells[4 * row + 2], cells[4 * row + 3];
      assert IsWord(show(a)) && IsWord(show(b)) && IsWord(show(c)) && IsWord(show(d));
      RowShape(show(a), show(b), show(c), show(d), "[", ",", "]");
      if row < 3 {
        SepValid(",");
      }
      JoinAfterSep(w, RowSep(row));
      RowsValid(cells, row + 1, show);
      JoinAfterSep(w + RowSep(row), RowsText(cells, row + 1, show));
    }
  }

  lemma MatrixHeadValid(cells: Cells, show: real -> string)
    requires Spelled(show)
    ensures ValidTokens(MatrixHead(cells, show)) && EndsSep(MatrixHead(cells, show))
  {
    Seps();
    PlainWord("multmatrix");
    CallShape("multmatrix", "(");
    SepValid("[");
    SepValid("]");
    RowsValid(cells, 0, show);
    var rows := RowsText(cells, 0, show);
    JoinAfterSep(["["], rows);
    JoinAfterSep(["["] + rows, ["]"]);
    JoinAfterSep(["multmatrix", "("], MatrixText(cells, show));
    CloseShape(")", "{");
    JoinAfterSep(["multmatrix", "("] + MatrixText(cells, show), [")", "{"]);
  }

  lemma ColorHeadValid(rgb: Vec3, alpha: Option<real>, show: real -> string)
    requires Spelled(show)
    ensures ValidTokens(ColorHead(rgb, alpha, show)) && EndsSep(ColorHead(rgb, alpha, show))
  {
    Seps();
    PlainWord("color");
    match alpha
    case None =>
      ColorShape("color", show(rgb.x), show(rgb.y), show(rgb.z), "(", "[", ",", "]", ")", "{");
    case Some(a) =>
      ColorAlphaShape("color", show(rgb.x), show(rgb.y), show(rgb.z), show(a), "(", "[", ",", "]", ")", "{");
  }

  lemma OpHeadValid(op: SetOp)
    ensures ValidTokens(OpHead(op)) && EndsSep(OpHead(op))
  {
    Seps();
    PlainWord(Keyword(op));
    OpHeadShape(Keyword(op), "(", ")", "{");
  }

  /** A block head, its body and the closing brace: valid, ending with the brace. */
  lemma BlockValid(head: seq<string>, body: seq<string>)
    requires ValidTokens(head) && EndsSep(head) && ValidTokens(body) && EndsSep(body)
    ensures ValidTokens(head + body + ["}"]) && EndsSep(head + body + ["}"])
  {
    Seps();
    SepValid("}");
    JoinAfterSep(head, body);
    JoinAfterSep(head + body, ["}"]);
  }

  /** The keywords of the three shape calls. */
  lemma ShapeWords()
    ensures IsWord("sphere") && IsWord("cube") && IsWord("cylinder")
  {
    PlainWord("sphere");
    PlainWord("cube");
    PlainWord("cylinder");
  }

  /** The parameter names the shape calls are written with. */
  lemma NameWords()
    ensures IsWord("r") && IsWord("size") && IsWord("h") && IsWord("r1") && IsWord("r2") && IsWord("center")
  {
    PlainWord("r");
    PlainWord("size");
    PlainWord("h");
    PlainWord("r1");
    PlainWord("r2");
    PlainWord("center");
  }

  /** The two words the printer writes for `center`. */
  lemma BoolWord(b: bool)
    ensures IsWord(BoolText(b))
  {
    PlainWord("true");
    PlainWord("false");
  }

  lemma SphereValid(r: real, show: real -> string)
    requires Spelled(show)
    ensures ValidTokens(Print(SphereCall(r), show)) && EndsSep(Print(SphereCall(r), show))
  {
    Seps();
    ShapeWords();
    NameWords();
    SphereShape("sphere", "r", show(r), "(", "=", ")", ";");
  }

  lemma CubeValid(size: Vec3, center: bool, show: real -> string)
    requires Spelled(show)
    ensures ValidTokens(Print(CubeCall(size, center), show)) && EndsSep(Print(CubeCall(size, center), show))
  {
    Seps();
    ShapeWords();
    NameWords();
    BoolWord(center);
    CubeShape("cube", "size", show(size.x), show(size.y), show(size.z), "center", BoolText(center),
              "(", "=", "[", ",", "]", ")", ";");
  }

  lemma CylinderValid(h: real, r1: real, r2: real, center: bool, show: real -> string)
    requires Spelled(show)
    ensures ValidTokens(Print(CylinderCall(h, r1, r2, center), show))
    ensures EndsSep(Print(CylinderCall(h, r1, r2, center), show))
  {
    Seps();
    ShapeWords();
    NameWords();
    BoolWord(center);
    CylinderShape("cylinder", "h", show(h), "r1", show(r1), "r2", show(r2), "center", BoolText(center),
                  "(", "=", ",", ")", ";");
  }

  /** Every printed scene is a token sequence tokenize can produce, and it ends with punctuation. */
  lemma {:induction false} PrintValid(s: Scene, show: real -> string)
    requires Spelled(show)
    ensures ValidTokens(Print(s, show)) && EndsSep(Print(s, show))
    decreases s
  {
    match s
    case SphereCall(r) => SphereValid(r, show);
    case CubeCall(size, center) => CubeValid(size, center, show);
    case CylinderCall(h, r1, r2, center) => CylinderValid(h, r1, r2, center, show);
    case OpBlock(op, a, b) =>
      PrintValid(a, show);
      PrintValid(b, show);
      OpHeadValid(op);
      JoinAfterSep(OpHead(op), Print(a, show));
      BlockValid(OpHead(op) + Print(a, show), Print(b, show));
    case MatrixBlock(cells, child) =>
      PrintValid(child, show);
      MatrixHeadValid(cells, show);
      BlockValid(MatrixHead(cells, show), Print(child, show));
    case ColorBlock(rgb, alpha, child) =>
      PrintValid(child, show);
      ColorHeadValid(rgb, alpha, show);
      BlockValid(ColorHead(rgb, alpha, show), Print(child, show));
  }

  // ---------------------------------------------------------------------------
  // From characters to the tree

  /** tokenize gives back the printed tokens from their text. */
  lemma LexPrint(s: Scene, show: real -> string)
    requires Spelled(show)
    ensures Lex(Concat(Print(s, show))) == Print(s, show)
  {
    PrintValid(s, show);
    LexRoundTrip(Print(s, show));
  }

  /**
    Any source text whose non-blank characters spell a printed scene, spaced
    however it is, is tokenized to the printed tokens and parsed to the scene's tree.
  */
  lemma ParseSource(text: string, s: Scene, show: real -> string, stof: Stof)
    requires Readable(s, show, stof) && Spelled(show)
    requires Strip(text) == Concat(Print(s, show))
    ensures Lex(text) == Print(s, show)
    ensures Parse(Lex(text), stof) == Returned(Some(Eval(s)))
  {
    LexSound(text);
    PrintValid(s, show);
    ValidUnique(Lex(text), Print(s, show));
    ParsePrint(s, show, stof);
  }

  // ---------------------------------------------------------------------------
  // A writer and a reader that meet the requirements

  /** Writes 0 and 2 as themselves and every other number as `1`. */
  function ShowSmall(x: real): string {
    if x == 0.0 then "0" else if x == 2.0 then "2" else "1"
  }

  /** std::stof on the three tokens ShowSmall writes; it throws on any other. */
  function StofSmall(t: string): Option<real> {
    if t == "0" then Some(0.0) else if t == "1" then Some(1.0) else if t == "2" then Some(2.0) else None
  }

  /** The identity matrix, row by row. */
  function IdentityCells(): Cells {
    seq(16, i => if i % 5 == 0 then 1.0 else 0.0)
  }

  /** A scene using every kind of call and block, with numbers ShowSmall writes faithfully. */
  function SmallScene(): Scene {
    MatrixBlock(IdentityCells(),
      OpBlock(Difference,
        CubeCall(Vec3(2.0, 2.0, 2.0), true),
        ColorBlock(Vec3(1.0, 0.0, 0.0), Some(0.5),
          OpBlock(Union, SphereCall(1.0), CylinderCall(2.0, 1.0, 0.0, false)))))
  }

  /** ShowSmall writes every number as a word. */
  lemma ShowSmallSpelled()
    ensures Spelled(ShowSmall)
  {
    forall x: real ensures IsWord(ShowSmall(x)) {
      PlainWord(ShowSmall(x));
    }
  }

  /** Every number of SmallScene that the parser converts reads back through StofSmall. */
  lemma SmallSceneNumbers()
    ensures Readable(SmallScene(), ShowSmall, StofSmall)
  {
    var cells := IdentityCells();
    forall i | 0 <= i < 16 ensures ReadsBack(cells[i], ShowSmall, StofSmall) {
      assert cells[i] == 0.0 || cells[i] == 1.0;
    }
  }

  /** The requirements of ParseSource can be met: ShowSmall and StofSmall meet them on SmallScene. */
  lemma SmallSceneReadable()
    ensures Spelled(ShowSmall) && Readable(SmallScene(), ShowSmall, StofSmall)
    ensures Parse(Print(SmallScene(), ShowSmall), StofSmall) == Returned(Some(Eval(SmallScene())))
  {
    ShowSmallSpelled();
    SmallSceneNumbers();
    ParsePrint(SmallScene(), ShowSmall, StofSmall);
  }
}
