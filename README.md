# csgrn scene front end in Dafny

This project models the front end of the csgrn CSG ray-marcher. The front end has three stages:

1. **Lexer.** `lexer::tokenize` splits the scene text into tokens.
2. **Parser.** `csg_parser` is a recursive-descent parser. It holds a token vector and a cursor, and it builds a tree of `csg_node`s.
   - `union`, `difference` and `intersection` blocks become operator nodes.
   - `multmatrix` and `color` blocks change the node their child returns.
   - `sphere`, `cube` and `cylinder` calls become leaves with scale and translate transforms.
3. **Flattener.** `csg_tree::flatten_tree` walks the tree in post-order. It appends to three buffers:
   - the primitives;
   - the operations;
   - a postfix instruction program that the GPU evaluates on a stack.

`op_types` and `get_op_name` give the operator codes and names.

The model follows the source's own shape:
- **Lexer.** `Lexer.Tokenize` is a loop over the characters. `Lexer.Lex` is the function that specifies it.
- **Parser.** `CsgParser.Parser` is a class with a mutable cursor `pos`. Each parse method is proved to agree with the function of the same name in module `Grammar`, and the parsing properties are proved about those functions.
- **Leaves and matrix literals.** `ShapeFacts` states what `parse_sphere`, `parse_cube`, `parse_cylinder` and `parse_matrix_data` build from the tokens in front of them, for any tokens and any `stof`. This covers the defaults, the scalar `size`, a conversion that is caught or escapes, and the row-major read of a matrix literal.
- **Flattener.** `CsgTree.Tree.FlattenTree` appends to the three sequences of a `FlatBuffers` object. It is proved equal to the function `CsgTree.Flatten`, which `FlattenProofs` studies.

Transforms are symbolic. A transform is a sequence of factors, and matrix product is concatenation. The factors are scale, translate, the coordinate fix `z_to_y_up`, its inverse, and a row-major literal. Composition order is therefore exact.

`std::stof` is a parameter `stof: string -> Option<real>`. `None` stands for a conversion that throws. When such a throw is not caught, the parse ends in `Outcome.Threw`.

The main theorems:
- **`SceneText.ParseExpPrint` and `SceneText.ParsePrint`.** Parsing the tokens of a printed scene returns exactly the tree the scene denotes (`SceneText.Eval`) and consumes exactly those tokens. A printed scene is an abstract `Scene` written out as tokens, with numbers written by a function `show`. The theorems require only that each number the parser converts reads back through `stof` (`SceneText.Readable`). `SceneSource.SmallSceneReadable` gives a `show`, a `stof` and a scene that meet this.
- **`SceneSource.ParseSource`.** The same holds for any source text whose non-blank characters spell the printed scene, however it is spaced.
- **`ParserFacts.SourceToBuffers`.** This carries the result through to the flattener. The buffers get one primitive per shape call and one operation per set-operation block. The program they form evaluates to exactly one value: the solid the scene stands for.

Two behaviours of the code are worth stating on their own:
- **Cube transform.** `glm::scale` and `glm::translate` post-multiply, so the cube's transform is `C × scale(size) × translate(0.5)`.
- **Whitespace.** Whitespace does not end a word, so `a b` lexes to the single token `ab`.

## Model

| member | source | states |
|---|---|---|
| Lexer.Tokenize | include/csgrn/csg_parser.hpp:23-41 | The loop's tokens are `Lex(input)`. Every token is one punctuation character or a non-empty run of other non-blank characters, and no two runs are adjacent. The tokens concatenate to the input with its whitespace removed. Empty input gives no tokens. |
| Lexer.LexSound | include/csgrn/csg_parser.hpp:24-40 | Lexing keeps every non-whitespace character in order and produces only valid tokens. |
| Lexer.ValidUnique | include/csgrn/csg_parser.hpp:28-36 | Two valid token sequences that spell the same text are equal, so punctuation always stands alone and runs are maximal. |
| Lexer.LexRoundTrip | include/csgrn/csg_parser.hpp:23-41 | Tokenizing the text that valid tokens spell gives those tokens back. |
| CsgParser.Parser.constructor | include/csgrn/csg_parser.hpp:49-51 | The parser holds `tokenize(input)`, with the cursor at 0. |
| CsgParser.Parser.Parse | include/csgrn/csg_parser.hpp:53-59 | With no tokens: null, and the cursor does not move. Otherwise: what `parse_exp` returns from the cursor. |
| CsgParser.Parser.Peek | include/csgrn/csg_parser.hpp:62-65 | Returns the token under the cursor, or `""` at the end. The result is `""` exactly at the end or on an empty token. |
| CsgParser.Parser.Consume | include/csgrn/csg_parser.hpp:67-74 | Before the end: returns `tokens[pos]` and moves the cursor by exactly one. At the end: returns `""` and leaves the cursor. The cursor never passes the end. |
| CsgParser.Parser.Expect | include/csgrn/csg_parser.hpp:76-83 | Advances by one exactly when the token under the cursor is `t`, and otherwise stays. |
| CsgParser.Parser.ParseExp | include/csgrn/csg_parser.hpp:85-115 | The node and cursor are those `Grammar.ParseExp` gives for the starting cursor. |
| CsgParser.Parser.ParseChild | include/csgrn/csg_parser.hpp:126-142 | One child expression and the optional `;` after a non-null child. |
| CsgParser.Parser.OpTypeFor | include/csgrn/csg_parser.hpp:119-122 | The operator of the keyword, as `Grammar.OpTypeOfKeyword`. |
| CsgParser.Parser.ParseOp | include/csgrn/csg_parser.hpp:117-147 | Agrees with `Grammar.ParseOp`: the node and the cursor. |
| CsgParser.Parser.ParseMultimatrix | include/csgrn/csg_parser.hpp:149-170 | Agrees with `Grammar.ParseMultmatrix`. |
| CsgParser.Parser.ParseColor | include/csgrn/csg_parser.hpp:172-195 | Agrees with `Grammar.ParseColor`, including a throw from `std::stof`. |
| CsgParser.Parser.ReadTriple | include/csgrn/csg_parser.hpp:175-177 | Three numbers separated by commas, or None at the first conversion that throws. |
| CsgParser.Parser.ParseSphere | include/csgrn/csg_parser.hpp:197-232 | Agrees with `Grammar.ParseSphere`, which `ShapeFacts.SphereDefault` and `ShapeFacts.SphereRadius` show is `scale(r)`, with `r` defaulting to 1. |
| CsgParser.Parser.SphereParam | include/csgrn/csg_parser.hpp:203-224 | One pass of the parameter loop. `r = v` sets the radius unless `v` fails to convert. Other parameters are skipped. |
| CsgParser.Parser.ParseCube | include/csgrn/csg_parser.hpp:234-282 | Agrees with `Grammar.ParseCube`, which `ShapeFacts.CubeDefault`, `CubeScalar` and `CubeVector` show is `C × scale(size)`, times `translate(0.5)` only on a literal `false`. |
| CsgParser.Parser.CubeParam | include/csgrn/csg_parser.hpp:243-268 | One pass of the parameter loop. `size` is a number or a list. `center` is false only on the token `false`. None on a throw. |
| CsgParser.Parser.ReadAssigned | include/csgrn/csg_parser.hpp:298-299 | Reads an optional `=` and then one converted number. |
| CsgParser.Parser.ParseCylinder | include/csgrn/csg_parser.hpp:284-327 | Agrees with `Grammar.ParseCylinder`, which `ShapeFacts.CylinderDefault` and `CylinderFull` show is `scale(r1, h, r1)`, times `translate(0, 0.5, 0)` only on a literal `false`. |
| CsgParser.Parser.CylinderParam | include/csgrn/csg_parser.hpp:294-316 | One pass of the loop: both if-chains, in order. `r2` is read. None on a throw. |
| CsgParser.Parser.ReadCell | include/csgrn/csg_parser.hpp:339-346 | Cell `col` of row `row` lands in slot `4 * row + col`, or 0 if the cell does not convert. No other slot changes. |
| CsgParser.Parser.ReadCells | include/csgrn/csg_parser.hpp:338-347 | The column loop stores the four cells `Grammar.RowCells` reads into slots `4 * row` to `4 * row + 3`, and stops where that function stops. Earlier slots are kept. |
| CsgParser.Parser.ReadRow | include/csgrn/csg_parser.hpp:337-349 | Row `row`'s four cells fill slots `4 * row` to `4 * row + 3`. Earlier slots are kept. |
| CsgParser.Parser.RowStep | include/csgrn/csg_parser.hpp:336-350 | One pass of the row loop extends the filled prefix of the buffer by four slots. |
| CsgParser.Parser.ReadRows | include/csgrn/csg_parser.hpp:336-350 | The buffer holds the sixteen cells in row-major order. |
| CsgParser.Parser.ParseMatrixData | include/csgrn/csg_parser.hpp:329-357 | Agrees with `Grammar.ParseMatrixData`, which `ShapeFacts.MatrixRead` shows reads a literal's sixteen cells row-major into `C × transpose(raw) × C⁻¹`. |
| Grammar.OpTypeOfKeyword | include/csgrn/csg_parser.hpp:119-122 | `union` gives op_union, `difference` gives op_difference and `intersection` gives op_intersection, each as an if-and-only-if. Anything else keeps op_none. |
| Grammar.ParseExp | include/csgrn/csg_parser.hpp:85-115 | Null at the end of input. Null without consuming on `}`. Null after consuming exactly one token on an unknown token. A returned node is well formed, and its keyword was consumed. |
| Grammar.Parse | include/csgrn/csg_parser.hpp:53-59 | Null on an empty token list. A returned tree is well formed. |
| Grammar.SphereArgs | include/csgrn/csg_parser.hpp:203-224 | The loop exits only at `)` or at the end of input. Each pass consumes at least one token. |
| Grammar.CubeArgs | include/csgrn/csg_parser.hpp:243-268 | Unless it throws, the loop exits only at `)` or at the end, and each pass consumes a token. |
| Grammar.CylinderArgs | include/csgrn/csg_parser.hpp:294-316 | Unless it throws, the loop exits only at `)` or at the end, and each pass consumes a token. |
| Grammar.RowCells | include/csgrn/csg_parser.hpp:338-347 | The inner loop reads exactly as many cells as columns remain. |
| Grammar.Rows | include/csgrn/csg_parser.hpp:336-350 | Four cells per remaining row. |
| ShapeFacts.SphereDefault | include/csgrn/csg_parser.hpp:197-232 | `sphere();` gives a sphere leaf of radius 1 and consumes its three tokens. |
| ShapeFacts.SphereRadius | include/csgrn/csg_parser.hpp:197-232 | `sphere(r = t);` gives `scale(n)` when `t` converts to `n`. When the conversion throws it is caught and the radius stays 1. |
| ShapeFacts.CubeDefault | include/csgrn/csg_parser.hpp:234-282 | `cube();` gives `C × scale(1)`, centred. |
| ShapeFacts.CubeScalar | include/csgrn/csg_parser.hpp:234-282 | `cube(size = t);` gives `C × scale(n, n, n)` when `t` converts to `n`. A throw escapes the parser. |
| ShapeFacts.TripleRead | include/csgrn/csg_parser.hpp:251-253 | `x, y, z` reads as the three conversions, or None when one throws. |
| ShapeFacts.CubeVector | include/csgrn/csg_parser.hpp:234-282 | `cube(size = [a, b, c], center = t);` gives `C × scale(a, b, c)`, times `translate(0.5)` exactly when `t` is `false`. A throw escapes. |
| ShapeFacts.CylinderDefault | include/csgrn/csg_parser.hpp:284-327 | `cylinder();` gives `scale(1, 1, 1)`, centred. |
| ShapeFacts.CylinderRadius2Arg | include/csgrn/csg_parser.hpp:305-308 | `r2 = c` is read and stored. Its conversion can throw. |
| ShapeFacts.CylinderFull | include/csgrn/csg_parser.hpp:284-327 | `cylinder(h = a, r1 = b, r2 = c, center = t);`, with `height` and `radius` as aliases, gives `scale(b, a, b)`, times `translate(0, 0.5, 0)` exactly when `t` is `false`. `c` never reaches the leaf, but a throw on any of the three escapes. |
| ShapeFacts.RowCellsRead | include/csgrn/csg_parser.hpp:338-347 | The four cells of a row read as their conversions, or 0 where one throws. |
| ShapeFacts.RowRead | include/csgrn/csg_parser.hpp:337-349 | A row and its brackets, and the comma after any but the last row, read as its four values. |
| ShapeFacts.RowsRead | include/csgrn/csg_parser.hpp:336-350 | The four rows read as their sixteen values, in order, and stop after the last row. |
| ShapeFacts.MatrixValuesRowMajor | include/csgrn/csg_parser.hpp:336-347 | Cell `c` of row `r` lands in slot `4r + c`. |
| ShapeFacts.MatrixRead | include/csgrn/csg_parser.hpp:329-357 | A matrix literal of any cells gives `C × transpose(raw) × C⁻¹` of its row-major values and consumes exactly its 41 tokens. |
| SceneText.KeywordOp | include/csgrn/csg_parser.hpp:90-92 | Each set-operation keyword is one `parse_exp` dispatches on, and it maps to its operator. |
| SceneText.SpherePrint | include/csgrn/csg_parser.hpp:197-232 | When `x` reads back, `sphere(r = x);` parses to a sphere leaf with transform `scale(x)`. |
| SceneText.CubePrint | include/csgrn/csg_parser.hpp:234-282 | When `x`, `y` and `z` read back, `cube(size = [x, y, z], center = b);` parses to a cube leaf. Its transform is `C × scale(size)`, times `translate(0.5)` exactly when `b` is `false`. |
| SceneText.CylinderPrint | include/csgrn/csg_parser.hpp:284-327 | When its three numbers read back, `cylinder(h = .., r1 = .., r2 = .., center = b);` parses to `scale(r1, h, r1)`, times `translate(0, 0.5, 0)` when not centred. There is no `C`, and `r2` is unused. |
| SceneText.MatrixPrint | include/csgrn/csg_parser.hpp:329-357 | When its sixteen cells read back, a printed matrix literal is read row-major into `C × transpose(raw) × C⁻¹`, and exactly its 41 tokens are consumed. |
| SceneText.OpStep | include/csgrn/csg_parser.hpp:117-147 | Two non-null children give a fresh operator node with the left child first, and the closing `}` is consumed. |
| SceneText.MatrixStep | include/csgrn/csg_parser.hpp:149-170 | The child comes back with transform `M × transform`, multiplied on the left. |
| SceneText.ColorStep | include/csgrn/csg_parser.hpp:172-195 | When `r`, `g` and `b` read back, the child comes back with its colour replaced by `(r, g, b)`. A fourth component is consumed unread. |
| SceneText.ParseExpText | include/csgrn/csg_parser.hpp:85-115 | Any printed scene at the cursor whose converted numbers read back parses to its denotation and consumes exactly its tokens. |
| SceneText.ParseExpPrint | include/csgrn/csg_parser.hpp:85-115 | Same as `ParseExpText`, for the whole printed scene placed anywhere in the tokens. |
| SceneText.ParsePrint | include/csgrn/csg_parser.hpp:53-59 | `parse` of a printed scene whose converted numbers read back returns the scene's tree. |
| SceneSource.PrintValid | include/csgrn/csg_parser.hpp:23-41 | Printed tokens are valid lexer output and end with punctuation. |
| SceneSource.LexPrint | include/csgrn/csg_parser.hpp:23-41 | Tokenizing the text of a printed scene gives its tokens back. |
| SceneSource.ParseSource | include/csgrn/csg_parser.hpp:49-59 | Source text spelling a printed scene, with any spacing, tokenizes to the printed tokens and parses to the scene's tree, when the scene's converted numbers read back. |
| SceneSource.SmallSceneReadable | include/csgrn/csg_parser.hpp:53-59 | A concrete writer and `stof` meet the requirements of `ParseSource` on a scene with every kind of call and block, and `parse` returns that scene's tree. |
| ParserFacts.ParseOpNullChild | include/csgrn/csg_parser.hpp:126-140 | `parse_op` returns null when its left child is null, and when its right child is null. |
| ParserFacts.ParseOpBuilds | include/csgrn/csg_parser.hpp:117-146 | A node from `parse_op` is fresh. It has the keyword's operator, the default transform and colour, and the two child expressions in source order. |
| ParserFacts.NestedMultmatrix | include/csgrn/csg_parser.hpp:149-170 | Nested multmatrix blocks compose as outer × inner × the leaf's own transform, when the cells and the leaf's numbers read back. |
| ParserFacts.ColorOnlyColour | include/csgrn/csg_parser.hpp:172-195 | A colour block changes only the colour. A fourth component makes no difference and need not read back. |
| ParserFacts.EvalCounts | include/csgrn/csg_parser.hpp:117-195 | Shape calls become leaves and set-operation blocks become internal nodes. Matrix and colour blocks add no node. |
| ParserFacts.SourceToBuffers | include/csgrn/csg_tree.hpp:39-68 | From source text spelling a scene whose converted numbers read back: one primitive per shape call, one operation per set-operation block, and a postfix program that leaves exactly the scene's solid. |
| CsgTree.LeaveKinds | include/csgrn/csg_tree.hpp:21-23 | `is_leave` holds for every primitive node, fails for an operator node with two children, and holds for an operator node with a null child. |
| CsgTree.NewOpNode | include/csgrn/csg_tree.hpp:12-27 | The operator constructor sets left, right and op. The other fields keep their defaults (identity, white, no primitive). |
| CsgTree.NewPrimitiveNode | include/csgrn/csg_tree.hpp:12-31 | The primitive constructor gives a leaf with op_none, identity transform and white colour. |
| CsgTree.PrimitiveOf | include/csgrn/csg_tree.hpp:47-54 | A leaf's record copies kind and transform. Its albedo is `(color, 1)` and its spec is 0. |
| CsgTree.FlattenLeaf | include/csgrn/csg_tree.hpp:44-57 | A leaf appends one primitive and one `{PRIMITIVE, id}` and returns `id`, the old primitive count. No operation is added. |
| CsgTree.FlattenInternal | include/csgrn/csg_tree.hpp:59-67 | An internal node appends the left output, then the right output, then one `{op, leftId, rightId}` and a final `{OPERATION, id}`. `id` is the operation count after both recursions. |
| CsgTree.Tree.FlattenTree | include/csgrn/csg_tree.hpp:39-68 | Each buffer becomes its old contents followed by what `Flatten` gives at the old sizes, and the returned id is `Flatten`'s. |
| FlattenProofs.FlattenCounts | include/csgrn/csg_tree.hpp:44-67 | N leaves and M internal nodes give N primitives, M operations and N + M instructions. |
| FlattenProofs.FlattenLast | include/csgrn/csg_tree.hpp:56-67 | The last instruction refers to the node's own record by the id returned. |
| FlattenProofs.FlattenIsPostfix | include/csgrn/csg_tree.hpp:46-65 | Run on a stack, the instructions never underflow and leave exactly one more value. |
| FlattenProofs.FlattenIdsInOrder | include/csgrn/csg_tree.hpp:45-63 | PRIMITIVE ids run 0, 1, 2, … in order, and so do OPERATION ids. |
| FlattenProofs.FlattenEvaluates | include/csgrn/csg_tree.hpp:39-68 | Evaluating a subtree's program pushes exactly the solid the subtree stands for. Every operand id names a value on the stack. |
| FlattenProofs.FlattenRootProgram | include/csgrn/csg_tree.hpp:39-68 | The whole tree's program is a complete postfix program whose one result is the tree's solid. |
| FlattenProofs.FlattenNull | include/csgrn/csg_tree.hpp:42 | A null node appends nothing and returns 255. |
| FlattenProofs.FlattenIgnoresInternalAnnotations | include/csgrn/csg_tree.hpp:59-65 | An internal node's transform and colour never reach the buffers. |
| Operations.OpValue | include/csgrn/operations.hpp:7 | The codes are at most 4, and only op_none is 0. |
| Operations.OpTypeOf | include/csgrn/operations.hpp:7 | A raw value names an operator exactly when it is 0, 1, 2 or 4. |
| Operations.OpValueRoundTrip | include/csgrn/operations.hpp:7 | Decoding an operator's code gives the operator back. |
| Operations.OpValueInjective | include/csgrn/operations.hpp:7 | The four codes are distinct. |
| Operations.GetOpName | include/csgrn/operations.hpp:15-22 | The results are "Union", "Intersection" and "Difference" exactly for the three operators, and "Unknown ()" for op_none and any other value. |
| Primitives.PrimitiveValue | include/csgrn/primitive.hpp:7-12 | Only `none` is 0. |
| Instructions.Tag | include/csgrn/op_instruction.hpp:6-9 | PRIMITIVE is 0 and OPERATION is 1. |
| MatrixFinding.ShiftedCells | include/csgrn/csg_parser.hpp:339-345 | As written, a failing second cell zeroes the first, shifts the rest one slot left and leaves the last slot unwritten. As intended, the result is `[1, 0, 2, …]`. |
| MatrixFinding.FirstCellFails | include/csgrn/csg_parser.hpp:341-344 | As written, a failing first cell makes the handler write before the buffer. |
| MatrixFinding.AllConvert | include/csgrn/csg_parser.hpp:339-345 | When every cell converts, the code as written stores what is intended. |
| MatrixFinding.FillIntendedSlots | include/csgrn/csg_parser.hpp:336-347 | Intended stores fill their own slots with the cell values, or 0, and leave the other slots alone. |
| MatrixFinding.FillIntendedCells | include/csgrn/csg_parser.hpp:333-350 | Sixteen intended stores leave exactly the sixteen cell values, in order. |

## Left out

- Diagnostics are not modelled: the messages to `std::cerr` and `std::cout`.
- Memory is not modelled: the allocation and leaks of `csg_node`, and `delete_tree`. Trees are values with single ownership, so the in-place `child->transform =` and `child->color =` are functional updates.
- The numeric values of the matrices are not modelled: `z_to_y_up`, `glm::inverse`, `glm::transpose`, `glm::scale` and `glm::translate`. They are symbolic factors, and no float result is computed.
- `std::stof` is a parameter. Its parsing of prefixes, ranges and float rounding is outside the model. Where an exception is not caught, the model records that it escapes the parser.
- The scene round trip (SceneText.ParsePrint, SceneSource.ParseSource) covers a fixed print form only:
  - named parameters in a fixed order;
  - a vector `size` for cubes;
  - a `;` after every leaf.

  Other accepted spellings are covered by the `Grammar` functions and the `Parser` methods, but not by the round trip.
- SceneSource.ParseSource: requires `show` to write every number as a word (non-blank, non-punctuation text). It also requires each number the parser converts to read back through `stof`.
- CsgParser.Parser.ReadCell, CsgParser.Parser.ReadCells, CsgParser.Parser.ReadRows, CsgParser.Parser.ParseMatrixData, Grammar.RowCells and ShapeFacts.MatrixRead use the intended store: a cell that does not convert becomes 0 in its own slot. The code as written zeroes the previous slot instead (csg_parser.hpp:341-344). `MatrixFinding` models that store; see "## Findings".
- Strings are modelled as sequences of Unicode characters, not as the bytes of a `std::string`.
- Lexer.IsSpace is the C-locale `isspace` on ASCII: the space and `\t` through `\r`.
- GPU layout is not modelled: `alignas(16)`, the padding and the material struct's layout.
- The rest of the repository is not part of this model: file reading, OpenGL and GLFW set-up, the camera, the shaders and the render loop.

## Findings

| source | as written | input that shows it | evidently intended | confidence | as-written member | corrected member |
|---|---|---|---|---|---|---|
| include/csgrn/csg_parser.hpp:341-344 | `temp[idx++] = std::stof(valStr)`: in C++17 the right operand is evaluated first, so a throw leaves `idx` unchanged. The handler's `temp[idx - 1] = 0.0f` then zeroes the previous cell, or `temp[-1]` for the first cell. Every later cell then lands one slot early. | `[[1, x, 2, 2], [2, 2, 2, 2], [2, 2, 2, 2], [2, 2, 2, 2]]` with `x` not a number: the buffer becomes `[0, 2, …, 2, temp[15]]` | The failing cell reads as 0 in its own slot: `[1, 0, 2, …, 2]` | not executed | MatrixFinding.ShiftedCells | MatrixFinding.FillIntendedCells (Grammar.CellOrZero, used by Grammar.RowCells and CsgParser.Parser.ReadCell) |
