/**
  The cell store of parse_matrix_data, `temp[idx++] = std::stof(valStr)` with
  `temp[idx - 1] = 0.0f` in the handler, as written and as intended.

  In C++17 the right operand of `=` is evaluated before the left one, so when
  std::stof throws, `idx++` has not run: the handler then zeroes the previous
  cell (or writes before the buffer when the first cell fails), and every later
  value lands one slot early, leaving the last slot unwritten. The intended
  behaviour, a failing cell reads as 0 in its own slot, is CellOrZero in
  Grammar, which the parser model uses. Both are stated here over the
  conversion results of the sixteen cell tokens, in order.
*/
module MatrixFinding {
  import opened Wrappers
  import opened Grammar

  /** The sixteen-cell buffer `temp` and the write index `idx`. */
  datatype Buffer = Buffer(temp: seq<real>, idx: int)

  /** The store as written; None when it writes outside temp. */
  function StoreAsWritten(b: Buffer, v: Option<real>): (r: Option<Buffer>)
    requires |b.temp| == 16
    ensures r.Some? ==> |r.value.temp| == 16
  {
    match v
    case Some(x) => if 0 <= b.idx < 16 then Some(Buffer(b.temp[b.idx := x], b.idx + 1)) else None
    case None => if 1 <= b.idx <= 16 then Some(Buffer(b.temp[b.idx - 1 := 0.0], b.idx)) else None
  }

  /** The stores of the cells converted to vals, in order, as written. */
  function FillAsWritten(b: Buffer, vals: seq<Option<real>>): (r: Option<Buffer>)
    requires |b.temp| == 16
    ensures r.Some? ==> |r.value.temp| == 16
    decreases |vals|
  {
    if vals == [] then Some(b)
    else
      match StoreAsWritten(b, vals[0])
      case None => None
      case Some(b') => FillAsWritten(b', vals[1..])
  }

  /** The store as intended: the cell's value, or 0, in its own slot. */
  function StoreIntended(b: Buffer, v: Option<real>): (r: Buffer)
    requires |b.temp| == 16 && 0 <= b.idx < 16
    ensures |r.temp| == 16
  {
    Buffer(b.temp[b.idx := CellOrZero(v)], b.idx + 1)
  }

  function FillIntended(b: Buffer, vals: seq<Option<real>>): (r: Buffer)
    requires |b.temp| == 16 && 0 <= b.idx && b.idx + |vals| <= 16
    ensures |r.temp| == 16
    decreases |vals|
  {
    if vals == [] then b else FillIntended(StoreIntended(b, vals[0]), vals[1..])
  }

  /** The values the intended store leaves in slots i until i + |vals|. */
  function Stored(vals: seq<Option<real>>): (w: seq<real>)
    ensures |w| == |vals|
    ensures forall j | 0 <= j < |vals| :: w[j] == CellOrZero(vals[j])
  {
    seq(|vals|, j requires 0 <= j < |vals| => CellOrZero(vals[j]))
  }

  /**
    The intended stores fill slots idx until idx + |vals| with the values (0
    for a cell that does not convert), leave every other slot alone and move
    idx past them.
  */
  lemma {:induction false} FillIntendedSlots(b: Buffer, vals: seq<Option<real>>)
    requires |b.temp| == 16 && 0 <= b.idx && b.idx + |vals| <= 16
    ensures FillIntended(b, vals).idx == b.idx + |vals|
    ensures FillIntended(b, vals).temp == b.temp[..b.idx] + Stored(vals) + b.temp[b.idx + |vals|..]
    decreases |vals|
  {
    if vals != [] {
      var b' := StoreIntended(b, vals[0]);
      FillIntendedSlots(b', vals[1..]);
      assert Stored(vals) == [CellOrZero(vals[0])] + Stored(vals[1..]);
      assert b'.temp[..b'.idx] == b.temp[..b.idx] + [CellOrZero(vals[0])];
    }
  }

  /** All sixteen cells: the buffer ends up holding exactly the cell values, in order. */
  lemma FillIntendedCells(init: seq<real>, vals: seq<Option<real>>)
    requires |init| == 16 && |vals| == 16
    ensures FillIntended(Buffer(init, 0), vals) == Buffer(Stored(vals), 16)
  {
    FillIntendedSlots(Buffer(init, 0), vals);
  }

  /** When every cell converts, the code as written does what is intended. */
  lemma {:induction false} AllConvert(b: Buffer, vals: seq<Option<real>>)
    requires |b.temp| == 16 && 0 <= b.idx && b.idx + |vals| <= 16
    requires forall j | 0 <= j < |vals| :: vals[j].Some?
    ensures FillAsWritten(b, vals) == Some(FillIntended(b, vals))
    decreases |vals|
  {
    if vals != [] {
      assert vals[0].Some?;
      AllConvert(StoreIntended(b, vals[0]), vals[1..]);
    }
  }

  /** The first cell fails to convert: the handler writes temp[-1], outside the buffer. */
  lemma FirstCellFails(init: seq<real>, vals: seq<Option<real>>)
    requires |init| == 16 && |vals| > 0 && vals[0].None?
    ensures FillAsWritten(Buffer(init, 0), vals) == None
  {
  }

  /**
    A counterexample: `[[1, x, 2, 2], [2, 2, 2, 2], ...]` where `x` does not
    convert. As written, the first cell becomes 0, the twos move one slot
    left and the last slot keeps whatever temp held; intended, the first cell
    stays 1 and the second is 0.
  */
  lemma ShiftedCells(init: seq<real>)
    requires |init| == 16
    ensures var vals := [Some(1.0), None] + seq(14, _ => Some(2.0));
            && FillAsWritten(Buffer(init, 0), vals).Some?
            && FillAsWritten(Buffer(init, 0), vals).value.temp == [0.0] + seq(14, _ => 2.0) + [init[15]]
            && FillIntended(Buffer(init, 0), vals).temp == [1.0, 0.0] + seq(14, _ => 2.0)
  {
    var twos := seq(14, _ => Some(2.0));
    var vals := [Some(1.0), None] + twos;
    // The first two stores: 1 at slot 0, then the failure zeroes slot 0 and idx stays 1.
    var b1 := Buffer(init[0 := 1.0], 1);
    var b2 := Buffer(init[0 := 1.0][0 := 0.0], 1);
    assert vals[1..][1..] == twos;
    assert FillAsWritten(Buffer(init, 0), vals) == FillAsWritten(b1, vals[1..]);
    assert FillAsWritten(b1, vals[1..]) == FillAsWritten(b2, twos);
    AllConvert(b2, twos);
    FillIntendedSlots(b2, twos);
    assert Stored(twos) == seq(14, _ => 2.0);
    assert b2.temp[..1] == [0.0];
    FillIntendedCells(init, vals);
    assert Stored(vals) == [1.0, 0.0] + seq(14, _ => 2.0);
  }
}
