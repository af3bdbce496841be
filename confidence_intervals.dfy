// Confidence-interval requests of the global state (omxGlobal::intervalList)
// and their one-time unpacking: whole-algebra requests become one request per
// cell, and later requests for a cell that is already requested are dropped.
module ConfidenceIntervals {
  import opened Common

  /** A ConfidenceInterval request. wholeAlgebra is what ConfidenceInterval::isWholeAlgebra reports. */
  datatype ConfidenceInterval = ConfidenceInterval(
    name: string,
    matrixNumber: int,
    row: int,
    col: int,
    wholeAlgebra: bool,
    lowerBound: real,
    upperBound: real)

  /** What ciCmp compares: the cell an interval refers to. */
  type CiKey = (int, int, int)

  function Key(ci: ConfidenceInterval): CiKey
  {
    (ci.matrixNumber, ci.row, ci.col)
  }

  /** ciCmp: lexicographic order on (matrixNumber, row, col). */
  predicate CiLess(x: ConfidenceInterval, y: ConfidenceInterval)
  {
    if x.matrixNumber != y.matrixNumber then x.matrixNumber < y.matrixNumber
    else if x.row != y.row then x.row < y.row
    else x.col < y.col
  }

  /** ciCmp is a strict order whose equivalence is equality of keys, so the std::set finds an interval exactly by its cell. */
  lemma CiCmpIsStrictOrder(x: ConfidenceInterval, y: ConfidenceInterval, z: ConfidenceInterval)
    ensures !CiLess(x, x)
    ensures CiLess(x, y) && CiLess(y, z) ==> CiLess(x, z)
    ensures !CiLess(x, y) && !CiLess(y, x) <==> Key(x) == Key(y)
  {
  }

  /** "%s[%d,%d]" with 1-based row and column. */
  function CellName(name: string, r: nat, c: nat): string
  {
    name + "[" + NatToString(1 + r) + "," + NatToString(1 + c) + "]"
  }

  /** The request for one cell of a whole-algebra request; it names a single cell, so it is no
      longer a whole-algebra request. */
  function Cell(ci: ConfidenceInterval, r: nat, c: nat): ConfidenceInterval
  {
    ci.(name := CellName(ci.name, r, c), row := r, col := c, wholeAlgebra := false)
  }

  function Column(ci: ConfidenceInterval, rows: nat, c: nat): (s: seq<ConfidenceInterval>)
    ensures |s| == rows && forall r :: 0 <= r < rows ==> s[r] == Cell(ci, r, c)
  {
    seq(rows, r requires 0 <= r < rows => Cell(ci, r, c))
  }

  /** The cells of the first cols columns, column after column. */
  function Cells(ci: ConfidenceInterval, rows: nat, cols: nat): seq<ConfidenceInterval>
  {
    if cols == 0 then [] else Cells(ci, rows, cols - 1) + Column(ci, rows, cols - 1)
  }

  /** Cell (r, c) of the expansion of ci over rows x cols sits at c * rows + r (Strided(c, rows)
      is c * rows, by Common.StridedIsProduct). */
  predicate CellIsAt(ci: ConfidenceInterval, rows: nat, cols: nat, r: nat, c: nat)
  {
    Strided(c, rows) + r < |Cells(ci, rows, cols)| && Cells(ci, rows, cols)[Strided(c, rows) + r] == Cell(ci, r, c)
  }

  /** Whole-algebra expansion is column-major: rows * cols requests, cell (r, c) at c * rows + r. */
  lemma CellsColumnMajor(ci: ConfidenceInterval, rows: nat, cols: nat)
    ensures |Cells(ci, rows, cols)| == Strided(cols, rows)
    ensures forall r: nat, c: nat :: r < rows && c < cols ==> CellIsAt(ci, rows, cols, r, c)
  {
    CellsLength(ci, rows, cols);
    forall r: nat, c: nat | r < rows && c < cols
      ensures CellIsAt(ci, rows, cols, r, c)
    {
      CellAt(ci, rows, cols, r, c);
    }
  }

  lemma {:induction false} CellsLength(ci: ConfidenceInterval, rows: nat, cols: nat)
    ensures |Cells(ci, rows, cols)| == Strided(cols, rows)
  {
    if cols > 0 {
      CellsLength(ci, rows, cols - 1);
    }
  }

  lemma {:induction false} CellAt(ci: ConfidenceInterval, rows: nat, cols: nat, r: nat, c: nat)
    requires r < rows && c < cols
    ensures CellIsAt(ci, rows, cols, r, c)
  {
    var prev := Cells(ci, rows, cols - 1);
    var whole := Cells(ci, rows, cols);
    CellsLength(ci, rows, cols - 1);
    assert whole == prev + Column(ci, rows, cols - 1);
    var at := Strided(c, rows) + r;
    if c < cols - 1 {
      CellAt(ci, rows, cols - 1, r, c);
      assert at < |prev| && prev[at] == Cell(ci, r, c);
      assert whole[at] == prev[at];
    } else {
      assert at == |prev| + r;
      assert whole[at] == Column(ci, rows, cols - 1)[r];
    }
  }

  /** What one request of the old list unpacks to. */
  function Expand(ci: ConfidenceInterval, dims: int -> (nat, nat)): seq<ConfidenceInterval>
  {
    if !ci.wholeAlgebra then [ci] else Cells(ci, dims(ci.matrixNumber).0, dims(ci.matrixNumber).1)
  }

  function ExpandAll(tmp: seq<ConfidenceInterval>, dims: int -> (nat, nat)): seq<ConfidenceInterval>
  {
    if |tmp| == 0 then [] else ExpandAll(tmp[..|tmp| - 1], dims) + Expand(tmp[|tmp| - 1], dims)
  }

  function KeysOf(s: seq<ConfidenceInterval>): set<CiKey>
  {
    if |s| == 0 then {} else KeysOf(s[..|s| - 1]) + {Key(s[|s| - 1])}
  }

  /** The first request for every cell, in order. */
  function FirstByKey(s: seq<ConfidenceInterval>): seq<ConfidenceInterval>
  {
    if |s| == 0 then []
    else if Key(s[|s| - 1]) in KeysOf(s[..|s| - 1]) then FirstByKey(s[..|s| - 1])
    else FirstByKey(s[..|s| - 1]) + [s[|s| - 1]]
  }

  /** The interval list after unpacking. */
  function Unpack(tmp: seq<ConfidenceInterval>, dims: int -> (nat, nat)): seq<ConfidenceInterval>
  {
    FirstByKey(ExpandAll(tmp, dims))
  }

  lemma StepByKey(s: seq<ConfidenceInterval>, x: ConfidenceInterval)
    ensures KeysOf(s + [x]) == KeysOf(s) + {Key(x)}
    ensures FirstByKey(s + [x]) == if Key(x) in KeysOf(s) then FirstByKey(s) else FirstByKey(s) + [x]
  {
    assert (s + [x])[..|s|] == s;
  }

  lemma {:induction false} KeysOfMembers(s: seq<ConfidenceInterval>)
    ensures forall k :: k in KeysOf(s) <==> exists i :: 0 <= i < |s| && Key(s[i]) == k
  {
    if |s| > 0 {
      KeysOfMembers(s[..|s| - 1]);
      forall k | k in KeysOf(s)
        ensures exists i :: 0 <= i < |s| && Key(s[i]) == k
      {
        if k != Key(s[|s| - 1]) {
          var p := s[..|s| - 1];
          assert k in KeysOf(p);
          assert exists i :: 0 <= i < |p| && Key(p[i]) == k;
          var i :| 0 <= i < |p| && Key(p[i]) == k;
          assert Key(s[i]) == k;
        }
      }
      forall k, i | 0 <= i < |s| && Key(s[i]) == k
        ensures k in KeysOf(s)
      {
        if i < |s| - 1 {
          assert Key(s[..|s| - 1][i]) == k;
        }
      }
    }
  }

  /** The kept requests have pairwise different cells, cover every requested cell, and are drawn from the requests. */
  lemma {:induction false} FirstByKeyProperties(s: seq<ConfidenceInterval>)
    ensures forall i, j :: 0 <= i < j < |FirstByKey(s)| ==> Key(FirstByKey(s)[i]) != Key(FirstByKey(s)[j])
    ensures KeysOf(FirstByKey(s)) == KeysOf(s)
    ensures forall i :: 0 <= i < |FirstByKey(s)| ==> FirstByKey(s)[i] in s
  {
    if |s| > 0 {
      var p := s[..|s| - 1];
      var x := s[|s| - 1];
      assert s == p + [x];
      FirstByKeyProperties(p);
      StepByKey(p, x);
      var r := FirstByKey(p);
      if Key(x) !in KeysOf(p) {
        StepByKey(r, x);
        KeysOfMembers(r);
        forall i | 0 <= i < |r|
          ensures Key(r[i]) != Key(x)
        {
          assert Key(r[i]) in KeysOf(r);
        }
      }
    }
  }

  /** Unpacking keeps one request per cell and loses no requested cell. */
  lemma UnpackKeepsOnePerCell(tmp: seq<ConfidenceInterval>, dims: int -> (nat, nat))
    ensures forall i, j :: 0 <= i < j < |Unpack(tmp, dims)| ==> Key(Unpack(tmp, dims)[i]) != Key(Unpack(tmp, dims)[j])
    ensures KeysOf(Unpack(tmp, dims)) == KeysOf(ExpandAll(tmp, dims))
    ensures forall i :: 0 <= i < |Unpack(tmp, dims)| ==> Unpack(tmp, dims)[i] in ExpandAll(tmp, dims)
  {
    FirstByKeyProperties(ExpandAll(tmp, dims));
  }

  /** The inner (row) loop of unpackConfidenceIntervals over one column: each cell is kept when its key is new. */
  method AddColumn(ci: ConfidenceInterval, rows: nat, cx: nat, list: seq<ConfidenceInterval>, keys: set<CiKey>,
                   ghost seen: seq<ConfidenceInterval>)
    returns (list': seq<ConfidenceInterval>, keys': set<CiKey>)
    requires list == FirstByKey(seen) && keys == KeysOf(seen)
    ensures list' == FirstByKey(seen + Column(ci, rows, cx))
    ensures keys' == KeysOf(seen + Column(ci, rows, cx))
  {
    list', keys' := list, keys;
    ghost var done := seen;
    assert Column(ci, rows, cx)[..0] == [];
    var rx := 0;
    while rx < rows
      invariant 0 <= rx <= rows
      invariant done == seen + Column(ci, rows, cx)[..rx]
      invariant list' == FirstByKey(done) && keys' == KeysOf(done)
    {
      var cell := Cell(ci, rx, cx);
      StepByKey(done, cell);
      ColumnPrefixStep(seen, ci, rows, cx, rx);
      if Key(cell) !in keys' {
        keys' := keys' + {Key(cell)};
        list' := list' + [cell];
      }
      done := done + [cell];
      rx := rx + 1;
    }
    assert Column(ci, rows, cx)[..rx] == Column(ci, rows, cx);
  }

  lemma ColumnPrefixStep(seen: seq<ConfidenceInterval>, ci: ConfidenceInterval, rows: nat, cx: nat, rx: nat)
    requires rx < rows
    ensures seen + Column(ci, rows, cx)[..rx + 1] == seen + Column(ci, rows, cx)[..rx] + [Cell(ci, rx, cx)]
  {
    assert Column(ci, rows, cx)[..rx + 1] == Column(ci, rows, cx)[..rx] + [Cell(ci, rx, cx)];
  }

  lemma ExpandAllStep(tmp: seq<ConfidenceInterval>, ix: nat, dims: int -> (nat, nat))
    requires ix < |tmp|
    ensures ExpandAll(tmp[..ix + 1], dims) == ExpandAll(tmp[..ix], dims) + Expand(tmp[ix], dims)
  {
    assert tmp[..ix + 1][..ix] == tmp[..ix];
  }

  lemma CellsStep(seen: seq<ConfidenceInterval>, ci: ConfidenceInterval, rows: nat, cx: nat)
    ensures seen + Cells(ci, rows, cx + 1) == seen + Cells(ci, rows, cx) + Column(ci, rows, cx)
  {
  }

  /** The cell loops of unpackConfidenceIntervals: columns outer, rows inner. */
  method AddCells(ci: ConfidenceInterval, rows: nat, cols: nat, list: seq<ConfidenceInterval>, keys: set<CiKey>,
                  ghost seen: seq<ConfidenceInterval>)
    returns (list': seq<ConfidenceInterval>, keys': set<CiKey>)
    requires list == FirstByKey(seen) && keys == KeysOf(seen)
    ensures list' == FirstByKey(seen + Cells(ci, rows, cols))
    ensures keys' == KeysOf(seen + Cells(ci, rows, cols))
  {
    list', keys' := list, keys;
    ghost var done := seen;
    assert done == seen + Cells(ci, rows, 0);
    var cx := 0;
    while cx < cols
      invariant 0 <= cx <= cols
      invariant done == seen + Cells(ci, rows, cx)
      invariant list' == FirstByKey(done) && keys' == KeysOf(done)
    {
      list', keys' := AddColumn(ci, rows, cx, list', keys', done);
      CellsStep(seen, ci, rows, cx);
      done := done + Column(ci, rows, cx);
      cx := cx + 1;
    }
  }

  /** The interval list of the global state and its unpacked flag. */
  class IntervalRegistry {
    var intervalList: seq<ConfidenceInterval>
    var unpackedConfidenceIntervals: bool

    constructor ()
      ensures intervalList == [] && !unpackedConfidenceIntervals
    {
      intervalList := [];
      unpackedConfidenceIntervals := false;
    }

    /** unpackConfidenceIntervals; dims gives the rows and columns of a matrix or algebra by its number. */
    method UnpackConfidenceIntervals(dims: int -> (nat, nat))
      modifies this`intervalList, this`unpackedConfidenceIntervals
      ensures unpackedConfidenceIntervals
      ensures old(unpackedConfidenceIntervals) ==> intervalList == old(intervalList)
      ensures !old(unpackedConfidenceIntervals) ==> intervalList == Unpack(old(intervalList), dims)
    {
      if unpackedConfidenceIntervals {
        return;
      }
      unpackedConfidenceIntervals := true;
      var tmp := intervalList;
      intervalList := [];
      var uniqueCIs: set<CiKey> := {};
      ghost var seen: seq<ConfidenceInterval> := [];
      var ix := 0;
      while ix < |tmp|
        invariant 0 <= ix <= |tmp|
        invariant seen == ExpandAll(tmp[..ix], dims)
        invariant intervalList == FirstByKey(seen) && uniqueCIs == KeysOf(seen)
        invariant unpackedConfidenceIntervals
      {
        var ci := tmp[ix];
        ExpandAllStep(tmp, ix, dims);
        if !ci.wholeAlgebra {
          StepByKey(seen, ci);
          if Key(ci) !in uniqueCIs {
            uniqueCIs := uniqueCIs + {Key(ci)};
            intervalList := intervalList + [ci];
          }
        } else {
          var rows := dims(ci.matrixNumber).0;
          var cols := dims(ci.matrixNumber).1;
          intervalList, uniqueCIs := AddCells(ci, rows, cols, intervalList, uniqueCIs, seen);
        }
        seen := seen + Expand(ci, dims);
        ix := ix + 1;
      }
      assert tmp[..ix] == tmp;
    }
  }
}
