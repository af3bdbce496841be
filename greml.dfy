// The bookkeeping of the GREML fit function (omxGREMLFitState): the map from
// free parameters to derivatives of V, the conformance checks on those
// derivatives and on the augmentation matrices, the split of the derivative
// loop over threads, the symmetric fill of the average information matrix and
// its copy into a Hessian block. The likelihood algebra itself is an input.
module Greml {
  import opened Common

  /** A derivative of V as far as the bookkeeping needs it: its dimensions and whether it is an
      algebra that depends on free parameters. */
  datatype DvMatrix = DvMatrix(rows: nat, cols: nat, isAlgebra: bool, dependsOnParameters: bool)

  /** A matrix of reals stored column-major, as omxMatrix holds it. */
  datatype Matrix = Matrix(rows: nat, cols: nat, data: seq<real>)

  predicate WellFormed(m: Matrix)
  {
    |m.data| == m.rows * m.cols
  }

  /** omxMatrixElement: the entry in row r and column c. */
  function Element(m: Matrix, r: nat, c: nat): real
    requires WellFormed(m) && r < m.rows && c < m.cols
  {
    IndexInRange(c, r, m.cols, m.rows);
    m.data[c * m.rows + r]
  }

  predicate Distinct<T(==)>(s: seq<T>)
  {
    forall a, b :: 0 <= a < b < |s| ==> s[a] != s[b]
  }

  // ---------------------------------------------------------------------------
  // Counting distinct values

  lemma {:induction false} DistinctSetSize(s: seq<int>)
    requires Distinct(s)
    ensures |set x | x in s| == |s|
  {
    if |s| > 0 {
      var p := s[..|s| - 1];
      DistinctSetSize(p);
      assert (set x | x in s) == (set x | x in p) + {s[|s| - 1]};
    }
  }

  /** The sequence 0, 1, ..., n-1. */
  function Upto(n: nat): (r: seq<int>)
    ensures |r| == n && forall k :: 0 <= k < n ==> r[k] == k
  {
    seq(n, k => k)
  }

  /** Distinct values below n number at most n, and exactly n of them are all of 0..n-1. */
  lemma Pigeonhole(s: seq<int>, n: nat)
    requires Distinct(s)
    requires forall k :: 0 <= k < |s| ==> 0 <= s[k] < n
    ensures |s| <= n
    ensures |s| == n ==> forall x :: 0 <= x < n ==> x in s
  {
    DistinctSetSize(s);
    DistinctSetSize(Upto(n));
    var values := set x | x in s;
    var range := set x | x in Upto(n);
    assert forall x :: x in values ==> Upto(n)[x] == x;
    assert values <= range;
    assert |range| == |values| + |range - values|;
    assert forall x :: 0 <= x < n ==> Upto(n)[x] in range;
    if |s| == n {
      assert range - values == {};
      forall x | 0 <= x < n
        ensures x in s
      {
        assert Upto(n)[x] == x && x in range;
        assert x in values;
      }
    }
  }

  // ---------------------------------------------------------------------------
  // The parameter map

  /** The position of the first entry of s equal to x, or -1. */
  function FirstIndex(s: seq<string>, x: string): (r: int)
    ensures -1 <= r < |s|
    ensures r == -1 <==> x !in s
    ensures r >= 0 ==> s[r] == x && x !in s[..r]
  {
    if |s| == 0 then -1
    else
      var p := FirstIndex(s[..|s| - 1], x);
      if p >= 0 then p else if s[|s| - 1] == x then |s| - 1 else -1
  }

  lemma FirstIndexIs(s: seq<string>, x: string, k: nat)
    requires k < |s| && s[k] == x && x !in s[..k]
    ensures FirstIndex(s, x) == k
  {
  }

  /** The (variable, derivative) pairs the map records, slot by slot: each variable, in order,
      whose name some derivative carries, with the first derivative of that name. */
  function Matches(varNames: seq<string>, dVnames: seq<string>): (ml: seq<(nat, nat)>)
    ensures |ml| <= |varNames|
    ensures forall g :: 0 <= g < |ml| ==> ml[g].0 < |varNames| && ml[g].1 < |dVnames|
    ensures forall a, b :: 0 <= a < b < |ml| ==> ml[a].0 < ml[b].0
  {
    if |varNames| == 0 then []
    else
      var vx := |varNames| - 1;
      var nx := FirstIndex(dVnames, varNames[vx]);
      Matches(varNames[..vx], dVnames) + (if nx >= 0 then [(vx, nx)] else [])
  }

  /** Each recorded derivative is the first one that carries the variable's name. */
  lemma {:induction false} MatchesNamed(varNames: seq<string>, dVnames: seq<string>)
    ensures forall g :: 0 <= g < |Matches(varNames, dVnames)| ==>
      FirstIndex(dVnames, varNames[Matches(varNames, dVnames)[g].0]) == Matches(varNames, dVnames)[g].1
  {
    if |varNames| > 0 {
      var vx := |varNames| - 1;
      var p := varNames[..vx];
      MatchesNamed(p, dVnames);
      forall g | 0 <= g < |Matches(p, dVnames)|
        ensures varNames[Matches(p, dVnames)[g].0] == p[Matches(p, dVnames)[g].0]
      {
      }
    }
  }

  function DerivativeIndices(ml: seq<(nat, nat)>): (s: seq<int>)
    ensures |s| == |ml|
    ensures forall g :: 0 <= g < |ml| ==> s[g] == ml[g].1
  {
    seq(|ml|, g requires 0 <= g < |ml| => ml[g].1)
  }

  /** With distinct variable names the derivatives of different slots are different, so no
      more slots are filled than there are derivatives. */
  lemma DistinctPrefix<T>(s: seq<T>, k: nat)
    requires Distinct(s) && k <= |s|
    ensures Distinct(s[..k])
  {
  }

  lemma MatchesDistinct(varNames: seq<string>, dVnames: seq<string>)
    requires Distinct(varNames)
    ensures Distinct(DerivativeIndices(Matches(varNames, dVnames)))
    ensures |Matches(varNames, dVnames)| <= |dVnames|
  {
    var ml := Matches(varNames, dVnames);
    var d := DerivativeIndices(ml);
    MatchesNamed(varNames, dVnames);
    forall a, b | 0 <= a < b < |d|
      ensures d[a] != d[b]
    {
      assert varNames[ml[a].0] != varNames[ml[b].0];
    }
    Pigeonhole(d, |dVnames|);
  }

  /** When every variable found a derivative, slot g belongs to variable g. */
  lemma {:induction false} MatchesFull(varNames: seq<string>, dVnames: seq<string>)
    requires |Matches(varNames, dVnames)| == |varNames|
    ensures forall g :: 0 <= g < |varNames| ==> Matches(varNames, dVnames)[g].0 == g
  {
    if |varNames| > 0 {
      var vx := |varNames| - 1;
      var p := varNames[..vx];
      assert |Matches(p, dVnames)| <= vx;
      MatchesFull(p, dVnames);
      assert Matches(varNames, dVnames) == Matches(p, dVnames) + [(vx, FirstIndex(dVnames, varNames[vx]))];
    }
  }

  /** A map that succeeds is a permutation: with distinct variable names, as many variables as
      derivatives and every variable matched, slot g is variable g, every derivative is used
      exactly once, and the derivative in slot g carries the name of variable g. */
  lemma BuildParamMapPermutation(varNames: seq<string>, dVnames: seq<string>)
    requires Distinct(varNames)
    requires |Matches(varNames, dVnames)| == |dVnames| == |varNames|
    ensures forall g :: 0 <= g < |varNames| ==> Matches(varNames, dVnames)[g].0 == g
    ensures forall g :: 0 <= g < |varNames| ==> dVnames[Matches(varNames, dVnames)[g].1] == varNames[g]
    ensures Distinct(DerivativeIndices(Matches(varNames, dVnames)))
    ensures forall nx :: 0 <= nx < |dVnames| ==> nx in DerivativeIndices(Matches(varNames, dVnames))
  {
    MatchesFull(varNames, dVnames);
    MatchesNamed(varNames, dVnames);
    MatchesDistinct(varNames, dVnames);
    Pigeonhole(DerivativeIndices(Matches(varNames, dVnames)), |dVnames|);
  }

  /** std::vector::resize: kept entries, then zeros. */
  function Resized(s: seq<int>, n: nat): (r: seq<int>)
    ensures |r| == n
    ensures forall k :: 0 <= k < n ==> r[k] == if k < |s| then s[k] else 0
  {
    if n <= |s| then s[..n] else s + seq(n - |s|, _ => 0)
  }

  function IndependentAlgebra(m: DvMatrix): bool
  {
    m.isAlgebra && !m.dependsOnParameters
  }

  function Max(a: nat, b: nat): nat
  {
    if a < b then b else a
  }

  /** The checks on the augmentation derivatives: the gradient has one entry per derivative, and
      the Hessian (checked only alongside a gradient) is square of that size. */
  predicate AugConformable(augGrad: Option<Matrix>, augHess: Option<Matrix>, dVlength: nat)
  {
    augGrad.None?
    || (Max(augGrad.value.rows, augGrad.value.cols) == dVlength
        && (augHess.None? || (augHess.value.rows == augHess.value.cols && augHess.value.rows == dVlength)))
  }

  /** Each derivative must have V's dimensions or, when y is shorter than V (cases dropped for
      missing observations), be square of y's length. */
  predicate Conforms(m: DvMatrix, covRows: nat, covCols: nat, yCols: nat)
  {
    (m.rows == covRows && m.cols == covCols) || (yCols < covRows && m.rows == yCols && m.cols == yCols)
  }

  // ---------------------------------------------------------------------------
  // Augmentation values

  /** pullAugVal: 0 for a matrix that is absent (or an unknown selector), otherwise aug[0],
      augGrad[row + col] or augHess(row, col). */
  function PullAugVal(thing: int, row: nat, col: nat, aug: Option<Matrix>, augGrad: Option<Matrix>,
                      augHess: Option<Matrix>): (val: real)
    requires thing == 0 && aug.Some? ==> |aug.value.data| >= 1
    requires thing == 1 && augGrad.Some? ==> row + col < |augGrad.value.data|
    requires thing == 2 && augHess.Some? ==>
      WellFormed(augHess.value) && row < augHess.value.rows && col < augHess.value.cols
    ensures thing == 0 && aug.Some? ==> val == aug.value.data[0]
    ensures thing == 1 && augGrad.Some? ==> val == augGrad.value.data[row + col]
    ensures thing == 2 && augHess.Some? ==> val == Element(augHess.value, row, col)
    ensures ((thing == 0 && aug.None?) || (thing == 1 && augGrad.None?) || (thing == 2 && augHess.None?)
             || thing < 0 || thing > 2) ==> val == 0.0
  {
    if thing == 0 then (if aug.Some? then aug.value.data[0] else 0.0)
    else if thing == 1 then (if augGrad.Some? then augGrad.value.data[row + col] else 0.0)
    else if thing == 2 then (if augHess.Some? then Element(augHess.value, row, col) else 0.0)
    else 0.0
  }

  predicate SymmetricMatrix(m: Matrix)
    requires WellFormed(m)
  {
    m.rows == m.cols && forall r, c :: 0 <= r < m.rows && 0 <= c < m.cols ==> Element(m, r, c) == Element(m, c, r)
  }

  /** The gradient entry of derivative a is found whichever index carries it, and a symmetric
      augmentation Hessian gives the same cross term for (a1, a2) and (a2, a1). */
  lemma PullAugValSymmetric(a1: nat, a2: nat, aug: Option<Matrix>, augGrad: Option<Matrix>, augHess: Option<Matrix>)
    requires augGrad.Some? ==> a1 < |augGrad.value.data|
    requires augHess.Some? ==>
      WellFormed(augHess.value) && SymmetricMatrix(augHess.value) && a1 < augHess.value.rows && a2 < augHess.value.rows
    ensures PullAugVal(1, a1, 0, aug, augGrad, augHess) == PullAugVal(1, 0, a1, aug, augGrad, augHess)
    ensures PullAugVal(2, a1, a2, aug, augGrad, augHess) == PullAugVal(2, a2, a1, aug, augGrad, augHess)
  {
  }

  // ---------------------------------------------------------------------------
  // Thread ranges

  /** Thread t of nThreads handles derivatives [ThreadStart, ThreadEnd); the last one runs to
      the end. */
  function ThreadStart(t: nat, nThreads: nat, len: nat): nat
    requires nThreads > 0
  {
    t * len / nThreads
  }

  function ThreadEnd(t: nat, nThreads: nat, len: nat): nat
    requires nThreads > 0
  {
    if t == nThreads - 1 then len else (t + 1) * len / nThreads
  }

  /** The starts never decrease and never pass len. */
  lemma ThreadStartMonotone(t1: nat, t2: nat, nThreads: nat, len: nat)
    requires t1 <= t2 <= nThreads && nThreads > 0
    ensures ThreadStart(t1, nThreads, len) <= ThreadStart(t2, nThreads, len) <= len
  {
    MulLe(t1, t2, len);
    DivMonotone(t1 * len, t2 * len, nThreads);
    MulLe(t2, nThreads, len);
    DivMonotone(t2 * len, nThreads * len, nThreads);
    MulDivCancel(len, nThreads);
  }

  /** The ranges tile [0, len): the first starts at 0, each ends where the next starts, the last
      ends at len, and none is reversed. */
  lemma ThreadRangesTile(nThreads: nat, len: nat)
    requires nThreads > 0
    ensures ThreadStart(0, nThreads, len) == 0 && ThreadEnd(nThreads - 1, nThreads, len) == len
    ensures forall t :: 0 <= t < nThreads - 1 ==> ThreadEnd(t, nThreads, len) == ThreadStart(t + 1, nThreads, len)
    ensures forall t :: 0 <= t < nThreads ==> ThreadStart(t, nThreads, len) <= ThreadEnd(t, nThreads, len) <= len
  {
    forall t | 0 <= t < nThreads
      ensures ThreadStart(t, nThreads, len) <= ThreadEnd(t, nThreads, len) <= len
    {
      ThreadStartMonotone(t, t + 1, nThreads, len);
      ThreadStartMonotone(t, nThreads, nThreads, len);
    }
  }

  /** A thread's range ends no later than any later thread's range starts. */
  lemma ThreadRangesDisjoint(u: nat, t: nat, nThreads: nat, len: nat)
    requires u < t < nThreads
    ensures ThreadEnd(u, nThreads, len) <= ThreadStart(t, nThreads, len)
  {
    ThreadStartMonotone(u + 1, t, nThreads, len);
  }

  /** Every derivative index is handled by exactly one thread. */
  lemma ThreadOf(i: nat, nThreads: nat, len: nat) returns (t: nat)
    requires nThreads > 0 && i < len
    ensures t < nThreads && ThreadStart(t, nThreads, len) <= i < ThreadEnd(t, nThreads, len)
    ensures forall u :: 0 <= u < nThreads && ThreadStart(u, nThreads, len) <= i < ThreadEnd(u, nThreads, len) ==> u == t
  {
    t := 0;
    assert ThreadStart(0, nThreads, len) == 0;
    while t < nThreads - 1 && ThreadStart(t + 1, nThreads, len) <= i
      invariant t < nThreads && ThreadStart(t, nThreads, len) <= i
      decreases nThreads - t
    {
      t := t + 1;
    }
    forall u | 0 <= u < nThreads && ThreadStart(u, nThreads, len) <= i < ThreadEnd(u, nThreads, len)
      ensures u == t
    {
      if u < t {
        ThreadRangesDisjoint(u, t, nThreads, len);
      } else if u > t {
        ThreadRangesDisjoint(t, u, nThreads, len);
      }
    }
  }

  // ---------------------------------------------------------------------------
  // The average information matrix and the Hessian block

  ghost predicate Symmetric(a: array2<real>)
    reads a
  {
    a.Length0 == a.Length1 && forall r, c :: 0 <= r < a.Length0 && 0 <= c < a.Length0 ==> a[r, c] == a[c, r]
  }

  /** No parameter appears in two slots (after a successful map, slot g is parameter g). */
  predicate MappedOnce(gradMap: seq<int>)
  {
    forall a, b :: 0 <= a < b < |gradMap| && gradMap[a] >= 0 ==> gradMap[a] != gradMap[b]
  }

  /** The slot that carries parameter p: the first k with gradMap[k] == p, or -1. */
  function SlotOf(gradMap: seq<int>, p: int): (k: int)
    ensures -1 <= k < |gradMap|
    ensures k >= 0 ==> gradMap[k] == p && forall m :: 0 <= m < k ==> gradMap[m] != p
    ensures k == -1 ==> forall m :: 0 <= m < |gradMap| ==> gradMap[m] != p
  {
    if |gradMap| == 0 then -1
    else
      var k := SlotOf(gradMap[..|gradMap| - 1], p);
      if k >= 0 then k else if gradMap[|gradMap| - 1] == p then |gradMap| - 1 else -1
  }

  /** With every parameter in at most one slot, a parameter's slot is the slot that carries it. */
  lemma SlotOfMapped(gradMap: seq<int>, k: nat)
    requires MappedOnce(gradMap) && k < |gradMap| && gradMap[k] >= 0
    ensures SlotOf(gradMap, gradMap[k]) == k
  {
  }

  /** Cell (r, c) belongs to slot i's row up to slot j: both r and c are parameters of
      slots, the smaller slot is i, and the larger is below j. */
  predicate RowCell(gradMap: seq<int>, i: nat, j: nat, r: int, c: int)
  {
    var sr, sc := SlotOf(gradMap, r), SlotOf(gradMap, c);
    (sr == i && i <= sc < j) || (sc == i && i <= sr < j)
  }

  /** Cell (r, c) is written by slots lo .. hi-1: both r and c are parameters of slots, and
      the smaller of the two slots is one of lo .. hi-1. */
  predicate WrittenCell(gradMap: seq<int>, lo: nat, hi: nat, r: int, c: int)
  {
    var sr, sc := SlotOf(gradMap, r), SlotOf(gradMap, c);
    0 <= sr && 0 <= sc && lo <= (if sr <= sc then sr else sc) < hi
  }

  /** The value the loop leaves in a written cell: the diagonal term for a parameter with
      itself, and the cross term of the two slots in slot order otherwise. Symmetric in r, c. */
  function CellValue(gradMap: seq<int>, r: int, c: int, diagonal: nat -> real, crossTerm: (nat, nat) -> real): real
  {
    var sr, sc := SlotOf(gradMap, r), SlotOf(gradMap, c);
    if sr < 0 || sc < 0 then 0.0
    else if sr == sc then diagonal(sr)
    else if sr < sc then crossTerm(sr, sc) else crossTerm(sc, sr)
  }

  /** The inner loop for slot i: with t1 = gradMap[i] >= 0, (t1, t1) gets diagonal(i) and, for
      each later slot j with t2 >= 0, (t1, t2) and (t2, t1) get crossTerm(i, j). Exactly the
      cells of slot i's row change. */
  method FillRow(avgInfo: array2<real>, gradMap: seq<int>, i: nat, diagonal: nat -> real, crossTerm: (nat, nat) -> real)
    requires i < |gradMap|
    requires forall k :: 0 <= k < |gradMap| ==> gradMap[k] < avgInfo.Length0 && gradMap[k] < avgInfo.Length1
    requires MappedOnce(gradMap)
    modifies avgInfo
    ensures forall r, c :: 0 <= r < avgInfo.Length0 && 0 <= c < avgInfo.Length1 ==>
      avgInfo[r, c] == if RowCell(gradMap, i, |gradMap|, r, c)
                       then CellValue(gradMap, r, c, diagonal, crossTerm) else old(avgInfo[r, c])
  {
    var t1 := gradMap[i];
    if t1 < 0 {
      return;
    }
    SlotOfMapped(gradMap, i);
    for j := i to |gradMap|
      invariant forall r, c :: 0 <= r < avgInfo.Length0 && 0 <= c < avgInfo.Length1 ==>
        avgInfo[r, c] == if RowCell(gradMap, i, j, r, c)
                         then CellValue(gradMap, r, c, diagonal, crossTerm) else old(avgInfo[r, c])
    {
      if j == i {
        avgInfo[t1, t1] := diagonal(i);
      } else {
        var t2 := gradMap[j];
        if t2 < 0 {
          continue;
        }
        SlotOfMapped(gradMap, j);
        var v := crossTerm(i, j);
        avgInfo[t1, t2] := v;
        avgInfo[t2, t1] := v;
      }
    }
  }

  /** The cells of slots i and j, both with parameters and i <= j, are written by any range
      holding i, with the diagonal or cross term of the two slots. */
  lemma SlotCell(gradMap: seq<int>, lo: nat, hi: nat, i: nat, j: nat, diagonal: nat -> real, crossTerm: (nat, nat) -> real)
    requires MappedOnce(gradMap) && lo <= i < hi && i <= j < |gradMap| && gradMap[i] >= 0 && gradMap[j] >= 0
    ensures WrittenCell(gradMap, lo, hi, gradMap[i], gradMap[j]) && WrittenCell(gradMap, lo, hi, gradMap[j], gradMap[i])
    ensures CellValue(gradMap, gradMap[i], gradMap[j], diagonal, crossTerm) == (if i == j then diagonal(i) else crossTerm(i, j))
    ensures CellValue(gradMap, gradMap[j], gradMap[i], diagonal, crossTerm) == (if i == j then diagonal(i) else crossTerm(i, j))
  {
    SlotOfMapped(gradMap, i);
    SlotOfMapped(gradMap, j);
  }

  /** One thread's share of the derivative loop, as it touches avgInfo: for each slot i of
      [lo, hi) with a parameter t1 = gradMap[i] >= 0, and each slot j >= i with t2 >= 0, the
      value diagonal(i) goes to (t1, t1) and crossTerm(i, j) to both (t1, t2) and (t2, t1); only
      when a Hessian is wanted. The two values are the trace formulas, inputs here. Every other
      cell keeps its value. */
  method FillAvgInfo(avgInfo: array2<real>, gradMap: seq<int>, lo: nat, hi: nat, wantHessian: bool,
                     diagonal: nat -> real, crossTerm: (nat, nat) -> real)
    requires lo <= hi <= |gradMap|
    requires forall k :: 0 <= k < |gradMap| ==> gradMap[k] < avgInfo.Length0 && gradMap[k] < avgInfo.Length1
    requires MappedOnce(gradMap)
    modifies avgInfo
    ensures forall r, c :: 0 <= r < avgInfo.Length0 && 0 <= c < avgInfo.Length1 ==>
      avgInfo[r, c] == if wantHessian && WrittenCell(gradMap, lo, hi, r, c)
                       then CellValue(gradMap, r, c, diagonal, crossTerm) else old(avgInfo[r, c])
    ensures wantHessian ==> forall i, j :: lo <= i < hi && i <= j < |gradMap| && gradMap[i] >= 0 && gradMap[j] >= 0 ==>
      && avgInfo[gradMap[i], gradMap[j]] == (if i == j then diagonal(i) else crossTerm(i, j))
      && avgInfo[gradMap[j], gradMap[i]] == avgInfo[gradMap[i], gradMap[j]]
    ensures old(Symmetric(avgInfo)) ==> Symmetric(avgInfo)
    ensures (wantHessian && lo == 0 && hi == |gradMap| == avgInfo.Length0 == avgInfo.Length1
             && (forall g :: 0 <= g < |gradMap| ==> gradMap[g] == g)) ==> Symmetric(avgInfo)
  {
    if !wantHessian {
      return;
    }
    for i := lo to hi
      invariant forall r, c :: 0 <= r < avgInfo.Length0 && 0 <= c < avgInfo.Length1 ==>
        avgInfo[r, c] == if WrittenCell(gradMap, lo, i, r, c)
                         then CellValue(gradMap, r, c, diagonal, crossTerm) else old(avgInfo[r, c])
    {
      FillRow(avgInfo, gradMap, i, diagonal, crossTerm);
    }
    forall i, j | lo <= i < hi && i <= j < |gradMap| && gradMap[i] >= 0 && gradMap[j] >= 0
      ensures WrittenCell(gradMap, lo, hi, gradMap[i], gradMap[j]) && WrittenCell(gradMap, lo, hi, gradMap[j], gradMap[i])
      ensures CellValue(gradMap, gradMap[i], gradMap[j], diagonal, crossTerm) == (if i == j then diagonal(i) else crossTerm(i, j))
      ensures CellValue(gradMap, gradMap[j], gradMap[i], diagonal, crossTerm) == (if i == j then diagonal(i) else crossTerm(i, j))
    {
      SlotCell(gradMap, lo, hi, i, j, diagonal, crossTerm);
    }
    if lo == 0 && hi == |gradMap| == avgInfo.Length0 == avgInfo.Length1 && (forall g :: 0 <= g < |gradMap| ==> gradMap[g] == g) {
      forall r, c | 0 <= r < avgInfo.Length0 && 0 <= c < avgInfo.Length0
        ensures WrittenCell(gradMap, lo, hi, r, c)
      {
        SlotOfMapped(gradMap, r);
        SlotOfMapped(gradMap, c);
      }
    }
  }

  /** The Hessian block the fit queues: its parameter numbers and its matrix. */
  class HessianBlock {
    var vars: seq<int>
    const mat: array2<real>

    constructor (n: nat)
      ensures |vars| == n && mat.Length0 == n && mat.Length1 == n && fresh(mat)
    {
      vars := seq(n, _ => 0);
      mat := new real[n, n];
    }
  }

  /** The copy of avgInfo into the Hessian block when a Hessian is wanted: cell (h2, h1) for
      every h2 <= h1, the upper triangle, and nothing else. */
  method CopyUpperTriangle(avgInfo: array2<real>, hb: HessianBlock, wantHessian: bool)
    requires avgInfo.Length0 == avgInfo.Length1 == hb.mat.Length0 == hb.mat.Length1
    requires avgInfo != hb.mat
    modifies hb.mat
    ensures wantHessian ==> forall h2, h1 :: 0 <= h2 <= h1 < avgInfo.Length0 ==> hb.mat[h2, h1] == avgInfo[h2, h1]
    ensures forall h2, h1 :: 0 <= h2 < avgInfo.Length0 && 0 <= h1 < avgInfo.Length0 && (h1 < h2 || !wantHessian) ==>
      hb.mat[h2, h1] == old(hb.mat[h2, h1])
  {
    if !wantHessian {
      return;
    }
    var n := avgInfo.Length0;
    for h1 := 0 to n
      invariant forall a, b :: 0 <= a <= b < h1 ==> hb.mat[a, b] == avgInfo[a, b]
      invariant forall a, b :: 0 <= a < n && 0 <= b < n && (b < a || b >= h1) ==> hb.mat[a, b] == old(hb.mat[a, b])
    {
      for h2 := 0 to h1 + 1
        invariant forall a, b :: (0 <= a <= b < h1 || (b == h1 && 0 <= a < h2)) ==> hb.mat[a, b] == avgInfo[a, b]
        invariant forall a, b :: 0 <= a < n && 0 <= b < n && (b < a || b > h1 || (b == h1 && a >= h2)) ==>
          hb.mat[a, b] == old(hb.mat[a, b])
      {
        hb.mat[h2, h1] := avgInfo[h2, h1];
      }
    }
  }

  /** The full matrix read back from its upper triangle. */
  ghost function UpperView(m: array2<real>, r: nat, c: nat): real
    requires r < m.Length0 && c < m.Length0 && m.Length0 == m.Length1
    reads m
  {
    if r <= c then m[r, c] else m[c, r]
  }

  /** Because avgInfo is symmetric, its upper triangle in the Hessian block determines all of it. */
  lemma UpperTriangleDetermines(avgInfo: array2<real>, mat: array2<real>)
    requires Symmetric(avgInfo)
    requires mat.Length0 == mat.Length1 == avgInfo.Length0
    requires forall h2, h1 :: 0 <= h2 <= h1 < avgInfo.Length0 ==> mat[h2, h1] == avgInfo[h2, h1]
    ensures forall r: nat, c: nat :: r < mat.Length0 && c < mat.Length0 ==> UpperView(mat, r, c) == avgInfo[r, c]
  {
  }

  /** The indices i, in order, of derivatives that need an update and whose independence flag is
      wantIndependent. */
  function Selected(needsUpdate: seq<bool>, indyAlg: seq<bool>, wantIndependent: bool): (r: seq<nat>)
    requires |needsUpdate| == |indyAlg|
    ensures forall i: nat :: i in r <==> i < |needsUpdate| && needsUpdate[i] && indyAlg[i] == wantIndependent
    ensures forall a, b :: 0 <= a < b < |r| ==> r[a] < r[b]
    ensures forall k :: 0 <= k < |r| ==> r[k] < |needsUpdate|
  {
    if |needsUpdate| == 0 then []
    else
      var i := |needsUpdate| - 1;
      var r0 := Selected(needsUpdate[..i], indyAlg[..i], wantIndependent);
      r0 + (if needsUpdate[i] && indyAlg[i] == wantIndependent then [i] else [])
  }

  /** The search of buildParamMap's inner loop: the first derivative named x, or -1. */
  method FindName(names: seq<string>, x: string) returns (nx: int)
    ensures nx == FirstIndex(names, x)
  {
    nx := 0;
    while nx < |names| && names[nx] != x
      invariant nx <= |names| && x !in names[..nx]
    {
      assert names[..nx + 1] == names[..nx] + [names[nx]];
      nx := nx + 1;
    }
    if nx < |names| {
      FirstIndexIs(names, x, nx);
    } else {
      assert names[..nx] == names;
      nx := -1;
    }
  }

  lemma MatchesStep(varNames: seq<string>, dVnames: seq<string>, vx: nat)
    requires vx < |varNames|
    ensures Matches(varNames[..vx + 1], dVnames) == Matches(varNames[..vx], dVnames)
      + (if FirstIndex(dVnames, varNames[vx]) >= 0 then [(vx, FirstIndex(dVnames, varNames[vx]) as nat)] else [])
  {
    var prefix := varNames[..vx + 1];
    assert prefix[..vx] == varNames[..vx] && prefix[vx] == varNames[vx];
  }

  /** The per-derivative state the parameter map rewrites: slot g of dV, dVnames, origdVdim and
      indyAlg describes one derivative of V, gradMap[g] is its free parameter and dAugMap[g] its
      index in the augmentation derivatives. */
  datatype Slots = Slots(dV: seq<DvMatrix>, dVnames: seq<string>, origdVdim: seq<int>, indyAlg: seq<bool>,
                         gradMap: seq<int>, dAugMap: seq<int>)
  {
    predicate Sized(n: nat)
    {
      |dV| == n && |dVnames| == n && |origdVdim| == n && |indyAlg| == n && |gradMap| == n && |dAugMap| == n
    }
  }

  /** Slot g takes variable vx and the nx-th derivative of src. */
  function Place(s: Slots, g: nat, vx: nat, src: Slots, nx: nat): Slots
    requires s.Sized(|s.dV|) && src.Sized(|src.dV|) && g < |s.dV| && nx < |src.dV|
  {
    Slots(s.dV[g := src.dV[nx]], s.dVnames[g := src.dVnames[nx]], s.origdVdim[g := src.origdVdim[nx]],
          s.indyAlg[g := IndependentAlgebra(src.dV[nx])], s.gradMap[g := vx], s.dAugMap[g := nx])
  }

  /** The slots after the matches ml have been placed, in order, over base: slot g describes the
      derivative ml[g].1 and maps to variable ml[g].0; the slots past |ml| keep base. */
  function Placed(ml: seq<(nat, nat)>, base: Slots): (r: Slots)
    requires base.Sized(|base.dV|) && |ml| <= |base.dV|
    requires forall g :: 0 <= g < |ml| ==> ml[g].1 < |base.dV|
    ensures r.Sized(|base.dV|)
  {
    if |ml| == 0 then base
    else
      var g := |ml| - 1;
      Place(Placed(ml[..g], base), g, ml[g].0, base, ml[g].1)
  }

  /** What the placed slots hold: slot g < |ml| describes derivative ml[g].1 and maps to variable
      ml[g].0; every later slot is as in base. */
  lemma {:induction false} PlacedSlots(ml: seq<(nat, nat)>, base: Slots)
    requires base.Sized(|base.dV|) && |ml| <= |base.dV|
    requires forall g :: 0 <= g < |ml| ==> ml[g].1 < |base.dV|
    ensures forall g :: 0 <= g < |ml| ==>
      Placed(ml, base).gradMap[g] == ml[g].0 && Placed(ml, base).dAugMap[g] == ml[g].1
      && Placed(ml, base).dV[g] == base.dV[ml[g].1] && Placed(ml, base).dVnames[g] == base.dVnames[ml[g].1]
      && Placed(ml, base).origdVdim[g] == base.origdVdim[ml[g].1]
      && Placed(ml, base).indyAlg[g] == IndependentAlgebra(base.dV[ml[g].1])
    ensures forall g :: |ml| <= g < |base.dV| ==>
      Placed(ml, base).gradMap[g] == base.gradMap[g] && Placed(ml, base).dAugMap[g] == base.dAugMap[g]
      && Placed(ml, base).dV[g] == base.dV[g] && Placed(ml, base).dVnames[g] == base.dVnames[g]
      && Placed(ml, base).origdVdim[g] == base.origdVdim[g] && Placed(ml, base).indyAlg[g] == base.indyAlg[g]
  {
    if |ml| > 0 {
      PlacedSlots(ml[..|ml| - 1], base);
    }
  }

  lemma PlacedStep(ml: seq<(nat, nat)>, base: Slots, vx: nat, nx: nat)
    requires base.Sized(|base.dV|) && |ml| < |base.dV| && nx < |base.dV|
    requires forall g :: 0 <= g < |ml| ==> ml[g].1 < |base.dV|
    ensures Placed(ml + [(vx, nx)], base) == Place(Placed(ml, base), |ml|, vx, base, nx)
  {
    assert (ml + [(vx, nx)])[..|ml|] == ml;
  }

  /** The loop of buildParamMap: for each variable in turn, the search for the first derivative
      of that name and, when there is one, the fill of the next slot from the derivatives as they
      were; gx counts the filled slots. */
  method PlaceMatches(newVarNames: seq<string>, base: Slots) returns (placed: Slots, gx: nat)
    requires base.Sized(|base.dV|) && Distinct(newVarNames)
    ensures gx == |Matches(newVarNames, base.dVnames)| <= |base.dV|
    ensures placed == Placed(Matches(newVarNames, base.dVnames), base)
  {
    placed := base;
    gx := 0;
    for vx := 0 to |newVarNames|
      invariant gx == |Matches(newVarNames[..vx], base.dVnames)| <= |base.dV|
      invariant placed == Placed(Matches(newVarNames[..vx], base.dVnames), base)
    {
      var nx := FindName(base.dVnames, newVarNames[vx]);
      PlaceMatchesStep(newVarNames, base, vx, placed, gx);
      if nx >= 0 {
        placed := Place(placed, gx, vx, base, nx);
        gx := gx + 1;
      }
    }
    assert newVarNames[..|newVarNames|] == newVarNames;
  }

  /** One iteration of buildParamMap's loop: a variable with a derivative of its name adds the
      match (vx, nx) and fills slot gx; a variable without one changes nothing. */
  lemma PlaceMatchesStep(newVarNames: seq<string>, base: Slots, vx: nat, placed: Slots, gx: nat)
    requires base.Sized(|base.dV|) && Distinct(newVarNames) && vx < |newVarNames|
    requires gx == |Matches(newVarNames[..vx], base.dVnames)| <= |base.dV|
    requires placed == Placed(Matches(newVarNames[..vx], base.dVnames), base)
    ensures var nx := FirstIndex(base.dVnames, newVarNames[vx]);
      && (nx < 0 ==> Matches(newVarNames[..vx + 1], base.dVnames) == Matches(newVarNames[..vx], base.dVnames))
      && (nx >= 0 ==>
            && gx < |base.dV| && nx < |base.dV| && placed.Sized(|base.dV|)
            && gx + 1 == |Matches(newVarNames[..vx + 1], base.dVnames)| <= |base.dV|
            && Place(placed, gx, vx, base, nx) == Placed(Matches(newVarNames[..vx + 1], base.dVnames), base))
  {
    DistinctPrefix(newVarNames, vx + 1);
    MatchesDistinct(newVarNames[..vx + 1], base.dVnames);
    MatchesStep(newVarNames, base.dVnames, vx);
    var nx := FirstIndex(base.dVnames, newVarNames[vx]);
    if nx >= 0 {
      PlacedStep(Matches(newVarNames[..vx], base.dVnames), base, vx, nx);
    }
  }

  /** After a successful map, slot g holds variable g and a derivative named after it. */
  lemma PlacedPermutation(varNames: seq<string>, base: Slots)
    requires base.Sized(|base.dV|) && Distinct(varNames)
    requires |Matches(varNames, base.dVnames)| == |base.dV| == |varNames|
    ensures forall g :: 0 <= g < |base.dV| ==>
      Placed(Matches(varNames, base.dVnames), base).gradMap[g] == g
      && Placed(Matches(varNames, base.dVnames), base).dVnames[g] == varNames[g]
  {
    var ml := Matches(varNames, base.dVnames);
    var placed := Placed(ml, base);
    BuildParamMapPermutation(varNames, base.dVnames);
    PlacedSlots(ml, base);
    forall g | 0 <= g < |base.dV|
      ensures placed.gradMap[g] == g && placed.dVnames[g] == varNames[g]
    {
      assert placed.gradMap[g] == ml[g].0 && placed.dVnames[g] == base.dVnames[ml[g].1];
    }
  }

  /** The checks that close buildParamMap, in order: gx slots were filled of dVlength, for
      numVars variables, then the augmentation derivatives' sizes. */
  function ParamMapCheck(gx: nat, dVlength: nat, numVars: nat, augGrad: Option<Matrix>, augHess: Option<Matrix>)
    : (out: Outcome)
    ensures out.Success? <==> gx == dVlength && gx >= numVars && AugConformable(augGrad, augHess, dVlength)
    ensures gx != dVlength ==> out == Failure("Problem in dVnames mapping")
    ensures gx == dVlength && gx < numVars ==>
      out == Failure("At least one free parameter has no corresponding element in 'dV'")
  {
    if gx != dVlength then Failure("Problem in dVnames mapping")
    else if gx < numVars then Failure("At least one free parameter has no corresponding element in 'dV'")
    else if augGrad.None? then Success
    else
      var ngradelem := Max(augGrad.value.rows, augGrad.value.cols);
      if ngradelem != dVlength then
        Failure("matrix referenced by 'augGrad' must have same number of elements as argument 'dV'")
      else if augHess.None? then Success
      else if augHess.value.rows != augHess.value.cols then
        Failure("matrix referenced by 'augHess' must be square (instead of "
                + NatToString(augHess.value.rows) + "x" + NatToString(augHess.value.cols) + ")")
      else if augHess.value.rows != ngradelem then
        Failure("Augmentation derivatives non-conformable (gradient is size " + NatToString(ngradelem)
                + " and Hessian is " + NatToString(augHess.value.rows) + "x" + NatToString(augHess.value.cols) + ")")
      else Success
  }

  /** The state of the fit function that the parameter map and the dimension check rewrite. */
  class GremlFitState {
    var dV: seq<DvMatrix>
    var dVnames: seq<string>
    var origdVdim: seq<int>
    var indyAlg: seq<bool>
    var gradMap: seq<int>
    var dAugMap: seq<int>
    var varNames: seq<string>

    ghost predicate Valid()
      reads this
    {
      |dVnames| == |dV| && |origdVdim| == |dV| && |indyAlg| == |dV|
    }

    function Current(): Slots
      reads this
    {
      Slots(dV, dVnames, origdVdim, indyAlg, gradMap, dAugMap)
    }

    /** The derivatives as the front end lists them, before any dimension check or map. */
    constructor (dV: seq<DvMatrix>, dVnames: seq<string>)
      requires |dVnames| == |dV|
      ensures Valid() && this.dV == dV && this.dVnames == dVnames
      ensures origdVdim == seq(|dV|, _ => 0) && indyAlg == seq(|dV|, _ => false)
      ensures gradMap == [] && dAugMap == [] && varNames == []
    {
      this.dV := dV;
      this.dVnames := dVnames;
      origdVdim := seq(|dV|, _ => 0);
      indyAlg := seq(|dV|, _ => false);
      gradMap := [];
      dAugMap := [];
      varNames := [];
    }

    /** The dimension check of the fit function's initialisation; origdVdim records each
      derivative's size. */
    method CheckDerivativeDims(covRows: nat, covCols: nat, yCols: nat) returns (out: Outcome)
      requires Valid()
      modifies this`origdVdim
      ensures Valid()
      ensures out.Success? <==> forall i :: 0 <= i < |dV| ==> Conforms(dV[i], covRows, covCols, yCols)
      ensures out.Success? ==> forall i :: 0 <= i < |dV| ==>
        origdVdim[i] == dV[i].rows && (origdVdim[i] == covRows || (origdVdim[i] == yCols && yCols < covRows))
    {
      for i := 0 to |dV|
        invariant Valid()
        invariant forall k :: 0 <= k < i ==> Conforms(dV[k], covRows, covCols, yCols) && origdVdim[k] == dV[k].rows
      {
        if Conforms(dV[i], covRows, covCols, yCols) {
          origdVdim := origdVdim[i := dV[i].rows];
        } else {
          return Failure("all derivatives of V must have the same dimensions as V");
        }
      }
      out := Success;
    }

    /** buildParamMap: walks the free variables in order; a variable whose name some derivative
      carries takes the next slot, with the first such derivative. Afterwards every slot must be
      filled and every variable matched, and the augmentation derivatives must conform. */
    method BuildParamMap(newVarNames: seq<string>, augGrad: Option<Matrix>, augHess: Option<Matrix>)
      returns (out: Outcome)
      requires Valid() && Distinct(newVarNames)
      modifies this
      ensures Valid() && varNames == newVarNames && |dV| == |old(dV)|
      ensures |old(dV)| == 0 ==> out.Success? && Current() == old(Current())
      ensures |old(dV)| > 0 ==>
        (out.Success? <==> |Matches(newVarNames, old(dVnames))| == |old(dV)| == |newVarNames|
                           && AugConformable(augGrad, augHess, |old(dV)|))
      ensures |Matches(newVarNames, old(dVnames))| <= |old(dV)|
      ensures |old(dV)| > 0 ==>
        Current() == Placed(Matches(newVarNames, old(dVnames)),
                            Slots(old(dV), old(dVnames), old(origdVdim), old(indyAlg),
                                  Resized(old(gradMap), |old(dV)|), Resized(old(dAugMap), |old(dV)|)))
      ensures |old(dV)| > 0 && out.Success? ==>
        forall g :: 0 <= g < |dV| ==> gradMap[g] == g && dVnames[g] == varNames[g]
    {
      MatchesDistinct(newVarNames, dVnames);
      varNames := newVarNames;
      if |dV| == 0 {
        return Success;
      }
      ghost var base := Slots(dV, dVnames, origdVdim, indyAlg, Resized(gradMap, |dV|), Resized(dAugMap, |dV|));
      var placed, gx := PlaceMatches(newVarNames, Slots(dV, dVnames, origdVdim, indyAlg,
                                                        Resized(gradMap, |dV|), Resized(dAugMap, |dV|)));
      dV, dVnames, origdVdim, indyAlg := placed.dV, placed.dVnames, placed.origdVdim, placed.indyAlg;
      gradMap, dAugMap := placed.gradMap, placed.dAugMap;
      assert Current() == placed;
      out := ParamMapCheck(gx, |dV|, |newVarNames|, augGrad, augHess);
      if out.Success? {
        PlacedPermutation(newVarNames, base);
      }
    }

    /** dVupdate: the derivatives recomputed before the fit, those that need an update and are
      not parameter-independent algebras. needsUpdate is each derivative's dirty state. */
    method DvUpdate(needsUpdate: seq<bool>) returns (recomputed: seq<nat>)
      requires Valid() && |needsUpdate| == |dV|
      ensures recomputed == Selected(needsUpdate, indyAlg, false)
    {
      recomputed := [];
      for i := 0 to |dV|
        invariant recomputed == Selected(needsUpdate[..i], indyAlg[..i], false)
      {
        assert needsUpdate[..i + 1][..i] == needsUpdate[..i] && indyAlg[..i + 1][..i] == indyAlg[..i];
        if needsUpdate[i] && !indyAlg[i] {
          recomputed := recomputed + [i];
        }
      }
      assert needsUpdate[..|dV|] == needsUpdate && indyAlg[..|dV|] == indyAlg;
    }

    /** dVupdate_final: the parameter-independent algebras that need an update, recomputed once
      after the fit. Together with DvUpdate every derivative that needs an update is recomputed
      by exactly one of the two. */
    method DvUpdateFinal(needsUpdate: seq<bool>) returns (recomputed: seq<nat>)
      requires Valid() && |needsUpdate| == |dV|
      ensures recomputed == Selected(needsUpdate, indyAlg, true)
    {
      recomputed := [];
      for i := 0 to |dV|
        invariant recomputed == Selected(needsUpdate[..i], indyAlg[..i], true)
      {
        assert needsUpdate[..i + 1][..i] == needsUpdate[..i] && indyAlg[..i + 1][..i] == indyAlg[..i];
        if indyAlg[i] {
          if needsUpdate[i] {
            recomputed := recomputed + [i];
          }
        }
      }
      assert needsUpdate[..|dV|] == needsUpdate && indyAlg[..|dV|] == indyAlg;
    }
  }
}
