// Scheduling of the numerical Hessian (omxComputeNumericDeriv): which entries
// are estimated, where the fit is probed, how a supplied Hessian is merged in,
// and how a disagreeing gradient is treated. The finite-difference quotients
// and their Richardson extrapolation are inputs (Kernels); the schedule that
// feeds them is modelled exactly.
module NumericHessian {
  import opened Common

  // ---------------------------------------------------------------------------
  // Settings

  /** The checks of initFromFrontend, in the order they are made (the message for a too small
      iteration count is the source's own). */
  function ValidateSettings(numConstraints: nat, numIter: int, stepSize: real): (r: Outcome)
    ensures r.Success? <==> numConstraints == 0 && numIter >= 2 && stepSize > 0.0
    ensures numConstraints == 0 && numIter < 2 ==> r == Failure("stepSize must be 2 or greater")
  {
    if numConstraints > 0 then
      Failure("Cannot compute estimated Hessian with constraints (" + NatToString(numConstraints) + " constraints found)")
    else if numIter < 2 then Failure("stepSize must be 2 or greater")
    else if stepSize <= 0.0 then Failure("stepSize must be positive")
    else Success
  }

  /** khMap: for each row name of the supplied Hessian, the position of the first free variable
      with that name, or -1. */
  method BuildKhMap(names: seq<string>, varNames: seq<string>) returns (khMap: seq<int>)
    ensures |khMap| == |names|
    ensures forall nx :: 0 <= nx < |names| ==> -1 <= khMap[nx] < |varNames|
    ensures forall nx :: 0 <= nx < |names| ==> (khMap[nx] == -1 <==> names[nx] !in varNames)
    ensures forall nx :: 0 <= nx < |names| && khMap[nx] >= 0 ==>
      varNames[khMap[nx]] == names[nx] && names[nx] !in varNames[..khMap[nx]]
  {
    khMap := seq(|names|, _ => -1);
    var nx := 0;
    while nx < |names|
      invariant 0 <= nx <= |names|
      invariant |khMap| == |names|
      invariant forall t :: nx <= t < |names| ==> khMap[t] == -1
      invariant forall t :: 0 <= t < nx ==> -1 <= khMap[t] < |varNames|
      invariant forall t :: 0 <= t < nx ==> (khMap[t] == -1 <==> names[t] !in varNames)
      invariant forall t :: 0 <= t < nx && khMap[t] >= 0 ==>
        varNames[khMap[t]] == names[t] && names[t] !in varNames[..khMap[t]]
    {
      ghost var before := khMap;
      var vx := 0;
      var found := false;
      while vx < |varNames| && !found
        invariant 0 <= vx <= |varNames|
        invariant |khMap| == |names|
        invariant found ==> (0 < vx && khMap[nx] == vx - 1 && varNames[vx - 1] == names[nx]
                             && names[nx] !in varNames[..vx - 1])
        invariant !found ==> khMap[nx] == -1 && names[nx] !in varNames[..vx]
        invariant forall t :: 0 <= t < |names| && t != nx ==> khMap[t] == before[t]
      {
        if names[nx] == varNames[vx] {
          khMap := khMap[nx := vx];
          found := true;
        } else {
          assert varNames[..vx + 1] == varNames[..vx] + [varNames[vx]];
        }
        vx := vx + 1;
      }
      assert !found ==> varNames[..vx] == varNames;
      nx := nx + 1;
    }
  }

  // ---------------------------------------------------------------------------
  // Cells of an n x n buffer

  /** The position of cell (row, col) in a buffer of n x n values. */
  function Idx(row: nat, col: nat, n: nat): (k: nat)
    requires row < n && col < n
    ensures k < n * n
  {
    IndexInRange(row, col, n, n);
    row * n + col
  }

  lemma IdxInjective(n: nat)
    ensures forall r1: nat, c1: nat, r2: nat, c2: nat ::
      r1 < n && c1 < n && r2 < n && c2 < n && Idx(r1, c1, n) == Idx(r2, c2, n) ==> r1 == r2 && c1 == c2
  {
    forall r1: nat, c1: nat, r2: nat, c2: nat |
      r1 < n && c1 < n && r2 < n && c2 < n && Idx(r1, c1, n) == Idx(r2, c2, n)
      ensures r1 == r2 && c1 == c2
    {
      if r1 < r2 {
        Distribute(n, r1, 1);
        MulLe(r1 + 1, r2, n);
      } else if r2 < r1 {
        Distribute(n, r2, 1);
        MulLe(r2 + 1, r1, n);
      }
    }
  }

  // ---------------------------------------------------------------------------
  // The off-diagonal work list

  /** The order in which the work list visits pairs: i ascending, then j descending. */
  predicate Before(a: (nat, nat), b: (nat, nat))
  {
    a.0 < b.0 || (a.0 == b.0 && a.1 > b.1)
  }

  predicate Unknown(h: seq<Double>, n: nat, i: nat, j: nat)
    requires |h| == n * n && i < n && j < n
  {
    !h[Idx(i, j, n)].Fin?
  }

  /** todo: exactly the lower-triangle pairs (i, j), j < i, whose entry is not finite, each once,
      in visiting order. */
  method BuildTodo(h: seq<Double>, n: nat) returns (todo: seq<(nat, nat)>)
    requires |h| == n * n
    ensures forall i: nat, j: nat :: (i, j) in todo <==> j < i < n && Unknown(h, n, i, j)
    ensures forall a, b :: 0 <= a < b < |todo| ==> Before(todo[a], todo[b])
  {
    todo := [];
    var i: nat := 0;
    while i < n
      invariant i <= n
      invariant forall a: nat, b: nat :: (a, b) in todo <==> b < a < i && Unknown(h, n, a, b)
      invariant forall x, y :: 0 <= x < y < |todo| ==> Before(todo[x], todo[y])
      invariant forall x :: 0 <= x < |todo| ==> todo[x].0 < i
    {
      var j: int := i - 1;
      while j >= 0
        invariant -1 <= j < i
        invariant forall a: nat, b: nat :: (a, b) in todo <==>
          (b < a < i && Unknown(h, n, a, b)) || (a == i && j < b < i && Unknown(h, n, i, b))
        invariant forall x, y :: 0 <= x < y < |todo| ==> Before(todo[x], todo[y])
        invariant forall x :: 0 <= x < |todo| ==> todo[x].0 < i || (todo[x].0 == i && todo[x].1 > j)
      {
        if Unknown(h, n, i, j) {
          todo := todo + [(i, j)];
        }
        j := j - 1;
      }
      i := i + 1;
    }
  }

  // ---------------------------------------------------------------------------
  // Step offsets and probe points

  /** The first offset for a parameter at x: max(|stepSize * x|, stepSize). */
  function InitialOffset(stepSize: real, x: real): real
  {
    var a := AbsReal(stepSize * x);
    if a < stepSize then stepSize else a
  }

  /** The offset at refinement level k: halved at every level. */
  function Offset(stepSize: real, x: real, k: nat): real
  {
    InitialOffset(stepSize, x) / (Pow2(k) as real)
  }

  lemma OffsetProperties(stepSize: real, x: real, k: nat)
    ensures Offset(stepSize, x, k + 1) == Offset(stepSize, x, k) / 2.0
    ensures Offset(stepSize, x, 0) >= stepSize && Offset(stepSize, x, 0) >= AbsReal(stepSize * x)
    ensures stepSize > 0.0 ==> Offset(stepSize, x, k) > 0.0
  {
    var p := Pow2(k) as real;
    assert Pow2(k + 1) as real == 2.0 * p;
  }

  /** The points at which the diagonal estimate for parameter i probes the fit in its first k
      levels: optima with x_i moved up, then down, by the level's offset. */
  function DiagProbes(x: seq<real>, i: nat, stepSize: real, k: nat): (ps: seq<seq<real>>)
    requires i < |x|
  {
    if k == 0 then []
    else
      var d := Offset(stepSize, x[i], k - 1);
      DiagProbes(x, i, stepSize, k - 1) + [x[i := x[i] + d], x[i := x[i] - d]]
  }

  /** The points at which the off-diagonal estimate for (i, l) probes the fit: both parameters
      moved up, then both down, by their own offsets. */
  function OffDiagProbes(x: seq<real>, i: nat, l: nat, stepSize: real, k: nat): (ps: seq<seq<real>>)
    requires i < |x| && l < |x|
  {
    if k == 0 then []
    else
      var di := Offset(stepSize, x[i], k - 1);
      var dl := Offset(stepSize, x[l], k - 1);
      OffDiagProbes(x, i, l, stepSize, k - 1) + [x[i := x[i] + di][l := x[l] + dl], x[i := x[i] - di][l := x[l] - dl]]
  }

  /** Level m of a diagonal estimate probes x_i +- Offset(m) and leaves every other parameter at
      its optimum. */
  lemma {:induction false} DiagProbesShape(x: seq<real>, i: nat, stepSize: real, k: nat)
    requires i < |x|
    ensures |DiagProbes(x, i, stepSize, k)| == 2 * k
    ensures forall m :: 0 <= m < k ==>
      DiagProbes(x, i, stepSize, k)[2 * m] == x[i := x[i] + Offset(stepSize, x[i], m)]
      && DiagProbes(x, i, stepSize, k)[2 * m + 1] == x[i := x[i] - Offset(stepSize, x[i], m)]
  {
    if k > 0 {
      DiagProbesShape(x, i, stepSize, k - 1);
    }
  }

  /** Level m of an off-diagonal estimate moves x_i and x_l together by their offsets at m. */
  lemma {:induction false} OffDiagProbesShape(x: seq<real>, i: nat, l: nat, stepSize: real, k: nat)
    requires i < |x| && l < |x|
    ensures |OffDiagProbes(x, i, l, stepSize, k)| == 2 * k
    ensures forall m :: 0 <= m < k ==>
      OffDiagProbes(x, i, l, stepSize, k)[2 * m]
        == x[i := x[i] + Offset(stepSize, x[i], m)][l := x[l] + Offset(stepSize, x[l], m)]
      && OffDiagProbes(x, i, l, stepSize, k)[2 * m + 1]
        == x[i := x[i] - Offset(stepSize, x[i], m)][l := x[l] - Offset(stepSize, x[l], m)]
  {
    if k > 0 {
      OffDiagProbesShape(x, i, l, stepSize, k - 1);
    }
  }

  function Evaluations(fit: seq<real> -> Double, ps: seq<seq<real>>): (fs: seq<Double>)
  {
    seq(|ps|, j requires 0 <= j < |ps| => fit(ps[j]))
  }

  lemma EvaluationsAppend(fit: seq<real> -> Double, ps: seq<seq<real>>, a: seq<real>, b: seq<real>)
    ensures Evaluations(fit, ps + [a, b]) == Evaluations(fit, ps) + [fit(a), fit(b)]
  {
  }

  /** The numerical parts: the fit, and the finite-difference quotients with their Richardson
      extrapolation. diagonal(minimum, fs) gives (gradient, hessian) for a parameter from the fits
      fs at its probe points; offDiagonal(minimum, fs, h_ii, h_ll) the off-diagonal entry. */
  datatype Kernels = Kernels(fit: seq<real> -> Double,
                             diagonal: (Double, seq<Double>) -> (Double, Double),
                             offDiagonal: (Double, seq<Double>, Double, Double) -> Double)

  function DiagonalEstimate(k: Kernels, x: seq<real>, minimum: Double, i: nat, stepSize: real, numIter: nat): (Double, Double)
    requires i < |x|
  {
    k.diagonal(minimum, Evaluations(k.fit, DiagProbes(x, i, stepSize, numIter)))
  }

  function OffDiagonalEstimate(k: Kernels, x: seq<real>, minimum: Double, i: nat, l: nat, stepSize: real, numIter: nat,
                               hii: Double, hll: Double): Double
    requires i < |x| && l < |x|
  {
    k.offDiagonal(minimum, Evaluations(k.fit, OffDiagProbes(x, i, l, stepSize, numIter)), hii, hll)
  }

  /** Number of diagonal entries among the first d that are not finite. */
  function UnknownDiagonal(h: seq<Double>, n: nat, d: nat): (c: nat)
    requires |h| == n * n && d <= n
    ensures c <= d
  {
    if d == 0 then 0 else UnknownDiagonal(h, n, d - 1) + (if Unknown(h, n, d - 1, d - 1) then 1 else 0)
  }

  // ---------------------------------------------------------------------------
  // The supplied Hessian

  /** The last position below hi where m holds v, or -1. */
  function LastBelow(m: seq<int>, v: int, hi: nat): (r: int)
    requires hi <= |m|
    ensures -1 <= r < hi
    ensures r >= 0 ==> m[r] == v && forall t :: r < t < hi ==> m[t] != v
    ensures r == -1 <==> forall t :: 0 <= t < hi ==> m[t] != v
  {
    if hi == 0 then -1 else if m[hi - 1] == v then hi - 1 else LastBelow(m, v, hi - 1)
  }

  /** eH(r, c) after the rows 0..rows-1 of the supplied matrix kh (K x K, column-major) are copied
      into an all-NA matrix: the last write to the cell wins. */
  function MergedCell(kh: seq<Double>, m: seq<int>, r: nat, c: nat, rows: nat): Double
    requires |kh| == |m| * |m| && rows <= |m|
  {
    var rx := LastBelow(m, r, rows);
    var cx := LastBelow(m, c, |m|);
    if rx >= 0 && cx >= 0 then kh[Idx(cx, rx, |m|)] else NaN
  }

  /** A cell that no supplied row or column maps to stays NA; a mapped cell takes kh(rx, cx) from
      the last rx mapped to its row and the last cx mapped to its column (the only ones when the
      names are distinct). */
  lemma KnownCellSource(kh: seq<Double>, m: seq<int>, r: nat, c: nat)
    requires |kh| == |m| * |m|
    ensures (forall t :: 0 <= t < |m| ==> m[t] != r) ==> MergedCell(kh, m, r, c, |m|) == NaN
    ensures (forall t :: 0 <= t < |m| ==> m[t] != c) ==> MergedCell(kh, m, r, c, |m|) == NaN
    ensures forall rx: nat, cx: nat ::
      (rx < |m| && cx < |m| && m[rx] == r && m[cx] == c
       && (forall t :: rx < t < |m| ==> m[t] != r) && (forall t :: cx < t < |m| ==> m[t] != c))
      ==> MergedCell(kh, m, r, c, |m|) == kh[Idx(cx, rx, |m|)]
  {
    forall rx: nat, cx: nat | rx < |m| && cx < |m| && m[rx] == r && m[cx] == c
      && (forall t :: rx < t < |m| ==> m[t] != r) && (forall t :: cx < t < |m| ==> m[t] != c)
      ensures MergedCell(kh, m, r, c, |m|) == kh[Idx(cx, rx, |m|)]
    {
      LastBelowIs(m, r, |m|, rx);
      LastBelowIs(m, c, |m|, cx);
    }
  }

  lemma LastBelowIs(m: seq<int>, v: int, hi: nat, t: nat)
    requires t < hi <= |m| && m[t] == v && forall u :: t < u < hi ==> m[u] != v
    ensures LastBelow(m, v, hi) == t
  {
  }

  /** eH(r, c) while row rx is being merged, after its columns 0..cols-1. */
  function RowPartial(kh: seq<Double>, m: seq<int>, r: nat, c: nat, rx: nat, cols: nat): Double
    requires |kh| == |m| * |m| && rx < |m| && cols <= |m|
  {
    var cx := LastBelow(m, c, cols);
    if m[rx] >= 0 && r == m[rx] && cx >= 0 then kh[Idx(cx, rx, |m|)] else MergedCell(kh, m, r, c, rx)
  }

  /** eH(r, c) once the supplied Hessian, if any, has been merged into the all-NA matrix. */
  function Supplied(known: Option<seq<Double>>, m: seq<int>, r: nat, c: nat): Double
    requires known.Some? ==> |known.value| == |m| * |m|
  {
    if known.Some? then MergedCell(known.value, m, r, c, |m|) else NaN
  }

  /** The gradient after the diagonal pass: estimated where the diagonal entry was not supplied,
      NA where it was. */
  function EstimatedGradient(k: Kernels, known: Option<seq<Double>>, m: seq<int>, x: seq<real>, minimum: Double,
                             stepSize: real, numIter: nat): (g: seq<Double>)
    requires known.Some? ==> |known.value| == |m| * |m|
    ensures |g| == |x|
  {
    seq(|x|, i requires 0 <= i < |x| =>
      if Supplied(known, m, i, i).Fin? then NaN else DiagonalEstimate(k, x, minimum, i, stepSize, numIter).0)
  }

  // ---------------------------------------------------------------------------
  // The gradient check

  function Diffs(oldGrad: seq<Double>, grad: seq<Double>): (d: seq<Double>)
    requires |oldGrad| == |grad|
  {
    seq(|grad|, px requires 0 <= px < |grad| => Sub(oldGrad[px], grad[px]))
  }

  /** Some central-difference gradient entry differs from the previous gradient by more than 0.1. */
  predicate Disagrees(oldGrad: seq<Double>, grad: seq<Double>)
    requires |oldGrad| == |grad|
  {
    exists px :: 0 <= px < |grad| && AbsGreater(Sub(oldGrad[px], grad[px]), 0.1)
  }

  /** The difference vector has a finite norm exactly when all its entries are finite (no
      overflow on ideal reals). */
  predicate Downgrade(oldGrad: seq<Double>, grad: seq<Double>)
    requires |oldGrad| == |grad|
  {
    Disagrees(oldGrad, grad) && AllFinite(Diffs(oldGrad, grad))
  }

  function CheckedGradient(oldGrad: seq<Double>, grad: seq<Double>): (g: seq<Double>)
    requires |oldGrad| == |grad|
    ensures |g| == |grad|
  {
    if Downgrade(oldGrad, grad) then
      seq(|grad|, px requires 0 <= px < |grad| => if AbsGreater(Sub(oldGrad[px], grad[px]), 0.1) then NaN else grad[px])
    else grad
  }

  function CheckedInform(oldGrad: seq<Double>, grad: seq<Double>, inform: int): int
    requires |oldGrad| == |grad|
  {
    if Downgrade(oldGrad, grad) && inform < INFORM_NOT_AT_OPTIMUM then INFORM_NOT_AT_OPTIMUM else inform
  }

  /** A disagreement with a finite norm raises inform to at least NOT_AT_OPTIMUM and blanks exactly
      the disagreeing entries, so the checked gradient no longer disagrees; otherwise nothing
      changes. Checking twice is checking once. */
  lemma CheckedGradientProperties(oldGrad: seq<Double>, grad: seq<Double>, inform: int)
    requires |oldGrad| == |grad|
    ensures Downgrade(oldGrad, grad) ==> CheckedInform(oldGrad, grad, inform) >= INFORM_NOT_AT_OPTIMUM
    ensures CheckedInform(oldGrad, grad, inform) >= inform
    ensures CheckedInform(oldGrad, grad, inform) == inform || CheckedInform(oldGrad, grad, inform) == INFORM_NOT_AT_OPTIMUM
    ensures !Downgrade(oldGrad, grad) ==> CheckedGradient(oldGrad, grad) == grad
    ensures forall px :: 0 <= px < |grad| ==>
      (CheckedGradient(oldGrad, grad)[px] != grad[px] <==>
       Downgrade(oldGrad, grad) && AbsGreater(Sub(oldGrad[px], grad[px]), 0.1) && !grad[px].NaN?)
    ensures !Disagrees(oldGrad, CheckedGradient(oldGrad, grad)) || !Downgrade(oldGrad, grad)
    ensures CheckedGradient(oldGrad, CheckedGradient(oldGrad, grad)) == CheckedGradient(oldGrad, grad)
  {
    var g := CheckedGradient(oldGrad, grad);
    if Downgrade(oldGrad, grad) {
      forall px | 0 <= px < |grad|
        ensures !AbsGreater(Sub(oldGrad[px], g[px]), 0.1)
      {
      }
      assert !Disagrees(oldGrad, g);
    }
  }

  // ---------------------------------------------------------------------------
  // The estimator

  /** omxComputeNumericDeriv with the buffers of its fit context: est holds the parameters being
      probed, hessian the n x n Hessian, gradient the gradient. Only the serial schedule is
      modelled (one work area). */
  class NumericDeriv {
    const stepSize: real
    const numIter: nat
    const n: nat
    const est: array<real>
    const hessian: array<Double>
    const gradient: array<Double>
    var optima: seq<real>
    var minimum: Double
    var probeCount: nat
    /** Every point the fit was evaluated at by the estimators, in order. */
    ghost var probes: seq<seq<real>>

    ghost predicate Valid()
      reads this
    {
      est.Length == n && hessian.Length == n * n && gradient.Length == n && |optima| == n && hessian != gradient
    }

    constructor (stepSize: real, numIter: nat, start: seq<real>)
      ensures Valid()
      ensures this.stepSize == stepSize && this.numIter == numIter && n == |start|
      ensures est[..] == start && optima == start && probeCount == 0 && probes == []
      ensures fresh(est) && fresh(hessian) && fresh(gradient)
    {
      this.stepSize := stepSize;
      this.numIter := numIter;
      n := |start|;
      est := new real[|start|](i requires 0 <= i < |start| => start[i]);
      hessian := new Double[|start| * |start|](_ => NaN);
      gradient := new Double[|start|](_ => NaN);
      optima := start;
      minimum := NaN;
      probeCount := 0;
      probes := [];
    }

    /** One evaluation of the fit at the current parameters. */
    method Probe(k: Kernels) returns (f: Double)
      requires Valid()
      modifies this`probeCount, this`probes
      ensures Valid()
      ensures f == k.fit(est[..])
      ensures probeCount == old(probeCount) + 1 && probes == old(probes) + [est[..]]
    {
      probeCount := probeCount + 1;
      probes := probes + [est[..]];
      f := k.fit(est[..]);
    }

    /** Evaluates the fit with x_i moved to v, then puts x_i back. */
    method ProbeShifted(i: nat, v: real, k: Kernels) returns (f: Double)
      requires Valid() && i < n && est[..] == optima
      modifies this`probeCount, this`probes, est
      ensures Valid() && est[..] == optima
      ensures f == k.fit(optima[i := v])
      ensures probeCount == old(probeCount) + 1 && probes == old(probes) + [optima[i := v]]
    {
      est[i] := v;
      f := Probe(k);
      est[i] := optima[i];
    }

    /** Evaluates the fit with x_i moved to vi and x_l to vl, then puts both back. */
    method ProbeShiftedPair(i: nat, vi: real, l: nat, vl: real, k: Kernels) returns (f: Double)
      requires Valid() && i < n && l < n && est[..] == optima
      modifies this`probeCount, this`probes, est
      ensures Valid() && est[..] == optima
      ensures f == k.fit(optima[i := vi][l := vl])
      ensures probeCount == old(probeCount) + 1 && probes == old(probes) + [optima[i := vi][l := vl]]
    {
      est[i] := vi;
      est[l] := vl;
      f := Probe(k);
      est[i] := optima[i];
      est[l] := optima[l];
    }

    /** omxEstimateHessianOnDiagonal: numIter levels, each probing x_i +- offset and restoring
      x_i; then the gradient and the diagonal entry i are written, nothing else. */
    method EstimateOnDiagonal(i: nat, k: Kernels)
      requires Valid() && i < n && est[..] == optima
      modifies this`probeCount, this`probes, est, hessian, gradient
      ensures Valid() && est[..] == optima
      ensures probeCount == old(probeCount) + 2 * numIter
      ensures probes == old(probes) + DiagProbes(optima, i, stepSize, numIter)
      ensures hessian[..] == old(hessian[..])[Idx(i, i, n) := DiagonalEstimate(k, optima, minimum, i, stepSize, numIter).1]
      ensures gradient[..] == old(gradient[..])[i := DiagonalEstimate(k, optima, minimum, i, stepSize, numIter).0]
    {
      var off := InitialOffset(stepSize, optima[i]);
      var fs: seq<Double> := [];
      var lvl := 0;
      while lvl < numIter
        modifies this`probeCount, this`probes, est
        invariant 0 <= lvl <= numIter
        invariant Valid() && est[..] == optima
        invariant off == Offset(stepSize, optima[i], lvl)
        invariant probeCount == old(probeCount) + 2 * lvl
        invariant probes == old(probes) + DiagProbes(optima, i, stepSize, lvl)
        invariant fs == Evaluations(k.fit, DiagProbes(optima, i, stepSize, lvl))
      {
        var f1 := ProbeShifted(i, optima[i] + off, k);
        var f2 := ProbeShifted(i, optima[i] - off, k);
        EvaluationsAppend(k.fit, DiagProbes(optima, i, stepSize, lvl), optima[i := optima[i] + off], optima[i := optima[i] - off]);
        fs := fs + [f1, f2];
        OffsetProperties(stepSize, optima[i], lvl);
        off := off / 2.0;
        lvl := lvl + 1;
      }
      var ests := k.diagonal(minimum, fs);
      gradient[i] := ests.0;
      hessian[Idx(i, i, n)] := ests.1;
    }

    /** omxEstimateHessianOffDiagonal: numIter levels moving x_i and x_l together and restoring
      both; the estimate is written to (i, l) and to (l, i). */
    method EstimateOffDiagonal(i: nat, l: nat, k: Kernels)
      requires Valid() && l < i < n && est[..] == optima
      modifies this`probeCount, this`probes, est, hessian
      ensures Valid() && est[..] == optima
      ensures probeCount == old(probeCount) + 2 * numIter
      ensures probes == old(probes) + OffDiagProbes(optima, i, l, stepSize, numIter)
      ensures hessian[..] == old(hessian[..])
        [Idx(i, l, n) := OffDiagonalEstimate(k, optima, minimum, i, l, stepSize, numIter,
                                             old(hessian[Idx(i, i, n)]), old(hessian[Idx(l, l, n)]))]
        [Idx(l, i, n) := OffDiagonalEstimate(k, optima, minimum, i, l, stepSize, numIter,
                                             old(hessian[Idx(i, i, n)]), old(hessian[Idx(l, l, n)]))]
    {
      var iOffset := InitialOffset(stepSize, optima[i]);
      var lOffset := InitialOffset(stepSize, optima[l]);
      var fs: seq<Double> := [];
      var lvl := 0;
      while lvl < numIter
        modifies this`probeCount, this`probes, est
        invariant 0 <= lvl <= numIter
        invariant Valid() && est[..] == optima
        invariant iOffset == Offset(stepSize, optima[i], lvl) && lOffset == Offset(stepSize, optima[l], lvl)
        invariant probeCount == old(probeCount) + 2 * lvl
        invariant probes == old(probes) + OffDiagProbes(optima, i, l, stepSize, lvl)
        invariant fs == Evaluations(k.fit, OffDiagProbes(optima, i, l, stepSize, lvl))
      {
        var f1 := ProbeShiftedPair(i, optima[i] + iOffset, l, optima[l] + lOffset, k);
        var f2 := ProbeShiftedPair(i, optima[i] - iOffset, l, optima[l] - lOffset, k);
        EvaluationsAppend(k.fit, OffDiagProbes(optima, i, l, stepSize, lvl),
                          optima[i := optima[i] + iOffset][l := optima[l] + lOffset],
                          optima[i := optima[i] - iOffset][l := optima[l] - lOffset]);
        fs := fs + [f1, f2];
        OffsetProperties(stepSize, optima[i], lvl);
        OffsetProperties(stepSize, optima[l], lvl);
        iOffset := iOffset / 2.0;
        lOffset := lOffset / 2.0;
        lvl := lvl + 1;
      }
      var v := k.offDiagonal(minimum, fs, hessian[Idx(i, i, n)], hessian[Idx(l, l, n)]);
      hessian[Idx(i, l, n)] := v;
      hessian[Idx(l, i, n)] := v;
    }

    /** The first loop of doHessianCalculation: every diagonal entry that is not finite is
      estimated, with its gradient entry; nothing off the diagonal changes. */
    method EstimateDiagonals(k: Kernels)
      requires Valid() && est[..] == optima
      modifies this`probeCount, this`probes, est, hessian, gradient
      ensures Valid() && est[..] == optima
      ensures probeCount == old(probeCount) + 2 * numIter * UnknownDiagonal(old(hessian[..]), n, n)
      ensures forall x: nat, y: nat :: x < n && y < n && x != y ==> hessian[Idx(x, y, n)] == old(hessian[Idx(x, y, n)])
      ensures forall i: nat :: i < n ==>
        if Unknown(old(hessian[..]), n, i, i) then
          hessian[Idx(i, i, n)] == DiagonalEstimate(k, optima, minimum, i, stepSize, numIter).1
          && gradient[i] == DiagonalEstimate(k, optima, minimum, i, stepSize, numIter).0
        else hessian[Idx(i, i, n)] == old(hessian[Idx(i, i, n)]) && gradient[i] == old(gradient[i])
    {
      ghost var h0 := hessian[..];
      ghost var g0 := gradient[..];
      IdxInjective(n);
      var d := 0;
      while d < n
        modifies this`probeCount, this`probes, est, hessian, gradient
        invariant d <= n && Valid() && est[..] == optima
        invariant probeCount == old(probeCount) + 2 * numIter * UnknownDiagonal(h0, n, d)
        invariant forall x: nat, y: nat :: x < n && y < n && x != y ==> hessian[Idx(x, y, n)] == h0[Idx(x, y, n)]
        invariant forall x: nat :: x < n ==>
          if x < d && Unknown(h0, n, x, x) then
            hessian[Idx(x, x, n)] == DiagonalEstimate(k, optima, minimum, x, stepSize, numIter).1
            && gradient[x] == DiagonalEstimate(k, optima, minimum, x, stepSize, numIter).0
          else hessian[Idx(x, x, n)] == h0[Idx(x, x, n)] && gradient[x] == g0[x]
      {
        if !hessian[Idx(d, d, n)].Fin? {
          Distribute(2 * numIter, UnknownDiagonal(h0, n, d), 1);
          EstimateOnDiagonal(d, k);
        }
        d := d + 1;
      }
    }

    /** The second loop of doHessianCalculation: each listed pair (i, j), j < i, is estimated and
      written to both (i, j) and (j, i); the diagonal stays as it was. */
    method EstimateListed(k: Kernels, todo: seq<(nat, nat)>)
      requires Valid() && est[..] == optima
      requires forall t :: 0 <= t < |todo| ==> todo[t].1 < todo[t].0 < n
      modifies this`probeCount, this`probes, est, hessian
      ensures Valid() && est[..] == optima
      ensures probeCount == old(probeCount) + 2 * numIter * |todo|
      ensures forall x: nat :: x < n ==> hessian[Idx(x, x, n)] == old(hessian[Idx(x, x, n)])
      ensures forall x: nat, y: nat :: y < x < n ==>
        if (x, y) in todo then
          hessian[Idx(x, y, n)] == OffDiagonalEstimate(k, optima, minimum, x, y, stepSize, numIter,
                                                       old(hessian[Idx(x, x, n)]), old(hessian[Idx(y, y, n)]))
          && hessian[Idx(y, x, n)] == hessian[Idx(x, y, n)]
        else hessian[Idx(x, y, n)] == old(hessian[Idx(x, y, n)]) && hessian[Idx(y, x, n)] == old(hessian[Idx(y, x, n)])
    {
      ghost var h1 := hessian[..];
      IdxInjective(n);
      var t := 0;
      while t < |todo|
        modifies this`probeCount, this`probes, est, hessian
        invariant t <= |todo| && Valid() && est[..] == optima
        invariant probeCount == old(probeCount) + 2 * numIter * t
        invariant forall x: nat :: x < n ==> hessian[Idx(x, x, n)] == h1[Idx(x, x, n)]
        invariant forall x: nat, y: nat :: y < x < n ==>
          if (x, y) in todo[..t] then
            hessian[Idx(x, y, n)] == OffDiagonalEstimate(k, optima, minimum, x, y, stepSize, numIter,
                                                         h1[Idx(x, x, n)], h1[Idx(y, y, n)])
            && hessian[Idx(y, x, n)] == hessian[Idx(x, y, n)]
          else hessian[Idx(x, y, n)] == h1[Idx(x, y, n)] && hessian[Idx(y, x, n)] == h1[Idx(y, x, n)]
      {
        var (a, b) := todo[t];
        assert todo[..t + 1] == todo[..t] + [(a, b)];
        Distribute(2 * numIter, t, 1);
        EstimateOffDiagonal(a, b, k);
        t := t + 1;
      }
      assert todo[..t] == todo;
    }

    /** doHessianCalculation, serial schedule: the work list is taken from the entries as they
      stand; every diagonal entry that is not finite is estimated (with its gradient entry), then
      every listed pair, symmetrically. A finite entry on or below the diagonal is kept; the
      entry above the diagonal takes the value written below it, so a finite upper entry whose
      lower partner is estimated is overwritten. */
    method DoHessianCalculation(k: Kernels) returns (todo: seq<(nat, nat)>)
      requires Valid() && est[..] == optima
      modifies this`probeCount, this`probes, est, hessian, gradient
      ensures Valid() && est[..] == optima
      ensures forall i: nat, j: nat :: (i, j) in todo <==> j < i < n && Unknown(old(hessian[..]), n, i, j)
      ensures probeCount == old(probeCount) + 2 * numIter * (UnknownDiagonal(old(hessian[..]), n, n) + |todo|)
      ensures forall i: nat :: i < n ==>
        if Unknown(old(hessian[..]), n, i, i) then
          hessian[Idx(i, i, n)] == DiagonalEstimate(k, optima, minimum, i, stepSize, numIter).1
          && gradient[i] == DiagonalEstimate(k, optima, minimum, i, stepSize, numIter).0
        else hessian[Idx(i, i, n)] == old(hessian[Idx(i, i, n)]) && gradient[i] == old(gradient[i])
      ensures forall i: nat, j: nat :: j < i < n ==>
        if Unknown(old(hessian[..]), n, i, j) then
          hessian[Idx(i, j, n)] == OffDiagonalEstimate(k, optima, minimum, i, j, stepSize, numIter,
                                                       hessian[Idx(i, i, n)], hessian[Idx(j, j, n)])
          && hessian[Idx(j, i, n)] == hessian[Idx(i, j, n)]
        else hessian[Idx(i, j, n)] == old(hessian[Idx(i, j, n)]) && hessian[Idx(j, i, n)] == old(hessian[Idx(j, i, n)])
    {
      todo := BuildTodo(hessian[..], n);
      forall t | 0 <= t < |todo|
        ensures todo[t].1 < todo[t].0 < n
      {
        assert todo[t] in todo;
      }
      EstimateDiagonals(k);
      EstimateListed(k, todo);
      Distribute(2 * numIter, UnknownDiagonal(old(hessian[..]), n, n), |todo|);
    }

    /** The merge of a supplied Hessian kh (K x K, column-major) into the all-NA Hessian: for every
      pair of mapped rows rx, cx, eH(khMap[rx], khMap[cx]) = kh(rx, cx), where eH(r, c) is
      hessian[c * n + r]. */
    method MergeKnownHessian(kh: seq<Double>, m: seq<int>)
      requires Valid() && |kh| == |m| * |m|
      requires forall t :: 0 <= t < |m| ==> m[t] < n
      requires forall x :: 0 <= x < hessian.Length ==> hessian[x] == NaN
      modifies hessian
      ensures forall r: nat, c: nat :: r < n && c < n ==> hessian[Idx(c, r, n)] == MergedCell(kh, m, r, c, |m|)
    {
      IdxInjective(n);
      var size := |m|;
      for rx := 0 to size
        invariant forall r: nat, c: nat :: r < n && c < n ==> hessian[Idx(c, r, n)] == MergedCell(kh, m, r, c, rx)
      {
        for cx := 0 to size
          invariant forall r: nat, c: nat :: r < n && c < n ==> hessian[Idx(c, r, n)] == RowPartial(kh, m, r, c, rx, cx)
        {
          if m[rx] >= 0 && m[cx] >= 0 {
            hessian[Idx(m[cx], m[rx], n)] := kh[Idx(cx, rx, size)];
          }
        }
      }
    }

    /** The comparison of the central-difference gradient with the one held before. */
    method CheckGradient(oldGrad: seq<Double>, inform: int) returns (informOut: int)
      requires Valid() && |oldGrad| == n
      modifies gradient
      ensures gradient[..] == CheckedGradient(oldGrad, old(gradient[..]))
      ensures informOut == CheckedInform(oldGrad, old(gradient[..]), inform)
    {
      informOut := inform;
      if Disagrees(oldGrad, gradient[..]) && AllFinite(Diffs(oldGrad, gradient[..])) {
        if informOut < INFORM_NOT_AT_OPTIMUM {
          informOut := INFORM_NOT_AT_OPTIMUM;
        }
        ghost var g0 := gradient[..];
        for px := 0 to n
          invariant forall x :: 0 <= x < n ==> gradient[x] == if x < px then CheckedGradient(oldGrad, g0)[x] else g0[x]
        {
          if AbsGreater(Sub(oldGrad[px], gradient[px]), 0.1) {
            gradient[px] := NaN;
          }
        }
        assert gradient[..] == CheckedGradient(oldGrad, g0);
      }
    }

    /** computeImpl: no free parameters is an error; a reference fit that is not finite skips
      the computation. Otherwise the Hessian starts as NA with the supplied entries merged in,
      the gradient as NA; the schedule fills in the rest, and the gradient check may raise
      inform. The parameters are left at the optimum. */
    method ComputeImpl(k: Kernels, known: Option<seq<Double>>, khMap: seq<int>, hasGradient: bool, inform: int)
      returns (out: Outcome, informOut: int)
      requires Valid()
      requires known.Some? ==> |known.value| == |khMap| * |khMap|
      requires forall t :: 0 <= t < |khMap| ==> khMap[t] < n
      modifies this`optima, this`minimum, this`probeCount, this`probes, est, hessian, gradient
      ensures Valid() && est[..] == old(est[..])
      ensures out.Failure? <==> n == 0
      ensures n == 0 || !k.fit(old(est[..])).Fin? ==>
        informOut == inform && hessian[..] == old(hessian[..]) && gradient[..] == old(gradient[..])
        && probeCount == old(probeCount)
      ensures n > 0 && k.fit(old(est[..])).Fin? ==>
        optima == old(est[..]) && minimum == k.fit(optima)
        && informOut == (if hasGradient
                         then CheckedInform(old(gradient[..]), EstimatedGradient(k, known, khMap, optima, minimum, stepSize, numIter), inform)
                         else inform)
        && gradient[..] == (if hasGradient
                            then CheckedGradient(old(gradient[..]), EstimatedGradient(k, known, khMap, optima, minimum, stepSize, numIter))
                            else EstimatedGradient(k, known, khMap, optima, minimum, stepSize, numIter))
      ensures n > 0 && k.fit(old(est[..])).Fin? ==> forall i: nat :: i < n ==>
        hessian[Idx(i, i, n)] == if Supplied(known, khMap, i, i).Fin? then Supplied(known, khMap, i, i)
                                 else DiagonalEstimate(k, optima, minimum, i, stepSize, numIter).1
      ensures n > 0 && k.fit(old(est[..])).Fin? ==> forall i: nat, j: nat :: j < i < n ==>
        if Supplied(known, khMap, j, i).Fin? then
          hessian[Idx(i, j, n)] == Supplied(known, khMap, j, i) && hessian[Idx(j, i, n)] == Supplied(known, khMap, i, j)
        else
          hessian[Idx(i, j, n)] == OffDiagonalEstimate(k, optima, minimum, i, j, stepSize, numIter,
                                                       hessian[Idx(i, i, n)], hessian[Idx(j, j, n)])
          && hessian[Idx(j, i, n)] == hessian[Idx(i, j, n)]
    {
      informOut := inform;
      if n == 0 {
        return Failure("Model has no free parameters"), inform;
      }
      out := Success;
      optima := est[..];
      minimum := k.fit(est[..]);
      if !minimum.Fin? {
        return;
      }
      forall x | 0 <= x < hessian.Length {
        hessian[x] := NaN;
      }
      var oldGrad := gradient[..];
      assert oldGrad == old(gradient[..]);
      forall x | 0 <= x < gradient.Length {
        gradient[x] := NaN;
      }
      if known.Some? {
        MergeKnownHessian(known.value, khMap);
      }
      ghost var start := hessian[..];
      assert forall r: nat, c: nat :: r < n && c < n ==> start[Idx(c, r, n)] == Supplied(known, khMap, r, c);
      var todo := DoHessianCalculation(k);
      ghost var eg := EstimatedGradient(k, known, khMap, optima, minimum, stepSize, numIter);
      assert gradient[..] == eg;
      if hasGradient {
        informOut := CheckGradient(oldGrad, inform);
        assert gradient[..] == CheckedGradient(oldGrad, eg);
        assert informOut == CheckedInform(oldGrad, eg, inform);
      }
      ghost var gFinal := gradient[..];
      forall x | 0 <= x < n {
        est[x] := optima[x];
      }
      assert gradient[..] == gFinal;
    }
  }
}
