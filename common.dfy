// Shared vocabulary of the OpenMx backend model: optional values, results of
// operations that may throw, IEEE doubles with their non-finite values, and a
// few sequence helpers used by several modules.
module Common {

  datatype Option<T> = None | Some(value: T)

  /** The outcome of an operation that may raise an error (mxThrow / Rf_error). */
  datatype Result<T> = Ok(value: T) | Err(msg: string)
  {
    predicate IsFailure() { Err? }
  }

  /** The outcome of an operation that returns nothing but may raise an error. */
  datatype Outcome = Success | Failure(msg: string)

  /** An IEEE double: a finite value, an infinity, or NaN (which is also R's NA_REAL).
      Finite values are ideal reals: rounding and overflow are not modelled. */
  datatype Double = Fin(r: real) | PosInf | NegInf | NaN
  {
    predicate IsFinite() { Fin? }
  }

  /** a - b on doubles. */
  function Sub(a: Double, b: Double): (d: Double)
    ensures d.Fin? <==> a.Fin? && b.Fin?
    ensures a.NaN? || b.NaN? ==> d.NaN?
  {
    match (a, b)
    case (Fin(x), Fin(y)) => Fin(x - y)
    case (NaN, _) => NaN
    case (_, NaN) => NaN
    case (PosInf, PosInf) => NaN
    case (NegInf, NegInf) => NaN
    case (PosInf, _) => PosInf
    case (NegInf, _) => NegInf
    case (_, PosInf) => NegInf
    case (_, NegInf) => PosInf
  }

  /** a + b on doubles. */
  function Add(a: Double, b: Double): (d: Double)
    ensures d.Fin? <==> a.Fin? && b.Fin?
    ensures a.NaN? || b.NaN? ==> d.NaN?
  {
    match (a, b)
    case (Fin(x), Fin(y)) => Fin(x + y)
    case (NaN, _) => NaN
    case (_, NaN) => NaN
    case (PosInf, NegInf) => NaN
    case (NegInf, PosInf) => NaN
    case (PosInf, _) => PosInf
    case (NegInf, _) => NegInf
    case (_, PosInf) => PosInf
    case (_, NegInf) => NegInf
  }

  predicate AllFinite(s: seq<Double>)
  {
    forall k :: 0 <= k < |s| ==> s[k].Fin?
  }

  /** The sum of a vector of doubles, added from the front; it is finite exactly when every entry is. */
  function DSum(s: seq<Double>): (d: Double)
    ensures d.Fin? <==> AllFinite(s)
  {
    if |s| == 0 then Fin(0.0)
    else
      var d := Add(DSum(s[..|s| - 1]), s[|s| - 1]);
      assert AllFinite(s) <==> AllFinite(s[..|s| - 1]) && s[|s| - 1].Fin?;
      d
  }

  /** fabs on doubles. */
  function Abs(d: Double): (a: Double)
    ensures a.Fin? <==> d.Fin?
    ensures a.Fin? ==> a.r >= 0.0
  {
    match d
    case Fin(x) => if x < 0.0 then Fin(-x) else Fin(x)
    case PosInf => PosInf
    case NegInf => PosInf
    case NaN => NaN
  }

  /** fabs on a finite value. */
  function AbsReal(x: real): (a: real)
    ensures a >= 0.0 && (a == x || a == -x)
  {
    if x < 0.0 then -x else x
  }

  /** -d on doubles. */
  function Neg(d: Double): (n: Double)
    ensures n.Fin? <==> d.Fin?
  {
    match d
    case Fin(x) => Fin(-x)
    case PosInf => NegInf
    case NegInf => PosInf
    case NaN => NaN
  }

  /** fabs(d) > t, with the IEEE rule that every comparison with NaN is false. */
  predicate AbsGreater(d: Double, t: real)
  {
    match d
    case Fin(x) => x > t || -x > t
    case PosInf => true
    case NegInf => true
    case NaN => false
  }

  /** The result codes of an optimizer or derivative computation (ComputeInform). */
  const INFORM_UNINITIALIZED: int := -1
  const INFORM_CONVERGED_OPTIMUM: int := 0
  const INFORM_UNCONVERGED_OPTIMUM: int := 1
  const INFORM_ITERATION_LIMIT: int := 4
  const INFORM_NOT_AT_OPTIMUM: int := 6

  function Sum(s: seq<real>): real
  {
    if |s| == 0 then 0.0 else Sum(s[..|s| - 1]) + s[|s| - 1]
  }

  lemma {:induction false} SumAppend(s: seq<real>, x: real)
    ensures Sum(s + [x]) == Sum(s) + x
  {
    assert (s + [x])[..|s|] == s;
  }

  /** Number of false entries of a mask. */
  function CountFalse(s: seq<bool>): (n: nat)
    ensures n <= |s|
  {
    if |s| == 0 then 0 else CountFalse(s[..|s| - 1]) + (if s[|s| - 1] then 0 else 1)
  }

  lemma {:induction false} CountFalseAppend(s: seq<bool>, b: bool)
    ensures CountFalse(s + [b]) == CountFalse(s) + (if b then 0 else 1)
  {
    assert (s + [b])[..|s|] == s;
  }

  function Pow2(k: nat): (p: nat)
    ensures p >= 1
  {
    if k == 0 then 1 else 2 * Pow2(k - 1)
  }

  lemma {:induction false} MulLe(a: nat, b: nat, c: nat)
    requires a <= b
    ensures a * c <= b * c
  {
    if c > 0 {
      MulLe(a, b, c - 1);
      assert a * c == a * (c - 1) + a;
      assert b * c == b * (c - 1) + b;
    }
  }

  /** Integer division by a positive number is monotone. */
  lemma DivMonotone(a: nat, b: nat, n: nat)
    requires a <= b && n > 0
    ensures a / n <= b / n
  {
    var qa: nat, qb: nat := a / n, b / n;
    assert qa * n <= a;
    assert b < (qb + 1) * n;
    if qa > qb {
      MulLe(qb + 1, qa, n);
    }
  }

  /** k * stride built by repeated addition, so that proofs about consecutive blocks of
      stride elements stay linear. */
  function Strided(k: nat, stride: nat): nat
  {
    if k == 0 then 0 else Strided(k - 1, stride) + stride
  }

  lemma {:induction false} StridedIsProduct(k: nat, stride: nat)
    ensures Strided(k, stride) == stride * k == k * stride
  {
    if k > 0 {
      StridedIsProduct(k - 1, stride);
      Distribute(stride, k - 1, 1);
    }
  }

  lemma {:induction false} StridedMonotone(j: nat, k: nat, stride: nat)
    requires j <= k
    ensures Strided(j, stride) <= Strided(k, stride)
    decreases k - j
  {
    if j < k {
      StridedMonotone(j + 1, k, stride);
    }
  }

  /** Multiplying by a positive number and dividing by it again gives back the start. */
  lemma MulDivCancel(a: nat, n: nat)
    requires n > 0
    ensures n * a / n == a
  {
    var q := n * a / n;
    assert q * n <= n * a < q * n + n;
    if q < a {
      MulLe(q + 1, a, n);
    } else if q > a {
      MulLe(a + 1, q, n);
    }
  }

  lemma Distribute(a: nat, b: nat, c: nat)
    ensures a * (b + c) == a * b + a * c
    ensures (b + c) * a == b * a + c * a
  {
  }

  /** Position major * minors + minor of a buffer holding majors blocks of minors values lies
      inside the buffer. */
  lemma IndexInRange(major: nat, minor: nat, majors: nat, minors: nat)
    requires major < majors && minor < minors
    ensures major * minors + minor < majors * minors
  {
    Distribute(minors, major, 1);
    MulLe(major + 1, majors, minors);
  }

  function DigitChar(d: nat): char
    requires d < 10
  {
    ['0', '1', '2', '3', '4', '5', '6', '7', '8', '9'][d]
  }

  /** Decimal rendering of a natural number, as "%d" prints it. */
  function NatToString(n: nat): (s: string)
    ensures |s| >= 1
    decreases n
  {
    if n < 10 then [DigitChar(n)] else NatToString(n / 10) + [DigitChar(n % 10)]
  }
}
