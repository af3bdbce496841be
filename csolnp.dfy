// The control logic of the CSOLNP optimizer (asubnp.cpp), over ideal reals.
// The linear algebra of each minor iteration (the QP step, the BFGS update,
// scaling) is an input: the candidate point a minor iteration proposes, and
// the merit value and objective/constraint vector at a probed point.
module Csolnp {
  import opened Common

  // ---------------------------------------------------------------------------
  // Passes and bounds

  /** One pass of the driver: whether it only seeks a feasible start, and the number of
      inequality constraints it works with. */
  datatype Pass = Pass(feasibilityOnly: bool, nineq: nat)

  predicate SomeNegative(s: seq<real>)
  {
    exists i :: 0 <= i < |s| && s[i] < 0.0
  }

  /** The driver's pass loop. ineqv holds the negated initial inequality values: a second pass
      is planned iff one of them is negative, and during the first of two passes the inequalities
      are dropped. The flag is cleared at the end of every pass. */
  method PassSchedule(ineqv: seq<real>) returns (passes: seq<Pass>, flagAfter: bool)
    ensures |passes| == 2 <==> SomeNegative(ineqv)
    ensures |passes| == 1 <==> !SomeNegative(ineqv)
    ensures |passes| == 2 ==> passes[0] == Pass(true, 0)
    ensures passes[|passes| - 1] == Pass(false, |ineqv|)
    ensures !flagAfter
  {
    var flag: bool;
    var numCalls: nat;
    var any := false;
    var k := 0;
    while k < |ineqv|
      invariant 0 <= k <= |ineqv|
      invariant any <==> exists i :: 0 <= i < k && ineqv[i] < 0.0
    {
      if ineqv[k] < 0.0 {
        any := true;
      }
      k := k + 1;
    }
    if any {
      flag := true;
      numCalls := 2;
    } else {
      flag := false;
      numCalls := 1;
    }
    passes := [];
    var i := 1;
    while i <= numCalls
      invariant 1 <= i <= numCalls + 1
      invariant |passes| == i - 1
      invariant flag <==> any && i == 1
      invariant any && i > 1 ==> passes[0] == Pass(true, 0)
      invariant !any && i > 1 ==> passes[0] == Pass(false, |ineqv|)
      invariant i == 3 ==> passes[1] == Pass(false, |ineqv|)
    {
      var nineq := if flag then 0 else |ineqv|;
      passes := passes + [Pass(flag, nineq)];
      flag := false;
      i := i + 1;
    }
    flagAfter := flag;
  }

  /** One row of the bound table: lower and upper bound. */
  datatype Bound = Bound(lower: Double, upper: Double)

  function Slacks(n: nat): (r: seq<Bound>)
  {
    if n == 0 then [] else Slacks(n - 1) + [Bound(Fin(0.0), PosInf)]
  }

  function ParamBounds(lb: seq<Double>, ub: seq<Double>): (r: seq<Bound>)
    requires |lb| == |ub|
  {
    if |lb| == 0 then [] else ParamBounds(lb[..|lb| - 1], ub[..|ub| - 1]) + [Bound(lb[|lb| - 1], ub[|ub| - 1])]
  }

  /** The bound table pb: one [0, INF] row per inequality slack, then the parameter bounds. */
  function BoundTable(nineq: nat, lb: seq<Double>, ub: seq<Double>): (pb: seq<Bound>)
    requires |lb| == |ub|
  {
    Slacks(nineq) + ParamBounds(lb, ub)
  }

  lemma {:induction false} SlacksLayout(n: nat)
    ensures |Slacks(n)| == n
    ensures forall i :: 0 <= i < n ==> Slacks(n)[i] == Bound(Fin(0.0), PosInf)
  {
    if n > 0 {
      SlacksLayout(n - 1);
    }
  }

  lemma {:induction false} ParamBoundsLayout(lb: seq<Double>, ub: seq<Double>)
    requires |lb| == |ub|
    ensures |ParamBounds(lb, ub)| == |lb|
    ensures forall i :: 0 <= i < |lb| ==> ParamBounds(lb, ub)[i] == Bound(lb[i], ub[i])
  {
    if |lb| > 0 {
      ParamBoundsLayout(lb[..|lb| - 1], ub[..|ub| - 1]);
    }
  }

  /** Rows 0..nineq-1 are [0, INF] and row nineq+i is [LB_i, UB_i]; with no inequalities the
      table is just the parameter rows. */
  lemma BoundTableLayout(nineq: nat, lb: seq<Double>, ub: seq<Double>)
    requires |lb| == |ub|
    ensures |BoundTable(nineq, lb, ub)| == nineq + |lb|
    ensures forall i :: 0 <= i < nineq ==> BoundTable(nineq, lb, ub)[i] == Bound(Fin(0.0), PosInf)
    ensures forall i :: 0 <= i < |lb| ==> BoundTable(nineq, lb, ub)[nineq + i] == Bound(lb[i], ub[i])
  {
    SlacksLayout(nineq);
    ParamBoundsLayout(lb, ub);
  }

  // ---------------------------------------------------------------------------
  // The objective/constraint vector (obj_constr_eval)

  /** The value every entry takes when the objective or the vector is not finite. */
  const BIG: real := 1000000000000000000000000.0

  function Filled(n: nat): (r: seq<Double>)
  {
    seq(n, _ => Fin(BIG))
  }

  /** min(d, 0) as std::min(d, 0.0) computes it: NaN is kept. */
  function MinZero(d: Double): Double
  {
    match d
    case Fin(x) => if 0.0 < x then Fin(0.0) else Fin(x)
    case PosInf => Fin(0.0)
    case NegInf => NegInf
    case NaN => NaN
  }

  function MinZeroAll(s: seq<Double>): (r: seq<Double>)
  {
    seq(|s|, k requires 0 <= k < |s| => MinZero(s[k]))
  }

  /** The first entry in a feasibility pass: the total violation of the inequalities, less 1e-4. */
  function Violation(ineq: seq<Double>): Double
  {
    Sub(Abs(DSum(MinZeroAll(ineq))), Fin(0.0001))
  }

  /** The vector written in a feasibility pass: the violation, the equality values, and whatever
      the buffer held beyond them. */
  function FeasibilityLayout(eq: seq<Double>, ineq: seq<Double>, fitVal: seq<Double>): seq<Double>
    requires |fitVal| >= 1 + |eq|
  {
    [Violation(ineq)] + eq + fitVal[1 + |eq|..]
  }

  /** obj_constr_eval. feasibilityPass is the driver's flag for the first of two passes; fitVal
      is the buffer the result is written into. Every entry of the result is finite: a
      non-finite objective or a non-finite entry replaces the whole vector by 1e24. */
  method ObjConstrEval(feasibilityPass: bool, obj: Double, eq: seq<Double>, ineq: seq<Double>, fitVal: seq<Double>)
    returns (out: seq<Double>)
    requires feasibilityPass && obj.Fin? ==> |fitVal| >= 1 + |eq|
    ensures AllFinite(out)
    ensures !obj.Fin? ==> out == Filled(|fitVal|)
    ensures obj.Fin? && !feasibilityPass && AllFinite(eq + ineq) ==> out == [obj] + eq + ineq
    ensures obj.Fin? && !feasibilityPass && !AllFinite(eq + ineq) ==> out == Filled(1 + |eq| + |ineq|)
    ensures obj.Fin? && feasibilityPass && AllFinite(FeasibilityLayout(eq, ineq, fitVal)) ==>
      out == FeasibilityLayout(eq, ineq, fitVal)
    ensures obj.Fin? && feasibilityPass && !AllFinite(FeasibilityLayout(eq, ineq, fitVal)) ==>
      out == Filled(|fitVal|)
  {
    if !obj.Fin? {
      return Filled(|fitVal|);
    }
    if feasibilityPass {
      var total := DSum(MinZeroAll(ineq));
      out := fitVal[0 := Sub(Abs(total), Fin(0.0001))];
      var ix := 0;
      while ix < |eq|
        invariant 0 <= ix <= |eq|
        invariant |out| == |fitVal|
        invariant out[..1 + ix] == [Violation(ineq)] + eq[..ix]
        invariant out[1 + |eq|..] == fitVal[1 + |eq|..]
      {
        out := out[1 + ix := eq[ix]];
        ix := ix + 1;
      }
      assert out == FeasibilityLayout(eq, ineq, fitVal) by {
        assert out == out[..1 + |eq|] + out[1 + |eq|..];
        assert eq[..|eq|] == eq;
      }
    } else {
      out := seq(1 + |eq| + |ineq|, _ => NaN);
      out := out[0 := obj];
      var ix := 0;
      while ix < |eq|
        invariant 0 <= ix <= |eq|
        invariant |out| == 1 + |eq| + |ineq|
        invariant out[..1 + ix] == [obj] + eq[..ix]
      {
        out := out[1 + ix := eq[ix]];
        ix := ix + 1;
      }
      ix := 0;
      while ix < |ineq|
        invariant 0 <= ix <= |ineq|
        invariant |out| == 1 + |eq| + |ineq|
        invariant out[..1 + |eq| + ix] == [obj] + eq + ineq[..ix]
      {
        out := out[1 + |eq| + ix := ineq[ix]];
        ix := ix + 1;
      }
      assert out == [obj] + eq + ineq by {
        assert out[..1 + |eq| + |ineq|] == out;
        assert ineq[..|ineq|] == ineq;
      }
      assert AllFinite(out) <==> AllFinite(eq + ineq) by {
        assert out[1..] == eq + ineq;
        if AllFinite(eq + ineq) {
          forall k | 0 <= k < |out|
            ensures out[k].Fin?
          {
            if k > 0 {
              assert out[k] == out[1..][k - 1];
            }
          }
        }
        if AllFinite(out) {
          forall k | 0 <= k < |eq + ineq|
            ensures (eq + ineq)[k].Fin?
          {
            assert (eq + ineq)[k] == out[k + 1];
          }
        }
      }
    }
    if !DSum(out).Fin? {
      out := Filled(|out|);
    }
  }

  // ---------------------------------------------------------------------------
  // The line search of a minor iteration

  /** What the merit evaluation reports at a probed point: the merit value sob and the scaled
      objective/constraint vector ob. */
  datatype Eval = Eval(sob: real, ob: seq<real>)

  /** A column of ptt with its step length alp, merit value and objective/constraint vector. */
  datatype Sample = Sample(alp: real, point: seq<real>, sob: real, ob: seq<real>)

  /** The three samples alp[0] <= alp[1] <= alp[2] of the search. */
  datatype Bracket = Bracket(lo: Sample, mid: Sample, hi: Sample)

  /** The point p*(1-a) + p0*a on the segment from the current point p to the candidate p0. */
  function Interp(p: seq<real>, p0: seq<real>, a: real): (q: seq<real>)
    requires |p| == |p0|
  {
    seq(|p|, i requires 0 <= i < |p| => p[i] * (1.0 - a) + p0[i] * a)
  }

  lemma InterpEnds(p: seq<real>, p0: seq<real>)
    requires |p| == |p0|
    ensures Interp(p, p0, 0.0) == p
    ensures Interp(p, p0, 1.0) == p0
  {
    assert forall i :: 0 <= i < |p| ==> Interp(p, p0, 0.0)[i] == p[i];
    assert forall i :: 0 <= i < |p| ==> Interp(p, p0, 1.0)[i] == p0[i];
  }

  ghost predicate OnSegment(s: Sample, p: seq<real>, p0: seq<real>)
    requires |p| == |p0|
  {
    s.point == Interp(p, p0, s.alp)
  }

  ghost predicate Probed(s: Sample, probe: seq<real> -> Eval)
  {
    s.sob == probe(s.point).sob && s.ob == probe(s.point).ob
  }

  const LINE_SEARCH_CAP: int := 1000000

  /** The bracket update of the line search: condif1 and condif2 move the upper end to the
      midpoint, condif3 the lower end. */
  predicate Condif1(s0: real, s1: real, s2: real) { s1 >= s0 }
  predicate Condif2(s0: real, s1: real, s2: real) { s0 <= s2 && s1 < s0 }
  predicate Condif3(s0: real, s1: real, s2: real) { s1 < s0 && s0 > s2 }

  /** For any three merit values exactly one of the three bracket conditions holds. */
  lemma BracketConditionsPartition(s0: real, s1: real, s2: real)
    ensures Condif1(s0, s1, s2) || Condif2(s0, s1, s2) || Condif3(s0, s1, s2)
    ensures !(Condif1(s0, s1, s2) && Condif2(s0, s1, s2))
    ensures !(Condif1(s0, s1, s2) && Condif3(s0, s1, s2))
    ensures !(Condif2(s0, s1, s2) && Condif3(s0, s1, s2))
  {
  }

  function Max3(a: real, b: real, c: real): real
  {
    if a >= b && a >= c then a else if b >= c then b else c
  }

  function Min3(a: real, b: real, c: real): real
  {
    if a <= b && a <= c then a else if b <= c then b else c
  }

  lemma HalfOfInverse(x: real)
    requires x > 0.0
    ensures (1.0 / x) / 2.0 == 1.0 / (2.0 * x)
  {
  }

  /** The three-point search between the current point p (alp 0, merit j, vector ob) and the
      candidate p0 (alp 1). Each round probes the midpoint and replaces one end of the bracket
      by it, so the bracket keeps its order, stays on the segment and halves in width; the
      search ends when go falls to tol or after LINE_SEARCH_CAP - 1 rounds. */
  method LineSearch(p: seq<real>, p0: seq<real>, j: real, ob: seq<real>, tol: real, probe: seq<real> -> Eval)
    returns (b: Bracket, rounds: nat, go: real)
    requires |p| == |p0|
    ensures 0.0 <= b.lo.alp <= b.mid.alp <= b.hi.alp <= 1.0
    ensures b.hi.alp - b.lo.alp == 1.0 / (Pow2(rounds) as real)
    ensures b.mid == b.lo || b.mid == b.hi
    ensures OnSegment(b.lo, p, p0) && OnSegment(b.mid, p, p0) && OnSegment(b.hi, p, p0)
    ensures Probed(b.hi, probe)
    ensures b.lo == Sample(0.0, p, j, ob) || Probed(b.lo, probe)
    ensures b.mid == Sample(0.0, p, j, ob) || Probed(b.mid, probe)
    ensures rounds < LINE_SEARCH_CAP - 1 ==> go <= tol
  {
    InterpEnds(p, p0);
    var start := Sample(0.0, p, j, ob);
    var e2 := probe(p0);
    b := Bracket(start, start, Sample(1.0, p0, e2.sob, e2.ob));
    go := 1.0;
    rounds := 0;
    var whileIter := 1;
    while go > tol && whileIter < LINE_SEARCH_CAP
      invariant 1 <= whileIter <= LINE_SEARCH_CAP
      invariant rounds == whileIter - 1
      invariant 0.0 <= b.lo.alp <= b.mid.alp <= b.hi.alp <= 1.0
      invariant b.hi.alp - b.lo.alp == 1.0 / (Pow2(rounds) as real)
      invariant b.mid == b.lo || b.mid == b.hi
      invariant OnSegment(b.lo, p, p0) && OnSegment(b.mid, p, p0) && OnSegment(b.hi, p, p0)
      invariant Probed(b.hi, probe)
      invariant b.lo == start || Probed(b.lo, probe)
      invariant b.mid == start || Probed(b.mid, probe)
      decreases LINE_SEARCH_CAP - whileIter
    {
      var alp1 := (b.lo.alp + b.hi.alp) / 2.0;
      var col1 := Interp(p, p0, alp1);
      var e := probe(col1);
      var mid := Sample(alp1, col1, e.sob, e.ob);
      var s0, s1, s2 := b.lo.sob, mid.sob, b.hi.sob;
      var sobMax := Max3(s0, s1, s2);
      if sobMax < j {
        go := tol * (sobMax - Min3(s0, s1, s2)) / (j - sobMax);
      }
      var lo, hi := b.lo, b.hi;
      if Condif1(s0, s1, s2) {
        hi := mid;
      }
      if Condif2(s0, s1, s2) {
        hi := mid;
      }
      if Condif3(s0, s1, s2) {
        lo := mid;
      }
      HalfOfInverse(Pow2(rounds) as real);
      b := Bracket(lo, mid, hi);
      if go >= tol {
        go := b.hi.alp - b.lo.alp;
      }
      whileIter := whileIter + 1;
      rounds := rounds + 1;
    }
  }

  /** The three acceptance conditions after the search. */
  predicate Accept1(b: Bracket) { b.lo.sob < b.mid.sob }
  predicate Accept2(b: Bracket) { b.hi.sob < b.mid.sob && b.lo.sob >= b.mid.sob }
  predicate Accept3(b: Bracket) { b.lo.sob >= b.mid.sob && b.hi.sob >= b.mid.sob }

  /** The end of a minor iteration: the point, merit and vector are taken from the one sample
      whose condition holds; the accepted merit is never above the midpoint's, and the midpoint
      is accepted only when it is no worse than both ends. */
  method Accept(j: real, p: seq<real>, ob: seq<real>, b: Bracket) returns (j': real, p': seq<real>, ob': seq<real>)
    ensures Accept1(b) ==> j' == b.lo.sob && p' == b.lo.point && ob' == b.lo.ob
    ensures Accept2(b) ==> j' == b.hi.sob && p' == b.hi.point && ob' == b.hi.ob
    ensures Accept3(b) ==> j' == b.mid.sob && p' == b.mid.point && ob' == b.mid.ob
    ensures j' <= b.mid.sob
    ensures j' == b.mid.sob ==> j' <= b.lo.sob && j' <= b.hi.sob
  {
    j', p', ob' := j, p, ob;
    var c1, c2, c3 := Accept1(b), Accept2(b), Accept3(b);
    if c1 {
      j', p', ob' := b.lo.sob, b.lo.point, b.lo.ob;
    }
    if c2 {
      j', p', ob' := b.hi.sob, b.hi.point, b.hi.ob;
    }
    if c3 {
      j', p', ob' := b.mid.sob, b.mid.point, b.mid.ob;
    }
  }

  function MinSob(b: Bracket): real
  {
    Min3(b.lo.sob, b.mid.sob, b.hi.sob)
  }

  /** The relative reduction of the merit that the search achieved. */
  function Reduction(j: real, obn: real): real
  {
    (j - obn) / (1.0 + AbsReal(j))
  }

  /** The minor loop is capped when the search found no lower merit than j, or when the relative
      reduction is below tol. */
  predicate StopMinor(j: real, b: Bracket, tol: real)
  {
    j <= MinSob(b) || Reduction(j, MinSob(b)) < tol
  }

  /** The new limit of the minor loop: maxit is cut to the iterations already done when the
      search did not reduce the merit enough. */
  function NextMinorLimit(j: real, b: Bracket, tol: real, minit: int, maxit: int): (m: int)
    ensures StopMinor(j, b, tol) ==> m == minit
    ensures !StopMinor(j, b, tol) ==> m == maxit
  {
    var obn := MinSob(b);
    var m1 := if j <= obn then minit else maxit;
    if (j - obn) / (1.0 + AbsReal(j)) < tol then minit else m1
  }

  /** With a positive tolerance the first test is implied by the second. */
  lemma StopMinorPositiveTol(j: real, b: Bracket, tol: real)
    requires tol > 0.0
    ensures StopMinor(j, b, tol) <==> Reduction(j, MinSob(b)) < tol
  {
    var obn := MinSob(b);
    if j <= obn {
      assert 1.0 + AbsReal(j) > 0.0;
      assert j - obn <= 0.0;
      assert Reduction(j, obn) <= 0.0;
    }
  }

  /** The minor loop of subnp: each iteration runs the line search from the current point to the
      candidate the QP step proposes (candidate(k, p)), then applies the cap and the acceptance
      rule. minrRec is the number of minor iterations done. */
  method MinorIterations(limit: int, tol: real, j0: real, p0: seq<real>, ob0: seq<real>,
                         candidate: (nat, seq<real>) -> seq<real>, probe: seq<real> -> Eval)
    returns (j: real, p: seq<real>, ob: seq<real>, minrRec: int, capped: bool)
    requires forall k: nat, q: seq<real> :: |candidate(k, q)| == |q|
    ensures |p| == |p0|
    ensures limit <= 0 ==> minrRec == 0 && j == j0 && p == p0 && ob == ob0
    ensures limit >= 1 ==> 1 <= minrRec <= limit
    ensures minrRec < limit ==> capped
    ensures capped ==> minrRec >= 1
  {
    j, p, ob := j0, p0, ob0;
    capped := false;
    var minit := 0;
    var maxit := limit;
    while minit < maxit
      invariant |p| == |p0|
      invariant 0 <= minit
      invariant limit <= 0 ==> minit == 0 && j == j0 && p == p0 && ob == ob0
      invariant limit >= 1 ==> minit <= limit
      invariant maxit == limit || (maxit == minit && capped)
      invariant capped ==> maxit == minit && minit >= 1
      decreases maxit - minit
    {
      minit := minit + 1;
      var q := candidate(minit, p);
      var b, rounds, go := LineSearch(p, q, j, ob, tol, probe);
      maxit := NextMinorLimit(j, b, tol, minit, maxit);
      capped := StopMinor(j, b, tol);
      j, p, ob := Accept(j, p, ob, b);
      assert |b.lo.point| == |p0| && |b.mid.point| == |p0| && |b.hi.point| == |p0|;
    }
    minrRec := minit;
  }

  // ---------------------------------------------------------------------------
  // The major loop of solnp

  /** rho before the first major iteration: zeroed when there are constraints, no inequalities,
      and the initial constraint norm tt1 is within 10*tol. */
  function InitialRho(rho: real, tc: nat, nineq: nat, tt1: real, tol: real): (r: real)
    ensures r == 0.0 || r == rho
    ensures tc > 0 && nineq == 0 && tt1 <= 10.0 * tol ==> r == 0.0
    ensures tc == 0 || nineq > 0 || tt1 > 10.0 * tol ==> r == rho
  {
    if tc > 0 then
      var zeroCheck := tt1 - 10.0 * tol;
      var m := if zeroCheck < nineq as real then nineq as real else zeroCheck;
      if m <= 0.0 then 0.0 else rho
    else rho
  }

  datatype Penalty = Penalty(rho: real, mu: real)

  /** The penalty update after a major iteration, from the previous constraint norm tt1 and the
      new one tt2; sqrtTol is the square root of tol. */
  function PenaltyUpdate(rho: real, mu: real, tt1: real, tt2: real, tol: real, sqrtTol: real): (r: Penalty)
  {
    var rho1, mu1 := if tt2 < 10.0 * tol then 0.0 else rho, if tt2 < 10.0 * tol then (if tol < mu then tol else mu) else mu;
    var rho2 := if tt2 < 5.0 * tt1 then rho1 / 5.0 else rho1;
    var rho3 := if tt2 > 10.0 * tt1 then 5.0 * (if rho2 < sqrtTol then sqrtTol else rho2) else rho2;
    Penalty(rho3, mu1)
  }

  /** What the update guarantees: mu only decreases, and only to at most tol when the constraints
      are nearly met; rho stays non-negative; a large increase of the constraint norm makes rho
      at least 5*sqrt(tol) and at least five times its value; a nearly feasible point that
      does not worsen the constraints switches the penalty off; with a non-negative norm the
      divide and the increase are never both applied. */
  lemma {:induction false} PenaltyUpdateProperties(rho: real, mu: real, tt1: real, tt2: real, tol: real, sqrtTol: real)
    ensures PenaltyUpdate(rho, mu, tt1, tt2, tol, sqrtTol).mu <= mu
    ensures tt2 < 10.0 * tol ==> PenaltyUpdate(rho, mu, tt1, tt2, tol, sqrtTol).mu <= tol
    ensures !(tt2 < 10.0 * tol) ==> PenaltyUpdate(rho, mu, tt1, tt2, tol, sqrtTol).mu == mu
    ensures rho >= 0.0 && sqrtTol >= 0.0 ==> PenaltyUpdate(rho, mu, tt1, tt2, tol, sqrtTol).rho >= 0.0
    ensures tt2 > 10.0 * tt1 && tt1 >= 0.0 ==> PenaltyUpdate(rho, mu, tt1, tt2, tol, sqrtTol).rho >= 5.0 * sqrtTol
    ensures tt2 > 10.0 * tt1 && tt1 >= 0.0 && !(tt2 < 10.0 * tol) ==>
      PenaltyUpdate(rho, mu, tt1, tt2, tol, sqrtTol).rho >= 5.0 * rho
    ensures tt2 < 10.0 * tol && tt2 <= 10.0 * tt1 ==> PenaltyUpdate(rho, mu, tt1, tt2, tol, sqrtTol).rho == 0.0
    ensures tt1 >= 0.0 && tt2 >= 0.0 ==> !(tt2 < 5.0 * tt1 && tt2 > 10.0 * tt1)
    ensures 10.0 * tol <= tt2 && 5.0 * tt1 <= tt2 <= 10.0 * tt1 ==> PenaltyUpdate(rho, mu, tt1, tt2, tol, sqrtTol).rho == rho
  {
  }

  /** |(a, b)| <= tol, without the square root: it holds iff tol is non-negative and
      a^2 + b^2 <= tol^2. */
  predicate VnormWithin(a: real, b: real, tol: real)
  {
    tol >= 0.0 && a * a + b * b <= tol * tol
  }

  /** For the non-negative square root s of a^2 + b^2, s <= tol iff VnormWithin(a, b, tol). */
  lemma VnormWithinSqrt(a: real, b: real, tol: real, s: real)
    requires s >= 0.0 && s * s == a * a + b * b
    ensures s <= tol <==> VnormWithin(a, b, tol)
  {
    if s <= tol {
      SquareMonotone(s, tol);
    } else if tol >= 0.0 {
      SquareStrict(tol, s);
    }
  }

  lemma SquareMonotone(x: real, y: real)
    requires 0.0 <= x <= y
    ensures x * x <= y * y
  {
    assert x * x <= x * y;
    assert x * y <= y * y;
  }

  lemma SquareStrict(x: real, y: real)
    requires 0.0 <= x < y
    ensures x * x < y * y
  {
    var xx, xy, yy := x * x, x * y, y * y;
    assert xx <= xy;
    assert xy < yy by {
      assert (y - x) * y > 0.0;
    }
  }

  /** The inform code at the end of a pass. vnormOk: |(tt0, tt1)| <= tol; singleMinor: the last
      minor loop did exactly one iteration; iterateClose: delta*|sx|^2 <= sqrt(tol)*(1 + |p|^2). */
  function Classify(vnormOk: bool, singleMinor: bool, iterateClose: bool, iters: int, maxitTrace: int): (inform: int)
    ensures inform == INFORM_CONVERGED_OPTIMUM <==> vnormOk && singleMinor && iterateClose
    ensures inform == INFORM_UNCONVERGED_OPTIMUM <==> vnormOk && singleMinor && !iterateClose
    ensures inform == INFORM_ITERATION_LIMIT <==> !(vnormOk && singleMinor) && iters == maxitTrace
    ensures inform == INFORM_NOT_AT_OPTIMUM <==> !(vnormOk && singleMinor) && iters != maxitTrace
  {
    if vnormOk && singleMinor then
      if iterateClose then INFORM_CONVERGED_OPTIMUM else INFORM_UNCONVERGED_OPTIMUM
    else if iters == maxitTrace then INFORM_ITERATION_LIMIT
    else INFORM_NOT_AT_OPTIMUM
  }

  /** What one major iteration reports from the numerics: whether the evaluation after the minor
      loop was aborted (mode -1), the objective ob[0] and max |ob| at the new point, the norm of
      the constraint residual, the number of minor iterations, whether the minor loop found the
      problem infeasible, and the Levenberg parameter it hands back (resLambda), which becomes
      mu before the penalty update. */
  datatype MajorStep = MajorStep(aborted: bool, obj: real, obMaxAbs: real, constraintNorm: real,
                                 minorIters: int, noFeasible: bool, lambda: real)

  /** The variables the major loop carries from one iteration to the next. */
  datatype MajorState = MajorState(rho: real, mu: real, tt0: real, tt1: real, j: real,
                                   minrRec: int, noFeasible: bool, aborted: bool)

  datatype MajorOutcome = MajorOutcome(aborted: bool, inform: int, iters: int, rho: real, mu: real,
                                       tt0: real, tt1: real, maxitTrace: int, minrRec: int, noFeasible: bool)

  /** The loop stops after an iteration whose step is small (|(tt0, tt1)| <= tol) or when no
      feasible point was found. */
  predicate Stopped(tt0: real, tt1: real, tol: real, noFeasible: bool)
  {
    VnormWithin(tt0, tt1, tol) || noFeasible
  }

  /** One major iteration: the minor loop reports its count, feasibility and mu; an aborted
      evaluation ends the iteration there; otherwise the relative objective change tt0 is
      formed and, with constraints, the penalty is updated from the new constraint norm. */
  function MajorAdvance(s: MajorState, step: MajorStep, tc: nat, tol: real, sqrtTol: real): (n: MajorState)
    ensures n.minrRec == step.minorIters && n.aborted == step.aborted
    ensures n.noFeasible == (s.noFeasible || step.noFeasible)
    ensures step.aborted ==> n.tt0 == s.tt0 && n.tt1 == s.tt1 && n.rho == s.rho && n.mu == step.lambda
    ensures !step.aborted ==> n.j == step.obj
    ensures !step.aborted && tc > 0 ==>
      n.tt1 == step.constraintNorm && n.rho == PenaltyUpdate(s.rho, step.lambda, s.tt1, step.constraintNorm, tol, sqrtTol).rho
      && n.mu == PenaltyUpdate(s.rho, step.lambda, s.tt1, step.constraintNorm, tol, sqrtTol).mu
    ensures !step.aborted && tc == 0 ==> n.tt1 == s.tt1 && n.rho == s.rho && n.mu == step.lambda
  {
    var s1 := s.(minrRec := step.minorIters, noFeasible := s.noFeasible || step.noFeasible,
                 mu := step.lambda, aborted := step.aborted);
    if step.aborted then s1
    else
      var scale := if step.obMaxAbs < 1.0 then 1.0 else step.obMaxAbs;
      var s2 := s1.(tt0 := (s.j - step.obj) / scale, j := step.obj);
      if tc > 0 then
        var pen := PenaltyUpdate(s.rho, step.lambda, s.tt1, step.constraintNorm, tol, sqrtTol);
        s2.(rho := pen.rho, mu := pen.mu, tt1 := step.constraintNorm)
      else s2
  }

  /** The state after k major iterations, steps(1) .. steps(k), ignoring the stopping rule. */
  function MajorRun(k: nat, init: MajorState, steps: nat -> MajorStep, tc: nat, tol: real, sqrtTol: real): MajorState
  {
    if k == 0 then init else MajorAdvance(MajorRun(k - 1, init, steps, tc, tol, sqrtTol), steps(k), tc, tol, sqrtTol)
  }

  /** Iteration k ends the loop: its evaluation aborted, or the stopping test holds. */
  predicate Halts(s: MajorState, tol: real)
  {
    s.aborted || Stopped(s.tt0, s.tt1, tol, s.noFeasible)
  }

  /** No iteration before the n-th ends the loop. */
  predicate NoHaltBefore(n: nat, init: MajorState, steps: nat -> MajorStep, tc: nat, tol: real, sqrtTol: real)
  {
    forall k: nat :: 1 <= k < n ==> !Halts(MajorRun(k, init, steps, tc, tol, sqrtTol), tol)
  }

  /** The carried variables of an outcome are those of state s. */
  predicate Carries(r: MajorOutcome, s: MajorState)
  {
    r.rho == s.rho && r.mu == s.mu && r.tt0 == s.tt0 && r.tt1 == s.tt1
    && r.minrRec == s.minrRec && r.noFeasible == s.noFeasible
  }

  /** What every run keeps: rho stays non-negative, an infeasibility report is never withdrawn,
      and without constraints rho and tt1 never change. */
  lemma {:induction false} MajorRunKeeps(k: nat, init: MajorState, steps: nat -> MajorStep, tc: nat, tol: real, sqrtTol: real)
    ensures init.rho >= 0.0 && sqrtTol >= 0.0 ==> MajorRun(k, init, steps, tc, tol, sqrtTol).rho >= 0.0
    ensures init.noFeasible ==> MajorRun(k, init, steps, tc, tol, sqrtTol).noFeasible
    ensures tc == 0 ==> MajorRun(k, init, steps, tc, tol, sqrtTol).rho == init.rho
                        && MajorRun(k, init, steps, tc, tol, sqrtTol).tt1 == init.tt1
  {
    if k > 0 {
      var s := MajorRun(k - 1, init, steps, tc, tol, sqrtTol);
      MajorRunKeeps(k - 1, init, steps, tc, tol, sqrtTol);
      PenaltyUpdateProperties(s.rho, steps(k).lambda, s.tt1, steps(k).constraintNorm, tol, sqrtTol);
    }
  }

  /** The major loop of one pass and the inform code it ends with. tc is the number of
      constraints, tt1Init the initial constraint norm, j0 the initial objective; initialAborted
      is an abort of the evaluation before the loop; maxitTrace0, minrRec0 and noFeasible0 carry
      over from an earlier pass; steps(k) is what iteration k reports. The outcome is the state
      of MajorRun at the first iteration that ends the loop, or at maxit when none does. */
  method MajorIterations(maxit: int, tol: real, sqrtTol: real, rho0: real, mu0: real, tt1Init: real, j0: real, tc: nat,
                         initialAborted: bool, maxitTrace0: int, minrRec0: int, noFeasible0: bool,
                         steps: nat -> MajorStep, iterateClose: bool)
    returns (r: MajorOutcome)
    ensures var init := MajorState(rho0, mu0, 0.0, tt1Init, j0, minrRec0, noFeasible0, initialAborted);
      && (maxit < 1 ==> r.iters == 0 && !r.aborted && Carries(r, init))
      && (maxit >= 1 && initialAborted ==> r.iters == 1 && r.aborted && Carries(r, init))
      && (maxit >= 1 && !initialAborted ==>
            && 1 <= r.iters <= maxit
            && NoHaltBefore(r.iters, init, steps, tc, tol, sqrtTol)
            && (r.iters < maxit ==> Halts(MajorRun(r.iters, init, steps, tc, tol, sqrtTol), tol))
            && Carries(r, MajorRun(r.iters, init, steps, tc, tol, sqrtTol))
            && r.aborted == MajorRun(r.iters, init, steps, tc, tol, sqrtTol).aborted)
    ensures maxit >= 1 && !initialAborted ==> forall k: nat ::
      (1 <= k < maxit && NoHaltBefore(k, MajorState(rho0, mu0, 0.0, tt1Init, j0, minrRec0, noFeasible0, false), steps, tc, tol, sqrtTol)
       && Halts(MajorRun(k, MajorState(rho0, mu0, 0.0, tt1Init, j0, minrRec0, noFeasible0, false), steps, tc, tol, sqrtTol), tol))
      ==> r.iters == k
    ensures r.maxitTrace == if !r.aborted && r.iters >= 1 && Stopped(r.tt0, r.tt1, tol, r.noFeasible) then maxit else maxitTrace0
    ensures r.aborted ==> r.inform == 0
    ensures !r.aborted ==>
      r.inform == Classify(VnormWithin(r.tt0, r.tt1, tol), r.minrRec == 1, iterateClose, r.iters, r.maxitTrace)
    ensures rho0 >= 0.0 && sqrtTol >= 0.0 ==> r.rho >= 0.0
    ensures tc == 0 ==> r.rho == rho0 && r.tt1 == tt1Init
    ensures noFeasible0 ==> r.noFeasible
  {
    ghost var init := MajorState(rho0, mu0, 0.0, tt1Init, j0, minrRec0, noFeasible0, initialAborted);
    var rho, mu, tt0, tt1, j := rho0, mu0, 0.0, tt1Init, j0;
    var maxitTrace, minrRec, noFeasible := maxitTrace0, minrRec0, noFeasible0;
    var limit := maxit;
    var aborted := initialAborted;
    var iter := 0;
    while iter < limit
      invariant 0 <= iter && (maxit >= 0 ==> iter <= maxit) && (maxit < 1 ==> iter == 0)
      invariant MajorState(rho, mu, tt0, tt1, j, minrRec, noFeasible, aborted) == MajorRun(iter, init, steps, tc, tol, sqrtTol)
      invariant iter >= 1 ==> !aborted && !initialAborted
      invariant NoHaltBefore(iter, init, steps, tc, tol, sqrtTol)
      invariant iter == 0 ==> limit == maxit && maxitTrace == maxitTrace0
      invariant iter >= 1 && Stopped(tt0, tt1, tol, noFeasible) ==> limit == iter && maxitTrace == maxit
      invariant iter >= 1 && !Stopped(tt0, tt1, tol, noFeasible) ==> limit == maxit && maxitTrace == maxitTrace0
      decreases limit - iter
    {
      MajorRunKeeps(iter, init, steps, tc, tol, sqrtTol);
      iter := iter + 1;
      if aborted {
        return MajorOutcome(true, 0, iter, rho, mu, tt0, tt1, maxitTrace, minrRec, noFeasible);
      }
      var step := steps(iter);
      minrRec := step.minorIters;
      noFeasible := noFeasible || step.noFeasible;
      mu := step.lambda;
      aborted := step.aborted;
      if aborted {
        r := MajorOutcome(true, 0, iter, rho, mu, tt0, tt1, maxitTrace, minrRec, noFeasible);
        MajorRunKeeps(iter, init, steps, tc, tol, sqrtTol);
        StopIsFirst(iter, maxit, init, steps, tc, tol, sqrtTol);
        return;
      }
      var scale := if step.obMaxAbs < 1.0 then 1.0 else step.obMaxAbs;
      tt0 := (j - step.obj) / scale;
      j := step.obj;
      if tc > 0 {
        var tt2 := step.constraintNorm;
        var pen := PenaltyUpdate(rho, mu, tt1, tt2, tol, sqrtTol);
        rho, mu := pen.rho, pen.mu;
        tt1 := tt2;
      }
      if VnormWithin(tt0, tt1, tol) || noFeasible {
        maxitTrace := limit;
        limit := iter;
      }
    }
    MajorRunKeeps(iter, init, steps, tc, tol, sqrtTol);
    if iter >= 1 {
      StopIsFirst(iter, maxit, init, steps, tc, tol, sqrtTol);
    }
    var inform := Classify(VnormWithin(tt0, tt1, tol), minrRec == 1, iterateClose, iter, maxitTrace);
    r := MajorOutcome(false, inform, iter, rho, mu, tt0, tt1, maxitTrace, minrRec, noFeasible);
  }

  /** The loop's length is determined: when no iteration before n ends the loop, any iteration
      k < maxit that ends it is n itself, provided n ends it or n == maxit. */
  lemma StopIsFirst(n: nat, maxit: int, init: MajorState, steps: nat -> MajorStep, tc: nat, tol: real, sqrtTol: real)
    requires 1 <= n <= maxit && NoHaltBefore(n, init, steps, tc, tol, sqrtTol)
    requires n < maxit ==> Halts(MajorRun(n, init, steps, tc, tol, sqrtTol), tol)
    ensures forall k: nat ::
      (1 <= k < maxit && NoHaltBefore(k, init, steps, tc, tol, sqrtTol)
       && Halts(MajorRun(k, init, steps, tc, tol, sqrtTol), tol)) ==> k == n
  {
  }

  /** As written, a first pass (maxitTrace 0) that uses up all its major iterations without
      meeting the stopping test reports NOT_AT_OPTIMUM, not ITERATION_LIMIT: maxitTrace is set
      only when the loop stops early. */
  lemma ExhaustedFirstPassNotIterationLimit(maxit: int, tt0: real, tt1: real, tol: real, minrRec: int, iterateClose: bool)
    requires maxit >= 1
    requires !VnormWithin(tt0, tt1, tol)
    ensures Classify(VnormWithin(tt0, tt1, tol), minrRec == 1, iterateClose, maxit, 0) == INFORM_NOT_AT_OPTIMUM
  {
  }

  /** A later pass, whose maxitTrace is the cap recorded when an earlier pass stopped early,
      does report ITERATION_LIMIT when it uses up that same cap without meeting the test. */
  lemma ExhaustedLaterPassIterationLimit(maxit: int, tt0: real, tt1: real, tol: real, minrRec: int, iterateClose: bool)
    requires maxit >= 1
    requires !VnormWithin(tt0, tt1, tol)
    ensures Classify(VnormWithin(tt0, tt1, tol), minrRec == 1, iterateClose, maxit, maxit) == INFORM_ITERATION_LIMIT
  {
  }
}
