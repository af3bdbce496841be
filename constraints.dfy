// Constraint bookkeeping (omxConstraint, ConstraintVec): the redundancy mask
// of each constraint, the compaction of its non-redundant values into the
// stacked constraint vector, and the clamping of inactive inequalities.
module Constraints {
  import opened Common

  /** omxConstraint::opCode. Inequalities are stated as "less than"; "greater than" ones are negated. */
  datatype ConstraintOp = LessThan | Equality | GreaterThan

  /** got = -got for GREATER_THAN. */
  function Oriented(op: ConstraintOp, d: Double): Double
  {
    if op == GreaterThan then Neg(d) else d
  }

  /** The values refreshAndGrab writes: the non-redundant entries of pad, in order. */
  function Grabbed(redundant: seq<bool>, pad: seq<Double>, op: ConstraintOp): (r: seq<Double>)
    requires |pad| >= |redundant|
    ensures |r| == CountFalse(redundant)
  {
    if |redundant| == 0 then []
    else
      var n := |redundant| - 1;
      Grabbed(redundant[..n], pad, op) + (if redundant[n] then [] else [Oriented(op, pad[n])])
  }

  /** The non-redundant entry k lands at position "number of non-redundant entries before k". */
  lemma {:induction false} GrabbedPositions(redundant: seq<bool>, pad: seq<Double>, op: ConstraintOp)
    requires |pad| >= |redundant|
    ensures forall k :: 0 <= k < |redundant| && !redundant[k] ==>
      CountFalse(redundant[..k]) < |Grabbed(redundant, pad, op)| &&
      Grabbed(redundant, pad, op)[CountFalse(redundant[..k])] == Oriented(op, pad[k])
  {
    if |redundant| > 0 {
      var n := |redundant| - 1;
      GrabbedPositions(redundant[..n], pad, op);
      forall k | 0 <= k < |redundant| && !redundant[k]
        ensures CountFalse(redundant[..k]) < |Grabbed(redundant, pad, op)|
        ensures Grabbed(redundant, pad, op)[CountFalse(redundant[..k])] == Oriented(op, pad[k])
      {
        if k < n {
          assert redundant[..n][..k] == redundant[..k];
          assert redundant[..n][k] == redundant[k];
        } else {
          assert redundant[..k] == redundant[..n];
        }
      }
    }
  }

  /** std::max(0.0, d): a NaN or a negative value becomes 0. */
  function ClampZero(d: Double): (c: Double)
    ensures c.Fin? ==> c.r >= 0.0
    ensures c.PosInf? || c.Fin?
  {
    match d
    case Fin(x) => Fin(if 0.0 < x then x else 0.0)
    case PosInf => PosInf
    case NegInf => Fin(0.0)
    case NaN => Fin(0.0)
  }

  function ClampAll(s: seq<Double>): (r: seq<Double>)
    ensures |r| == |s| && forall i :: 0 <= i < |s| ==> r[i] == ClampZero(s[i])
  {
    seq(|s|, i requires 0 <= i < |s| => ClampZero(s[i]))
  }

  /** The state of one constraint that its contribution depends on. */
  datatype ConstraintShape = ConstraintShape(opCode: ConstraintOp, redundant: seq<bool>)

  /** The rows one constraint contributes to the stacked vector (empty when not selected or of size 0). */
  function Contribution(s: ConstraintShape, pad: seq<Double>, cf: ConstraintOp -> bool, ineqAlwaysActive: bool): (r: seq<Double>)
    requires |pad| >= |s.redundant|
    ensures |r| == Size(s, cf)
  {
    if !cf(s.opCode) || CountFalse(s.redundant) == 0 then []
    else if s.opCode != Equality && !ineqAlwaysActive then ClampAll(Grabbed(s.redundant, pad, s.opCode))
    else Grabbed(s.redundant, pad, s.opCode)
  }

  /** Which of those rows are clamped inequality rows. */
  function ClampedFlags(s: ConstraintShape, cf: ConstraintOp -> bool, ineqAlwaysActive: bool): (r: seq<bool>)
    ensures |r| == Size(s, cf)
  {
    seq(Size(s, cf), _ => s.opCode != Equality && !ineqAlwaysActive)
  }

  predicate PadsFit(shapes: seq<ConstraintShape>, pads: seq<seq<Double>>)
  {
    |pads| == |shapes| && forall j :: 0 <= j < |shapes| ==> |pads[j]| >= |shapes[j].redundant|
  }

  /** The rows one constraint occupies in a ConstraintVec. */
  function Size(s: ConstraintShape, cf: ConstraintOp -> bool): nat
  {
    if cf(s.opCode) then CountFalse(s.redundant) else 0
  }

  /** The rows the first n constraints occupy in a ConstraintVec: the sizes of the selected ones, summed. */
  function Count(shapes: seq<ConstraintShape>, cf: ConstraintOp -> bool, n: nat): nat
    requires n <= |shapes|
  {
    if n == 0 then 0
    else Count(shapes, cf, n - 1) + Size(shapes[n - 1], cf)
  }

  /** The stacked constraint vector ConstraintVec::eval writes for the first n constraints. */
  function EvalValues(shapes: seq<ConstraintShape>, pads: seq<seq<Double>>, n: nat, cf: ConstraintOp -> bool, ineqAlwaysActive: bool): (r: seq<Double>)
    requires PadsFit(shapes, pads) && n <= |shapes|
    ensures |r| == Count(shapes, cf, n)
  {
    if n == 0 then []
    else EvalValues(shapes, pads, n - 1, cf, ineqAlwaysActive) + Contribution(shapes[n - 1], pads[n - 1], cf, ineqAlwaysActive)
  }

  /** Which rows of that vector are clamped inequality rows. */
  function ClampedRows(shapes: seq<ConstraintShape>, n: nat, cf: ConstraintOp -> bool, ineqAlwaysActive: bool): (r: seq<bool>)
    requires n <= |shapes|
    ensures |r| == Count(shapes, cf, n)
  {
    if n == 0 then []
    else ClampedRows(shapes, n - 1, cf, ineqAlwaysActive) + ClampedFlags(shapes[n - 1], cf, ineqAlwaysActive)
  }

  /** Stacking constraint j after the first j. */
  lemma StackNext(shapes: seq<ConstraintShape>, pads: seq<seq<Double>>, j: nat, cf: ConstraintOp -> bool, ineqAlwaysActive: bool)
    requires PadsFit(shapes, pads) && j < |shapes|
    ensures |pads[j]| >= |shapes[j].redundant|
    ensures Count(shapes, cf, j + 1) == Count(shapes, cf, j) + Size(shapes[j], cf)
    ensures EvalValues(shapes, pads, j + 1, cf, ineqAlwaysActive)
      == EvalValues(shapes, pads, j, cf, ineqAlwaysActive) + Contribution(shapes[j], pads[j], cf, ineqAlwaysActive)
    ensures ClampedRows(shapes, j + 1, cf, ineqAlwaysActive)
      == ClampedRows(shapes, j, cf, ineqAlwaysActive) + ClampedFlags(shapes[j], cf, ineqAlwaysActive)
  {
  }

  /** Adding constraints never shrinks the stacked vector. */
  lemma {:induction false} CountMonotone(shapes: seq<ConstraintShape>, cf: ConstraintOp -> bool, m: nat, n: nat)
    requires m <= n <= |shapes|
    ensures Count(shapes, cf, m) <= Count(shapes, cf, n)
    decreases n
  {
    if m < n {
      CountMonotone(shapes, cf, m, n - 1);
    }
  }

  /** Unless inequalities are always active, every inequality row of the stacked vector is 0, positive or +Inf. */
  lemma {:induction false} ClampedRowsNonNegative(shapes: seq<ConstraintShape>, pads: seq<seq<Double>>, n: nat, cf: ConstraintOp -> bool, ineqAlwaysActive: bool)
    requires PadsFit(shapes, pads) && n <= |shapes|
    ensures forall i :: 0 <= i < Count(shapes, cf, n) && ClampedRows(shapes, n, cf, ineqAlwaysActive)[i] ==>
      var v := EvalValues(shapes, pads, n, cf, ineqAlwaysActive)[i];
      v.PosInf? || (v.Fin? && v.r >= 0.0)
  {
    if n > 0 {
      ClampedRowsNonNegative(shapes, pads, n - 1, cf, ineqAlwaysActive);
      var prev := Count(shapes, cf, n - 1);
      forall i | prev <= i < Count(shapes, cf, n) && ClampedRows(shapes, n, cf, ineqAlwaysActive)[i]
        ensures var v := EvalValues(shapes, pads, n, cf, ineqAlwaysActive)[i]; v.PosInf? || (v.Fin? && v.r >= 0.0)
      {
        assert ClampedFlags(shapes[n - 1], cf, ineqAlwaysActive)[i - prev];
      }
    }
  }

  /** An omxConstraint: its redundancy mask and the sizes derived from it. */
  class Constraint {
    var name: string
    var opCode: ConstraintOp
    var origSize: nat
    var size: nat
    var redundant: seq<bool>
    var seenActive: seq<bool>
    var initialJac: seq<seq<Double>>

    ghost predicate Valid()
      reads this
    {
      && |redundant| == origSize && |seenActive| == origSize
      && size == CountFalse(redundant)
    }

    function Shape(): ConstraintShape
      reads this
    {
      ConstraintShape(opCode, redundant)
    }

    constructor (name: string, opCode: ConstraintOp)
      ensures this.name == name && this.opCode == opCode
      ensures origSize == 0 && size == 0 && redundant == [] && seenActive == [] && initialJac == []
      ensures Valid()
    {
      this.name := name;
      this.opCode := opCode;
      origSize := 0;
      size := 0;
      redundant := [];
      seenActive := [];
      initialJac := [];
    }

    /** setInitialSize: nothing is redundant or seen active; the initial Jacobian is sz x maxVars of NA.
        maxVars is the number of variables of the group of all free variables. */
    method SetInitialSize(sz: nat, maxVars: nat)
      modifies this
      ensures origSize == sz && size == sz
      ensures redundant == seq(sz, _ => false) && seenActive == seq(sz, _ => false)
      ensures |initialJac| == sz && forall r :: 0 <= r < sz ==> initialJac[r] == seq(maxVars, _ => NaN)
      ensures name == old(name) && opCode == old(opCode)
      ensures Valid()
    {
      origSize := sz;
      size := sz;
      redundant := seq(sz, _ => false);
      seenActive := seq(sz, _ => false);
      initialJac := seq(sz, _ => seq(maxVars, _ => NaN));
      AllFalseCount(sz);
    }

    /** recalcSize: size is the number of non-redundant entries. */
    method RecalcSize()
      modifies this
      ensures size == CountFalse(redundant)
      ensures redundant == old(redundant) && seenActive == old(seenActive) && origSize == old(origSize)
      ensures initialJac == old(initialJac) && name == old(name) && opCode == old(opCode)
    {
      size := CountFalse(redundant);
    }

    /** refreshAndGrab: write the non-redundant values of the refreshed pad at out[offset..]. */
    method RefreshAndGrab(pad: seq<Double>, out: array<Double>, offset: nat)
      requires |pad| >= |redundant|
      requires offset + CountFalse(redundant) <= out.Length
      modifies out
      ensures out[..] == old(out[..])[..offset] + Grabbed(redundant, pad, opCode) + old(out[..])[offset + CountFalse(redundant)..]
    {
      var red := redundant;
      var op := opCode;
      var k := 0;
      var d := 0;
      ghost var start := out[..];
      ghost var grabbed: seq<Double> := [];
      while k < |red|
        invariant 0 <= k <= |red|
        invariant grabbed == Grabbed(red[..k], pad, op)
        invariant d == |grabbed| && d <= CountFalse(red)
        invariant Spliced(out, start, offset, grabbed)
      {
        GrabStep(red, pad, op, k);
        if !red[k] {
          var got := pad[k];
          if op == GreaterThan {
            got := Neg(got);
          }
          Put(out, offset + d, got, offset, start, grabbed);
          grabbed := grabbed + [got];
          d := d + 1;
        }
        k := k + 1;
      }
      assert red[..k] == red;
    }
  }

  /** out is start with grabbed written over it from offset on. */
  ghost predicate Spliced(out: array<Double>, start: seq<Double>, offset: nat, grabbed: seq<Double>)
    reads out
  {
    offset + |grabbed| <= out.Length == |start| && out[..] == start[..offset] + grabbed + start[offset + |grabbed|..]
  }

  /** out[at] = got, where at is just past the values grabbed so far. */
  method Put(out: array<Double>, at: nat, got: Double, ghost offset: nat, ghost start: seq<Double>, ghost grabbed: seq<Double>)
    requires at == offset + |grabbed| < out.Length && Spliced(out, start, offset, grabbed)
    modifies out
    ensures Spliced(out, start, offset, grabbed + [got])
  {
    SpliceWrite(start, offset, grabbed, got, out[..]);
    out[at] := got;
  }

  /** Grabbing one more entry of the mask. */
  lemma GrabStep(redundant: seq<bool>, pad: seq<Double>, op: ConstraintOp, k: nat)
    requires k < |redundant| <= |pad|
    ensures Grabbed(redundant[..k + 1], pad, op) == Grabbed(redundant[..k], pad, op) + (if redundant[k] then [] else [Oriented(op, pad[k])])
    ensures CountFalse(redundant[..k + 1]) == CountFalse(redundant[..k]) + (if redundant[k] then 0 else 1)
    ensures CountFalse(redundant[..k + 1]) <= CountFalse(redundant)
  {
    assert redundant[..k + 1][..k] == redundant[..k];
    CountFalsePrefix(redundant, k + 1);
  }

  /** Writing x just after the values g spliced into o at offset extends the splice by x. */
  lemma SpliceWrite(o: seq<Double>, offset: nat, g: seq<Double>, x: Double, cur: seq<Double>)
    requires offset + |g| < |o| && cur == o[..offset] + g + o[offset + |g|..]
    ensures |cur| == |o|
    ensures cur[offset + |g| := x] == o[..offset] + (g + [x]) + o[offset + |g| + 1..]
  {
    var lhs := cur[offset + |g| := x];
    var rhs := o[..offset] + (g + [x]) + o[offset + |g| + 1..];
    assert |lhs| == |rhs|;
    forall i | 0 <= i < |lhs|
      ensures lhs[i] == rhs[i]
    {
      if i < offset {
      } else if i < offset + |g| {
      } else if i == offset + |g| {
      } else {
      }
    }
  }

  lemma {:induction false} AllFalseCount(n: nat)
    ensures CountFalse(seq(n, _ => false)) == n
  {
    if n > 0 {
      AllFalseCount(n - 1);
      assert seq(n, _ => false)[..n - 1] == seq(n - 1, _ => false);
    }
  }

  lemma {:induction false} CountFalsePrefix(s: seq<bool>, k: nat)
    requires k <= |s|
    ensures CountFalse(s[..k]) <= CountFalse(s)
    decreases |s|
  {
    if k < |s| {
      assert s[..|s| - 1][..k] == s[..k];
      CountFalsePrefix(s[..|s| - 1], k);
    } else {
      assert s[..k] == s;
    }
  }

  function Shapes(cons: seq<Constraint>): (r: seq<ConstraintShape>)
    reads cons
    ensures |r| == |cons| && forall j :: 0 <= j < |cons| ==> r[j] == cons[j].Shape()
  {
    seq(|cons|, j reads cons requires 0 <= j < |cons| => cons[j].Shape())
  }

  /** The rows one selected constraint occupies in the stacked vector have had their Jacobian rows
      zeroed wherever the row is a clamped inequality whose value is 0. */
  ghost predicate RowsZeroed(constr: array<Double>, jac: array2<Double>, flags: seq<bool>, lo: nat, hi: nat)
    reads constr, jac
    requires lo <= hi <= constr.Length && |flags| == hi - lo
  {
    forall cx :: lo <= cx < hi && cx < jac.Length0 && flags[cx - lo] && constr[cx] == Fin(0.0) ==>
      forall c :: 0 <= c < jac.Length1 ==> jac[cx, c] == Fin(0.0)
  }

  /** A ConstraintVec: the constraints selected by cf, stacked. */
  class ConstraintVec {
    const cf: ConstraintOp -> bool
    var count: nat
    var ineqAlwaysActive: bool

    /** The loop sums the sizes of the constraints the classifier selects; a constraint's size is
        its number of non-redundant rows, as each constraint keeps it. */
    constructor (cf: ConstraintOp -> bool, cons: seq<Constraint>)
      requires forall j :: 0 <= j < |cons| ==> cons[j].Valid()
      ensures this.cf == cf && count == Count(Shapes(cons), cf, |cons|) && !ineqAlwaysActive
    {
      this.cf := cf;
      ineqAlwaysActive := false;
      var c := 0;
      for j := 0 to |cons|
        invariant c == Count(Shapes(cons), cf, j)
      {
        if cf(cons[j].opCode) {
          c := c + cons[j].size;
        }
      }
      count := c;
    }

    /** The constraint part of ConstraintVec::eval. pads[j] is the refreshed value of constraint j;
        jac is written only when hasJac. */
    method Eval(cons: seq<Constraint>, pads: seq<seq<Double>>, constr: array<Double>, jac: array2<Double>, hasJac: bool)
      requires forall j :: 0 <= j < |cons| ==> cons[j].Valid()
      requires PadsFit(Shapes(cons), pads)
      requires count == Count(Shapes(cons), cf, |cons|) && constr.Length == count
      requires hasJac ==> jac.Length0 == count
      modifies constr, jac
      ensures count > 0 ==> constr[..] == EvalValues(Shapes(cons), pads, |cons|, cf, ineqAlwaysActive)
      ensures count > 0 && hasJac ==> RowsZeroed(constr, jac, ClampedRows(Shapes(cons), |cons|, cf, ineqAlwaysActive), 0, count)
    {
      if count == 0 {
        return;
      }
      Stack(cons, Shapes(cons), pads, constr, jac, hasJac, cf, ineqAlwaysActive);
    }
  }

  /** After the first j constraints, the first cur rows hold their stacked values, with the Jacobian
      rows of the clamped zero ones zeroed. */
  ghost predicate Stacked(constr: array<Double>, jac: array2<Double>, hasJac: bool, shapes: seq<ConstraintShape>,
                          pads: seq<seq<Double>>, j: nat, cur: nat, cf: ConstraintOp -> bool, ineqAlwaysActive: bool)
    reads constr, jac
    requires PadsFit(shapes, pads) && j <= |shapes|
  {
    && cur == Count(shapes, cf, j)
    && Holds(constr, jac, hasJac, EvalValues(shapes, pads, j, cf, ineqAlwaysActive), ClampedRows(shapes, j, cf, ineqAlwaysActive))
  }

  /** The first |vals| rows hold vals, and the Jacobian rows of those flagged as clamped that hold 0 are zero. */
  ghost predicate Holds(constr: array<Double>, jac: array2<Double>, hasJac: bool, vals: seq<Double>, flags: seq<bool>)
    reads constr, jac
  {
    && |vals| == |flags| <= constr.Length
    && constr[..|vals|] == vals
    && (hasJac ==> RowsZeroed(constr, jac, flags, 0, |vals|))
  }

  /** The loop of ConstraintVec::eval over all constraints, given their shapes. */
  method Stack(cons: seq<Constraint>, ghost shapes: seq<ConstraintShape>, pads: seq<seq<Double>>, constr: array<Double>, jac: array2<Double>,
               hasJac: bool, cf: ConstraintOp -> bool, ineqAlwaysActive: bool)
    requires |shapes| == |cons| && forall j {:trigger cons[j]} :: 0 <= j < |cons| ==> cons[j].Valid() && cons[j].Shape() == shapes[j]
    requires PadsFit(shapes, pads)
    requires constr.Length == Count(shapes, cf, |shapes|)
    requires hasJac ==> jac.Length0 == constr.Length
    modifies constr, jac
    ensures constr[..] == EvalValues(shapes, pads, |shapes|, cf, ineqAlwaysActive)
    ensures hasJac ==> RowsZeroed(constr, jac, ClampedRows(shapes, |shapes|, cf, ineqAlwaysActive), 0, constr.Length)
  {
    var j := 0;
    var cur: nat := 0;
    while j < |cons|
      invariant 0 <= j <= |cons|
      invariant Stacked(constr, jac, hasJac, shapes, pads, j, cur, cf, ineqAlwaysActive)
      invariant forall k {:trigger cons[k]} :: 0 <= k < |cons| ==> cons[k].Valid() && cons[k].Shape() == shapes[k]
    {
      cur := Advance(cons[j], shapes, pads, j, constr, jac, hasJac, cur, cf, ineqAlwaysActive);
      j := j + 1;
    }
    assert constr[..] == constr[..cur];
  }

  /** One iteration of ConstraintVec::eval, over constraint j, whose shape is shapes[j]. */
  method Advance(con: Constraint, ghost shapes: seq<ConstraintShape>, pads: seq<seq<Double>>, j: nat,
                 constr: array<Double>, jac: array2<Double>, hasJac: bool, cur: nat, cf: ConstraintOp -> bool, ineqAlwaysActive: bool)
    returns (next: nat)
    requires j < |shapes| && con.Valid() && con.Shape() == shapes[j] && PadsFit(shapes, pads)
    requires constr.Length == Count(shapes, cf, |shapes|) && (hasJac ==> jac.Length0 == constr.Length)
    requires Stacked(constr, jac, hasJac, shapes, pads, j, cur, cf, ineqAlwaysActive)
    modifies constr, jac
    ensures Stacked(constr, jac, hasJac, shapes, pads, j + 1, next, cf, ineqAlwaysActive)
  {
    CountMonotone(shapes, cf, j + 1, |shapes|);
    StackNext(shapes, pads, j, cf, ineqAlwaysActive);
    next := Step(con, pads[j], constr, jac, hasJac, cur, cf, ineqAlwaysActive, shapes[j],
                 EvalValues(shapes, pads, j, cf, ineqAlwaysActive), ClampedRows(shapes, j, cf, ineqAlwaysActive));
  }

  /** One iteration of ConstraintVec::eval: constraint con, of shape shape, follows rows holding vals,
      whose clamp flags are flags. */
  method Step(con: Constraint, pad: seq<Double>, constr: array<Double>, jac: array2<Double>, hasJac: bool, cur: nat,
              cf: ConstraintOp -> bool, ineqAlwaysActive: bool, ghost shape: ConstraintShape, ghost vals: seq<Double>, ghost flags: seq<bool>)
    returns (next: nat)
    requires con.Valid() && con.Shape() == shape && |pad| >= |con.redundant|
    requires cur == |vals| && cur + Size(shape, cf) <= constr.Length
    requires hasJac ==> jac.Length0 == constr.Length
    requires Holds(constr, jac, hasJac, vals, flags)
    modifies constr, jac
    ensures next == cur + Size(shape, cf)
    ensures Holds(constr, jac, hasJac, vals + Contribution(shape, pad, cf, ineqAlwaysActive), flags + ClampedFlags(shape, cf, ineqAlwaysActive))
  {
    if cf(con.opCode) && con.size != 0 {
      Place(con, pad, constr, jac, hasJac, cur, cf, ineqAlwaysActive, vals, flags);
      next := cur + con.size;
    } else {
      next := cur;
      assert Contribution(shape, pad, cf, ineqAlwaysActive) == [];
      assert ClampedFlags(shape, cf, ineqAlwaysActive) == [];
      assert flags + [] == flags;
      assert vals + [] == vals;
    }
  }

  /** One selected constraint of ConstraintVec::eval: grab its values at cur, then clamp them when it is
      an inequality and inequalities are not always active. */
  method Place(con: Constraint, pad: seq<Double>, constr: array<Double>, jac: array2<Double>, hasJac: bool, cur: nat,
               cf: ConstraintOp -> bool, ineqAlwaysActive: bool, ghost vals: seq<Double>, ghost done: seq<bool>)
    requires con.Valid() && |pad| >= |con.redundant| && cf(con.opCode)
    requires cur == |vals| && cur + con.size <= constr.Length
    requires hasJac ==> jac.Length0 == constr.Length
    requires Holds(constr, jac, hasJac, vals, done)
    modifies constr, jac
    ensures Holds(constr, jac, hasJac, vals + Contribution(con.Shape(), pad, cf, ineqAlwaysActive),
                  done + ClampedFlags(con.Shape(), cf, ineqAlwaysActive))
  {
    con.RefreshAndGrab(pad, constr, cur);
    ghost var grabbed := Grabbed(con.redundant, pad, con.opCode);
    assert constr[cur..cur + con.size] == grabbed;
    assert constr[..cur] == vals;
    if con.opCode != Equality && !ineqAlwaysActive {
      ClampInactive(constr, jac, hasJac, cur, con.size);
      assert constr[cur..cur + con.size] == ClampAll(grabbed);
      assert constr[..cur] == vals;
    }
    assert constr[..cur + con.size] == vals + Contribution(con.Shape(), pad, cf, ineqAlwaysActive);
    if hasJac {
      var flags := done + ClampedFlags(con.Shape(), cf, ineqAlwaysActive);
      forall cx | 0 <= cx < cur + con.size && cx < jac.Length0 && flags[cx] && constr[cx] == Fin(0.0)
        ensures forall c :: 0 <= c < jac.Length1 ==> jac[cx, c] == Fin(0.0)
      {
        if cx >= cur {
          assert ClampedFlags(con.Shape(), cf, ineqAlwaysActive)[cx - cur];
        } else {
          assert done[cx];
        }
      }
    }
  }

  /** The clamp loop for one inequality constraint occupying rows cur..cur+n: max(0, value), and a zero
      Jacobian row wherever the clamped value is 0. */
  method ClampInactive(constr: array<Double>, jac: array2<Double>, hasJac: bool, cur: nat, n: nat)
    requires cur + n <= constr.Length
    requires hasJac ==> jac.Length0 == constr.Length
    modifies constr, jac
    ensures forall i :: 0 <= i < constr.Length ==>
      constr[i] == if cur <= i < cur + n then ClampZero(old(constr[i])) else old(constr[i])
    ensures hasJac ==> RowsZeroed(constr, jac, seq(n, _ => true), cur, cur + n)
    ensures forall cx, c :: 0 <= cx < jac.Length0 && !(cur <= cx < cur + n) && 0 <= c < jac.Length1 ==> jac[cx, c] == old(jac[cx, c])
  {
    var cx := cur;
    while cx < cur + n
      invariant cur <= cx <= cur + n
      invariant forall i :: 0 <= i < constr.Length ==>
        constr[i] == if cur <= i < cx then ClampZero(old(constr[i])) else old(constr[i])
      invariant hasJac ==> RowsZeroed(constr, jac, seq(cx - cur, _ => true), cur, cx)
      invariant forall r, c :: 0 <= r < jac.Length0 && !(cur <= r < cx) && 0 <= c < jac.Length1 ==> jac[r, c] == old(jac[r, c])
    {
      constr[cx] := ClampZero(constr[cx]);
      if hasJac && constr[cx] == Fin(0.0) {
        ZeroRow(jac, cx);
      }
      cx := cx + 1;
    }
  }

  /** constrJac.row(cx).setZero() */
  method ZeroRow(jac: array2<Double>, cx: nat)
    requires cx < jac.Length0
    modifies jac
    ensures forall c :: 0 <= c < jac.Length1 ==> jac[cx, c] == Fin(0.0)
    ensures forall r, c :: 0 <= r < jac.Length0 && r != cx && 0 <= c < jac.Length1 ==> jac[r, c] == old(jac[r, c])
  {
    var c := 0;
    while c < jac.Length1
      invariant 0 <= c <= jac.Length1
      invariant forall c' :: 0 <= c' < c ==> jac[cx, c'] == Fin(0.0)
      invariant forall r, c' :: 0 <= r < jac.Length0 && r != cx && 0 <= c' < jac.Length1 ==> jac[r, c'] == old(jac[r, c'])
    {
      jac[cx, c] := Fin(0.0);
      c := c + 1;
    }
  }
}
