// Algebra construction and evaluation control (omxAlgebra): the argument
// array and its allocation rules, filling an algebra from an operator-table
// entry, looking matrices up by number, the re-entrancy guard of recompute and
// the flags it propagates. The operators themselves are not part of this
// model: their effect on the result's dimensions is given by the caller.
module Algebra {
  import opened Common
  import SymbolTable
  import StateIndex

  /** The part of an omxMatrix the algebra code reads and writes. */
  class Matrix {
    var rows: nat
    var cols: nat
    var dependsOnParameters: bool
    var dependsOnDefVars: bool
    var clean: bool
    var discardable: bool
    var algebra: AlgebraNode?

    constructor (rows: nat, cols: nat)
      ensures this.rows == rows && this.cols == cols
      ensures !dependsOnParameters && !dependsOnDefVars && !clean && !discardable && algebra == null
    {
      this.rows := rows;
      this.cols := cols;
      dependsOnParameters := false;
      dependsOnDefVars := false;
      clean := false;
      discardable := false;
      algebra := null;
    }
  }

  /** An omxAlgebra: an operator (or the no-op) applied to argument matrices. */
  class AlgebraNode {
    var numArgs: nat
    var algArgs: array?<Matrix?>
    var entry: Option<SymbolTable.TableEntry>
    var hasCompute: bool
    var processing: bool
    var fixed: bool
    var matrix: Matrix?

    /** The argument array is absent exactly when there are no arguments. */
    ghost predicate Valid()
      reads this
    {
      (algArgs == null && numArgs == 0) || (algArgs != null && algArgs.Length == numArgs && numArgs > 0)
    }

    /** omxInitAlgebraWithMatrix on a new omxAlgebra: no arguments, no operator. */
    constructor (om: Matrix?, fixed: bool)
      ensures Valid() && numArgs == 0 && algArgs == null
      ensures entry.None? && !hasCompute && !processing && this.fixed == fixed && matrix == om
    {
      numArgs := 0;
      algArgs := null;
      entry := None;
      hasCompute := false;
      processing := false;
      this.fixed := fixed;
      matrix := om;
    }

    /** omxAlgebraAllocArgs. A request for no arguments drops the array; an existing array is kept
        and must be large enough; otherwise a fresh array of empty slots is made. */
    method AllocArgs(n: int) returns (out: Outcome)
      requires Valid()
      modifies this
      ensures Valid()
      ensures n <= 0 ==> out == Success && numArgs == 0 && algArgs == null
      ensures n > 0 && old(algArgs) != null ==>
        && (out.Failure? <==> old(numArgs) < n)
        && numArgs == old(numArgs) && algArgs == old(algArgs)
      ensures n > 0 && old(algArgs) == null ==>
        && out == Success && numArgs == n && algArgs != null && fresh(algArgs)
        && forall j :: 0 <= j < algArgs.Length ==> algArgs[j] == null
      ensures entry == old(entry) && hasCompute == old(hasCompute) && processing == old(processing)
      ensures fixed == old(fixed) && matrix == old(matrix)
    {
      if n <= 0 {
        numArgs := 0;
        algArgs := null;
        return Success;
      }
      if algArgs != null {
        if numArgs < n {
          return Failure("omxAlgebra: " + StateIndex.IntToString(n) + " args requested but "
                         + StateIndex.IntToString(numArgs) + " available");
        }
        return Success;
      }
      numArgs := n;
      algArgs := new Matrix?[n](_ => null);
      out := Success;
    }

    /** omxFillAlgebraFromTableEntry: the entry's arity, or realNumArgs for a variadic entry. */
    method FillFromTableEntry(e: SymbolTable.TableEntry, realNumArgs: int) returns (out: Outcome)
      requires Valid()
      modifies this
      ensures Valid()
      ensures entry == Some(e) && hasCompute == e.computeFn.Some?
      ensures ArgsToAllocate(e, realNumArgs) <= 0 ==> out == Success && numArgs == 0 && algArgs == null
      ensures ArgsToAllocate(e, realNumArgs) > 0 && old(algArgs) != null ==>
        && (out.Failure? <==> old(numArgs) < ArgsToAllocate(e, realNumArgs))
        && numArgs == old(numArgs) && algArgs == old(algArgs)
      ensures ArgsToAllocate(e, realNumArgs) > 0 && old(algArgs) == null ==>
        && out == Success && numArgs == ArgsToAllocate(e, realNumArgs) && algArgs != null && fresh(algArgs)
        && forall j :: 0 <= j < algArgs.Length ==> algArgs[j] == null
      ensures processing == old(processing) && fixed == old(fixed) && matrix == old(matrix)
    {
      entry := Some(e);
      hasCompute := e.computeFn.Some?;
      out := AllocArgs(if e.numArgs == SymbolTable.VARIADIC then realNumArgs else e.numArgs);
    }
  }

  /** The number of argument slots an algebra of entry e gets. */
  function ArgsToAllocate(e: SymbolTable.TableEntry, realNumArgs: int): (n: int)
    ensures e.numArgs != SymbolTable.VARIADIC ==> n == e.numArgs
    ensures e.numArgs == SymbolTable.VARIADIC ==> n == realNumArgs
  {
    if e.numArgs == SymbolTable.VARIADIC then realNumArgs else e.numArgs
  }

  /** omxNewAlgebraFromOperatorAndArgs: an algebra for opCode over args[..numArgs]; a fixed arity must
      match numArgs. */
  method NewAlgebraFromOperatorAndArgs(opCode: nat, args: seq<Matrix?>, numArgs: int) returns (res: Result<AlgebraNode>)
    requires opCode < SymbolTable.TABLE_SIZE
    requires numArgs <= |args|
    ensures res.Err? <==> SymbolTable.Entry(opCode).numArgs >= 0 && SymbolTable.Entry(opCode).numArgs != numArgs
    ensures res.Ok? ==> var oa := res.value;
      && fresh(oa) && oa.Valid() && oa.entry == Some(SymbolTable.Entry(opCode)) && oa.matrix != null && fresh(oa.matrix)
      && oa.matrix.algebra == oa
      && (numArgs <= 0 ==> oa.algArgs == null)
      && (numArgs > 0 ==> oa.algArgs != null && oa.algArgs[..] == args[..numArgs])
  {
    var e := SymbolTable.Entry(opCode);
    if e.numArgs >= 0 && e.numArgs != numArgs {
      return Err("Internal error: incorrect number of arguments passed to algebra " + e.rName + ".");
    }
    var om := new Matrix(0, 0);
    var oa := new AlgebraNode(om, false);
    om.algebra := oa;
    var first := oa.FillFromTableEntry(e, e.numArgs);
    var second := oa.AllocArgs(numArgs);
    if numArgs > 0 {
      assert oa.algArgs != null && oa.algArgs.Length == numArgs && fresh(oa.algArgs);
      var i := 0;
      while i < numArgs
        invariant 0 <= i <= numArgs
        invariant oa.Valid() && oa.algArgs != null && oa.algArgs.Length == numArgs && fresh(oa.algArgs)
        invariant oa.algArgs[..i] == args[..i]
        invariant oa.entry == Some(e) && oa.matrix == om && om.algebra == oa && fresh(om)
      {
        oa.algArgs[i] := args[i];
        i := i + 1;
      }
      assert oa.algArgs[..] == oa.algArgs[..i];
    }
    return Ok(oa);
  }

  /** R's NA_integer_ (INT_MIN). */
  const NA_INTEGER: int := -0x8000_0000

  /** omxMatrixLookupFromStateByNumber: NA is no matrix, any other number decodes as in getMatrixFromIndex. */
  function LookupByNumber<T>(matrixList: seq<T>, algebraList: seq<T>, matrix: int): (r: Option<T>)
    requires matrix != NA_INTEGER ==> StateIndex.InRange(matrixList, algebraList, StateIndex.Decode(matrix))
    ensures matrix == NA_INTEGER <==> r.None?
  {
    if matrix == NA_INTEGER then None
    else if matrix >= 0 then Some(algebraList[matrix])
    else Some(matrixList[StateIndex.Complement(matrix)])
  }

  /** Looking up the number of any stored matrix or algebra finds it. */
  lemma LookupByNumberEncoded<T>(matrixList: seq<T>, algebraList: seq<T>, r: StateIndex.MatrixRef)
    requires StateIndex.InRange(matrixList, algebraList, r)
    requires |matrixList| < 0x8000_0000
    ensures LookupByNumber(matrixList, algebraList, StateIndex.Encode(r))
      == Some(StateIndex.GetMatrixFromIndex(matrixList, algebraList, StateIndex.Encode(r)))
    ensures r.MatrixAt? ==> LookupByNumber(matrixList, algebraList, StateIndex.Encode(r)) == Some(matrixList[r.index])
    ensures r.AlgebraAt? ==> LookupByNumber(matrixList, algebraList, StateIndex.Encode(r)) == Some(algebraList[r.index])
  {
    StateIndex.DecodeEncode(r);
  }

  /** The R values omxMatrixLookupFromState1 may be handed. An integer vector holds NA as NA_INTEGER. */
  datatype RValue = IntVector(ints: seq<int>) | RealVector(reals: seq<real>) | Nil | StringVector(strs: seq<string>) | OtherValue(len: nat)
  {
    function Length(): nat
    {
      match this
      case IntVector(v) => |v|
      case RealVector(v) => |v|
      case Nil => 0
      case StringVector(v) => |v|
      case OtherValue(n) => n
    }
  }

  /** C's (int) conversion of a double: truncation toward zero. */
  function TruncateToInt(x: real): (n: int)
    ensures x >= 0.0 ==> n as real <= x < n as real + 1.0
    ensures x < 0.0 ==> n as real - 1.0 < x <= n as real
  {
    if x >= 0.0 then x.Floor else -((-x).Floor)
  }

  /** The matrix number omxMatrixLookupFromState1 reads from an R value: None for "no matrix". */
  function State1Number(v: RValue): (r: Result<Option<int>>)
    ensures v.Length() == 0 ==> r == Ok(None)
    ensures v.StringVector? && v.Length() > 0 ==> r.Err?
    ensures r.Err? ==> v.Length() > 0 && (v.StringVector? || v.OtherValue?)
    ensures v.IntVector? && v.Length() > 0 ==> r == (if v.ints[0] == NA_INTEGER then Ok(None) else Ok(Some(v.ints[0])))
  {
    if v.Length() == 0 then Ok(None)
    else
      match v
      case IntVector(ints) => if ints[0] == NA_INTEGER then Ok(None) else Ok(Some(ints[0]))
      case RealVector(reals) => Ok(Some(TruncateToInt(reals[0])))
      case Nil => Ok(None)
      case StringVector(_) =>
        Err("Internal error: string passed to omxMatrixLookupFromState1, did you forget to call imxLocateIndex?")
      case OtherValue(_) => Err("Internal error: unknown type passed to omxMatrixLookupFromState1")
  }

  /** omxMatrixLookupFromState1 */
  function LookupFromState1<T>(matrixList: seq<T>, algebraList: seq<T>, v: RValue): (r: Result<Option<T>>)
    requires State1Number(v).Ok? && State1Number(v).value.Some? ==>
      StateIndex.InRange(matrixList, algebraList, StateIndex.Decode(State1Number(v).value.value))
    ensures r.Err? <==> State1Number(v).Err?
    ensures State1Number(v).Ok? && State1Number(v).value.Some? ==>
      r == Ok(Some(StateIndex.GetMatrixFromIndex(matrixList, algebraList, State1Number(v).value.value)))
    ensures r == Ok(None) <==> State1Number(v) == Ok(None)
  {
    match State1Number(v)
    case Err(msg) => Err(msg)
    case Ok(None) => Ok(None)
    case Ok(Some(n)) => Ok(Some(StateIndex.GetMatrixFromIndex(matrixList, algebraList, n)))
  }

  /** What omxAlgebraRecompute did. */
  datatype RecomputeOutcome = AlreadyProcessing | ErrorPending | Evaluated | Failed(msg: string)

  predicate SomeArgDependsOnParameters(args: seq<Matrix>)
    reads args
  {
    exists j :: 0 <= j < |args| && args[j].dependsOnParameters
  }

  predicate SomeArgDependsOnDefVars(args: seq<Matrix>)
    reads args
  {
    exists j :: 0 <= j < |args| && args[j].dependsOnDefVars
  }

  /** args lists the arguments held in the algebra's argument array. */
  ghost predicate ArgsAre(oa: AlgebraNode, args: seq<Matrix>)
    reads oa, oa.algArgs
  {
    if oa.algArgs == null then args == []
    else |args| == oa.algArgs.Length && forall j :: 0 <= j < |args| ==> oa.algArgs[j] == args[j]
  }

  /** Set the dependency flags of the result from the arguments on the initial fit. */
  method PropagateDependencies(mat: Matrix, args: seq<Matrix>)
    modifies mat
    ensures mat.dependsOnParameters == (old(mat.dependsOnParameters) || old(SomeArgDependsOnParameters(args)))
    ensures mat.dependsOnDefVars == (old(mat.dependsOnDefVars) || old(SomeArgDependsOnDefVars(args)))
    ensures mat.rows == old(mat.rows) && mat.cols == old(mat.cols) && mat.clean == old(mat.clean)
    ensures mat.discardable == old(mat.discardable) && mat.algebra == old(mat.algebra)
  {
    var fvDep := false;
    var dvDep := false;
    var j := 0;
    while j < |args|
      invariant 0 <= j <= |args|
      invariant fvDep <==> exists k :: 0 <= k < j && args[k].dependsOnParameters
      invariant dvDep <==> exists k :: 0 <= k < j && args[k].dependsOnDefVars
    {
      if args[j].dependsOnParameters {
        fvDep := true;
      }
      if args[j].dependsOnDefVars {
        dvDep := true;
      }
      j := j + 1;
    }
    if fvDep {
      mat.dependsOnParameters := true;
    }
    if dvDep {
      mat.dependsOnDefVars := true;
    }
  }

  /** Shrink every discardable argument to 0x0 and mark it dirty, after the operator has run. */
  method DiscardArgs(args: seq<Matrix>)
    modifies set j | 0 <= j < |args| :: args[j]
    ensures forall j :: 0 <= j < |args| && old(args[j].discardable) ==>
      args[j].rows == 0 && args[j].cols == 0 && !args[j].clean
    ensures forall m :: m in args && !old(m.discardable) ==>
      m.rows == old(m.rows) && m.cols == old(m.cols) && m.clean == old(m.clean)
    ensures forall m :: m in args ==>
      && m.discardable == old(m.discardable) && m.algebra == old(m.algebra)
      && m.dependsOnParameters == old(m.dependsOnParameters) && m.dependsOnDefVars == old(m.dependsOnDefVars)
  {
    var j := 0;
    while j < |args|
      invariant 0 <= j <= |args|
      invariant forall k :: 0 <= k < j && old(args[k].discardable) ==> args[k].rows == 0 && args[k].cols == 0 && !args[k].clean
      invariant forall m :: m in args && !old(m.discardable) ==> m.rows == old(m.rows) && m.cols == old(m.cols) && m.clean == old(m.clean)
      invariant forall m :: m in args ==>
        && m.discardable == old(m.discardable) && m.algebra == old(m.algebra)
        && m.dependsOnParameters == old(m.dependsOnParameters) && m.dependsOnDefVars == old(m.dependsOnDefVars)
    {
      if args[j].discardable {
        args[j].rows := 0;
        args[j].cols := 0;
        args[j].clean := false;
      }
      j := j + 1;
    }
  }

  /** omxAlgebraRecompute for the algebra oa whose result is mat and whose arguments are args. The
      recomputation of the arguments is not modelled: errorRaised says whether it left an error
      pending. An operator's result has the dimensions opRows x opCols. */
  method Recompute(oa: AlgebraNode, mat: Matrix, args: seq<Matrix>, initialFit: bool, errorRaised: bool, opRows: nat, opCols: nat)
    returns (out: RecomputeOutcome)
    requires oa.Valid() && oa.matrix == mat && ArgsAre(oa, args) && mat !in args
    modifies oa`processing, mat, set j | 0 <= j < |args| :: args[j]
    ensures oa.processing == old(oa.processing)
    ensures old(oa.processing) ==> out == AlreadyProcessing && unchanged(mat) && forall m :: m in args ==> unchanged(m)
    ensures !old(oa.processing) && initialFit ==>
      && mat.dependsOnParameters == (old(mat.dependsOnParameters) || old(SomeArgDependsOnParameters(args)))
      && mat.dependsOnDefVars == (old(mat.dependsOnDefVars) || old(SomeArgDependsOnDefVars(args)))
    ensures !old(oa.processing) && !initialFit ==>
      mat.dependsOnParameters == old(mat.dependsOnParameters) && mat.dependsOnDefVars == old(mat.dependsOnDefVars)
    ensures !old(oa.processing) && errorRaised ==> out == ErrorPending
    ensures !old(oa.processing) && !errorRaised && !oa.hasCompute ==> (out.Failed? <==> |args| != 1)
    ensures !old(oa.processing) && !errorRaised && !oa.hasCompute && |args| == 1 ==>
      out == Evaluated && mat.rows == old(args[0].rows) && mat.cols == old(args[0].cols)
    ensures !old(oa.processing) && !errorRaised && oa.hasCompute ==>
      && out == Evaluated && mat.rows == opRows && mat.cols == opCols
      && (forall j :: 0 <= j < |args| && old(args[j].discardable) ==> args[j].rows == 0 && args[j].cols == 0 && !args[j].clean)
      && (forall m :: m in args && !old(m.discardable) ==> m.rows == old(m.rows) && m.cols == old(m.cols) && m.clean == old(m.clean))
    ensures oa.numArgs == old(oa.numArgs) && oa.algArgs == old(oa.algArgs) && oa.hasCompute == old(oa.hasCompute)
    ensures oa.matrix == old(oa.matrix) && oa.entry == old(oa.entry) && oa.fixed == old(oa.fixed)
  {
    if oa.processing {
      return AlreadyProcessing;
    }
    oa.processing := true;
    if initialFit {
      PropagateDependencies(mat, args);
    }
    if errorRaised {
      oa.processing := false;
      return ErrorPending;
    }
    out := EvaluateInto(mat, args, oa.hasCompute, opRows, opCols);
    oa.processing := false;
  }

  /** The evaluation proper: the no-op takes its one argument's shape (an internal error
      otherwise); an operator gives its result's shape and releases the discardable arguments. */
  method EvaluateInto(mat: Matrix, args: seq<Matrix>, hasCompute: bool, opRows: nat, opCols: nat)
    returns (out: RecomputeOutcome)
    requires mat !in args
    modifies mat, set j | 0 <= j < |args| :: args[j]
    ensures mat.dependsOnParameters == old(mat.dependsOnParameters) && mat.dependsOnDefVars == old(mat.dependsOnDefVars)
    ensures !hasCompute ==> (out.Failed? <==> |args| != 1) && forall m :: m in args ==> unchanged(m)
    ensures !hasCompute && |args| == 1 ==>
      out == Evaluated && mat.rows == old(args[0].rows) && mat.cols == old(args[0].cols)
    ensures hasCompute ==>
      && out == Evaluated && mat.rows == opRows && mat.cols == opCols
      && (forall j :: 0 <= j < |args| && old(args[j].discardable) ==> args[j].rows == 0 && args[j].cols == 0 && !args[j].clean)
      && (forall m :: m in args && !old(m.discardable) ==> m.rows == old(m.rows) && m.cols == old(m.cols) && m.clean == old(m.clean))
  {
    if !hasCompute {
      if |args| != 1 {
        return Failed("Internal Error: Empty algebra evaluated");
      }
      // take() when the argument may be discarded, a copy otherwise: either way the result gets its shape
      mat.rows := args[0].rows;
      mat.cols := args[0].cols;
    } else {
      mat.rows := opRows;
      mat.cols := opCols;
      DiscardArgs(args);
    }
    out := Evaluated;
  }

  /** The no-op branch of omxFillMatrixFromMxAlgebra: an algebra with one argument, the matrix or algebra
      that value numbers. A fixed algebra's result is marked clean. */
  method FillNoOp(om: Matrix, value: int, matrixList: seq<Matrix>, algebraList: seq<Matrix>, fixed: bool)
    returns (oa: AlgebraNode)
    requires StateIndex.InRange(matrixList, algebraList, StateIndex.Decode(value))
    modifies om
    ensures fresh(oa) && oa.Valid() && oa.numArgs == 1 && oa.algArgs != null && fresh(oa.algArgs)
    ensures oa.algArgs[0] == StateIndex.GetMatrixFromIndex(matrixList, algebraList, value)
    ensures oa.matrix == om && om.algebra == oa && oa.fixed == fixed && !oa.hasCompute
    ensures om.clean == (fixed || old(om.clean))
    ensures om.rows == old(om.rows) && om.cols == old(om.cols)
  {
    oa := new AlgebraNode(om, fixed);
    om.algebra := oa;
    var out := oa.AllocArgs(1);
    if value < 0 {
      oa.algArgs[0] := matrixList[StateIndex.Complement(value)];
    } else {
      oa.algArgs[0] := algebraList[value];
    }
    if oa.fixed {
      om.clean := true;
    }
  }

  /** The operator branch of omxFillMatrixFromMxAlgebra: the table entry of opcode value, with argument j
      the parsed j-th operand. Parsing an operand is not modelled: parsed holds the results. */
  method FillOperator(om: Matrix, value: nat, parsed: seq<Matrix>, fixed: bool) returns (oa: AlgebraNode, out: Outcome)
    requires 0 < value < SymbolTable.TABLE_SIZE
    requires ArgsToAllocate(SymbolTable.Entry(value), |parsed|) <= |parsed|
    modifies om
    ensures fresh(oa) && oa.Valid() && oa.matrix == om && om.algebra == oa && oa.fixed == fixed
    ensures out == Success && oa.entry == Some(SymbolTable.Entry(value))
    ensures oa.numArgs == (if ArgsToAllocate(SymbolTable.Entry(value), |parsed|) <= 0 then 0
                           else ArgsToAllocate(SymbolTable.Entry(value), |parsed|))
    ensures oa.algArgs != null ==> fresh(oa.algArgs) && oa.algArgs[..] == parsed[..oa.numArgs]
    ensures om.clean == (fixed || old(om.clean))
  {
    oa := new AlgebraNode(om, fixed);
    om.algebra := oa;
    out := oa.FillFromTableEntry(SymbolTable.Entry(value), |parsed|);
    if oa.algArgs != null {
      var j := 0;
      while j < oa.numArgs
        invariant 0 <= j <= oa.numArgs
        invariant oa.Valid() && oa.algArgs != null && fresh(oa.algArgs) && oa.numArgs <= |parsed|
        invariant oa.numArgs == ArgsToAllocate(SymbolTable.Entry(value), |parsed|)
        invariant oa.algArgs[..j] == parsed[..j]
        invariant oa.matrix == om && om.algebra == oa && oa.fixed == fixed && oa.entry == Some(SymbolTable.Entry(value))
        invariant om.clean == old(om.clean)
      {
        oa.algArgs[j] := parsed[j];
        j := j + 1;
      }
      assert oa.algArgs[..] == oa.algArgs[..j];
    }
    if oa.fixed {
      om.clean := true;
    }
  }
}
