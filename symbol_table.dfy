// The algebra operator table (omxAlgebraSymbolTable): one entry per opcode,
// giving its names, its arity (-1 for any number of arguments) and whether it
// has check and compute functions. The operator implementations themselves
// are not part of this model; an entry records only the name of each.
module SymbolTable {
  import opened Common

  datatype TableEntry = TableEntry(number: int, opName: string, rName: string, numArgs: int,
                                   checkFn: Option<string>, computeFn: Option<string>)

  /** Arity of an operator that takes any number of arguments. */
  const VARIADIC: int := -1

  const TABLE_SIZE: nat := 96

  /** The entry of opcode op: the table is indexed by opcode. */
  function Entry(op: nat): TableEntry
    requires op < TABLE_SIZE
  {
    match op
    case 0 => TableEntry(0, "*SPECIAL*", "*NONE*", 0, None, None)
    case 1 => TableEntry(1, "Inversion", "solve", 1, Some("omxMatrixInvertCheck"), Some("omxMatrixInvert"))
    case 2 => TableEntry(2, "Transposition", "t", 1, Some("omxMatrixTransposeCheck"), Some("omxMatrixTranspose"))
    case 3 => TableEntry(3, "Element powering", "^", 2, Some("omxElementPowerCheck"), Some("omxElementPower"))
    case 4 => TableEntry(4, "Multiplication", "%*%", 2, Some("omxMatrixMultCheck"), Some("omxMatrixMult"))
    case 5 => TableEntry(5, "Dot product", "*", 2, Some("omxMatrixElementMultCheck"), Some("omxMatrixElementMult"))
    case 6 => TableEntry(6, "Kronecker product", "%x%", 2, Some("omxKroneckerProdCheck"), Some("omxKroneckerProd"))
    case 7 => TableEntry(7, "Quadratic product", "%&%", 2, Some("omxQuadraticProdCheck"), Some("omxQuadraticProd"))
    case 8 => TableEntry(8, "Element division", "/", 2, Some("omxElementDivideCheck"), Some("omxElementDivide"))
    case 9 => TableEntry(9, "Addition", "+", 2, Some("omxMatrixAddCheck"), Some("omxMatrixAdd"))
    case 10 => TableEntry(10, "Subtraction (binary)", "-", 2, Some("omxMatrixSubtractCheck"), Some("omxMatrixSubtract"))
    case 11 => TableEntry(11, "Subtraction (unary)", "-", 1, Some("omxUnaryMinusCheck"), Some("omxUnaryMinus"))
    case 12 => TableEntry(12, "Horizontal adhesion", "cbind", -1, Some("omxMatrixHorizCatOpCheck"), Some("omxMatrixHorizCatOp"))
    case 13 => TableEntry(13, "Vertical adhesion", "rbind", -1, Some("omxMatrixVertCatOpCheck"), Some("omxMatrixVertCatOp"))
    case 14 => TableEntry(14, "Determinant", "det", 1, Some("omxMatrixDeterminantCheck"), Some("omxMatrixDeterminant"))
    case 15 => TableEntry(15, "Trace", "tr", 1, Some("omxMatrixTraceOpCheck"), Some("omxMatrixTraceOp"))
    case 16 => TableEntry(16, "Sum", "sum", -1, Some("omxMatrixTotalSumCheck"), Some("omxMatrixTotalSum"))
    case 17 => TableEntry(17, "Product", "prod", -1, Some("omxMatrixTotalProductCheck"), Some("omxMatrixTotalProduct"))
    case 18 => TableEntry(18, "Maximum", "max", -1, Some("omxMatrixMaximumCheck"), Some("omxMatrixMaximum"))
    case 19 => TableEntry(19, "Minimum", "min", -1, Some("omxMatrixMinimumCheck"), Some("omxMatrixMinimum"))
    case 20 => TableEntry(20, "Absolute value", "abs", 1, Some("omxMatrixAbsoluteCheck"), Some("omxMatrixAbsolute"))
    case 21 => TableEntry(21, "Cosine", "cos", 1, Some("omxElementCosineCheck"), Some("omxElementCosine"))
    case 22 => TableEntry(22, "Hyperbolic cosine", "cosh", 1, Some("omxElementCoshCheck"), Some("omxElementCosh"))
    case 23 => TableEntry(23, "Sine", "sin", 1, Some("omxElementSineCheck"), Some("omxElementSine"))
    case 24 => TableEntry(24, "Hyperbolic sine", "sinh", 1, Some("omxElementSinhCheck"), Some("omxElementSinh"))
    case 25 => TableEntry(25, "Tangent", "tan", 1, Some("omxElementTangentCheck"), Some("omxElementTangent"))
    case 26 => TableEntry(26, "Hyperbolic tangent", "tanh", 1, Some("omxElementTanhCheck"), Some("omxElementTanh"))
    case 27 => TableEntry(27, "Element Exponent", "exp", 1, Some("omxElementExponentCheck"), Some("omxElementExponent"))
    case 28 => TableEntry(28, "Element Natural Log", "log", 1, Some("omxElementNaturalLogCheck"), Some("omxElementNaturalLog"))
    case 29 => TableEntry(29, "Element Square Root", "sqrt", 1, Some("omxElementSquareRootCheck"), Some("omxElementSquareRoot"))
    case 30 => TableEntry(30, "Submatrix extract", "[", 3, Some("omxMatrixExtractCheck"), Some("omxMatrixExtract"))
    case 31 => TableEntry(31, "Half vectorization", "vech", 1, Some("omxMatrixVechCheck"), Some("omxMatrixVech"))
    case 32 => TableEntry(32, "1/2 vector (strict)", "vechs", 1, Some("omxMatrixVechsCheck"), Some("omxMatrixVechs"))
    case 33 => TableEntry(33, "Diagonal To Vector", "diag2vec", 1, Some("omxMatrixDiagonalCheck"), Some("omxMatrixDiagonal"))
    case 34 => TableEntry(34, "Vector To Diagonal", "vec2diag", 1, Some("omxMatrixFromDiagonalCheck"), Some("omxMatrixFromDiagonal"))
    case 35 => TableEntry(35, "Multivariate Normal Integration", "omxMnor", 4, Some("omxMultivariateNormalIntegrationCheck"), Some("omxMultivariateNormalIntegration"))
    case 36 => TableEntry(36, "All Cells mnor", "omxAllInt", -1, Some("omxAllIntegrationNormsCheck"), Some("omxAllIntegrationNorms"))
    case 37 => TableEntry(37, "Colon", ":", 2, Some("omxSequenceGeneratorCheck"), Some("omxSequenceGenerator"))
    case 38 => TableEntry(38, "Kronecker powering", "%^%", 2, Some("omxKroneckerPowerCheck"), Some("omxKroneckerPower"))
    case 39 => TableEntry(39, "Vectorize by row", "rvectorize", 1, Some("omxRowVectorizeCheck"), Some("omxRowVectorize"))
    case 40 => TableEntry(40, "Vectorize by column", "cvectorize", 1, Some("omxColVectorizeCheck"), Some("omxColVectorize"))
    case 41 => TableEntry(41, "Real Eigenvectors", "eigenvec", 1, Some("omxRealEigenvectorsCheck"), Some("omxRealEigenvectors"))
    case 42 => TableEntry(42, "Real Eigenvalues", "eigenval", 1, Some("omxRealEigenvaluesCheck"), Some("omxRealEigenvalues"))
    case 43 => TableEntry(43, "Imaginary Eigenvectors", "ieigenvec", 1, Some("omxImaginaryEigenvectorsCheck"), Some("omxImaginaryEigenvectors"))
    case 44 => TableEntry(44, "Imaginary Eigenvalues", "ieigenval", 1, Some("omxImaginaryEigenvaluesCheck"), Some("omxImaginaryEigenvalues"))
    case 45 => TableEntry(45, "Unary negation", "omxNot", 1, Some("omxUnaryNegationCheck"), Some("omxUnaryNegation"))
    case 46 => TableEntry(46, "Row Selection", "omxSelectRows", 2, Some("omxSelectRowsCheck"), Some("omxSelectRows"))
    case 47 => TableEntry(47, "Column Selection", "omxSelectCols", 2, Some("omxSelectColsCheck"), Some("omxSelectCols"))
    case 48 => TableEntry(48, "Row And Col Selection", "omxSelectRowsAndCols", 2, Some("omxSelectRowsAndColsCheck"), Some("omxSelectRowsAndCols"))
    case 49 => TableEntry(49, "Arithmetic Mean", "mean", 1, Some("omxMatrixArithmeticMeanCheck"), Some("omxMatrixArithmeticMean"))
    case 50 => TableEntry(50, "Binary Greater Than", "omxGreaterThan", 2, Some("omxBinaryGreaterThanCheck"), Some("omxBinaryGreaterThan"))
    case 51 => TableEntry(51, "Binary Less Than", "omxLessThan", 2, Some("omxBinaryLessThanCheck"), Some("omxBinaryLessThan"))
    case 52 => TableEntry(52, "Binary And", "omxAnd", 2, Some("omxBinaryAndCheck"), Some("omxBinaryAnd"))
    case 53 => TableEntry(53, "Binary Or", "omxOr", 2, Some("omxBinaryOrCheck"), Some("omxBinaryOr"))
    case 54 => TableEntry(54, "Binary Approximate Equals", "omxApproxEquals", 3, Some("omxBinaryApproxEqualsCheck"), Some("omxBinaryApproxEquals"))
    case 55 => TableEntry(55, "Matrix Exponential", "omxExponential", 1, Some("omxExponentialCheck"), Some("omxExponential"))
    case 56 => TableEntry(56, "Matrix Exponential order", "omxExponential", 2, Some("omxExponentialCheck"), Some("omxExponential"))
    case 57 => TableEntry(57, "Cholesky Decomposition", "chol", 1, Some("omxCholeskyCheck"), Some("omxCholesky"))
    case 58 => TableEntry(58, "Covariance to Correlation", "cov2cor", 1, Some("omxCovToCorCheck"), Some("omxCovToCor"))
    case 59 => TableEntry(59, "Inverse Half vectorization", "vech2full", 1, Some("omxVechToMatrixCheck"), Some("omxVechToMatrix"))
    case 60 => TableEntry(60, "Inverse 1/2 vector (strict)", "vechs2full", 1, Some("omxVechsToMatrixCheck"), Some("omxVechsToMatrix"))
    case 61 => TableEntry(61, "Matrix Logarithm", "logm", 1, Some("mxMatrixLogCheck"), Some("mxMatrixLog"))
    case 62 => TableEntry(62, "Broadcast", "", 1, Some("omxBroadcastCheck"), Some("omxBroadcast"))
    case 63 => TableEntry(63, "Matrix Exponential", "expm", 1, Some("omxExponentialCheck"), Some("omxExponential"))
    case 64 => TableEntry(64, "Standard-normal quantile", "p2z", 1, Some("omxElementPtoZCheck"), Some("omxElementPtoZ"))
    case 65 => TableEntry(65, "Log-gamma", "lgamma", 1, Some("omxElementLgammaCheck"), Some("omxElementLgamma"))
    case 66 => TableEntry(66, "Arcsine", "asin", 1, Some("omxElementArcSineCheck"), Some("omxElementArcSine"))
    case 67 => TableEntry(67, "Arccosine", "acos", 1, Some("omxElementArcCosineCheck"), Some("omxElementArcCosine"))
    case 68 => TableEntry(68, "Arctangent", "atan", 1, Some("omxElementArcTangentCheck"), Some("omxElementArcTangent"))
    case 69 => TableEntry(69, "Inverse Hyperbolic Sine", "asinh", 1, Some("omxElementAsinhCheck"), Some("omxElementAsinh"))
    case 70 => TableEntry(70, "Inverse Hyperbolic Cosine", "acosh", 1, Some("omxElementAcoshCheck"), Some("omxElementAcosh"))
    case 71 => TableEntry(71, "Inverse Hyperbolic Tangent", "atanh", 1, Some("omxElementAtanhCheck"), Some("omxElementAtanh"))
    case 72 => TableEntry(72, "Log-gamma x+1 For Small x", "lgamma1p", 1, Some("omxElementLgamma1pCheck"), Some("omxElementLgamma1p"))
    case 73 => TableEntry(73, "Std-normal quantile from log(p)", "logp2z", 1, Some("omxElementLogPtoZCheck"), Some("omxElementLogPtoZ"))
    case 74 => TableEntry(74, "Beta PDF", "dbeta", 5, Some("omxElementDbetaCheck"), Some("omxElementDbeta"))
    case 75 => TableEntry(75, "Beta CDF", "pbeta", 6, Some("omxElementPbetaCheck"), Some("omxElementPbeta"))
    case 76 => TableEntry(76, "Modified Bessel F. of 1st Kind", "besselI", 3, Some("omxElementBesselICheck"), Some("omxElementBesselI"))
    case 77 => TableEntry(77, "Bessel F. of 1st Kind", "besselJ", 2, Some("omxElementBesselJCheck"), Some("omxElementBesselJ"))
    case 78 => TableEntry(78, "Modified Bessel F. of 3rd Kind", "besselK", 3, Some("omxElementBesselKCheck"), Some("omxElementBesselK"))
    case 79 => TableEntry(79, "Bessel F. of 2nd Kind", "besselY", 2, Some("omxElementBesselYCheck"), Some("omxElementBesselY"))
    case 80 => TableEntry(80, "Poisson PMF", "dpois", 3, Some("omxElementDpoisCheck"), Some("omxElementDpois"))
    case 81 => TableEntry(81, "Poisson CDF", "ppois", 4, Some("omxElementPpoisCheck"), Some("omxElementPpois"))
    case 82 => TableEntry(82, "Negative-Binomial PMF", "omxDnbinom", 5, Some("omxElementDnbinomCheck"), Some("omxElementDnbinom"))
    case 83 => TableEntry(83, "Negative-Binomial CDF", "omxPnbinom", 6, Some("omxElementPnbinomCheck"), Some("omxElementPnbinom"))
    case 84 => TableEntry(84, "Chi-square PDF", "dchisq", 4, Some("omxElementDchisqCheck"), Some("omxElementDchisq"))
    case 85 => TableEntry(85, "Chi-square CDF", "pchisq", 5, Some("omxElementPchisqCheck"), Some("omxElementPchisq"))
    case 86 => TableEntry(86, "Binomial PMF", "dbinom", 4, Some("omxElementDbinomCheck"), Some("omxElementDbinom"))
    case 87 => TableEntry(87, "Binomial CDF", "pbinom", 5, Some("omxElementPbinomCheck"), Some("omxElementPbinom"))
    case 88 => TableEntry(88, "Cauchy PDF", "dcauchy", 4, Some("omxElementDcauchyCheck"), Some("omxElementDcauchy"))
    case 89 => TableEntry(89, "Cauchy CDF", "pcauchy", 5, Some("omxElementPcauchyCheck"), Some("omxElementPcauchy"))
    case 90 => TableEntry(90, "Row sums", "rowSums", 1, Some("omxRowSumsCheck"), Some("omxRowSums"))
    case 91 => TableEntry(91, "Column sums", "colSums", 1, Some("omxColSumsCheck"), Some("omxColSums"))
    case 92 => TableEntry(92, "Evaluate on grid", "mxEvaluateOnGrid", 2, Some("evaluateOnGridCheck"), Some("evaluateOnGrid"))
    case 93 => TableEntry(93, "Element-wise robust log", "mxRobustLog", 1, Some("omxElementRobustLogCheck"), Some("omxElementRobustLog"))
    case 94 => TableEntry(94, "Pearson Selection covariance", "mxPearsonSelCov", 2, Some("pearsonSelCovCheck"), Some("pearsonSelCov"))
    case _ => TableEntry(95, "Pearson Selection mean", "mxPearsonSelMean", 3, Some("pearsonSelMeanCheck"), Some("pearsonSelMean"))
  }


  /** The R names of the operators taking any number of arguments. */
  const VariadicNames: set<string> := {"cbind", "rbind", "sum", "prod", "max", "min", "omxAllInt"}

  /** The entry of an opcode, or None outside the table. */
  function Lookup(op: int): (e: Option<TableEntry>)
    ensures e.Some? <==> 0 <= op < TABLE_SIZE
    ensures e.Some? ==> e.value.number == op
  {
    if 0 <= op < TABLE_SIZE then Some(Entry(op)) else None
  }

  /** The opcodes of the operators taking any number of arguments. */
  predicate IsVariadicOpcode(op: int)
  {
    op == 12 || op == 13 || op == 16 || op == 17 || op == 18 || op == 19 || op == 36
  }

  /** The arity of one opcode: -1 exactly when it is variadic, a count otherwise. */
  lemma ArityOf(op: nat)
    requires op < TABLE_SIZE
    ensures Entry(op).numArgs == VARIADIC <==> IsVariadicOpcode(op)
    ensures Entry(op).numArgs >= VARIADIC
  {
  }

  /** An arity is -1 exactly for the variadic operators; every other arity is a count. */
  lemma VariadicExactly()
    ensures forall op :: IsVariadicOpcode(op) ==> 0 <= op < TABLE_SIZE && Entry(op).numArgs == VARIADIC
    ensures forall op :: 0 <= op < TABLE_SIZE && !IsVariadicOpcode(op) ==> Entry(op).numArgs >= 0
  {
    forall op: nat | op < TABLE_SIZE
      ensures Entry(op).numArgs == VARIADIC <==> IsVariadicOpcode(op)
      ensures Entry(op).numArgs >= VARIADIC
    {
      ArityOf(op);
    }
  }

  /** The variadic operators are cbind, rbind, sum, prod, max, min and omxAllInt. */
  lemma VariadicNamed()
    ensures forall op :: IsVariadicOpcode(op) ==> 0 <= op < TABLE_SIZE && Entry(op).rName in VariadicNames
    ensures forall name :: name in VariadicNames ==> exists op :: IsVariadicOpcode(op) && Entry(op).rName == name
  {
    assert Entry(12).rName == "cbind" && Entry(13).rName == "rbind" && Entry(16).rName == "sum";
    assert Entry(17).rName == "prod" && Entry(18).rName == "max" && Entry(19).rName == "min";
    assert Entry(36).rName == "omxAllInt";
  }

  /** Entry 0 is the no-op: no arguments, no check, no compute function. */
  lemma SpecialEntry()
    ensures Entry(0).numArgs == 0 && Entry(0).checkFn.None? && Entry(0).computeFn.None?
  {
  }

  /** Every real operator has both a check and a compute function. */
  lemma OperatorsComplete()
    ensures forall op :: 1 <= op < TABLE_SIZE ==> Entry(op).checkFn.Some? && Entry(op).computeFn.Some?
  {
  }

  /** Opcode 10, used for constraints lhs - rhs, is binary subtraction. */
  lemma SubtractionOpcode()
    ensures Entry(10).rName == "-" && Entry(10).numArgs == 2
  {
  }
}
