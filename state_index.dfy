// Small pieces of omxState: the signed index that names either a matrix or an
// algebra, the compute-stage setter, and the optimizer-name lookup.
module StateIndex {
  import opened Common

  /** A matrix number as stored in the state: matrices are numbered ~k = -k-1, algebras k. */
  datatype MatrixRef = MatrixAt(index: nat) | AlgebraAt(index: nat)

  /** The bitwise complement ~n of a two's-complement integer is -n-1. */
  function Complement(n: int): int
  {
    -n - 1
  }

  function Decode(matnum: int): (r: MatrixRef)
    ensures r.MatrixAt? <==> matnum < 0
  {
    if matnum < 0 then MatrixAt(Complement(matnum)) else AlgebraAt(matnum)
  }

  function Encode(r: MatrixRef): (matnum: int)
    ensures matnum < 0 <==> r.MatrixAt?
  {
    match r
    case MatrixAt(k) => Complement(k)
    case AlgebraAt(k) => k
  }

  /** The encoding is a bijection between the integers and the references. */
  lemma DecodeEncode(r: MatrixRef)
    ensures Decode(Encode(r)) == r
  {
  }

  lemma EncodeDecode(matnum: int)
    ensures Encode(Decode(matnum)) == matnum
  {
  }

  predicate InRange<T>(matrixList: seq<T>, algebraList: seq<T>, r: MatrixRef)
  {
    match r
    case MatrixAt(k) => k < |matrixList|
    case AlgebraAt(k) => k < |algebraList|
  }

  /** getMatrixFromIndex: a negative number selects matrixList[~matnum], any other algebraList[matnum]. */
  function GetMatrixFromIndex<T>(matrixList: seq<T>, algebraList: seq<T>, matnum: int): (m: T)
    requires InRange(matrixList, algebraList, Decode(matnum))
    ensures matnum < 0 ==> m == matrixList[Complement(matnum)]
    ensures matnum >= 0 ==> m == algebraList[matnum]
  {
    match Decode(matnum)
    case MatrixAt(k) => matrixList[k]
    case AlgebraAt(k) => algebraList[k]
  }

  /** Looking up the number of the k-th matrix or algebra gives back that matrix or algebra. */
  lemma GetMatrixFromEncoded<T>(matrixList: seq<T>, algebraList: seq<T>, r: MatrixRef)
    requires InRange(matrixList, algebraList, r)
    ensures r.MatrixAt? ==> GetMatrixFromIndex(matrixList, algebraList, Encode(r)) == matrixList[r.index]
    ensures r.AlgebraAt? ==> GetMatrixFromIndex(matrixList, algebraList, Encode(r)) == algebraList[r.index]
  {
    DecodeEncode(r);
  }

  /** The part of omxState that records which compute stage is wanted. */
  class StageState {
    var wantStage: int

    constructor (stage: int)
      ensures wantStage == stage
    {
      wantStage := stage;
    }

    /** setWantStage: setting the stage already wanted is an error. */
    method SetWantStage(stage: int) returns (out: Outcome)
      modifies this
      ensures out.Failure? <==> old(wantStage) == stage
      ensures wantStage == stage
    {
      if wantStage == stage {
        return Failure("omxState::setWantStage(" + IntToString(stage) + ") is redundant");
      }
      wantStage := stage;
      out := Success;
    }
  }

  function IntToString(n: int): string
  {
    if n < 0 then "-" + NatToString(-n) else NatToString(n)
  }

  /** The gradient-based optimizers (OptEngine). SLSQP is the NLOPT engine. */
  datatype OptEngine = CSOLNP | NLOPT | NPSOL | SD

  /** nameToGradOptEngine; hasNpsol says whether the build includes NPSOL. */
  function NameToGradOptEngine(engineName: string, hasNpsol: bool): (r: Result<OptEngine>)
    ensures r.Ok? <==> engineName in {"CSOLNP", "SLSQP", "SD"} || (engineName == "NPSOL" && hasNpsol)
  {
    if engineName == "CSOLNP" then Ok(CSOLNP)
    else if engineName == "SLSQP" then Ok(NLOPT)
    else if engineName == "NPSOL" then
      if hasNpsol then Ok(NPSOL)
      else Err("NPSOL is not available in this build. See ?omxGetNPSOL() to download this optimizer")
    else if engineName == "SD" then Ok(SD)
    else Err("Gradient descent engine '" + engineName + "' is not recognized")
  }

  /** The name the front end uses for each engine. */
  function EngineName(e: OptEngine): string
  {
    match e
    case CSOLNP => "CSOLNP"
    case NLOPT => "SLSQP"
    case NPSOL => "NPSOL"
    case SD => "SD"
  }

  /** Every available engine is found by its name, and a name is accepted only as the name of the engine it yields. */
  lemma EngineNameRoundTrip(e: OptEngine, engineName: string, hasNpsol: bool)
    ensures e != NPSOL || hasNpsol ==> NameToGradOptEngine(EngineName(e), hasNpsol) == Ok(e)
    ensures NameToGradOptEngine(engineName, hasNpsol) == Ok(e) ==> engineName == EngineName(e)
  {
  }
}
