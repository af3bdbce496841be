// The full-information maximum likelihood fit function (omxFIMLFitFunction.cpp): the
// threshold check before evaluation, the split of the data rows into chunks for the
// child fit contexts, the failure flag, the serial sum, and the buffers init allocates.
// The per-chunk likelihood routine is a parameter: rowLL holds the row log-likelihoods
// it computes, failsOn says which chunks it reports failed.
module Fiml {
  import opened Common

  // ---------------------------------------------------------------- the ordinal-column check

  /** Whether cov and means are precomputed for all rows: no definition variables and not a
      state-space expectation. */
  predicate Precomputes(numDefVars: nat, expType: string)
  {
    numDefVars == 0 && expType != "MxExpectationStateSpace"
  }

  /** Model column j is fine unless its data column is a factor without thresholds. */
  predicate HasThresholds(j: nat, dataColumns: seq<nat>, isFactor: seq<bool>, numThresholds: seq<nat>)
    requires j < |dataColumns| && dataColumns[j] < |isFactor|
  {
    !isFactor[dataColumns[j]] || (j < |numThresholds| && numThresholds[j] > 0)
  }

  predicate ColumnsInData(dataColumns: seq<nat>, isFactor: seq<bool>, columnNames: seq<string>)
  {
    |columnNames| == |isFactor| && |dataColumns| <= |isFactor|
    && forall j :: 0 <= j < |dataColumns| ==> dataColumns[j] < |isFactor|
  }

  /** The data column the error names, as written: model column j is used as a data column. */
  function NamedColumnAsWritten(dataColumns: seq<nat>, j: nat): nat
  {
    j
  }

  /** Model column 0 reads data column 1, a factor; data column 0 is not one. The error as
      written names data column 0, a column that is not a factor at all. */
  lemma NamedColumnCounterexample()
    ensures var dataColumns, isFactor := [1], [false, true];
      isFactor[dataColumns[0]] && !isFactor[NamedColumnAsWritten(dataColumns, 0)]
  {
  }

  /** The data column the error names: the one model column j reads. */
  function NamedColumn(dataColumns: seq<nat>, j: nat): nat
    requires j < |dataColumns|
  {
    dataColumns[j]
  }

  function MissingThresholdMessage(columnNames: seq<string>, col: nat): string
    requires col < |columnNames|
  {
    "No threshold given for ordinal column '" + columnNames[col] + "'"
  }

  /** The check of the ordinal columns before evaluation: the first factor column without
      thresholds is an error that names it. */
  method CheckThresholds(dataColumns: seq<nat>, isFactor: seq<bool>, columnNames: seq<string>, numThresholds: seq<nat>)
    returns (out: Outcome)
    requires ColumnsInData(dataColumns, isFactor, columnNames)
    ensures out.Success? <==> forall j :: 0 <= j < |dataColumns| ==> HasThresholds(j, dataColumns, isFactor, numThresholds)
    ensures out.Failure? ==>
      exists j :: (0 <= j < |dataColumns| && !HasThresholds(j, dataColumns, isFactor, numThresholds)
        && (forall k :: 0 <= k < j ==> HasThresholds(k, dataColumns, isFactor, numThresholds))
        && isFactor[NamedColumn(dataColumns, j)]
        && out.msg == MissingThresholdMessage(columnNames, NamedColumn(dataColumns, j)))
  {
    for j := 0 to |dataColumns|
      invariant forall k :: 0 <= k < j ==> HasThresholds(k, dataColumns, isFactor, numThresholds)
    {
      var v := dataColumns[j];
      if !isFactor[v] {
        continue;
      }
      if j < |numThresholds| && numThresholds[j] > 0 {
      } else {
        assert !HasThresholds(j, dataColumns, isFactor, numThresholds);
        return Failure(MissingThresholdMessage(columnNames, NamedColumn(dataColumns, j)));
      }
    }
    out := Success;
  }

  // ---------------------------------------------------------------- the row partition

  /** One evaluation context per child, or the parent alone, and never more than there are rows. */
  function Parallelism(numChildren: nat, rows: nat): (p: nat)
    ensures p <= rows
    ensures rows > 0 ==> p >= 1
    ensures p == rows || p == (if numChildren == 0 then 1 else numChildren)
  {
    var p := if numChildren == 0 then 1 else numChildren;
    if p > rows then rows else p
  }

  /** The stride rows / p of p <= rows chunks is at least one row, and p strides fit in rows. */
  lemma StrideBound(p: nat, rows: nat)
    requires 0 < p <= rows
    ensures rows / p >= 1 && rows / p * p <= rows
  {
    DivMonotone(p, rows, p);
  }

  /** Chunks before the last leave room for a full stride; the stride is at least one row. */
  lemma StartFits(i: nat, p: nat, rows: nat)
    requires 1 < p <= rows && i < p
    ensures Strided(i, rows / p) + rows / p <= rows && rows / p >= 1
  {
    var stride := rows / p;
    StrideBound(p, rows);
    StridedIsProduct(i, stride);
    Distribute(stride, i, 1);
    MulLe(i + 1, p, stride);
    assert Strided(i, stride) + stride == (i + 1) * stride <= p * stride;
  }

  /** The (first row, row count) of chunk i of p over rows: every chunk but the last has
      rows / p rows, the last runs to the end. */
  function Chunk(i: nat, p: nat, rows: nat): (c: (nat, nat))
    requires 1 < p <= rows && i < p
  {
    var stride := rows / p;
    var start := Strided(i, stride);
    StartFits(i, p, rows);
    if i == p - 1 then (start, rows - start) else (start, stride)
  }

  /** The calls of the per-chunk routine, in chunk order; with one context, one call for all rows. */
  function ChunkCalls(p: nat, rows: nat): (calls: seq<(nat, nat)>)
    requires p <= rows
  {
    if p > 1 then seq(p, i requires 0 <= i < p => Chunk(i, p, rows)) else [(0, rows)]
  }

  /** Chunk i ends where chunk i + 1 starts, or at rows when it is the last; the first chunk
      starts at 0; no chunk is empty. */
  lemma ChunkEnd(i: nat, p: nat, rows: nat)
    requires 1 < p <= rows && i < p
    ensures Chunk(i, p, rows).0 + Chunk(i, p, rows).1 == if i == p - 1 then rows else Chunk(i + 1, p, rows).0
    ensures i == 0 ==> Chunk(i, p, rows).0 == 0
    ensures Chunk(i, p, rows).1 > 0
  {
    StartFits(i, p, rows);
  }

  /** The chunks tile the rows: the first starts at 0, each starts where the one before it
      ends, the last ends at rows, and none is empty unless there are no rows. */
  lemma ChunksTile(p: nat, rows: nat)
    requires p <= rows
    ensures ChunkCalls(p, rows)[0].0 == 0
    ensures forall i :: 0 < i < |ChunkCalls(p, rows)| ==>
      ChunkCalls(p, rows)[i].0 == ChunkCalls(p, rows)[i - 1].0 + ChunkCalls(p, rows)[i - 1].1
    ensures var last := ChunkCalls(p, rows)[|ChunkCalls(p, rows)| - 1]; last.0 + last.1 == rows
    ensures rows > 0 ==> forall i :: 0 <= i < |ChunkCalls(p, rows)| ==> ChunkCalls(p, rows)[i].1 > 0
  {
    if p > 1 {
      var all := ChunkCalls(p, rows);
      forall i | 0 <= i < p
        ensures all[i].1 > 0
        ensures i > 0 ==> all[i].0 == all[i - 1].0 + all[i - 1].1
      {
        ChunkEnd(i, p, rows);
        if i > 0 {
          ChunkEnd(i - 1, p, rows);
        }
      }
      ChunkEnd(0, p, rows);
      ChunkEnd(p - 1, p, rows);
    }
  }

  /** The calls up to chunk i + 1 are those up to chunk i and then chunk i. */
  lemma ChunkCallsPrefix(p: nat, rows: nat, i: nat)
    requires 1 < p <= rows && i < p
    ensures |ChunkCalls(p, rows)| == p && ChunkCalls(p, rows)[i] == Chunk(i, p, rows)
    ensures ChunkCalls(p, rows)[..i + 1] == ChunkCalls(p, rows)[..i] + [Chunk(i, p, rows)]
  {
    var all := ChunkCalls(p, rows);
    assert all[..i + 1] == all[..i] + [all[i]];
  }

  /** Chunk i of a partition in several chunks starts where the chunks before it end, and the
      last ends at rows. */
  lemma ChunkStep(p: nat, rows: nat, i: nat)
    requires 1 < p <= rows && i < p
    ensures CoveredEnd(ChunkCalls(p, rows)[..i]) == Chunk(i, p, rows).0
    ensures Chunk(i, p, rows).0 + Chunk(i, p, rows).1 <= rows
    ensures i == p - 1 ==> CoveredEnd(ChunkCalls(p, rows)) == rows
  {
    var all := ChunkCalls(p, rows);
    if i > 0 {
      ChunkEnd(i - 1, p, rows);
      assert all[..i][i - 1] == Chunk(i - 1, p, rows);
    } else {
      ChunkEnd(0, p, rows);
    }
    StartFits(i, p, rows);
    if i == p - 1 {
      assert all[p - 1] == Chunk(p - 1, p, rows);
    }
  }

  /** Every row lies in exactly one chunk. */
  lemma ChunkOf(p: nat, rows: nat, r: nat) returns (i: nat)
    requires p <= rows && r < rows
    ensures i < |ChunkCalls(p, rows)|
    ensures ChunkCalls(p, rows)[i].0 <= r < ChunkCalls(p, rows)[i].0 + ChunkCalls(p, rows)[i].1
    ensures forall k :: (0 <= k < |ChunkCalls(p, rows)| && ChunkCalls(p, rows)[k].0 <= r < ChunkCalls(p, rows)[k].0 + ChunkCalls(p, rows)[k].1
      ==> k == i)
  {
    var calls := ChunkCalls(p, rows);
    ChunksTile(p, rows);
    i := 0;
    while calls[i].0 + calls[i].1 <= r
      invariant i < |calls| && calls[i].0 <= r
      decreases |calls| - i
    {
      i := i + 1;
    }
    StartsIncrease(calls, rows);
  }

  /** In a tiling, a chunk ends no later than any later chunk starts. */
  lemma StartsIncrease(calls: seq<(nat, nat)>, rows: nat)
    requires |calls| > 0
    requires forall i :: 0 < i < |calls| ==> calls[i].0 == calls[i - 1].0 + calls[i - 1].1
    ensures forall a, b :: 0 <= a < b < |calls| ==> calls[a].0 + calls[a].1 <= calls[b].0
  {
    forall a, b | 0 <= a < b < |calls|
      ensures calls[a].0 + calls[a].1 <= calls[b].0
    {
      var k := a + 1;
      while k < b
        invariant a < k <= b && calls[a].0 + calls[a].1 <= calls[k].0
      {
        k := k + 1;
      }
    }
  }

  predicate AnyFails(calls: seq<(nat, nat)>, failsOn: (nat, nat) -> bool)
  {
    exists c :: c in calls && failsOn(c.0, c.1)
  }

  lemma AnyFailsAppend(calls: seq<(nat, nat)>, c: (nat, nat), failsOn: (nat, nat) -> bool)
    ensures AnyFails(calls + [c], failsOn) == (AnyFails(calls, failsOn) || failsOn(c.0, c.1))
  {
    if AnyFails(calls + [c], failsOn) {
      var d :| d in calls + [c] && failsOn(d.0, d.1);
      if d != c {
        assert d in calls;
      }
    }
    if AnyFails(calls, failsOn) {
      var d :| d in calls && failsOn(d.0, d.1);
      assert d in calls + [c];
    }
    assert c in calls + [c];
  }

  /** The end of the rows the calls so far have covered. */
  function CoveredEnd(calls: seq<(nat, nat)>): nat
  {
    if |calls| == 0 then 0 else calls[|calls| - 1].0 + calls[|calls| - 1].1
  }

  // ---------------------------------------------------------------- the buffers of init

  /** The buffers init allocates for the ordinal likelihoods, by their number of doubles. */
  datatype Buffers = Buffers(weights: Option<nat>, corList: Option<nat>, smallCor: Option<nat>, jointCovs: bool)

  /** omxInitFIMLFitFunction's checks and allocations: an expectation and its covariance are
      required; ordinal data alone gets the correlation buffers, ordinal with continuous data
      the joint ones as well, continuous data alone none. */
  function InitBuffers(hasExpectation: bool, hasCov: bool, numOrdinal: nat, numColumns: nat, covCols: nat)
    : (r: Result<Buffers>)
    ensures !hasExpectation ==> r == Err("FIML cannot fit without model expectations.")
    ensures hasExpectation && !hasCov ==> r == Err("No covariance expectation in FIML evaluation.")
    ensures r.Ok? <==> hasExpectation && hasCov
    ensures r.Ok? ==>
              && (r.value.weights.Some? <==> numOrdinal > 0)
              && (r.value.corList.Some? <==> numOrdinal > 0)
              && (r.value.smallCor.Some? <==> numOrdinal > 0 && numColumns <= numOrdinal)
              && (r.value.jointCovs <==> numOrdinal > 0 && numColumns > numOrdinal)
    ensures r.Ok? && r.value.weights.Some? ==> r.value.weights.value == covCols
    ensures r.Ok? && r.value.corList.Some? ==> r.value.corList.value == covCols * (covCols + 1) / 2
    ensures r.Ok? && r.value.smallCor.Some? ==> r.value.smallCor.value == covCols * (covCols + 1) / 2
  {
    if !hasExpectation then Err("FIML cannot fit without model expectations.")
    else if !hasCov then Err("No covariance expectation in FIML evaluation.")
    else
      var numContinuous := numColumns as int - numOrdinal as int;
      if numOrdinal > 0 && numContinuous <= 0 then
        Ok(Buffers(Some(covCols), Some(covCols * (covCols + 1) / 2), Some(covCols * (covCols + 1) / 2), false))
      else if numOrdinal > 0 then
        Ok(Buffers(Some(covCols), Some(covCols * (covCols + 1) / 2), None, true))
      else
        Ok(Buffers(None, None, None, false))
  }

  /** The copy of the correlations and weights into a child made with the same dimensions fits
      the child's buffers: n(n-1)/2 correlations into n(n+1)/2 places and n weights into n. */
  lemma CorListCopyFits(hasExpectation: bool, hasCov: bool, numOrdinal: nat, numColumns: nat, covCols: nat)
    requires InitBuffers(hasExpectation, hasCov, numOrdinal, numColumns, covCols).Ok?
    ensures var b := InitBuffers(hasExpectation, hasCov, numOrdinal, numColumns, covCols).value;
      b.corList.Some? ==> b.corList.value >= covCols * (covCols - 1) / 2 && b.weights == Some(covCols)
    ensures var b := InitBuffers(hasExpectation, hasCov, numOrdinal, numColumns, covCols).value;
      b.corList.Some? <==> numOrdinal > 0
  {
    if covCols > 0 {
      Distribute(covCols, covCols - 1, 2);
      DivMonotone(covCols * (covCols - 1), covCols * (covCols + 1), 2);
    }
  }

  // ---------------------------------------------------------------- the fit function

  class FimlFit {
    const rows: nat
    const returnRowLikelihoods: bool
    const rowLogLikelihoods: array<real>
    /** Element (0, 0) of the fit matrix; NA is a NaN. */
    var fitValue: Double

    ghost predicate Valid()
      reads this
    {
      rowLogLikelihoods.Length == rows
    }

    constructor (rows: nat, returnRowLikelihoods: bool)
      ensures Valid() && this.rows == rows && this.returnRowLikelihoods == returnRowLikelihoods
      ensures fresh(rowLogLikelihoods) && fitValue == Fin(0.0)
    {
      this.rows := rows;
      this.returnRowLikelihoods := returnRowLikelihoods;
      rowLogLikelihoods := new real[rows](_ => 0.0);
      fitValue := Fin(0.0);
    }

    /** The per-chunk likelihood routine on rows [start, start + count): it writes their log-likelihoods. */
    method SingleIter(start: nat, count: nat, rowLL: seq<real>, failsOn: (nat, nat) -> bool) returns (failed: bool)
      requires Valid() && |rowLL| == rows && start + count <= rows
      modifies rowLogLikelihoods
      ensures failed == failsOn(start, count)
      ensures forall r :: 0 <= r < rows ==>
        rowLogLikelihoods[r] == if start <= r < start + count then rowLL[r] else old(rowLogLikelihoods[r])
    {
      for r := start to start + count
        invariant forall k :: 0 <= k < rows ==>
          rowLogLikelihoods[k] == if start <= k < r then rowLL[k] else old(rowLogLikelihoods[k])
      {
        rowLogLikelihoods[r] := rowLL[r];
      }
      failed := failsOn(start, count);
    }

    /** The chunks evaluated one after another, over rows that were zeroed: every row ends
      up written, and the failure flag is set when any chunk fails. */
    method EvaluateChunks(p: nat, rowLL: seq<real>, failsOn: (nat, nat) -> bool) returns (calls: seq<(nat, nat)>, failed: bool)
      requires Valid() && |rowLL| == rows && 1 < p <= rows
      requires forall r :: 0 <= r < rows ==> rowLogLikelihoods[r] == 0.0
      modifies rowLogLikelihoods
      ensures calls == ChunkCalls(p, rows) && failed == AnyFails(calls, failsOn)
      ensures rowLogLikelihoods[..] == rowLL
    {
      ghost var all := ChunkCalls(p, rows);
      failed := false;
      calls := [];
      for i := 0 to p
        invariant calls == all[..i] && failed == AnyFails(calls, failsOn)
        invariant forall r :: 0 <= r < rows ==> rowLogLikelihoods[r] == if r < CoveredEnd(calls) then rowLL[r] else 0.0
      {
        var c := Chunk(i, p, rows);
        ChunkStep(p, rows, i);
        ChunkCallsPrefix(p, rows, i);
        var f := SingleIter(c.0, c.1, rowLL, failsOn);
        AnyFailsAppend(calls, c, failsOn);
        calls := calls + [c];
        failed := failed || f;
      }
      ChunkStep(p, rows, p - 1);
      ChunkCallsPrefix(p, rows, p - 1);
      assert calls == all;
      assert rowLogLikelihoods[..] == rowLL;
    }

    /** The serial sum of the row log-likelihoods, in row order. */
    method SumRows() returns (sum: real)
      requires Valid()
      ensures sum == Sum(rowLogLikelihoods[..])
    {
      sum := 0.0;
      for i := 0 to rows
        invariant sum == Sum(rowLogLikelihoods[..i])
      {
        assert rowLogLikelihoods[..i + 1][..i] == rowLogLikelihoods[..i];
        sum := sum + rowLogLikelihoods[i];
      }
      assert rowLogLikelihoods[..rows] == rowLogLikelihoods[..];
    }

    /** CallFIMLFitFunction after the precomputation: zero the row log-likelihoods, evaluate the
      chunks, and set the fit to NA if any chunk failed, else (unless the rows themselves are
      returned) to the sum of the rows in row order. */
    method Evaluate(numChildren: nat, rowLL: seq<real>, failsOn: (nat, nat) -> bool) returns (calls: seq<(nat, nat)>)
      requires Valid() && |rowLL| == rows
      modifies rowLogLikelihoods, this`fitValue
      ensures calls == ChunkCalls(Parallelism(numChildren, rows), rows)
      ensures rowLogLikelihoods[..] == rowLL
      ensures AnyFails(calls, failsOn) ==> fitValue == NaN
      ensures !AnyFails(calls, failsOn) && !returnRowLikelihoods ==> fitValue == Fin(Sum(rowLL))
      ensures !AnyFails(calls, failsOn) && returnRowLikelihoods ==> fitValue == old(fitValue)
    {
      forall r | 0 <= r < rows {
        rowLogLikelihoods[r] := 0.0;
      }
      var parallelism := if numChildren == 0 then 1 else numChildren;
      if parallelism > rows {
        parallelism := rows;
      }
      var failed;
      if parallelism > 1 {
        calls, failed := EvaluateChunks(parallelism, rowLL, failsOn);
      } else {
        failed := SingleIter(0, rows, rowLL, failsOn);
        calls := [(0, rows)];
        assert calls[0] in calls;
        assert rowLogLikelihoods[..] == rowLL;
      }
      if failed {
        fitValue := NaN;
        return;
      }
      if !returnRowLikelihoods {
        var sum := SumRows();
        fitValue := Fin(sum);
      }
    }

    /** CallFIMLFitFunction: when cov and means are precomputed, the ordinal columns are checked
      first; then the rows are evaluated. */
    method Compute(numDefVars: nat, expType: string, dataColumns: seq<nat>, isFactor: seq<bool>,
                   columnNames: seq<string>, numThresholds: seq<nat>, numChildren: nat, rowLL: seq<real>,
                   failsOn: (nat, nat) -> bool)
      returns (out: Outcome, calls: seq<(nat, nat)>)
      requires Valid() && |rowLL| == rows && ColumnsInData(dataColumns, isFactor, columnNames)
      modifies rowLogLikelihoods, this`fitValue
      ensures out.Failure? <==>
        (Precomputes(numDefVars, expType)
         && exists j :: 0 <= j < |dataColumns| && !HasThresholds(j, dataColumns, isFactor, numThresholds))
      ensures out.Failure? ==> calls == [] && fitValue == old(fitValue)
      ensures out.Success? ==> calls == ChunkCalls(Parallelism(numChildren, rows), rows) && rowLogLikelihoods[..] == rowLL
      ensures out.Success? && AnyFails(calls, failsOn) ==> fitValue == NaN
      ensures out.Success? && !AnyFails(calls, failsOn) && !returnRowLikelihoods ==> fitValue == Fin(Sum(rowLL))
    {
      calls := [];
      if Precomputes(numDefVars, expType) {
        out := CheckThresholds(dataColumns, isFactor, columnNames, numThresholds);
        if out.Failure? {
          return;
        }
      }
      calls := Evaluate(numChildren, rowLL, failsOn);
      out := Success;
    }
  }
}
