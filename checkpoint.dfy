// Checkpoint rows (omxCheckpoint): when a row is due, and what its value
// columns hold. The file is modelled as the sequence of lines written to it;
// text formatting and the wall clock are left to the caller.
module Checkpoint {
  import opened Common

  /** One data row: context, number of free parameters of the fit, the evaluation and iteration
      counts of the previous checkpoint, the time, one column per parameter (None prints as NA),
      and the fit. */
  datatype Row = Row(context: string, numFree: nat, evaluations: int, iterations: int, timestamp: int,
                     values: seq<Option<Double>>, objective: Double)

  datatype Line = Header(names: seq<string>) | Data(row: Row)

  /** The value columns from column px on, with the fit's variables from lx on still to place:
      column px holds est[lx] when the next variable's id is px, and NA otherwise. */
  function MergeFrom(ids: seq<int>, est: seq<Double>, px: nat, lx: nat, numParam: nat): (r: seq<Option<Double>>)
    requires lx <= |ids| <= |est|
    ensures |r| == if px <= numParam then numParam - px else 0
    decreases numParam - px
  {
    if px >= numParam then []
    else if lx < |ids| && ids[lx] == px then [Some(est[lx])] + MergeFrom(ids, est, px + 1, lx + 1, numParam)
    else [None] + MergeFrom(ids, est, px + 1, lx, numParam)
  }

  /** The row has exactly one value column per free parameter. */
  function ValueColumns(ids: seq<int>, est: seq<Double>, numParam: nat): (r: seq<Option<Double>>)
    requires |ids| <= |est|
    ensures |r| == numParam
  {
    MergeFrom(ids, est, 0, 0, numParam)
  }

  predicate StrictlyIncreasing(ids: seq<int>)
  {
    forall a, b :: 0 <= a < b < |ids| ==> ids[a] < ids[b]
  }

  /** Past the next variable, every id is at least px + 1 when the next id is not px. */
  lemma IdsAbove(ids: seq<int>, px: nat, lx: nat)
    requires lx <= |ids| && StrictlyIncreasing(ids)
    requires forall k :: lx <= k < |ids| ==> px <= ids[k]
    ensures forall k :: lx < k < |ids| ==> px + 1 <= ids[k]
    ensures lx < |ids| && ids[lx] != px ==> forall k :: lx <= k < |ids| ==> px + 1 <= ids[k]
  {
    forall k | lx < k < |ids|
      ensures px + 1 <= ids[k]
    {
      assert ids[lx] < ids[k];
    }
  }

  /** When the fit's variable ids are increasing and below numParam, every variable's estimate lands in
      the column of its id. */
  lemma {:induction false} MergeFromSorted(ids: seq<int>, est: seq<Double>, px: nat, lx: nat, numParam: nat)
    requires lx <= |ids| <= |est| && px <= numParam
    requires StrictlyIncreasing(ids)
    requires forall k :: lx <= k < |ids| ==> px <= ids[k] < numParam
    ensures forall k :: lx <= k < |ids| ==> MergeFrom(ids, est, px, lx, numParam)[ids[k] - px] == Some(est[k])
    decreases numParam - px
  {
    if px < numParam {
      var r := MergeFrom(ids, est, px, lx, numParam);
      IdsAbove(ids, px, lx);
      if lx < |ids| && ids[lx] == px {
        var rest := MergeFrom(ids, est, px + 1, lx + 1, numParam);
        assert r == [Some(est[lx])] + rest;
        MergeFromSorted(ids, est, px + 1, lx + 1, numParam);
        forall k | lx < k < |ids|
          ensures r[ids[k] - px] == Some(est[k])
        {
          assert r[ids[k] - px] == rest[ids[k] - (px + 1)];
        }
      } else {
        var rest := MergeFrom(ids, est, px + 1, lx, numParam);
        assert r == [None] + rest;
        MergeFromSorted(ids, est, px + 1, lx, numParam);
        forall k | lx <= k < |ids|
          ensures r[ids[k] - px] == Some(est[k])
        {
          assert r[ids[k] - px] == rest[ids[k] - (px + 1)];
        }
      }
    }
  }

  /** ... and every column that is no variable's id is NA. */
  lemma {:induction false} MergeFromUnused(ids: seq<int>, est: seq<Double>, px: nat, lx: nat, numParam: nat)
    requires lx <= |ids| <= |est| && px <= numParam
    requires StrictlyIncreasing(ids)
    requires forall k :: lx <= k < |ids| ==> px <= ids[k] < numParam
    ensures forall c :: px <= c < numParam && c !in ids[lx..] ==> MergeFrom(ids, est, px, lx, numParam)[c - px] == None
    decreases numParam - px
  {
    if px < numParam {
      var r := MergeFrom(ids, est, px, lx, numParam);
      IdsAbove(ids, px, lx);
      if lx < |ids| && ids[lx] == px {
        var rest := MergeFrom(ids, est, px + 1, lx + 1, numParam);
        assert r == [Some(est[lx])] + rest;
        MergeFromUnused(ids, est, px + 1, lx + 1, numParam);
        forall c | px <= c < numParam && c !in ids[lx..]
          ensures r[c - px] == None
        {
          assert ids[lx] in ids[lx..];
          assert forall x :: x in ids[lx + 1..] ==> x in ids[lx..];
          assert r[c - px] == rest[c - (px + 1)];
        }
      } else {
        var rest := MergeFrom(ids, est, px + 1, lx, numParam);
        assert r == [None] + rest;
        MergeFromUnused(ids, est, px + 1, lx, numParam);
        forall c | px < c < numParam && c !in ids[lx..]
          ensures r[c - px] == None
        {
          assert r[c - px] == rest[c - (px + 1)];
        }
      }
    }
  }

  /** The value-column loop of omxCheckpoint::postfit: one column per parameter, the fit's variables
      placed by id. */
  method BuildValueColumns(ids: seq<int>, est: seq<Double>, numParam: nat) returns (values: seq<Option<Double>>)
    requires |ids| <= |est|
    ensures values == ValueColumns(ids, est, numParam)
  {
    values := [];
    var lx := 0;
    var px := 0;
    while px < numParam
      invariant 0 <= px <= numParam && 0 <= lx <= |ids|
      invariant values + MergeFrom(ids, est, px, lx, numParam) == ValueColumns(ids, est, numParam)
    {
      var cell: Option<Double> := None;
      var next := lx;
      if lx < |ids| && ids[lx] == px {
        cell := Some(est[lx]);
        next := lx + 1;
      }
      ghost var rest := MergeFrom(ids, est, px + 1, next, numParam);
      assert MergeFrom(ids, est, px, lx, numParam) == [cell] + rest;
      assert values + ([cell] + rest) == (values + [cell]) + rest;
      values := values + [cell];
      lx := next;
      px := px + 1;
    }
    assert MergeFrom(ids, est, px, lx, numParam) == [];
  }

  /** The checkpoint is due when one of its nonzero thresholds is reached. */
  predicate Due(timePer: int, iterPer: int, evalsPer: int, elapsed: int, iterationsSince: int, evalsSince: int)
  {
    (timePer != 0 && timePer <= elapsed)
    || (iterPer != 0 && iterPer <= iterationsSince)
    || (evalsPer != 0 && evalsPer <= evalsSince)
  }

  class CheckpointFile {
    var wroteHeader: bool
    var lastCheckpoint: int
    var lastIterations: int
    var lastEvaluation: int
    var timePerCheckpoint: int
    var iterPerCheckpoint: int
    var evalsPerCheckpoint: int
    var lines: seq<Line>

    constructor (timePer: int, iterPer: int, evalsPer: int)
      ensures !wroteHeader && lastCheckpoint == 0 && lastIterations == 0 && lastEvaluation == 0
      ensures timePerCheckpoint == timePer && iterPerCheckpoint == iterPer && evalsPerCheckpoint == evalsPer
      ensures lines == []
    {
      wroteHeader := false;
      lastCheckpoint := 0;
      lastIterations := 0;
      lastEvaluation := 0;
      timePerCheckpoint := timePer;
      iterPerCheckpoint := iterPer;
      evalsPerCheckpoint := evalsPer;
      lines := [];
    }

    /** omxWriteCheckpointHeader: the header, naming every free parameter, is written once. */
    method WriteHeader(allNames: seq<string>)
      modifies this
      ensures wroteHeader
      ensures lines == old(lines) + (if old(wroteHeader) then [] else [Header(allNames)])
      ensures lastCheckpoint == old(lastCheckpoint) && lastIterations == old(lastIterations) && lastEvaluation == old(lastEvaluation)
      ensures timePerCheckpoint == old(timePerCheckpoint) && iterPerCheckpoint == old(iterPerCheckpoint)
      ensures evalsPerCheckpoint == old(evalsPerCheckpoint)
    {
      if wroteHeader {
        return;
      }
      lines := lines + [Header(allNames)];
      wroteHeader := true;
    }

    /** postfit. ids and est are the fit's variables (their ids and estimates), allNames the names of
        all free parameters, now the clock, curEval the global evaluation count. */
    method PostFit(context: string, ids: seq<int>, est: seq<Double>, allNames: seq<string>, fit: Double,
                   now: int, iterations: int, curEval: int, force: bool)
      requires |ids| <= |est|
      modifies this
      ensures var doit := force || Due(old(timePerCheckpoint), old(iterPerCheckpoint), old(evalsPerCheckpoint),
                                       now - old(lastCheckpoint), iterations - old(lastIterations), curEval - old(lastEvaluation));
        && (!doit ==> lines == old(lines) && wroteHeader == old(wroteHeader) && lastCheckpoint == old(lastCheckpoint)
                      && lastIterations == old(lastIterations) && lastEvaluation == old(lastEvaluation))
        && (doit ==> wroteHeader && lastCheckpoint == now && lastIterations == iterations && lastEvaluation == curEval
                     && lines == old(lines) + (if old(wroteHeader) then [] else [Header(allNames)])
                                + [Data(Row(context, |ids|, old(lastEvaluation), old(lastIterations), now,
                                            ValueColumns(ids, est, |allNames|), fit))])
      ensures timePerCheckpoint == old(timePerCheckpoint) && iterPerCheckpoint == old(iterPerCheckpoint)
      ensures evalsPerCheckpoint == old(evalsPerCheckpoint)
    {
      var doit := force;
      if (timePerCheckpoint != 0 && timePerCheckpoint <= now - lastCheckpoint)
         || (iterPerCheckpoint != 0 && iterPerCheckpoint <= iterations - lastIterations)
         || (evalsPerCheckpoint != 0 && evalsPerCheckpoint <= curEval - lastEvaluation) {
        doit := true;
      }
      if !doit {
        return;
      }
      WriteHeader(allNames);
      var values := BuildValueColumns(ids, est, |allNames|);
      lines := lines + [Data(Row(context, |ids|, lastEvaluation, lastIterations, now, values, fit))];
      lastCheckpoint := now;
      lastIterations := iterations;
      lastEvaluation := curEval;
    }
  }
}
