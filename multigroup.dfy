// The multigroup fit function: a fit that adds up the fits of its member groups
// (fitMultigroup.cpp). Members are held by value; a member is the matrix of a fit
// function, or a plain algebra with no fit function.
module Multigroup {
  import opened Common
  import ErrorList
  import StateIndex

  /** The units a fit function reports before any are known (the first value of the units enumeration). */
  const FIT_UNITS_UNINITIALIZED: int := 0

  /** What the multigroup reads from and writes to a member's fit function. mac is the value the
      member's own compute leaves in the fit context. */
  datatype MemberFit = MemberFit(fitType: string, units: int, ciFun: int, gradientAvailable: bool,
                                 hessianAvailable: bool, freeVarGroup: int, mac: real)

  /** A member matrix; value is its first entry, data[0]. */
  datatype Member = Member(name: string, rows: nat, cols: nat, value: real, fitFunction: Option<MemberFit>)

  function RealMax(a: real, b: real): (m: real)
    ensures m >= a && m >= b && (m == a || m == b)
  {
    if a < b then b else a
  }

  // ---------------------------------------------------------------- mgCompute

  /** The fit: the members' values added up in member order. */
  function FitSum(fits: seq<Member>): real
  {
    if |fits| == 0 then 0.0 else FitSum(fits[..|fits| - 1]) + fits[|fits| - 1].value
  }

  /** Splitting the groups in two splits the fit into the two groups' fits. */
  lemma {:induction false} FitSumAppend(a: seq<Member>, b: seq<Member>)
    ensures FitSum(a + b) == FitSum(a) + FitSum(b)
  {
    if |b| > 0 {
      var b' := b[..|b| - 1];
      assert (a + b)[..|a + b| - 1] == a + b' && (a + b)[|a + b| - 1] == b[|b| - 1];
      FitSumAppend(a, b');
    } else {
      assert a + b == a;
    }
  }

  /** The largest change the fit-function members report, and 0 when none reports more. */
  function MaxMac(fits: seq<Member>): real
  {
    if |fits| == 0 then 0.0
    else
      var m0 := MaxMac(fits[..|fits| - 1]);
      var last := fits[|fits| - 1];
      if last.fitFunction.Some? then RealMax(last.fitFunction.value.mac, m0) else m0
  }

  /** MaxMac is never below 0, bounds every fit-function member's change, and is 0 or one of them. */
  lemma {:induction false} MaxMacBounds(fits: seq<Member>)
    ensures MaxMac(fits) >= 0.0
    ensures forall i :: 0 <= i < |fits| && fits[i].fitFunction.Some? ==> fits[i].fitFunction.value.mac <= MaxMac(fits)
    ensures MaxMac(fits) == 0.0
      || exists i :: 0 <= i < |fits| && fits[i].fitFunction.Some? && fits[i].fitFunction.value.mac == MaxMac(fits)
  {
    if |fits| > 0 {
      var p := fits[..|fits| - 1];
      MaxMacBounds(p);
      assert forall i :: 0 <= i < |p| ==> p[i] == fits[i];
    }
  }

  /** One more member extends the fit and the largest change as the loop of mgCompute does. */
  lemma PrefixStep(fits: seq<Member>, ex: nat)
    requires ex < |fits|
    ensures FitSum(fits[..ex + 1]) == FitSum(fits[..ex]) + fits[ex].value
    ensures MaxMac(fits[..ex + 1]) ==
      if fits[ex].fitFunction.Some? then RealMax(fits[ex].fitFunction.value.mac, MaxMac(fits[..ex])) else MaxMac(fits[..ex])
  {
    assert fits[..ex + 1][..ex] == fits[..ex] && fits[..ex + 1][ex] == fits[ex];
  }

  /** The error text for member ex that is not 1x1, as written: it names the type of the
      member's fit function, which a plain algebra does not have (None: a null pointer is read). */
  function NotScalarMessageAsWritten(mgName: string, ex: nat, f1: Member): Option<string>
  {
    match f1.fitFunction
    case None => None
    case Some(ff) =>
      Some(mgName + "[" + NatToString(ex) + "]: " + f1.name + " of type " + ff.fitType
           + " does not evaluate to a 1x1 matrix")
  }

  /** A 2x1 plain algebra member: the message as written reads the type of a fit function that is not there. */
  lemma NotScalarMessageNullCounterexample()
    ensures NotScalarMessageAsWritten("mg", 0, Member("alg", 2, 1, 0.0, None)).None?
  {
  }

  /** The type a member is reported as: its fit function's type, or "MxAlgebra" for a plain algebra. */
  function MemberType(f1: Member): string
  {
    match f1.fitFunction
    case None => "MxAlgebra"
    case Some(ff) => ff.fitType
  }

  /** The error text for a member that is not 1x1, defined for every member; for a fit-function
      member it is the text as written. */
  function NotScalarMessage(mgName: string, ex: nat, f1: Member): (msg: string)
    ensures f1.fitFunction.Some? ==> NotScalarMessageAsWritten(mgName, ex, f1) == Some(msg)
  {
    mgName + "[" + NatToString(ex) + "]: " + f1.name + " of type " + MemberType(f1)
    + " does not evaluate to a 1x1 matrix"
  }

  predicate IsScalar(f1: Member)
  {
    f1.rows == 1 && f1.cols == 1
  }

  /** The messages for the members before k that are not 1x1, in member order. */
  function NotScalarMessages(mgName: string, fits: seq<Member>, k: nat): seq<string>
    requires k <= |fits|
  {
    if k == 0 then []
    else NotScalarMessages(mgName, fits, k - 1)
         + (if IsScalar(fits[k - 1]) then [] else [NotScalarMessage(mgName, k - 1, fits[k - 1])])
  }

  /** One message per member that is not 1x1, so none exactly when every member is 1x1. */
  lemma {:induction false} NotScalarMessagesCount(mgName: string, fits: seq<Member>, k: nat)
    requires k <= |fits|
    ensures |NotScalarMessages(mgName, fits, k)| <= k
    ensures NotScalarMessages(mgName, fits, k) == [] <==> forall i :: 0 <= i < k ==> IsScalar(fits[i])
  {
    if k > 0 {
      NotScalarMessagesCount(mgName, fits, k - 1);
    }
  }

  /** The error list after raising each of msgs in turn. */
  function RaiseEach(bads: seq<string>, msgs: seq<string>): seq<string>
  {
    if |msgs| == 0 then bads else ErrorList.Raise(RaiseEach(bads, msgs[..|msgs| - 1]), msgs[|msgs| - 1])
  }

  lemma RaiseEachStep(bads: seq<string>, mgName: string, fits: seq<Member>, ex: nat)
    requires ex < |fits|
    ensures RaiseEach(bads, NotScalarMessages(mgName, fits, ex + 1)) ==
      if IsScalar(fits[ex]) then RaiseEach(bads, NotScalarMessages(mgName, fits, ex))
      else ErrorList.Raise(RaiseEach(bads, NotScalarMessages(mgName, fits, ex)), NotScalarMessage(mgName, ex, fits[ex]))
  {
    var prev := NotScalarMessages(mgName, fits, ex);
    var msgs := NotScalarMessages(mgName, fits, ex + 1);
    if !IsScalar(fits[ex]) {
      assert msgs[..|msgs| - 1] == prev;
    } else {
      assert msgs == prev;
    }
  }

  // ---------------------------------------------------------------- initFitMultigroup

  /** A member after the queued variable groups have been set on its fit function, in order:
      the last one stays. A plain algebra is unchanged. */
  function WithGroups(m: Member, varGroups: seq<int>): (r: Member)
    ensures r.name == m.name && r.rows == m.rows && r.cols == m.cols && r.value == m.value
    ensures r.fitFunction.Some? <==> m.fitFunction.Some?
    ensures m.fitFunction.Some? ==>
      r.fitFunction.value.freeVarGroup == (if |varGroups| > 0 then varGroups[|varGroups| - 1] else m.fitFunction.value.freeVarGroup)
      && r.fitFunction.value.(freeVarGroup := 0) == m.fitFunction.value.(freeVarGroup := 0)
  {
    if m.fitFunction.Some? && |varGroups| > 0 then SetGroup(m, varGroups[|varGroups| - 1]) else m
  }

  /** setFreeVarGroup on a member's fit function. */
  function SetGroup(m: Member, fvg: int): Member
  {
    match m.fitFunction
    case None => m
    case Some(ff) => m.(fitFunction := Some(ff.(freeVarGroup := fvg)))
  }

  /** The multigroup's own state that initialisation builds. */
  datatype InitState = InitState(fits: seq<Member>, units: int, ciFun: int, gradientAvailable: bool,
                                 hessianAvailable: bool, freeVarGroup: int)

  predicate InAlgebraList(groups: seq<int>, algebraList: seq<Member>)
  {
    forall i :: 0 <= i < |groups| ==> groups[i] < |algebraList|
  }

  /** The effect of adding group g: a negative number and the multigroup itself are refused; a
      fit-function member takes the queued groups, may only narrow the gradient and Hessian
      availability, and must agree on units with the members before it; a plain algebra makes
      neither available. */
  function Step(st: InitState, g: int, algebraList: seq<Member>, selfIndex: nat, varGroups: seq<int>,
                mgName: string): Result<InitState>
    requires g < |algebraList|
  {
    if g < 0 then Err("Can only add algebra and fitfunction")
    else if g == selfIndex then Err("Cannot add multigroup to itself")
    else
      var mat := algebraList[g];
      var fits := st.fits + [WithGroups(mat, varGroups)];
      match mat.fitFunction
      case None => Ok(st.(fits := fits, gradientAvailable := false, hessianAvailable := false))
      case Some(ff) =>
        var st1 := st.(fits := fits,
                       freeVarGroup := if |varGroups| > 0 then varGroups[|varGroups| - 1] else st.freeVarGroup,
                       gradientAvailable := st.gradientAvailable && ff.gradientAvailable,
                       hessianAvailable := st.hessianAvailable && ff.hessianAvailable);
        if st.units == FIT_UNITS_UNINITIALIZED then Ok(st1.(units := ff.units, ciFun := ff.ciFun))
        else if st.units != ff.units then
          Err(mgName + ": cannot combine units " + StateIndex.IntToString(st.units) + " and "
              + StateIndex.IntToString(ff.units) + " (from " + mat.name + ")")
        else Ok(st1)
  }

  /** The groups added in order from start; the first refusal stops the initialisation. */
  function InitFold(groups: seq<int>, algebraList: seq<Member>, selfIndex: nat, varGroups: seq<int>,
                    mgName: string, start: InitState): Result<InitState>
    requires InAlgebraList(groups, algebraList)
  {
    if |groups| == 0 then Ok(start)
    else
      match InitFold(groups[..|groups| - 1], algebraList, selfIndex, varGroups, mgName, start)
      case Err(e) => Err(e)
      case Ok(st) => Step(st, groups[|groups| - 1], algebraList, selfIndex, varGroups, mgName)
  }

  lemma InitFoldStep(groups: seq<int>, k: nat, algebraList: seq<Member>, selfIndex: nat, varGroups: seq<int>,
                     mgName: string, start: InitState)
    requires InAlgebraList(groups, algebraList) && k < |groups|
    ensures InAlgebraList(groups[..k], algebraList) && InAlgebraList(groups[..k + 1], algebraList)
    ensures InitFold(groups[..k + 1], algebraList, selfIndex, varGroups, mgName, start) ==
      match InitFold(groups[..k], algebraList, selfIndex, varGroups, mgName, start)
      case Err(e) => Err(e)
      case Ok(st) => Step(st, groups[k], algebraList, selfIndex, varGroups, mgName)
  {
    assert groups[..k + 1][..k] == groups[..k];
  }

  /** The first refusal is final: the whole initialisation fails with its message. */
  lemma {:induction false} InitFoldErrSticky(groups: seq<int>, k: nat, algebraList: seq<Member>, selfIndex: nat,
                                             varGroups: seq<int>, mgName: string, start: InitState)
    requires InAlgebraList(groups, algebraList) && k <= |groups|
    requires InitFold(groups[..k], algebraList, selfIndex, varGroups, mgName, start).Err?
    ensures InitFold(groups, algebraList, selfIndex, varGroups, mgName, start) ==
      InitFold(groups[..k], algebraList, selfIndex, varGroups, mgName, start)
    decreases |groups| - k
  {
    if k == |groups| {
      assert groups[..k] == groups;
    } else {
      InitFoldStep(groups, k, algebraList, selfIndex, varGroups, mgName, start);
      InitFoldErrSticky(groups, k + 1, algebraList, selfIndex, varGroups, mgName, start);
    }
  }

  predicate GroupsValid(groups: seq<int>, selfIndex: nat)
  {
    forall i :: 0 <= i < |groups| ==> 0 <= groups[i] && groups[i] != selfIndex
  }

  /** The member matrices the groups name. */
  function Members(groups: seq<int>, algebraList: seq<Member>): (ms: seq<Member>)
    requires InAlgebraList(groups, algebraList) && forall i :: 0 <= i < |groups| ==> 0 <= groups[i]
    ensures |ms| == |groups| && forall i :: 0 <= i < |groups| ==> ms[i] == algebraList[groups[i]]
  {
    seq(|groups|, i requires 0 <= i < |groups| => algebraList[groups[i]])
  }

  predicate IsFit(m: Member)
  {
    m.fitFunction.Some?
  }

  /** Every fit-function member with known units agrees with each fit-function member after it. */
  predicate UnitsAgree(ms: seq<Member>)
  {
    forall i, j :: 0 <= i < j < |ms| && IsFit(ms[i]) && IsFit(ms[j]) && ms[i].fitFunction.value.units != FIT_UNITS_UNINITIALIZED
      ==> ms[j].fitFunction.value.units == ms[i].fitFunction.value.units
  }

  /** The units of the first fit-function member whose units are known, else uninitialised. */
  function FirstUnits(ms: seq<Member>): (u: int)
    ensures u == FIT_UNITS_UNINITIALIZED <==>
      forall i :: 0 <= i < |ms| && IsFit(ms[i]) ==> ms[i].fitFunction.value.units == FIT_UNITS_UNINITIALIZED
    ensures u != FIT_UNITS_UNINITIALIZED ==>
      exists i :: 0 <= i < |ms| && IsFit(ms[i]) && ms[i].fitFunction.value.units == u
  {
    if |ms| == 0 then FIT_UNITS_UNINITIALIZED
    else
      var p := ms[..|ms| - 1];
      var last := ms[|ms| - 1];
      assert forall i :: 0 <= i < |p| ==> p[i] == ms[i];
      var u0 := FirstUnits(p);
      if u0 != FIT_UNITS_UNINITIALIZED then u0
      else if IsFit(last) then last.fitFunction.value.units
      else FIT_UNITS_UNINITIALIZED
  }

  /** When the members agree, every fit-function member with known units has the first one's units. */
  lemma UnitsAgreeFirst(ms: seq<Member>, j: nat)
    requires UnitsAgree(ms) && j < |ms| && IsFit(ms[j]) && ms[j].fitFunction.value.units != FIT_UNITS_UNINITIALIZED
    ensures ms[j].fitFunction.value.units == FirstUnits(ms)
  {
    var u := FirstUnits(ms);
    var i :| 0 <= i < |ms| && IsFit(ms[i]) && ms[i].fitFunction.value.units == u;
    if i < j {
    } else if j < i {
    }
  }

  /** A member agrees with those before it when it is not a fit function, or the units it
      reports are the first known ones (or none are known yet). */
  lemma UnitsAgreeExtend(ms: seq<Member>, m: Member)
    ensures UnitsAgree(ms + [m]) <==>
      UnitsAgree(ms) && (IsFit(m) && FirstUnits(ms) != FIT_UNITS_UNINITIALIZED ==> m.fitFunction.value.units == FirstUnits(ms))
    ensures FirstUnits(ms + [m]) ==
      if FirstUnits(ms) != FIT_UNITS_UNINITIALIZED then FirstUnits(ms)
      else if IsFit(m) then m.fitFunction.value.units else FIT_UNITS_UNINITIALIZED
  {
    var ms' := ms + [m];
    assert ms'[..|ms|] == ms && ms'[|ms|] == m;
    assert forall i :: 0 <= i < |ms| ==> ms'[i] == ms[i];
    if UnitsAgree(ms') {
      assert UnitsAgree(ms) by {
        forall i, j | 0 <= i < j < |ms| && IsFit(ms[i]) && IsFit(ms[j])
          && ms[i].fitFunction.value.units != FIT_UNITS_UNINITIALIZED
          ensures ms[j].fitFunction.value.units == ms[i].fitFunction.value.units
        {
          assert ms'[i] == ms[i] && ms'[j] == ms[j];
        }
      }
      if IsFit(m) && FirstUnits(ms) != FIT_UNITS_UNINITIALIZED {
        var i :| 0 <= i < |ms| && IsFit(ms[i]) && ms[i].fitFunction.value.units == FirstUnits(ms);
        assert ms'[i] == ms[i];
      }
    } else if UnitsAgree(ms) && (IsFit(m) && FirstUnits(ms) != FIT_UNITS_UNINITIALIZED ==> m.fitFunction.value.units == FirstUnits(ms)) {
      forall i, j | 0 <= i < j < |ms'| && IsFit(ms'[i]) && IsFit(ms'[j])
        && ms'[i].fitFunction.value.units != FIT_UNITS_UNINITIALIZED
        ensures ms'[j].fitFunction.value.units == ms'[i].fitFunction.value.units
      {
        if j < |ms| {
          assert ms'[i] == ms[i] && ms'[j] == ms[j];
        } else {
          assert ms'[i] == ms[i];
          UnitsAgreeFirst(ms, i);
        }
      }
    }
  }

  /** The initialisation succeeds exactly when every group is a non-negative number other than
      the multigroup's own and the fit-function members agree on their units; it then records
      the first known units. */
  lemma {:induction false} InitFoldAccepts(groups: seq<int>, algebraList: seq<Member>, selfIndex: nat,
                                           varGroups: seq<int>, mgName: string, start: InitState)
    requires InAlgebraList(groups, algebraList) && start.units == FIT_UNITS_UNINITIALIZED
    ensures InitFold(groups, algebraList, selfIndex, varGroups, mgName, start).Ok? <==>
      GroupsValid(groups, selfIndex) && UnitsAgree(Members(groups, algebraList))
    ensures InitFold(groups, algebraList, selfIndex, varGroups, mgName, start).Ok? ==>
      InitFold(groups, algebraList, selfIndex, varGroups, mgName, start).value.units == FirstUnits(Members(groups, algebraList))
  {
    if |groups| == 0 {
      assert Members(groups, algebraList) == [];
      return;
    }
    var k := |groups| - 1;
    var p := groups[..k];
    var g := groups[k];
    assert groups[..k + 1] == groups;
    InitFoldStep(groups, k, algebraList, selfIndex, varGroups, mgName, start);
    InitFoldAccepts(p, algebraList, selfIndex, varGroups, mgName, start);
    if !GroupsValid(groups, selfIndex) {
      if GroupsValid(p, selfIndex) {
        assert g < 0 || g == selfIndex;
      }
      return;
    }
    assert GroupsValid(p, selfIndex);
    var ms := Members(groups, algebraList);
    assert ms == Members(p, algebraList) + [algebraList[g]];
    UnitsAgreeExtend(Members(p, algebraList), algebraList[g]);
  }

  /** The members a successful initialisation appends: the named matrices, in order, with the
      queued groups set. */
  function Added(groups: seq<int>, algebraList: seq<Member>, varGroups: seq<int>): (r: seq<Member>)
    requires InAlgebraList(groups, algebraList) && forall i :: 0 <= i < |groups| ==> 0 <= groups[i]
    ensures |r| == |groups|
  {
    seq(|groups|, i requires 0 <= i < |groups| => WithGroups(algebraList[groups[i]], varGroups))
  }

  /** A successful initialisation accepted every group. */
  lemma {:induction false} InitFoldValid(groups: seq<int>, algebraList: seq<Member>, selfIndex: nat,
                                         varGroups: seq<int>, mgName: string, start: InitState)
    requires InAlgebraList(groups, algebraList)
    requires InitFold(groups, algebraList, selfIndex, varGroups, mgName, start).Ok?
    ensures GroupsValid(groups, selfIndex)
  {
    if |groups| > 0 {
      var k := |groups| - 1;
      assert groups[..k + 1] == groups;
      InitFoldStep(groups, k, algebraList, selfIndex, varGroups, mgName, start);
      InitFoldValid(groups[..k], algebraList, selfIndex, varGroups, mgName, start);
      assert forall i :: 0 <= i < k ==> groups[..k][i] == groups[i];
    }
  }

  lemma AddedSnoc(groups: seq<int>, algebraList: seq<Member>, varGroups: seq<int>)
    requires InAlgebraList(groups, algebraList) && |groups| > 0 && forall i :: 0 <= i < |groups| ==> 0 <= groups[i]
    ensures InAlgebraList(groups[..|groups| - 1], algebraList)
    ensures Added(groups, algebraList, varGroups)
      == Added(groups[..|groups| - 1], algebraList, varGroups) + [WithGroups(algebraList[groups[|groups| - 1]], varGroups)]
  {
    var k := |groups| - 1;
    assert forall i :: 0 <= i < k ==> groups[..k][i] == groups[i];
  }

  /** After a successful initialisation the members are the named matrices, in order, with the
      queued groups set. */
  lemma {:induction false} InitFoldMembers(groups: seq<int>, algebraList: seq<Member>, selfIndex: nat,
                                           varGroups: seq<int>, mgName: string, start: InitState)
    requires InAlgebraList(groups, algebraList) && GroupsValid(groups, selfIndex)
    requires InitFold(groups, algebraList, selfIndex, varGroups, mgName, start).Ok?
    ensures InitFold(groups, algebraList, selfIndex, varGroups, mgName, start).value.fits ==
      start.fits + Added(groups, algebraList, varGroups)
  {
    if |groups| > 0 {
      var k := |groups| - 1;
      var p := groups[..k];
      assert groups[..k + 1] == groups;
      InitFoldStep(groups, k, algebraList, selfIndex, varGroups, mgName, start);
      assert forall i :: 0 <= i < k ==> p[i] == groups[i];
      InitFoldMembers(p, algebraList, selfIndex, varGroups, mgName, start);
      AddedSnoc(groups, algebraList, varGroups);
    }
  }

  /** Gradients and Hessians are available after a successful initialisation only if every member
      is a fit function that offers them. */
  lemma {:induction false} InitFoldAvailable(groups: seq<int>, algebraList: seq<Member>, selfIndex: nat,
                                             varGroups: seq<int>, mgName: string, start: InitState)
    requires InAlgebraList(groups, algebraList) && GroupsValid(groups, selfIndex)
    requires InitFold(groups, algebraList, selfIndex, varGroups, mgName, start).Ok?
    ensures InitFold(groups, algebraList, selfIndex, varGroups, mgName, start).value.gradientAvailable <==>
      start.gradientAvailable && forall i :: 0 <= i < |groups| ==>
        IsFit(algebraList[groups[i]]) && algebraList[groups[i]].fitFunction.value.gradientAvailable
    ensures InitFold(groups, algebraList, selfIndex, varGroups, mgName, start).value.hessianAvailable <==>
      start.hessianAvailable && forall i :: 0 <= i < |groups| ==>
        IsFit(algebraList[groups[i]]) && algebraList[groups[i]].fitFunction.value.hessianAvailable
  {
    if |groups| > 0 {
      var k := |groups| - 1;
      var p := groups[..k];
      assert groups[..k + 1] == groups;
      InitFoldStep(groups, k, algebraList, selfIndex, varGroups, mgName, start);
      InitFoldAvailable(p, algebraList, selfIndex, varGroups, mgName, start);
      assert forall i :: 0 <= i < k ==> p[i] == groups[i];
    }
  }

  // ---------------------------------------------------------------- the fit function

  class MultigroupFit {
    const name: string
    /** The number of the multigroup's own algebra. */
    const selfIndex: nat
    var fits: seq<Member>
    /** Variable groups set before any member was added. */
    var varGroups: seq<int>
    var units: int
    var ciFun: int
    var gradientAvailable: bool
    var hessianAvailable: bool
    var canDuplicate: bool
    var freeVarGroup: int
    /** The multigroup matrix's data[0]. */
    var fitValue: real

    function State(): InitState
      reads this
    {
      InitState(fits, units, ciFun, gradientAvailable, hessianAvailable, freeVarGroup)
    }

    constructor (name: string, selfIndex: nat, freeVarGroup: int)
      ensures this.name == name && this.selfIndex == selfIndex && this.freeVarGroup == freeVarGroup
      ensures fits == [] && varGroups == []
    {
      this.name := name;
      this.selfIndex := selfIndex;
      this.freeVarGroup := freeVarGroup;
      fits := [];
      varGroups := [];
    }

    /** mgCompute: with the fit wanted, the in-order sum of the members' values, and an error for
      each member that is not 1x1; the fit context receives the largest member change when
      that is wanted, else 0. hasContext says whether there is a fit context. */
    method Compute(wantFit: bool, wantMac: bool, hasContext: bool, log: ErrorList.ErrorLog) returns (fcMac: Option<real>)
      requires log.Valid()
      modifies this`fitValue, log
      ensures log.Valid()
      ensures wantFit ==> fitValue == FitSum(fits)
      ensures !wantFit ==> fitValue == old(fitValue)
      ensures fcMac == if hasContext then Some(if wantMac then MaxMac(fits) else 0.0) else None
      ensures log.bads == RaiseEach(old(log.bads), if wantFit then NotScalarMessages(name, fits, |fits|) else [])
    {
      var fit := 0.0;
      var mac := 0.0;
      for ex := 0 to |fits|
        invariant log.Valid() && fitValue == old(fitValue)
        invariant wantFit ==> fit == FitSum(fits[..ex])
        invariant mac == if wantMac then MaxMac(fits[..ex]) else 0.0
        invariant log.bads == RaiseEach(old(log.bads), if wantFit then NotScalarMessages(name, fits, ex) else [])
      {
        var f1 := fits[ex];
        PrefixStep(fits, ex);
        if f1.fitFunction.Some? {
          if wantMac {
            mac := RealMax(f1.fitFunction.value.mac, mac);
          }
        }
        if wantFit {
          RaiseEachStep(old(log.bads), name, fits, ex);
          if !IsScalar(f1) {
            var _ := log.RaiseError(NotScalarMessage(name, ex, f1));
          }
          fit := fit + f1.value;
        }
      }
      assert fits[..|fits|] == fits;
      if hasContext {
        fcMac := Some(mac);
      } else {
        fcMac := None;
      }
      if wantFit {
        fitValue := fit;
      }
    }

    /** mgSetFreeVarGroup: before any member exists the group is queued; afterwards it is set on
      every fit-function member and becomes the multigroup's group. */
    method SetFreeVarGroup(fvg: int)
      modifies this`varGroups, this`fits, this`freeVarGroup
      ensures |old(fits)| == 0 ==> varGroups == old(varGroups) + [fvg] && fits == old(fits) && freeVarGroup == old(freeVarGroup)
      ensures |old(fits)| > 0 ==>
        varGroups == old(varGroups) && freeVarGroup == fvg && |fits| == |old(fits)|
        && forall ex :: 0 <= ex < |fits| ==> fits[ex] == SetGroup(old(fits)[ex], fvg)
    {
      if |fits| == 0 {
        varGroups := varGroups + [fvg];
      } else {
        ghost var before := fits;
        for ex := 0 to |fits|
          invariant |fits| == |before| > 0 && varGroups == old(varGroups)
          invariant forall k :: 0 <= k < ex ==> fits[k] == SetGroup(before[k], fvg)
          invariant forall k :: ex <= k < |fits| ==> fits[k] == before[k]
          invariant ex > 0 ==> freeVarGroup == fvg
        {
          var f1 := fits[ex];
          if f1.fitFunction.None? {
            freeVarGroup := fvg;
            continue;
          }
          fits := fits[ex := SetGroup(f1, fvg)];
          freeVarGroup := fits[ex].fitFunction.value.freeVarGroup;
        }
      }
    }

    /** Adds group g as initFitMultigroup's loop body does. */
    method AddGroup(g: int, algebraList: seq<Member>) returns (out: Outcome)
      requires g < |algebraList|
      modifies this`fits, this`units, this`ciFun, this`gradientAvailable, this`hessianAvailable, this`freeVarGroup
      ensures var r := Step(old(State()), g, algebraList, selfIndex, varGroups, name);
        (out.Success? <==> r.Ok?) && (r.Ok? ==> State() == r.value) && (r.Err? ==> out == Failure(r.msg))
    {
      if g < 0 {
        return Failure("Can only add algebra and fitfunction");
      }
      var mat := algebraList[g];
      if g == selfIndex {
        return Failure("Cannot add multigroup to itself");
      }
      var member := mat;
      if mat.fitFunction.Some? {
        ghost var fvg0 := freeVarGroup;
        for vg := 0 to |varGroups|
          modifies this`freeVarGroup
          invariant member == WithGroups(mat, varGroups[..vg])
          invariant freeVarGroup == if vg > 0 then varGroups[vg - 1] else fvg0
        {
          assert varGroups[..vg + 1][vg] == varGroups[vg];
          member := SetGroup(member, varGroups[vg]);
          freeVarGroup := member.fitFunction.value.freeVarGroup;
        }
        assert varGroups[..|varGroups|] == varGroups;
        fits := fits + [member];
        var ff := mat.fitFunction.value;
        gradientAvailable := gradientAvailable && ff.gradientAvailable;
        hessianAvailable := hessianAvailable && ff.hessianAvailable;
        if units == FIT_UNITS_UNINITIALIZED {
          units := ff.units;
          ciFun := ff.ciFun;
        } else if units != ff.units {
          return Failure(name + ": cannot combine units " + StateIndex.IntToString(units) + " and "
                         + StateIndex.IntToString(ff.units) + " (from " + mat.name + ")");
        }
      } else {
        fits := fits + [member];
        gradientAvailable := false;
        hessianAvailable := false;
      }
      out := Success;
    }

    /** initFitMultigroup: without the front-end object, or once members exist, nothing happens;
      otherwise the groups are added in order, and a pending error stops the loop before it starts. */
    method Init(groups: seq<int>, algebraList: seq<Member>, hasRObj: bool, log: ErrorList.ErrorLog) returns (out: Outcome)
      requires InAlgebraList(groups, algebraList)
      modifies this
      ensures varGroups == old(varGroups)
      ensures !hasRObj || |old(fits)| > 0 ==> out.Success? && State() == old(State()) && canDuplicate == old(canDuplicate)
      ensures hasRObj && |old(fits)| == 0 ==> canDuplicate
      ensures hasRObj && |old(fits)| == 0 && |log.bads| > 0 ==>
        out.Success? && State() == InitState([], FIT_UNITS_UNINITIALIZED, old(ciFun), true, true, old(freeVarGroup))
      ensures hasRObj && |old(fits)| == 0 && |log.bads| == 0 ==>
        var r := InitFold(groups, algebraList, selfIndex, varGroups, name,
                          InitState([], FIT_UNITS_UNINITIALIZED, old(ciFun), true, true, old(freeVarGroup)));
        (out.Success? <==> r.Ok?) && (r.Ok? ==> State() == r.value) && (r.Err? ==> out == Failure(r.msg))
    {
      if !hasRObj {
        return Success;
      }
      if |fits| > 0 {
        return Success;
      }
      units := FIT_UNITS_UNINITIALIZED;
      gradientAvailable := true;
      hessianAvailable := true;
      canDuplicate := true;
      ghost var start := State();
      var gx := 0;
      while gx < |groups|
        invariant gx <= |groups| && varGroups == old(varGroups) && canDuplicate
        invariant |log.bads| > 0 ==> gx == 0 && State() == start
        invariant |log.bads| == 0 ==> InitFold(groups[..gx], algebraList, selfIndex, varGroups, name, start) == Ok(State())
      {
        if |log.bads| > 0 {
          break;
        }
        InitFoldStep(groups, gx, algebraList, selfIndex, varGroups, name, start);
        out := AddGroup(groups[gx], algebraList);
        if out.Failure? {
          InitFoldErrSticky(groups, gx + 1, algebraList, selfIndex, varGroups, name, start);
          return;
        }
        gx := gx + 1;
      }
      if |log.bads| == 0 {
        assert groups[..|groups|] == groups;
      }
      out := Success;
    }
  }
}
