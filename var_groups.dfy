// Free-variable groups of the global state (omxGlobal::freeGroup): lookup,
// creation, deduplication and the name index of each group.
module VarGroups {
  import opened Common

  /** Group ids with a fixed meaning: every free variable, and none. */
  const FREEVARGROUP_ALL: int := 0
  const FREEVARGROUP_NONE: int := -1

  /** One place a free variable is written to: a cell of a matrix. */
  datatype Location = Location(matrix: int, row: int, col: int)

  /** An omxFreeVar: its id, its name and the cells it is stored in. */
  datatype FreeVar = FreeVar(id: int, name: string, locations: seq<Location>)

  predicate UniqueNames(vars: seq<FreeVar>)
  {
    forall i, j :: 0 <= i < j < |vars| ==> vars[i].name != vars[j].name
  }

  /** m maps the name of every variable to its position, and holds nothing else. */
  predicate IndexesNames(m: map<string, int>, vars: seq<FreeVar>)
  {
    && m.Keys == (set i | 0 <= i < |vars| :: vars[i].name)
    && forall i :: 0 <= i < |vars| ==> vars[i].name in m && m[vars[i].name] == i
  }

  /** A FreeVarGroup: the group ids it answers to, its variables, and the name index. */
  datatype FreeVarGroup = FreeVarGroup(ids: seq<int>, vars: seq<FreeVar>, byName: map<string, int>)
  {
    /** hasSameVars: same variables in the same order. */
    method HasSameVars(g2: FreeVarGroup) returns (same: bool)
      ensures same <==> vars == g2.vars
    {
      if |vars| != |g2.vars| {
        return false;
      }
      var vx := 0;
      while vx < |vars|
        invariant 0 <= vx <= |vars|
        invariant vars[..vx] == g2.vars[..vx]
      {
        if vars[vx] != g2.vars[vx] {
          return false;
        }
        vx := vx + 1;
      }
      assert vars == vars[..vx] && g2.vars == g2.vars[..vx];
      return true;
    }

    /** lookupVar(matrix, row, col): the first variable stored in that cell, or -1. */
    method LookupVar(matrix: int, row: int, col: int) returns (vx: int)
      ensures -1 <= vx < |vars|
      ensures vx >= 0 ==> Location(matrix, row, col) in vars[vx].locations
      ensures vx >= 0 ==> forall k :: 0 <= k < vx ==> Location(matrix, row, col) !in vars[k].locations
      ensures vx == -1 ==> forall k :: 0 <= k < |vars| ==> Location(matrix, row, col) !in vars[k].locations
    {
      vx := 0;
      while vx < |vars|
        invariant 0 <= vx <= |vars|
        invariant forall k :: 0 <= k < vx ==> Location(matrix, row, col) !in vars[k].locations
      {
        var locVec := vars[vx].locations;
        var lx := 0;
        while lx < |locVec|
          invariant 0 <= lx <= |locVec|
          invariant Location(matrix, row, col) !in locVec[..lx]
        {
          var loc := locVec[lx];
          if loc.matrix == matrix && loc.row == row && loc.col == col {
            return vx;
          }
          lx := lx + 1;
        }
        assert locVec[..lx] == locVec;
        vx := vx + 1;
      }
      return -1;
    }

    /** lookupVar(omxMatrix*, row, col): a matrix is referred to by its encoded number ~matrixNumber. */
    method LookupMatrixVar(matrixNumber: int, row: int, col: int) returns (vx: int)
      ensures -1 <= vx < |vars|
      ensures vx >= 0 ==> Location(-matrixNumber - 1, row, col) in vars[vx].locations
      ensures vx >= 0 ==> forall k :: 0 <= k < vx ==> Location(-matrixNumber - 1, row, col) !in vars[k].locations
      ensures vx == -1 ==> forall k :: 0 <= k < |vars| ==> Location(-matrixNumber - 1, row, col) !in vars[k].locations
    {
      vx := LookupVar(-matrixNumber - 1, row, col);
    }

    /** lookupVar(name): the position recorded in the name index, or -1. */
    function LookupVarByName(name: string): (vx: int)
      ensures vx == -1 <==> name !in byName || byName[name] == -1
      ensures vx != -1 ==> vx == byName[name]
    {
      if name in byName then byName[name] else -1
    }

    /** reIndex: rebuild the name index; two variables with one name is an error. */
    method ReIndex() returns (r: Result<FreeVarGroup>)
      ensures r.Ok? <==> UniqueNames(vars)
      ensures r.Ok? ==> r.value.ids == ids && r.value.vars == vars
      ensures r.Ok? ==> IndexesNames(r.value.byName, vars)
    {
      var m: map<string, int> := map[];
      var vx := 0;
      while vx < |vars|
        invariant 0 <= vx <= |vars|
        invariant UniqueNames(vars[..vx])
        invariant IndexesNames(m, vars[..vx])
      {
        var name := vars[vx].name;
        if name in m {
          var j :| 0 <= j < vx && vars[..vx][j].name == name;
          assert vars[j].name == vars[vx].name;
          return Err("Two free variables with same name '" + name + "'");
        }
        m := m[name := vx];
        vx := vx + 1;
        assert vars[..vx] == vars[..vx - 1] + [vars[vx - 1]];
      }
      assert vars[..vx] == vars;
      return Ok(FreeVarGroup(ids, vars, m));
    }
  }

  /** After a successful reIndex, looking a variable up by name gives its position. */
  lemma LookupByNameAfterReIndex(g: FreeVarGroup, name: string)
    requires IndexesNames(g.byName, g.vars)
    ensures forall i :: 0 <= i < |g.vars| && g.vars[i].name == name ==> g.LookupVarByName(name) == i
    ensures (forall i :: 0 <= i < |g.vars| ==> g.vars[i].name != name) ==> g.LookupVarByName(name) == -1
  {
    if name in g.byName {
      assert name in (set i | 0 <= i < |g.vars| :: g.vars[i].name);
    }
  }

  // ----- Specification of the group lookup -----

  /** Position of the first group whose id list contains id. */
  function FirstGroupWith(groups: seq<FreeVarGroup>, id: int): (r: Option<nat>)
    ensures r.Some? ==> r.value < |groups| && id in groups[r.value].ids
    ensures r.Some? ==> forall k :: 0 <= k < r.value ==> id !in groups[k].ids
    ensures r.None? <==> forall k :: 0 <= k < |groups| ==> id !in groups[k].ids
  {
    if |groups| == 0 then None
    else if id in groups[0].ids then Some(0)
    else match FirstGroupWith(groups[1..], id)
      case None => None
      case Some(k) => Some(k + 1)
  }

  /** A group appended after the last one is found only when no earlier group answers to id. */
  lemma {:induction false} FirstGroupWithAppend(groups: seq<FreeVarGroup>, g: FreeVarGroup, id: int)
    requires FirstGroupWith(groups, id).None?
    requires id in g.ids
    ensures FirstGroupWith(groups + [g], id) == Some(|groups|)
  {
    if |groups| > 0 {
      assert (groups + [g])[1..] == groups[1..] + [g];
      FirstGroupWithAppend(groups[1..], g, id);
    }
  }

  // ----- Specification of deduplicateVarGroups -----

  /** g1 absorbs g2: g2's ids are appended to g1's, then g2 is erased. */
  function Absorb(gs: seq<FreeVarGroup>, g1: nat, g2: nat): (r: seq<FreeVarGroup>)
    requires g1 < g2 < |gs|
    ensures |r| == |gs| - 1
  {
    var merged := gs[g1 := gs[g1].(ids := gs[g1].ids + gs[g2].ids)];
    merged[..g2] + merged[g2 + 1..]
  }

  /** The inner loop: g2 runs from its start down to g1 + 1. */
  function MergeDown(gs: seq<FreeVarGroup>, g1: nat, g2: int): (r: seq<FreeVarGroup>)
    requires g1 < |gs| && g2 < |gs|
    ensures g1 < |r| <= |gs|
    decreases g2
  {
    if g2 <= g1 then gs
    else if gs[g1].vars == gs[g2].vars then MergeDown(Absorb(gs, g1, g2), g1, g2 - 1)
    else MergeDown(gs, g1, g2 - 1)
  }

  /** The outer loop from position g1 on. */
  function DedupFrom(gs: seq<FreeVarGroup>, g1: nat): seq<FreeVarGroup>
    decreases |gs| - g1
  {
    if g1 >= |gs| then gs else DedupFrom(MergeDown(gs, g1, |gs| - 1), g1 + 1)
  }

  function Dedup(gs: seq<FreeVarGroup>): seq<FreeVarGroup>
  {
    DedupFrom(gs, 0)
  }

  function VarLists(gs: seq<FreeVarGroup>): (r: seq<seq<FreeVar>>)
    ensures |r| == |gs| && forall i :: 0 <= i < |gs| ==> r[i] == gs[i].vars
  {
    seq(|gs|, i requires 0 <= i < |gs| => gs[i].vars)
  }

  /** The ids of all groups whose variable list is v, as a multiset. */
  function ClassIds(gs: seq<FreeVarGroup>, v: seq<FreeVar>): multiset<int>
  {
    if |gs| == 0 then multiset{}
    else ClassIds(gs[..|gs| - 1], v) + (if gs[|gs| - 1].vars == v then multiset(gs[|gs| - 1].ids) else multiset{})
  }

  /** The first occurrence of every element, in order. */
  function FirstOccurrences<T(==)>(s: seq<T>): seq<T>
  {
    if |s| == 0 then []
    else if s[|s| - 1] in s[..|s| - 1] then FirstOccurrences(s[..|s| - 1])
    else FirstOccurrences(s[..|s| - 1]) + [s[|s| - 1]]
  }

  predicate DistinctVars(gs: seq<FreeVarGroup>)
  {
    forall i, j :: 0 <= i < j < |gs| ==> gs[i].vars != gs[j].vars
  }

  /** Every group before n differs from every later group. */
  predicate SeparatedBefore(gs: seq<FreeVarGroup>, n: nat)
  {
    forall i, j :: 0 <= i < n && i < j < |gs| ==> gs[i].vars != gs[j].vars
  }

  lemma {:induction false} ClassIdsConcat(a: seq<FreeVarGroup>, b: seq<FreeVarGroup>, v: seq<FreeVar>)
    ensures ClassIds(a + b, v) == ClassIds(a, v) + ClassIds(b, v)
    decreases |b|
  {
    if |b| == 0 {
      assert a + b == a;
    } else {
      assert (a + b)[..|a + b| - 1] == a + b[..|b| - 1];
      ClassIdsConcat(a, b[..|b| - 1], v);
    }
  }

  lemma ClassIdsSingle(g: FreeVarGroup, v: seq<FreeVar>)
    ensures ClassIds([g], v) == if g.vars == v then multiset(g.ids) else multiset{}
  {
    assert [g][..0] == [];
  }

  /** Absorbing a group into another with the same variables moves ids without losing any. */
  lemma AbsorbKeepsClassIds(gs: seq<FreeVarGroup>, g1: nat, g2: nat, v: seq<FreeVar>)
    requires g1 < g2 < |gs| && gs[g1].vars == gs[g2].vars
    ensures ClassIds(Absorb(gs, g1, g2), v) == ClassIds(gs, v)
  {
    var a, b, c := gs[..g1], gs[g1 + 1..g2], gs[g2 + 1..];
    var m := gs[g1].(ids := gs[g1].ids + gs[g2].ids);
    assert gs == a + [gs[g1]] + b + [gs[g2]] + c;
    assert Absorb(gs, g1, g2) == a + [m] + b + c;
    ClassIdsConcat(a + [gs[g1]] + b + [gs[g2]], c, v);
    ClassIdsConcat(a + [gs[g1]] + b, [gs[g2]], v);
    ClassIdsConcat(a + [gs[g1]], b, v);
    ClassIdsConcat(a, [gs[g1]], v);
    ClassIdsConcat(a + [m] + b, c, v);
    ClassIdsConcat(a + [m], b, v);
    ClassIdsConcat(a, [m], v);
    ClassIdsSingle(gs[g1], v);
    ClassIdsSingle(gs[g2], v);
    ClassIdsSingle(m, v);
  }

  /** Removing an element that already occurs earlier leaves the first occurrences unchanged. */
  lemma {:induction false} FirstOccurrencesDropLater<T>(a: seq<T>, x: T, b: seq<T>)
    requires x in a
    ensures FirstOccurrences(a + [x] + b) == FirstOccurrences(a + b)
    decreases |b|
  {
    if |b| == 0 {
      assert (a + [x] + b)[..|a|] == a;
      assert a + [x] + b == a + [x];
      assert a + b == a;
    } else {
      var b' := b[..|b| - 1];
      var y := b[|b| - 1];
      assert a + [x] + b == (a + [x] + b') + [y];
      assert a + b == (a + b') + [y];
      assert (a + [x] + b)[..|a + [x] + b| - 1] == a + [x] + b';
      assert (a + b)[..|a + b| - 1] == a + b';
      FirstOccurrencesDropLater(a, x, b');
      assert y in a + [x] + b' <==> y in a + b';
    }
  }

  lemma {:induction false} FirstOccurrencesOfDistinct<T>(s: seq<T>)
    requires forall i, j :: 0 <= i < j < |s| ==> s[i] != s[j]
    ensures FirstOccurrences(s) == s
  {
    if |s| > 0 {
      FirstOccurrencesOfDistinct(s[..|s| - 1]);
      assert s[|s| - 1] !in s[..|s| - 1];
      assert s == s[..|s| - 1] + [s[|s| - 1]];
    }
  }

  lemma AbsorbFirstOccurrences(gs: seq<FreeVarGroup>, g1: nat, g2: nat)
    requires g1 < g2 < |gs| && gs[g1].vars == gs[g2].vars
    ensures FirstOccurrences(VarLists(Absorb(gs, g1, g2))) == FirstOccurrences(VarLists(gs))
  {
    var s := VarLists(gs);
    assert VarLists(Absorb(gs, g1, g2)) == s[..g2] + s[g2 + 1..];
    assert s == s[..g2] + [s[g2]] + s[g2 + 1..];
    assert s[g2] == s[..g2][g1];
    FirstOccurrencesDropLater(s[..g2], s[g2], s[g2 + 1..]);
  }

  /** The inner loop keeps the groups before g1, the variables of g1, and takes the rest from after g1. */
  lemma {:induction false} MergeDownShape(gs: seq<FreeVarGroup>, g1: nat, g2: int)
    requires g1 < |gs| && g2 < |gs|
    ensures MergeDown(gs, g1, g2)[..g1] == gs[..g1]
    ensures MergeDown(gs, g1, g2)[g1].vars == gs[g1].vars
    ensures forall j :: g1 < j < |MergeDown(gs, g1, g2)| ==> MergeDown(gs, g1, g2)[j] in gs[g1 + 1..]
    decreases g2, 1
  {
    if g2 <= g1 {
    } else if gs[g1].vars == gs[g2].vars {
      AbsorbStepShape(gs, g1, g2);
    } else {
      MergeDownShape(gs, g1, g2 - 1);
      assert MergeDown(gs, g1, g2) == MergeDown(gs, g1, g2 - 1);
    }
  }

  /** The step of MergeDownShape where g2 is absorbed into g1. */
  lemma {:induction false} AbsorbStepShape(gs: seq<FreeVarGroup>, g1: nat, g2: nat)
    requires g1 < g2 < |gs| && gs[g1].vars == gs[g2].vars
    ensures MergeDown(gs, g1, g2)[..g1] == gs[..g1]
    ensures MergeDown(gs, g1, g2)[g1].vars == gs[g1].vars
    ensures forall j :: g1 < j < |MergeDown(gs, g1, g2)| ==> MergeDown(gs, g1, g2)[j] in gs[g1 + 1..]
    decreases g2, 0
  {
    var a := Absorb(gs, g1, g2);
    MergeDownShape(a, g1, g2 - 1);
    var r := MergeDown(a, g1, g2 - 1);
    assert MergeDown(gs, g1, g2) == r;
    forall j | g1 < j < |r|
      ensures r[j] in gs[g1 + 1..]
    {
      assert r[j] in a[g1 + 1..];
      var k :| g1 + 1 <= k < |a| && a[k] == r[j];
      if k < g2 {
        assert a[k] == gs[k];
      } else {
        assert a[k] == gs[k + 1];
      }
    }
  }

  /** After the inner loop no later group has the variables of g1. */
  lemma {:induction false} MergeDownSeparates(gs: seq<FreeVarGroup>, g1: nat, g2: int)
    requires g1 < |gs| && g2 < |gs|
    requires forall j :: g2 < j < |gs| && g1 < j ==> gs[j].vars != gs[g1].vars
    ensures forall j :: g1 < j < |MergeDown(gs, g1, g2)| ==> MergeDown(gs, g1, g2)[j].vars != gs[g1].vars
    decreases g2
  {
    if g2 <= g1 {
    } else if gs[g1].vars == gs[g2].vars {
      var a := Absorb(gs, g1, g2);
      assert a[g1].vars == gs[g1].vars;
      assert forall j :: g2 - 1 < j < |a| && g1 < j ==> a[j] == gs[j + 1];
      MergeDownSeparates(a, g1, g2 - 1);
    } else {
      MergeDownSeparates(gs, g1, g2 - 1);
    }
  }

  lemma {:induction false} MergeDownKeepsIds(gs: seq<FreeVarGroup>, g1: nat, g2: int, v: seq<FreeVar>)
    requires g1 < |gs| && g2 < |gs|
    ensures ClassIds(MergeDown(gs, g1, g2), v) == ClassIds(gs, v)
    decreases g2, 1
  {
    if g2 <= g1 {
    } else if gs[g1].vars == gs[g2].vars {
      AbsorbStepKeepsIds(gs, g1, g2, v);
    } else {
      MergeDownKeepsIds(gs, g1, g2 - 1, v);
      assert MergeDown(gs, g1, g2) == MergeDown(gs, g1, g2 - 1);
    }
  }

  /** The step of MergeDownKeepsIds where g2 is absorbed into g1. */
  lemma {:induction false} AbsorbStepKeepsIds(gs: seq<FreeVarGroup>, g1: nat, g2: nat, v: seq<FreeVar>)
    requires g1 < g2 < |gs| && gs[g1].vars == gs[g2].vars
    ensures ClassIds(MergeDown(gs, g1, g2), v) == ClassIds(gs, v)
    decreases g2, 0
  {
    var a := Absorb(gs, g1, g2);
    AbsorbKeepsClassIds(gs, g1, g2, v);
    MergeDownKeepsIds(a, g1, g2 - 1, v);
    assert MergeDown(gs, g1, g2) == MergeDown(a, g1, g2 - 1);
  }

  lemma {:induction false} MergeDownKeepsOrder(gs: seq<FreeVarGroup>, g1: nat, g2: int)
    requires g1 < |gs| && g2 < |gs|
    ensures FirstOccurrences(VarLists(MergeDown(gs, g1, g2))) == FirstOccurrences(VarLists(gs))
    decreases g2, 1
  {
    if g2 <= g1 {
    } else if gs[g1].vars == gs[g2].vars {
      AbsorbStepKeepsOrder(gs, g1, g2);
    } else {
      MergeDownKeepsOrder(gs, g1, g2 - 1);
      assert MergeDown(gs, g1, g2) == MergeDown(gs, g1, g2 - 1);
    }
  }

  /** The step of MergeDownKeepsOrder where g2 is absorbed into g1. */
  lemma {:induction false} AbsorbStepKeepsOrder(gs: seq<FreeVarGroup>, g1: nat, g2: nat)
    requires g1 < g2 < |gs| && gs[g1].vars == gs[g2].vars
    ensures FirstOccurrences(VarLists(MergeDown(gs, g1, g2))) == FirstOccurrences(VarLists(gs))
    decreases g2, 0
  {
    var a := Absorb(gs, g1, g2);
    AbsorbFirstOccurrences(gs, g1, g2);
    MergeDownKeepsOrder(a, g1, g2 - 1);
    assert MergeDown(gs, g1, g2) == MergeDown(a, g1, g2 - 1);
  }

  /** One pass of the inner loop extends the separated prefix by g1. */
  lemma MergeDownExtendsSeparation(gs: seq<FreeVarGroup>, g1: nat)
    requires g1 < |gs|
    requires SeparatedBefore(gs, g1)
    ensures SeparatedBefore(MergeDown(gs, g1, |gs| - 1), g1 + 1)
  {
    var r := MergeDown(gs, g1, |gs| - 1);
    MergeDownShape(gs, g1, |gs| - 1);
    MergeDownSeparates(gs, g1, |gs| - 1);
    forall i, j | 0 <= i < g1 + 1 && i < j < |r|
      ensures r[i].vars != r[j].vars
    {
      if i < g1 {
        assert r[i] == r[..g1][i] == gs[..g1][i];
        if j < g1 {
          assert r[j] == r[..g1][j] == gs[..g1][j];
        } else if j == g1 {
          assert r[j].vars == gs[g1].vars;
        } else {
          assert r[j] in gs[g1 + 1..];
          var k :| 0 <= k < |gs[g1 + 1..]| && gs[g1 + 1..][k] == r[j];
          assert gs[g1 + 1 + k] == r[j];
        }
      }
    }
  }

  /** The outer loop: every group before g1 differs from every later group. */
  lemma {:induction false} DedupFromDistinct(gs: seq<FreeVarGroup>, g1: nat)
    requires g1 <= |gs| && SeparatedBefore(gs, g1)
    ensures DistinctVars(DedupFrom(gs, g1))
    decreases |gs| - g1
  {
    if g1 < |gs| {
      var r := MergeDown(gs, g1, |gs| - 1);
      MergeDownExtendsSeparation(gs, g1);
      DedupFromDistinct(r, g1 + 1);
    }
  }

  /** The outer loop loses no id. */
  lemma {:induction false} DedupFromKeepsIds(gs: seq<FreeVarGroup>, g1: nat, v: seq<FreeVar>)
    ensures ClassIds(DedupFrom(gs, g1), v) == ClassIds(gs, v)
    decreases |gs| - g1
  {
    if g1 < |gs| {
      var r := MergeDown(gs, g1, |gs| - 1);
      MergeDownKeepsIds(gs, g1, |gs| - 1, v);
      DedupFromKeepsIds(r, g1 + 1, v);
      assert DedupFrom(gs, g1) == DedupFrom(r, g1 + 1);
    }
  }

  /** The outer loop keeps the order in which variable lists first appear. */
  lemma {:induction false} DedupFromKeepsOrder(gs: seq<FreeVarGroup>, g1: nat)
    ensures FirstOccurrences(VarLists(DedupFrom(gs, g1))) == FirstOccurrences(VarLists(gs))
    decreases |gs| - g1
  {
    if g1 < |gs| {
      var r := MergeDown(gs, g1, |gs| - 1);
      MergeDownKeepsOrder(gs, g1, |gs| - 1);
      DedupFromKeepsOrder(r, g1 + 1);
      assert DedupFrom(gs, g1) == DedupFrom(r, g1 + 1);
    }
  }

  /** deduplicateVarGroups leaves no two groups with equal variable lists. */
  lemma DedupDistinct(gs: seq<FreeVarGroup>)
    ensures DistinctVars(Dedup(gs))
  {
    DedupFromDistinct(gs, 0);
  }

  /** Every id of a removed group ends up in the surviving group with the same variables. */
  lemma DedupGathersIds(gs: seq<FreeVarGroup>)
    ensures forall i :: 0 <= i < |Dedup(gs)| ==> multiset(Dedup(gs)[i].ids) == ClassIds(gs, Dedup(gs)[i].vars)
  {
    var d := Dedup(gs);
    forall i | 0 <= i < |d|
      ensures multiset(d[i].ids) == ClassIds(gs, d[i].vars)
    {
      DedupFromKeepsIds(gs, 0, d[i].vars);
      DedupFromDistinct(gs, 0);
      ClassIdsOfDistinct(d, i);
    }
  }

  lemma {:induction false} ClassIdsOfDistinct(gs: seq<FreeVarGroup>, i: nat)
    requires DistinctVars(gs) && i < |gs|
    ensures ClassIds(gs, gs[i].vars) == multiset(gs[i].ids)
  {
    var v := gs[i].vars;
    var n := |gs| - 1;
    if i < n {
      assert DistinctVars(gs[..n]);
      ClassIdsOfDistinct(gs[..n], i);
      assert gs[n].vars != v;
    } else {
      ClassIdsNone(gs[..n], v);
    }
  }

  lemma {:induction false} ClassIdsNone(gs: seq<FreeVarGroup>, v: seq<FreeVar>)
    requires forall k :: 0 <= k < |gs| ==> gs[k].vars != v
    ensures ClassIds(gs, v) == multiset{}
  {
    if |gs| > 0 {
      ClassIdsNone(gs[..|gs| - 1], v);
    }
  }

  /** The survivors are the first group of every variable list, in their original order. */
  lemma DedupKeepsOrder(gs: seq<FreeVarGroup>)
    ensures VarLists(Dedup(gs)) == FirstOccurrences(VarLists(gs))
  {
    DedupFromDistinct(gs, 0);
    DedupFromKeepsOrder(gs, 0);
    FirstOccurrencesOfDistinct(VarLists(Dedup(gs)));
  }

  /** The group list of the global state. */
  class VarGroupRegistry {
    var freeGroup: seq<FreeVarGroup>

    /** The global state starts with the group of all variables and the group of none. */
    constructor ()
      ensures freeGroup == [FreeVarGroup([FREEVARGROUP_ALL], [], map[]), FreeVarGroup([FREEVARGROUP_NONE], [], map[])]
    {
      freeGroup := [FreeVarGroup([FREEVARGROUP_ALL], [], map[]), FreeVarGroup([FREEVARGROUP_NONE], [], map[])];
    }

    /** findVarGroup: the first group answering to id (its position), or none. */
    method FindVarGroup(id: int) returns (r: Option<nat>)
      ensures r == FirstGroupWith(freeGroup, id)
    {
      var vx := 0;
      while vx < |freeGroup|
        invariant 0 <= vx <= |freeGroup|
        invariant forall k :: 0 <= k < vx ==> id !in freeGroup[k].ids
      {
        var ids := freeGroup[vx].ids;
        var ix := 0;
        while ix < |ids|
          invariant 0 <= ix <= |ids|
          invariant id !in ids[..ix]
        {
          if ids[ix] == id {
            return Some(vx);
          }
          ix := ix + 1;
        }
        assert ids[..ix] == ids;
        vx := vx + 1;
      }
      return None;
    }

    /** findOrCreateVarGroup: the existing group, or a new group [id] appended at the end. */
    method FindOrCreateVarGroup(id: int) returns (g: nat)
      modifies this
      ensures old(FirstGroupWith(freeGroup, id)).Some? ==> freeGroup == old(freeGroup)
      ensures old(FirstGroupWith(freeGroup, id)).None? ==>
        freeGroup == old(freeGroup) + [FreeVarGroup([id], [], map[])]
      ensures FirstGroupWith(freeGroup, id) == Some(g)
    {
      var found := FindVarGroup(id);
      if found.Some? {
        return found.value;
      }
      FirstGroupWithAppend(freeGroup, FreeVarGroup([id], [], map[]), id);
      freeGroup := freeGroup + [FreeVarGroup([id], [], map[])];
      g := |freeGroup| - 1;
    }

    /** deduplicateVarGroups: merge groups with equal variables into the earliest one, then reIndex each group. */
    method DeduplicateVarGroups() returns (out: Outcome)
      modifies this
      ensures var d := Dedup(old(freeGroup));
        && |freeGroup| == |d|
        && forall i :: 0 <= i < |d| ==> freeGroup[i].ids == d[i].ids && freeGroup[i].vars == d[i].vars
      ensures out.Success? <==> forall i :: 0 <= i < |freeGroup| ==> UniqueNames(freeGroup[i].vars)
      ensures out.Success? ==> forall i :: 0 <= i < |freeGroup| ==> IndexesNames(freeGroup[i].byName, freeGroup[i].vars)
    {
      ghost var orig := freeGroup;
      var g1 := 0;
      while g1 < |freeGroup|
        invariant g1 <= |freeGroup|
        invariant DedupFrom(freeGroup, g1) == Dedup(orig)
      {
        ghost var before := freeGroup;
        var g2 := |freeGroup| - 1;
        while g2 > g1
          invariant g1 <= g2 < |freeGroup|
          invariant MergeDown(freeGroup, g1, g2) == MergeDown(before, g1, |before| - 1)
        {
          var same := freeGroup[g1].HasSameVars(freeGroup[g2]);
          if same {
            freeGroup := freeGroup[g1 := freeGroup[g1].(ids := freeGroup[g1].ids + freeGroup[g2].ids)];
            freeGroup := freeGroup[..g2] + freeGroup[g2 + 1..];
          }
          g2 := g2 - 1;
        }
        g1 := g1 + 1;
      }
      ghost var d := freeGroup;
      var k := 0;
      while k < |freeGroup|
        invariant k <= |freeGroup| == |d|
        invariant forall i :: 0 <= i < |d| ==> freeGroup[i].ids == d[i].ids && freeGroup[i].vars == d[i].vars
        invariant forall i :: 0 <= i < k ==> UniqueNames(freeGroup[i].vars) && IndexesNames(freeGroup[i].byName, freeGroup[i].vars)
      {
        var r := freeGroup[k].ReIndex();
        if r.Err? {
          return Failure(r.msg);
        }
        freeGroup := freeGroup[k := r.value];
        k := k + 1;
      }
      return Success;
    }
  }
}
