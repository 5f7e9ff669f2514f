/** The desired-state schema (internal/state/state.go) and the copies the API makes of it (internal/api/api.go). */
module State {
  import opened Wrappers
  import Scope

  /** A Go slice of strings: None is the nil slice, which JSON tells apart from the empty one. */
  type Values = Option<seq<string>>

  datatype Selector = Selector(all: bool, labels: map<string, Values>)

  datatype Partition = Partition(name: string, groups: seq<Selector>, scope: seq<string>, symmetric: Option<bool>)

  datatype Shaping = Shaping(
    name: string,
    target: Option<Selector>,
    between: seq<Selector>,
    scope: seq<string>,
    direction: string,
    delay: string,
    jitter: string,
    loss: string,
    bandwidth: string)

  datatype State = State(partitions: seq<Partition>, shaping: seq<Shaping>)

  const EMPTY := State([], [])

  const DEFAULT_SCOPE := [Scope.CL_P2P, Scope.EL_P2P]

  function IsSymmetric(p: Partition): bool {
    if p.symmetric.None? then true else p.symmetric.value
  }

  function EffectiveScope(p: Partition): seq<string> {
    if |p.scope| > 0 then p.scope else DEFAULT_SCOPE
  }

  // ---- Validation ----

  predicate EmptySelector(sel: Selector) {
    !sel.all && sel.labels == map[]
  }

  predicate ValidPartition(p: Partition) {
    && p.name != ""
    && |p.groups| >= 2
    && (forall g :: g in p.groups ==> !EmptySelector(g))
    && IsSymmetric(p)
    && forall sc :: sc in p.scope ==> sc in {Scope.CL_P2P, Scope.EL_P2P, Scope.CONTROL}
  }

  predicate ValidShaping(sh: Shaping) {
    && sh.name != ""
    && sh.target.Some?
    && sh.between == []
    && (sh.direction == "" || sh.direction == "egress")
    && (sh.delay != "" || sh.loss != "" || sh.bandwidth != "")
    && (sh.jitter != "" ==> sh.delay != "")
    && sh.scope == [Scope.CONTROL]
  }

  /** Validate: every entry is well formed, and no name is used twice across partitions and shaping rules. */
  predicate Valid(s: State) {
    && (forall p :: p in s.partitions ==> ValidPartition(p))
    && (forall sh :: sh in s.shaping ==> ValidShaping(sh))
    && (forall i, j :: 0 <= i < j < |s.partitions| ==> s.partitions[i].name != s.partitions[j].name)
    && (forall i, j :: 0 <= i < j < |s.shaping| ==> s.shaping[i].name != s.shaping[j].name)
    && (forall p, sh :: p in s.partitions && sh in s.shaping ==> p.name != sh.name)
  }

  /** `names` are those of the first i partitions and the first j shaping rules, and all of them differ. */
  ghost predicate NamedApart(s: State, i: nat, j: nat, names: set<string>)
    requires i <= |s.partitions| && j <= |s.shaping|
  {
    && names == (set k | 0 <= k < i :: s.partitions[k].name) + (set k | 0 <= k < j :: s.shaping[k].name)
    && (forall a, b :: 0 <= a < b < i ==> s.partitions[a].name != s.partitions[b].name)
    && (forall a, b :: 0 <= a < b < j ==> s.shaping[a].name != s.shaping[b].name)
    && (forall a, b :: 0 <= a < i && 0 <= b < j ==> s.partitions[a].name != s.shaping[b].name)
  }

  method Validate(s: State) returns (ok: bool)
    ensures ok <==> Valid(s)
  {
    hide ValidPartition, ValidShaping;
    var names: set<string> := {};
    for i := 0 to |s.partitions|
      invariant NamedApart(s, i, 0, names)
      invariant forall k :: 0 <= k < i ==> ValidPartition(s.partitions[k])
    {
      var p := s.partitions[i];
      assert p in s.partitions;
      if !ValidPartition(p) || p.name in names {
        return false;
      }
      names := names + {p.name};
    }
    for i := 0 to |s.shaping|
      invariant NamedApart(s, |s.partitions|, i, names)
      invariant forall k :: 0 <= k < i ==> ValidShaping(s.shaping[k])
    {
      var sh := s.shaping[i];
      assert sh in s.shaping;
      if !ValidShaping(sh) || sh.name in names {
        return false;
      }
      names := names + {sh.name};
    }
    ok := true;
  }

  // ---- Copies ----

  /** cloneStrings: an empty slice becomes nil. */
  function CloneValues(vs: Values): Values {
    if vs.Some? && vs.value == [] then None else vs
  }

  function CloneSelector(sel: Selector): Selector {
    Selector(sel.all, map k | k in sel.labels :: CloneValues(sel.labels[k]))
  }

  function CloneSelectors(sels: seq<Selector>): seq<Selector> {
    seq(|sels|, i requires 0 <= i < |sels| => CloneSelector(sels[i]))
  }

  function ClonePartition(p: Partition): Partition {
    p.(groups := CloneSelectors(p.groups))
  }

  function CloneShaping(sh: Shaping): Shaping {
    sh.(target := if sh.target.None? then None else Some(CloneSelector(sh.target.value)),
        between := CloneSelectors(sh.between))
  }

  function Clone(s: State): (c: State)
    ensures |c.partitions| == |s.partitions| && |c.shaping| == |s.shaping|
  {
    State(seq(|s.partitions|, i requires 0 <= i < |s.partitions| => ClonePartition(s.partitions[i])),
          seq(|s.shaping|, i requires 0 <= i < |s.shaping| => CloneShaping(s.shaping[i])))
  }

  method CopySelectors(sels: seq<Selector>) returns (out: seq<Selector>)
    ensures out == CloneSelectors(sels)
  {
    out := [];
    for i := 0 to |sels|
      invariant out == CloneSelectors(sels[..i])
    {
      out := out + [CloneSelector(sels[i])];
    }
    assert sels[..|sels|] == sels;
  }

  /** cloneState: the copy shares no slice with the original. */
  method CloneState(s: State) returns (c: State)
    ensures c == Clone(s)
  {
    var partitions: seq<Partition> := [];
    for i := 0 to |s.partitions|
      invariant |partitions| == i && forall k :: 0 <= k < i ==> partitions[k] == ClonePartition(s.partitions[k])
    {
      var groups := CopySelectors(s.partitions[i].groups);
      partitions := partitions + [s.partitions[i].(groups := groups)];
    }
    var shaping: seq<Shaping> := [];
    for i := 0 to |s.shaping|
      invariant |shaping| == i && forall k :: 0 <= k < i ==> shaping[k] == CloneShaping(s.shaping[k])
    {
      var sh := s.shaping[i];
      var between := CopySelectors(sh.between);
      var target := if sh.target.None? then None else Some(CloneSelector(sh.target.value));
      shaping := shaping + [sh.(target := target, between := between)];
    }
    c := State(partitions, shaping);
    assert c.partitions == Clone(s).partitions && c.shaping == Clone(s).shaping;
  }

  // ---- What a copy changes ----

  ghost predicate NoEmptyLists(sel: Selector) {
    forall k :: k in sel.labels ==> sel.labels[k] != Some([])
  }

  lemma CloneSelectorIff(sel: Selector)
    ensures CloneSelector(sel) == sel <==> NoEmptyLists(sel)
  {
    if NoEmptyLists(sel) {
      assert CloneSelector(sel).labels == sel.labels;
    } else {
      var k :| k in sel.labels && sel.labels[k] == Some([]);
      assert CloneSelector(sel).labels[k] == None;
    }
  }

  lemma CloneSelectorsIff(sels: seq<Selector>)
    ensures CloneSelectors(sels) == sels <==> forall sel :: sel in sels ==> NoEmptyLists(sel)
  {
    forall i | 0 <= i < |sels|
      ensures CloneSelectors(sels)[i] == sels[i] <==> NoEmptyLists(sels[i])
    {
      CloneSelectorIff(sels[i]);
    }
    hide NoEmptyLists, CloneSelector;
    if sel :| sel in sels && !NoEmptyLists(sel) {
      var i :| 0 <= i < |sels| && sels[i] == sel;
    }
  }

  lemma ClonePartitionIff(p: Partition)
    ensures ClonePartition(p) == p <==> forall sel :: sel in p.groups ==> NoEmptyLists(sel)
  {
    CloneSelectorsIff(p.groups);
    hide CloneSelectors, NoEmptyLists;
  }

  ghost predicate NoEmptyListsIn(sh: Shaping) {
    (sh.target.Some? ==> NoEmptyLists(sh.target.value)) && forall sel :: sel in sh.between ==> NoEmptyLists(sel)
  }

  lemma CloneShapingIff(sh: Shaping)
    ensures CloneShaping(sh) == sh <==> NoEmptyListsIn(sh)
  {
    CloneSelectorsIff(sh.between);
    if sh.target.Some? {
      CloneSelectorIff(sh.target.value);
    }
    hide CloneSelectors, CloneSelector, NoEmptyLists;
  }

  /** A copy differs from the original in empty value lists only, which become nil: without any, it is the original. */
  lemma CloneIff(s: State)
    ensures Clone(s) == s
       <==> && (forall p, sel :: p in s.partitions && sel in p.groups ==> NoEmptyLists(sel))
            && (forall sh :: sh in s.shaping ==> NoEmptyListsIn(sh))
  {
    var c := Clone(s);
    forall i | 0 <= i < |s.partitions|
      ensures c.partitions[i] == s.partitions[i] <==> forall sel :: sel in s.partitions[i].groups ==> NoEmptyLists(sel)
    {
      ClonePartitionIff(s.partitions[i]);
    }
    forall i | 0 <= i < |s.shaping|
      ensures c.shaping[i] == s.shaping[i] <==> NoEmptyListsIn(s.shaping[i])
    {
      CloneShapingIff(s.shaping[i]);
    }
    hide ClonePartition, CloneShaping, NoEmptyLists, NoEmptyListsIn;
    if c == s {
      forall p, sel | p in s.partitions && sel in p.groups
        ensures NoEmptyLists(sel)
      {
        var i :| 0 <= i < |s.partitions| && s.partitions[i] == p;
      }
      forall sh | sh in s.shaping
        ensures NoEmptyListsIn(sh)
      {
        var i :| 0 <= i < |s.shaping| && s.shaping[i] == sh;
      }
    } else {
      assert c.partitions != s.partitions || c.shaping != s.shaping;
      if i :| 0 <= i < |s.partitions| && c.partitions[i] != s.partitions[i] {
        assert s.partitions[i] in s.partitions;
      } else {
        assert c.partitions == s.partitions;
        var i :| 0 <= i < |s.shaping| && c.shaping[i] != s.shaping[i];
        assert s.shaping[i] in s.shaping;
      }
    }
  }

  lemma CloneSelectorsIdempotent(sels: seq<Selector>)
    ensures CloneSelectors(CloneSelectors(sels)) == CloneSelectors(sels)
  {
    var once := CloneSelectors(sels);
    forall i | 0 <= i < |sels|
      ensures CloneSelectors(once)[i] == once[i]
    {
      CloneSelectorIdempotent(sels[i]);
    }
  }

  lemma CloneSelectorIdempotent(sel: Selector)
    ensures CloneSelector(CloneSelector(sel)) == CloneSelector(sel)
  {
  }

  /** A copy of a copy is that copy: what GET returns is what is applied. */
  lemma CloneIdempotent(s: State)
    ensures Clone(Clone(s)) == Clone(s)
  {
    var once := Clone(s);
    forall i | 0 <= i < |s.partitions|
      ensures ClonePartition(once.partitions[i]) == once.partitions[i]
    {
      CloneSelectorsIdempotent(s.partitions[i].groups);
    }
    forall i | 0 <= i < |s.shaping|
      ensures CloneShaping(once.shaping[i]) == once.shaping[i]
    {
      var sh := s.shaping[i];
      CloneSelectorsIdempotent(sh.between);
      if sh.target.Some? {
        CloneSelectorIdempotent(sh.target.value);
      }
    }
    assert Clone(once).partitions == once.partitions;
    assert Clone(once).shaping == once.shaping;
  }
}
