/** Resolved plans, as the backends receive them (internal/backend/backend.go). */
module Backend {
  import opened Discovery

  datatype Partition = Partition(name: string, groups: seq<seq<Container>>, scope: seq<string>, symmetric: bool)

  datatype Shaping = Shaping(
    name: string,
    target: seq<Container>,
    direction: string,
    delay: string,
    jitter: string,
    loss: string,
    bandwidth: string)

  function Flatten(xss: seq<seq<Container>>): (xs: seq<Container>)
  {
    if xss == [] then [] else Flatten(xss[..|xss| - 1]) + xss[|xss| - 1]
  }

  lemma {:induction false} FlattenIff(xss: seq<seq<Container>>, x: Container)
    ensures x in Flatten(xss) <==> exists i :: 0 <= i < |xss| && x in xss[i]
  {
    if xss == [] {
    } else {
      var init := xss[..|xss| - 1];
      FlattenIff(init, x);
      assert forall i :: 0 <= i < |init| ==> init[i] == xss[i];
    }
  }

  /** Everybody outside group i, in plan order. */
  function Others(groups: seq<seq<Container>>, i: nat): seq<Container>
    requires i < |groups|
  {
    Flatten(groups[..i]) + Flatten(groups[i + 1..])
  }

  /** Every container of every group, in plan order. */
  function Members(plan: seq<Partition>): seq<Container> {
    if plan == [] then [] else Members(plan[..|plan| - 1]) + Flatten(plan[|plan| - 1].groups)
  }

  lemma MembersIff(plan: seq<Partition>, c: Container)
    ensures c in Members(plan) <==> exists p, i :: p in plan && 0 <= i < |p.groups| && c in p.groups[i]
  {
    if plan == [] {
    } else {
      var init, last := plan[..|plan| - 1], plan[|plan| - 1];
      MembersIff(init, c);
      assert plan == init + [last];
      FlattenIff(last.groups, c);
    }
  }

  ghost function Pids(cs: seq<Container>): set<int> {
    set c | c in cs :: c.pid
  }

  lemma PidsCons(cs: seq<Container>)
    requires cs != []
    ensures Pids(cs) == {cs[0].pid} + Pids(cs[1..])
  {
  }

  ghost function Ids(cs: seq<Container>): set<string> {
    set c | c in cs :: c.id
  }

  /** The first container with each ID, in order of appearance. */
  ghost function FirstById(cs: seq<Container>): seq<Container> {
    if cs == [] then []
    else
      var init, last := cs[..|cs| - 1], cs[|cs| - 1];
      FirstById(init) + if last.id in Ids(init) then [] else [last]
  }

  ghost function Targets(plan: seq<Partition>): seq<Container> {
    FirstById(Members(plan))
  }

  lemma FirstByIdSnoc(cs: seq<Container>, c: Container)
    ensures FirstById(cs + [c]) == FirstById(cs) + if c.id in Ids(cs) then [] else [c]
    ensures Ids(cs + [c]) == Ids(cs) + {c.id}
  {
    assert (cs + [c])[..|cs|] == cs;
    IdsSnoc(cs, c);
  }

  /** A new ID differs from all those listed. */
  lemma IdsSnoc(cs: seq<Container>, c: Container)
    ensures Ids(cs + [c]) == Ids(cs) + {c.id}
    ensures c.id !in Ids(cs) ==> forall i :: 0 <= i < |cs| ==> cs[i].id != c.id
  {
  }

  /** FirstById keeps every ID, invents no container, and lists no ID twice. */
  lemma {:induction false} FirstByIdSound(cs: seq<Container>)
    ensures Ids(FirstById(cs)) == Ids(cs)
    ensures forall c :: c in FirstById(cs) ==> c in cs
    ensures forall i, j :: 0 <= i < j < |FirstById(cs)| ==> FirstById(cs)[i].id != FirstById(cs)[j].id
  {
    if cs == [] {
    } else {
      var init, last := cs[..|cs| - 1], cs[|cs| - 1];
      FirstByIdSound(init);
      assert cs == init + [last];
      var out := FirstById(init);
      FirstByIdSnoc(init, last);
      hide FirstById;
      IdsSnoc(out, last);
    }
  }

  /** One ID, one PID, over all the containers listed. */
  ghost predicate OnePidPerId(cs: seq<Container>) {
    forall a, b :: a in cs && b in cs && a.id == b.id ==> a.pid == b.pid
  }

  /** AllTargets reaches the netns of every member, as long as an ID stands for one PID. */
  lemma TargetsCoverMembers(plan: seq<Partition>)
    requires OnePidPerId(Members(plan))
    ensures Pids(Targets(plan)) == Pids(Members(plan))
  {
    var cs := Members(plan);
    FirstByIdSound(cs);
    forall c | c in cs
      ensures c.pid in Pids(Targets(plan))
    {
      assert c.id in Ids(FirstById(cs));
      var d :| d in FirstById(cs) && d.id == c.id;
    }
  }

  /** `out` and `seen` are what AllTargets holds once it has been through `cs`. */
  ghost predicate Collected(out: seq<Container>, seen: set<string>, cs: seq<Container>) {
    out == FirstById(cs) && seen == Ids(cs)
  }

  lemma CollectedStep(out: seq<Container>, seen: set<string>, before: seq<Container>, g: seq<Container>, k: nat)
    requires k < |g| && Collected(out, seen, before + g[..k])
    ensures g[k].id in seen ==> Collected(out, seen, before + g[..k + 1])
    ensures g[k].id !in seen ==> Collected(out + [g[k]], seen + {g[k].id}, before + g[..k + 1])
  {
    FirstByIdSnoc(before + g[..k], g[k]);
    assert before + g[..k + 1] == before + g[..k] + [g[k]];
    assert g[k].id in seen ==> seen + {g[k].id} == seen;
  }

  lemma MembersSnoc(plan: seq<Partition>, i: nat)
    requires i < |plan|
    ensures Members(plan[..i + 1]) == Members(plan[..i]) + Flatten(plan[i].groups)
  {
    assert plan[..i + 1][..i] == plan[..i];
  }

  method AllTargets(plan: seq<Partition>) returns (out: seq<Container>)
    ensures out == Targets(plan)
  {
    var seen: set<string> := {};
    out := [];
    for i := 0 to |plan|
      invariant Collected(out, seen, Members(plan[..i]))
    {
      var groups := plan[i].groups;
      ghost var met := Members(plan[..i]);
      assert met + Flatten(groups[..0]) == met;
      for j := 0 to |groups|
        invariant Collected(out, seen, met + Flatten(groups[..j]))
      {
        var g := groups[j];
        ghost var before := met + Flatten(groups[..j]);
        assert before + g[..0] == before;
        for k := 0 to |g|
          invariant Collected(out, seen, before + g[..k])
        {
          CollectedStep(out, seen, before, g, k);
          if g[k].id !in seen {
            seen := seen + {g[k].id};
            out := out + [g[k]];
          }
        }
        FlattenSnoc(groups, j);
        assert before + g[..|g|] == met + Flatten(groups[..j + 1]);
      }
      MembersSnoc(plan, i);
      assert groups[..|groups|] == groups;
    }
    assert plan[..|plan|] == plan;
  }

  lemma FlattenSnoc(xss: seq<seq<Container>>, j: nat)
    requires j < |xss|
    ensures Flatten(xss[..j + 1]) == Flatten(xss[..j]) + xss[j]
  {
    assert xss[..j + 1][..j] == xss[..j];
  }

  /** The part of Others that lies in the first n groups. */
  ghost function OthersAmong(groups: seq<seq<Container>>, i: nat, n: nat): seq<Container>
    requires i < |groups| && n <= |groups|
  {
    if n <= i then Flatten(groups[..n]) else Flatten(groups[..i]) + Flatten(groups[i + 1..n])
  }

  lemma OthersAmongStep(groups: seq<seq<Container>>, i: nat, n: nat)
    requires i < |groups| && n < |groups|
    ensures OthersAmong(groups, i, n + 1)
         == if n == i then OthersAmong(groups, i, n) else OthersAmong(groups, i, n) + groups[n]
  {
    if n == i {
      FlattenNone(groups, i);
    }
    hide Flatten;
    if n < i {
      FlattenSnoc(groups, n);
    } else if n > i {
      FlattenSlice(Flatten(groups[..i]), groups, i + 1, n);
    }
  }

  lemma FlattenNone(groups: seq<seq<Container>>, i: nat)
    requires i < |groups|
    ensures Flatten(groups[..i]) + Flatten(groups[i + 1..i + 1]) == Flatten(groups[..i])
  {
    assert groups[i + 1..i + 1] == [];
  }

  lemma FlattenSlice(front: seq<Container>, groups: seq<seq<Container>>, from: nat, n: nat)
    requires from <= n < |groups|
    ensures front + Flatten(groups[from..n + 1]) == front + Flatten(groups[from..n]) + groups[n]
  {
    hide Flatten;
    var tail := groups[from..];
    FlattenSnoc(tail, n - from);
    assert tail[..n - from] == groups[from..n] && tail[..n - from + 1] == groups[from..n + 1];
  }

  /** otherGroupContainers, which both the iptables and the conntrack backend carry. */
  method OtherGroupContainers(groups: seq<seq<Container>>, exceptIdx: nat) returns (out: seq<Container>)
    requires exceptIdx < |groups|
    ensures out == Others(groups, exceptIdx)
  {
    out := [];
    for i := 0 to |groups|
      invariant out == OthersAmong(groups, exceptIdx, i)
    {
      OthersAmongStep(groups, exceptIdx, i);
      if i == exceptIdx {
        continue;
      }
      out := out + groups[i];
    }
    assert groups[exceptIdx + 1..|groups|] == groups[exceptIdx + 1..];
  }
}
