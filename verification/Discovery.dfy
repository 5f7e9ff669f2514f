/** Resolved containers and the grouping of selector answers (internal/discovery/discovery.go). */
module Discovery {
  import opened Wrappers

  datatype Protocol = TCP | UDP

  datatype Port = Port(name: string, number: nat, protocol: Protocol)

  type Addr = string

  datatype Container = Container(
    id: string,
    name: string,
    pid: int,
    labels: map<string, string>,
    ips: seq<Addr>,
    ports: seq<Port>)

  /** What one Docker query answers: the matching containers, or an error. */
  type Listing = Option<seq<Container>>

  /**
   * The Docker answers one request sees. Every selector is queried afresh, so the answers need not agree:
   * `group(p, i)` answers group i of partition p, `target(r)` answers shaping rule r.
   */
  datatype Docker = Docker(group: (nat, nat) -> Listing, target: nat -> Listing)

  /** No container ID is listed under two of the groups. */
  ghost predicate Disjoint(groups: seq<seq<Container>>) {
    forall i, j, a, b ::
      0 <= i < |groups| && 0 <= j < |groups| && a in groups[i] && b in groups[j] && a.id == b.id ==> i == j
  }

  /** Every one of the n group queries of partition p is answered. */
  ghost predicate Answered(docker: Docker, p: nat, n: nat) {
    forall i: nat :: i < n ==> docker.group(p, i).Some?
  }

  ghost function Groups(docker: Docker, p: nat, n: nat): (groups: seq<seq<Container>>)
    requires Answered(docker, p, n)
    ensures |groups| == n
    ensures forall i: nat :: i < n ==> docker.group(p, i) == Some(groups[i])
  {
    seq(n, i requires 0 <= i < n => docker.group(p, i).value)
  }

  /** What n selectors of partition p resolve to: every query is answered and no container lies in two groups. */
  ghost function Grouped(docker: Docker, p: nat, n: nat): Option<seq<seq<Container>>> {
    if Answered(docker, p, n) && Disjoint(Groups(docker, p, n)) then Some(Groups(docker, p, n)) else None
  }

  /** Groups resolve exactly when all are answered and no container ID is listed under an earlier and a later one. */
  lemma GroupedIff(docker: Docker, p: nat, n: nat)
    ensures Grouped(docker, p, n).Some?
       <==> && (forall i: nat :: i < n ==> docker.group(p, i).Some?)
            && forall i: nat, j: nat, a, b | i < j < n && docker.group(p, i).Some? && docker.group(p, j).Some?
                 :: a in docker.group(p, i).value && b in docker.group(p, j).value ==> a.id != b.id
    ensures Grouped(docker, p, n).Some? ==>
              |Grouped(docker, p, n).value| == n
              && forall i: nat :: i < n ==> docker.group(p, i) == Some(Grouped(docker, p, n).value[i])
  {
    if Answered(docker, p, n) {
      var groups := Groups(docker, p, n);
      assert forall i: nat :: i < n ==> docker.group(p, i) == Some(groups[i]);
    }
  }

  /** `c` was already met in a group other than the last one. */
  ghost predicate Overlaps(groups: seq<seq<Container>>, c: Container) {
    exists h, b: Container :: 0 <= h < |groups| && b in groups[h] && b.id == c.id
  }

  /** The inner loop of ResolveGroups: enters the containers of group |out|, unless one was met in an earlier group. */
  method EnterGroup(ghost out: seq<seq<Container>>, i: nat, group: seq<Container>, seen0: map<string, nat>)
    returns (clash: bool, seen: map<string, nat>)
    requires i == |out| && Indexed(seen0, out)
    ensures clash <==> exists c: Container :: c in group && Overlaps(out, c)
    ensures !clash ==> Indexed(seen, out + [group])
  {
    seen := seen0;
    for j := 0 to |group|
      invariant Indexed(seen, out + [group[..j]])
      invariant forall c: Container :: c in group[..j] ==> !Overlaps(out, c)
    {
      var c := group[j];
      SeenIffMet(seen, out, group[..j], c);
      if c.id in seen && seen[c.id] != i {
        return true, seen;
      }
      IndexedStep(seen, out, group[..j], c);
      seen := seen[c.id := i];
      assert group[..j + 1] == group[..j] + [c];
    }
    assert group[..|group|] == group;
    clash := false;
  }

  /** ResolveGroups: one query per selector, remembering the group in which each ID was first met. */
  method ResolveGroups(docker: Docker, p: nat, n: nat) returns (r: Option<seq<seq<Container>>>)
    ensures r == Grouped(docker, p, n)
  {
    var out: seq<seq<Container>> := [];
    var seen: map<string, nat> := map[];
    for i := 0 to n
      invariant |out| == i
      invariant forall h: nat :: h < i ==> docker.group(p, h) == Some(out[h])
      invariant Indexed(seen, out)
    {
      var matched := docker.group(p, i);
      if matched.None? {
        return None;
      }
      var clash: bool;
      clash, seen := EnterGroup(out, i, matched.value, seen);
      if clash {
        Clash(docker, p, n, out);
        return None;
      }
      out := out + [matched.value];
    }
    IndexedDisjoint(seen, out);
    assert out == Groups(docker, p, n);
    r := Some(out);
  }

  /** `seen` holds exactly the IDs of the groups met so far, each with its group index. */
  ghost predicate Indexed(seen: map<string, nat>, groups: seq<seq<Container>>) {
    && (forall h, c :: 0 <= h < |groups| && c in groups[h] ==> c.id in seen && seen[c.id] == h)
    && (forall id :: id in seen ==> seen[id] < |groups| && exists c :: c in groups[seen[id]] && c.id == id)
  }

  /** Entering one more container of the last group keeps the index exact. */
  lemma IndexedStep(seen: map<string, nat>, groups: seq<seq<Container>>, part: seq<Container>, c: Container)
    requires Indexed(seen, groups + [part])
    requires c.id in seen ==> seen[c.id] == |groups|
    ensures Indexed(seen[c.id := |groups|], groups + [part + [c]])
  {
    var before, after := groups + [part], groups + [part + [c]];
    forall h, d: Container | 0 <= h < |after| && d in after[h]
      ensures d.id in seen[c.id := |groups|] && seen[c.id := |groups|][d.id] == h
    {
      assert d in before[h] || (h == |groups| && d == c);
    }
    forall id {:trigger id in seen} | id in seen[c.id := |groups|]
      ensures exists d: Container :: d in after[seen[c.id := |groups|][id]] && d.id == id
    {
      if id == c.id {
        assert c in after[|groups|];
      } else {
        var d: Container :| d in before[seen[id]] && d.id == id;
        assert d in after[seen[id]];
      }
    }
  }

  lemma IndexedDisjoint(seen: map<string, nat>, groups: seq<seq<Container>>)
    requires Indexed(seen, groups)
    ensures Disjoint(groups)
  {
  }

  lemma SeenIffMet(seen: map<string, nat>, out: seq<seq<Container>>, part: seq<Container>, c: Container)
    requires Indexed(seen, out + [part])
    ensures c.id in seen && seen[c.id] != |out| <==> Overlaps(out, c)
  {
    var all := out + [part];
    if c.id in seen && seen[c.id] != |out| {
      var b: Container :| b in all[seen[c.id]] && b.id == c.id;
      assert b in out[seen[c.id]];
    }
    if Overlaps(out, c) {
      var h, b: Container :| 0 <= h < |out| && b in out[h] && b.id == c.id;
      assert b in all[h];
    }
  }

  /** An ID met in an earlier group makes the groups overlap. */
  lemma Clash(docker: Docker, p: nat, n: nat, out: seq<seq<Container>>)
    requires |out| < n
    requires forall h: nat :: h < |out| ==> docker.group(p, h) == Some(out[h])
    requires docker.group(p, |out|).Some?
    requires exists c: Container :: c in docker.group(p, |out|).value && Overlaps(out, c)
    ensures Grouped(docker, p, n).None?
  {
  }
}
