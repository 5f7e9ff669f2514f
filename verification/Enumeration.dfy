/**
 * The chain of a netns written out: every rule that a state asks for there, in order and as often as it is asked for,
 * straight from the partitions and Docker's answers.
 */
module Enumeration {
  import opened Wrappers
  import opened Discovery
  import opened Backend
  import opened Kernel
  import opened Iptables
  import opened Compilation
  import opened Api
  import opened Runs
  import opened ScopeMeaning
  import S = State
  import T = ETag
  import G = Guarantees
  import Scope

  // ---- Lists made of lists ----

  ghost function FlatMap<A, B>(xs: seq<A>, f: A -> seq<B>): seq<B> {
    if xs == [] then [] else f(xs[0]) + FlatMap(xs[1..], f)
  }

  lemma {:induction false} FlatMapConcat<A, B>(xs: seq<A>, ys: seq<A>, f: A -> seq<B>)
    ensures FlatMap(xs + ys, f) == FlatMap(xs, f) + FlatMap(ys, f)
  {
    if xs == [] {
      assert xs + ys == ys;
    } else {
      assert (xs + ys)[1..] == xs[1..] + ys;
      FlatMapConcat(xs[1..], ys, f);
    }
  }

  lemma FlatMapOne<A, B>(x: A, f: A -> seq<B>)
    ensures FlatMap([x], f) == f(x)
  {
    assert f(x) + FlatMap([], f) == f(x);
  }

  function Upto(n: nat): seq<nat> {
    seq(n, i => i)
  }

  lemma UptoSnoc(n: nat)
    ensures Upto(n + 1) == Upto(n) + [n]
  {
  }

  // ---- The rules a state asks for ----

  ghost function Listed(docker: Docker, k: nat, i: nat): seq<Container> {
    if docker.group(k, i).Some? then docker.group(k, i).value else []
  }

  /** One rule per address, */
  ghost function RuleAt(port: Port, comment: string): Addr -> seq<Rule> {
    ip => [Drop(port.protocol, ip, port.number, comment)]
  }

  /** for each port of a peer that the scope covers, */
  ghost function RulesTo(peer: Container, scope: seq<string>, comment: string): Port -> seq<Rule> {
    (port: Port) => if Covers(scope, peer, port.name) then FlatMap(peer.ips, RuleAt(port, comment)) else []
  }

  /** for each peer */
  ghost function RulesAgainst(scope: seq<string>, comment: string): Container -> seq<Rule> {
    (peer: Container) => FlatMap(peer.ports, RulesTo(peer, scope, comment))
  }

  /** of each group but that of the member, */
  ghost function RulesBeside(docker: Docker, part: S.Partition, k: nat, i: nat): nat -> seq<Rule> {
    var against := RulesAgainst(part.scope, "disruptoor:" + part.name);
    (j: nat) => if j == i then [] else FlatMap(Listed(docker, k, j), against)
  }

  /** for each member with PID p */
  ghost function RulesFor(docker: Docker, part: S.Partition, k: nat, i: nat, p: int): Container -> seq<Rule> {
    (member: Container) => if member.pid == p then FlatMap(Upto(|part.groups|), RulesBeside(docker, part, k, i)) else []
  }

  /** of each group */
  ghost function RulesWithin(docker: Docker, part: S.Partition, k: nat, p: int): nat -> seq<Rule> {
    (i: nat) => FlatMap(Listed(docker, k, i), RulesFor(docker, part, k, i, p))
  }

  /** of each partition. */
  ghost function RulesUnder(docker: Docker, ps: seq<S.Partition>, p: int): nat -> seq<Rule> {
    (k: nat) => if k < |ps| then FlatMap(Upto(|ps[k].groups|), RulesWithin(docker, ps[k], k, p)) else []
  }

  ghost function ChainOf(docker: Docker, s: S.State, p: int): seq<Rule> {
    FlatMap(Upto(|s.partitions|), RulesUnder(docker, s.partitions, p))
  }

  // ---- That is what the loops emit ----

  lemma {:induction false} IpsEmit(pid: int, ips: seq<Addr>, port: Port, comment: string, p: int)
    ensures RulesOf(IpCalls(pid, ips, port, comment), p)
         == if pid == p then FlatMap(ips, RuleAt(port, comment)) else []
  {
    if ips == [] {
    } else {
      RulesOfConcat([DropCall(pid, ips[0], port, comment)], IpCalls(pid, ips[1..], port, comment), p);
      IpsEmit(pid, ips[1..], port, comment, p);
      OneRule(pid, ips[0], port, comment, p);
    }
  }

  lemma OneRule(pid: int, ip: Addr, port: Port, comment: string, p: int)
    ensures RulesOf([DropCall(pid, ip, port, comment)], p) == if pid == p then RuleAt(port, comment)(ip) else []
  {
    assert [DropCall(pid, ip, port, comment)][1..] == [];
  }

  lemma {:induction false} PortsEmit(pid: int, peer: Container, ports: seq<Port>, part: S.Partition, comment: string,
                                     p: int)
    ensures RulesOf(PortCalls(pid, Scope.InScope(peer, ports, S.EffectiveScope(part)), peer.ips, comment), p)
         == if pid == p then FlatMap(ports, RulesTo(peer, part.scope, comment)) else []
  {
    hide Scope.Match, Covers, S.EffectiveScope;
    var scope := S.EffectiveScope(part);
    if ports == [] {
    } else {
      var rest := Scope.InScope(peer, ports[1..], scope);
      PortsEmit(pid, peer, ports[1..], part, comment, p);
      MatchMeans(peer, ports[0], part);
      if Scope.Match(peer, ports[0], scope) {
        assert Scope.InScope(peer, ports, scope) == [ports[0]] + rest;
        IpsEmit(pid, peer.ips, ports[0], comment, p);
        RulesOfConcat(IpCalls(pid, peer.ips, ports[0], comment), PortCalls(pid, rest, peer.ips, comment), p);
      } else {
        assert Scope.InScope(peer, ports, scope) == rest;
      }
    }
  }

  lemma {:induction false} PeersEmit(pid: int, peers: seq<Container>, part: S.Partition, comment: string, p: int)
    ensures RulesOf(PeerCalls(pid, peers, S.EffectiveScope(part), comment), p)
         == if pid == p then FlatMap(peers, RulesAgainst(part.scope, comment)) else []
  {
    hide S.EffectiveScope, RulesTo;
    if peers == [] {
    } else {
      var scope, peer := S.EffectiveScope(part), peers[0];
      PortsEmit(pid, peer, peer.ports, part, comment, p);
      PeersEmit(pid, peers[1..], part, comment, p);
      RulesOfConcat(PortCalls(pid, Scope.InScope(peer, peer.ports, scope), peer.ips, comment),
                    PeerCalls(pid, peers[1..], scope, comment), p);
    }
  }

  lemma {:induction false} MembersEmit(group: seq<Container>, peers: seq<Container>, part: S.Partition, comment: string,
                                       p: int, f: Container -> seq<Rule>)
    requires forall m :: f(m) == if m.pid == p then FlatMap(peers, RulesAgainst(part.scope, comment)) else []
    ensures RulesOf(MemberCalls(group, peers, S.EffectiveScope(part), comment), p) == FlatMap(group, f)
  {
    hide S.EffectiveScope, RulesAgainst;
    if group == [] {
    } else {
      var scope := S.EffectiveScope(part);
      PeersEmit(group[0].pid, peers, part, comment, p);
      MembersEmit(group[1..], peers, part, comment, p, f);
      RulesOfConcat(PeerCalls(group[0].pid, peers, scope, comment), MemberCalls(group[1..], peers, scope, comment), p);
    }
  }

  /** Everybody outside group i, group by group. */
  lemma {:induction false} OthersFlat<B>(groups: seq<seq<Container>>, i: nat, n: nat, f: Container -> seq<B>,
                                         g: nat -> seq<B>)
    requires i < |groups| && n <= |groups|
    requires forall j: nat :: j < |groups| ==> g(j) == if j == i then [] else FlatMap(groups[j], f)
    ensures FlatMap(Upto(n), g) == FlatMap(OthersAmong(groups, i, n), f)
  {
    if n == 0 {
      NoOthers(groups, i);
    } else {
      hide OthersAmong, Upto, FlatMap;
      OthersFlat(groups, i, n - 1, f, g);
      UptoSnoc(n - 1);
      OthersAmongStep(groups, i, n - 1);
      var before := OthersAmong(groups, i, n - 1);
      if n - 1 == i {
        NoneFlat(f);
        FlatGrows(Upto(n - 1), n - 1, g, before, [], f);
        assert before + [] == before;
      } else {
        FlatGrows(Upto(n - 1), n - 1, g, before, groups[n - 1], f);
      }
    }
  }

  lemma NoneFlat<A, B>(f: A -> seq<B>)
    ensures FlatMap([], f) == []
  {
  }

  lemma FlatGrows<A, B>(xs: seq<nat>, x: nat, g: nat -> seq<B>, ys: seq<A>, more: seq<A>, f: A -> seq<B>)
    requires FlatMap(xs, g) == FlatMap(ys, f) && g(x) == FlatMap(more, f)
    ensures FlatMap(xs + [x], g) == FlatMap(ys + more, f)
  {
    FlatMapConcat(xs, [x], g);
    FlatMapOne(x, g);
    FlatMapConcat(ys, more, f);
    hide FlatMap;
  }

  lemma NoOthers(groups: seq<seq<Container>>, i: nat)
    requires i < |groups|
    ensures OthersAmong(groups, i, 0) == [] && Upto(0) == []
  {
    assert groups[..0] == [];
  }

  /** The groups of a partition, resolved. */
  ghost predicate Resolves(docker: Docker, k: nat, part: S.Partition, r: Partition) {
    && r.name == part.name && r.scope == S.EffectiveScope(part) && |r.groups| == |part.groups|
    && forall i: nat :: i < |part.groups| ==> docker.group(k, i) == Some(r.groups[i])
  }

  lemma {:induction false} GroupsEmit(docker: Docker, k: nat, part: S.Partition, r: Partition, i: nat, p: int)
    requires Resolves(docker, k, part, r) && i <= |r.groups|
    ensures RulesOf(GroupCalls(r, i), p) == FlatMap(Upto(|part.groups|)[i..], RulesWithin(docker, part, k, p))
    decreases |r.groups| - i
  {
    hide S.EffectiveScope, MemberCalls;
    if i == |r.groups| {
    } else {
      GroupEmits(docker, k, part, r, i, p);
      GroupsEmit(docker, k, part, r, i + 1, p);
      var others := Others(r.groups, i);
      RulesOfConcat(MemberCalls(r.groups[i], others, r.scope, Comment(r)), GroupCalls(r, i + 1), p);
      var ahead := Upto(|part.groups|)[i..];
      assert ahead[0] == i && ahead[1..] == Upto(|part.groups|)[i + 1..];
    }
  }

  lemma GroupEmits(docker: Docker, k: nat, part: S.Partition, r: Partition, i: nat, p: int)
    requires Resolves(docker, k, part, r) && i < |r.groups|
    ensures RulesOf(MemberCalls(r.groups[i], Others(r.groups, i), r.scope, Comment(r)), p)
         == RulesWithin(docker, part, k, p)(i)
  {
    hide RulesAgainst, MemberCalls, S.EffectiveScope;
    var comment, others := "disruptoor:" + part.name, Others(r.groups, i);
    var against, beside := RulesAgainst(part.scope, comment), RulesBeside(docker, part, k, i);
    forall j: nat | j < |r.groups|
      ensures beside(j) == if j == i then [] else FlatMap(r.groups[j], against)
    {
      assert docker.group(k, j) == Some(r.groups[j]);
    }
    OthersFlat(r.groups, i, |r.groups|, against, beside);
    assert r.groups[i + 1..|r.groups|] == r.groups[i + 1..];
    assert OthersAmong(r.groups, i, |r.groups|) == others;
    MembersEmit(r.groups[i], others, part, comment, p, RulesFor(docker, part, k, i, p));
    assert docker.group(k, i) == Some(r.groups[i]);
  }

  lemma {:induction false} PlanEmits(docker: Docker, ps: seq<S.Partition>, plan: seq<Partition>, k: nat, p: int)
    requires |plan| == |ps| && k <= |ps| && forall h: nat :: h < |ps| ==> Resolves(docker, h, ps[h], plan[h])
    ensures RulesOf(PlanCalls(plan[k..]), p) == FlatMap(Upto(|ps|)[k..], RulesUnder(docker, ps, p))
    decreases |ps| - k
  {
    hide Resolves, GroupCalls;
    if k == |ps| {
    } else {
      PlanEmits(docker, ps, plan, k + 1, p);
      GroupsEmit(docker, k, ps[k], plan[k], 0, p);
      RulesOfConcat(GroupCalls(plan[k], 0), PlanCalls(plan[k + 1..]), p);
      assert plan[k..][1..] == plan[k + 1..];
      var ahead := Upto(|ps|)[k..];
      assert ahead[0] == k && ahead[1..] == Upto(|ps|)[k + 1..];
      assert Upto(|ps[k].groups|)[0..] == Upto(|ps[k].groups|);
    }
  }

  /**
   * The compiled chain of a netns is, rule by rule, in order and multiplicity, what the state lists there: partition
   * by partition, group by group, member by member, and for each peer of the other groups port by port, address by
   * address, under the comment that names the partition.
   */
  lemma CompiledInOrder(docker: Docker, s: S.State, p: int)
    requires Resolve(docker, s).Some?
    ensures Compiled(Resolve(docker, s).value.partitions, p) == ChainOf(docker, s, p)
  {
    ResolvePartitionsIff(docker, s.partitions, |s.partitions|);
    hide ResolvePartitions, ResolveShaping;
    var ps, plan := s.partitions, Resolve(docker, s).value.partitions;
    PlanEmits(docker, ps, plan, 0, p);
    assert plan[0..] == plan && Upto(|ps|)[0..] == Upto(|ps|);
  }

  /** After a successful apply, from any reachable state, that is what the chain of every target holds. */
  lemma AppliedInOrder(faults: Faults, hash: T.Hash, start: Sys, steps: seq<Step>, desired: S.State, docker: Docker,
                       p: Pid)
    requires Fresh(start) && G.AllSteady(steps) && OnePid(docker, desired)
    ensures var s := Run(faults, hash, start, steps);
            var (s1, stage) := ApplyLocked(faults, s, desired, docker);
            stage.None? && p in s.w.nets ==>
              && p in s1.w.nets && Resolve(docker, desired).Some?
              && (p in Pids(Targets(Resolve(docker, desired).value.partitions)) ==>
                    Rules(s1.w.nets[p]) == ChainOf(docker, desired, p))
  {
    G.SuccessEnacts(faults, hash, start, steps, desired, docker, p);
    hide Run, ApplyLocked, Compiled, Resolve, Targets, ChainOf;
    var s := Run(faults, hash, start, steps);
    if ApplyLocked(faults, s, desired, docker).1.None? && p in s.w.nets {
      CompiledInOrder(docker, desired, p);
    }
  }
}
