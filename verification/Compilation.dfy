/** What a plan compiles to: the meaning of the drop rules, independent of the loops that emit them. */
module Compilation {
  import opened Discovery
  import opened Backend
  import opened Kernel
  import opened Iptables
  import Scope

  /** The rules a command list appends in netns p, in order. */
  ghost function RulesOf(calls: seq<Call>, p: int): seq<Rule> {
    if calls == [] then []
    else
      (if calls[0].pid == p && calls[0].cmd.AppendRule? then [calls[0].cmd.rule] else []) + RulesOf(calls[1..], p)
  }

  /** The DISRUPTOOR chain a plan calls for in netns p. */
  ghost function Compiled(plan: seq<Partition>, p: int): seq<Rule> {
    RulesOf(PlanCalls(plan), p)
  }

  lemma {:induction false} RulesOfIff(calls: seq<Call>, p: int, r: Rule)
    ensures r in RulesOf(calls, p) <==> Call(p, AppendRule(r)) in calls
  {
    if calls == [] {
    } else {
      RulesOfIff(calls[1..], p, r);
      assert calls == [calls[0]] + calls[1..];
    }
  }

  lemma {:induction false} RulesOfConcat(xs: seq<Call>, ys: seq<Call>, p: int)
    ensures RulesOf(xs + ys, p) == RulesOf(xs, p) + RulesOf(ys, p)
  {
    if xs == [] {
      assert xs + ys == ys;
    } else {
      assert (xs + ys)[1..] == xs[1..] + ys;
      RulesOfConcat(xs[1..], ys, p);
    }
  }

  /** Packets of protocol `proto` to port `dport` of address `ip` fall under rule `r`. */
  predicate Hits(r: Rule, proto: Protocol, ip: Addr, dport: nat) {
    r.protocol == proto && r.dst == ip && r.dport == dport
  }

  /** `peer` owns `ip` and serves `dport` there on a port the scopes hit. */
  ghost predicate Serves(peer: Container, scopes: seq<string>, proto: Protocol, ip: Addr, dport: nat) {
    && ip in peer.ips
    && exists port :: port in peer.ports && Scope.Match(peer, port, scopes)
                      && port.protocol == proto && port.number == dport
  }

  /** Partition `part` separates a member with PID `p` from a peer of another group that serves (proto, ip, dport). */
  ghost predicate Separates(part: Partition, p: int, proto: Protocol, ip: Addr, dport: nat) {
    exists i, j, m, peer ::
      && 0 <= i < |part.groups| && 0 <= j < |part.groups| && i != j
      && m in part.groups[i] && m.pid == p
      && peer in part.groups[j] && Serves(peer, part.scope, proto, ip, dport)
  }

  // ---- Membership, loop by loop ----

  /** `call` drops (proto, ip, dport) in netns pid under the given comment. */
  ghost predicate IsDrop(call: Call, pid: int, comment: string) {
    call.pid == pid && call.cmd.AppendRule? && call.cmd.rule.comment == comment
  }

  ghost predicate DropsFor(call: Call, peer: Container, scopes: seq<string>)
    requires call.cmd.AppendRule?
  {
    Serves(peer, scopes, call.cmd.rule.protocol, call.cmd.rule.dst, call.cmd.rule.dport)
  }

  lemma {:induction false} IpCallsIff(call: Call, pid: int, ips: seq<Addr>, port: Port, comment: string)
    ensures call in IpCalls(pid, ips, port, comment)
       <==> IsDrop(call, pid, comment) && call.cmd.rule.dst in ips
            && call == DropCall(pid, call.cmd.rule.dst, port, comment)
  {
    if ips == [] {
    } else {
      IpCallsIff(call, pid, ips[1..], port, comment);
    }
  }

  lemma {:induction false} PortCallsIff(call: Call, pid: int, ports: seq<Port>, ips: seq<Addr>, comment: string)
    ensures call in PortCalls(pid, ports, ips, comment)
       <==> IsDrop(call, pid, comment) && call.cmd.rule.dst in ips
            && exists port :: port in ports && call == DropCall(pid, call.cmd.rule.dst, port, comment)
  {
    if ports == [] {
    } else {
      IpCallsIff(call, pid, ips, ports[0], comment);
      PortCallsIff(call, pid, ports[1..], ips, comment);
    }
  }

  lemma PortsServe(call: Call, pid: int, peer: Container, scopes: seq<string>, comment: string)
    requires IsDrop(call, pid, comment)
    ensures var ports := Scope.InScope(peer, peer.ports, scopes);
            (call.cmd.rule.dst in peer.ips
             && exists port :: port in ports && call == DropCall(pid, call.cmd.rule.dst, port, comment))
            <==> DropsFor(call, peer, scopes)
  {
    var ports := Scope.InScope(peer, peer.ports, scopes);
    if port :| port in ports && call == DropCall(pid, call.cmd.rule.dst, port, comment) {
      Scope.InScopeIff(peer, peer.ports, scopes, port);
    }
    if DropsFor(call, peer, scopes) {
      var port :| port in peer.ports && Scope.Match(peer, port, scopes)
        && port.protocol == call.cmd.rule.protocol && port.number == call.cmd.rule.dport;
      Scope.InScopeIff(peer, peer.ports, scopes, port);
      assert call == DropCall(pid, call.cmd.rule.dst, port, comment);
    }
  }

  lemma {:induction false} PeerCallsIff(call: Call, pid: int, peers: seq<Container>, scopes: seq<string>,
                                        comment: string)
    ensures call in PeerCalls(pid, peers, scopes, comment)
       <==> IsDrop(call, pid, comment) && exists peer :: peer in peers && DropsFor(call, peer, scopes)
  {
    if peers == [] {
    } else {
      var peer := peers[0];
      PortCallsIff(call, pid, Scope.InScope(peer, peer.ports, scopes), peer.ips, comment);
      PeerCallsIff(call, pid, peers[1..], scopes, comment);
      if IsDrop(call, pid, comment) {
        PortsServe(call, pid, peer, scopes, comment);
      }
      assert peers == [peer] + peers[1..];
    }
  }

  lemma {:induction false} MemberCallsIff(call: Call, group: seq<Container>, peers: seq<Container>, scopes: seq<string>,
                                          comment: string)
    ensures call in MemberCalls(group, peers, scopes, comment)
       <==> IsDrop(call, call.pid, comment) && (exists m :: m in group && m.pid == call.pid)
            && exists peer :: peer in peers && DropsFor(call, peer, scopes)
  {
    if group == [] {
    } else {
      PeerCallsIff(call, group[0].pid, peers, scopes, comment);
      MemberCallsIff(call, group[1..], peers, scopes, comment);
      assert group == [group[0]] + group[1..];
    }
  }

  lemma OthersIff(groups: seq<seq<Container>>, i: nat, peer: Container)
    requires i < |groups|
    ensures peer in Others(groups, i) <==> exists j :: 0 <= j < |groups| && j != i && peer in groups[j]
  {
    FlattenIff(groups[..i], peer);
    FlattenIff(groups[i + 1..], peer);
    forall j | 0 <= j < |groups| && j != i && peer in groups[j]
      ensures peer in Others(groups, i)
    {
      if j < i {
        assert peer in groups[..i][j];
      } else {
        assert peer in groups[i + 1..][j - i - 1];
      }
    }
  }

  /** Group g holds a member with the call's PID, and some other group a peer that the call cuts off. */
  ghost predicate Crosses(part: Partition, g: nat, call: Call)
    requires g < |part.groups| && call.cmd.AppendRule?
  {
    && (exists m :: m in part.groups[g] && m.pid == call.pid)
    && exists j, peer :: 0 <= j < |part.groups| && j != g && peer in part.groups[j] && DropsFor(call, peer, part.scope)
  }

  lemma {:induction false} GroupCallsIff(call: Call, part: Partition, i: nat)
    requires i <= |part.groups|
    ensures call in GroupCalls(part, i)
       <==> IsDrop(call, call.pid, Comment(part)) && exists g :: i <= g < |part.groups| && Crosses(part, g, call)
    decreases |part.groups| - i
  {
    if i == |part.groups| {
    } else {
      var others := Others(part.groups, i);
      MemberCallsIff(call, part.groups[i], others, part.scope, Comment(part));
      GroupCallsIff(call, part, i + 1);
      forall peer
        ensures peer in others <==> exists j :: 0 <= j < |part.groups| && j != i && peer in part.groups[j]
      {
        OthersIff(part.groups, i, peer);
      }
      assert call in MemberCalls(part.groups[i], others, part.scope, Comment(part))
        <==> IsDrop(call, call.pid, Comment(part)) && Crosses(part, i, call);
    }
  }

  lemma {:induction false} PlanCallsIff(call: Call, plan: seq<Partition>)
    ensures call in PlanCalls(plan) <==> exists part :: part in plan && call in GroupCalls(part, 0)
  {
    if plan == [] {
    } else {
      PlanCallsIff(call, plan[1..]);
      assert plan == [plan[0]] + plan[1..];
      if part :| part in plan && call in GroupCalls(part, 0) {
        assert part == plan[0] || part in plan[1..];
      }
    }
  }

  /** One rule of the chain, traced back to the partition that asked for it. */
  lemma CompiledIff(plan: seq<Partition>, p: int, r: Rule)
    ensures r in Compiled(plan, p)
       <==> exists part :: part in plan && r.comment == "disruptoor:" + part.name
                           && Separates(part, p, r.protocol, r.dst, r.dport)
  {
    var call := Call(p, AppendRule(r));
    RulesOfIff(PlanCalls(plan), p, r);
    PlanCallsIff(call, plan);
    forall part
      ensures call in GroupCalls(part, 0)
         <==> r.comment == Comment(part) && Separates(part, p, r.protocol, r.dst, r.dport)
    {
      GroupCallsIff(call, part, 0);
      SeparatesIff(part, call);
    }
  }

  lemma SeparatesIff(part: Partition, call: Call)
    requires call.cmd.AppendRule?
    ensures Separates(part, call.pid, call.cmd.rule.protocol, call.cmd.rule.dst, call.cmd.rule.dport)
       <==> exists g :: 0 <= g < |part.groups| && Crosses(part, g, call)
  {
    hide Serves, IsDrop;
    var r := call.cmd.rule;
    if Separates(part, call.pid, r.protocol, r.dst, r.dport) {
      var i, j, m, peer :|
        && 0 <= i < |part.groups| && 0 <= j < |part.groups| && i != j
        && m in part.groups[i] && m.pid == call.pid
        && peer in part.groups[j] && Serves(peer, part.scope, r.protocol, r.dst, r.dport);
      assert DropsFor(call, peer, part.scope);
      assert Crosses(part, i, call);
    }
    if g :| 0 <= g < |part.groups| && Crosses(part, g, call) {
      var m :| m in part.groups[g] && m.pid == call.pid;
      var j, peer :| 0 <= j < |part.groups| && j != g && peer in part.groups[j] && DropsFor(call, peer, part.scope);
      assert Serves(peer, part.scope, r.protocol, r.dst, r.dport);
    }
  }

  /**
   * Compilation is correct: a packet leaving netns p meets a drop rule of the compiled chain exactly when
   * some partition has a member with that PID in one group and the served endpoint in another.
   */
  lemma CompiledDropsIff(plan: seq<Partition>, p: int, proto: Protocol, ip: Addr, dport: nat)
    ensures (exists r :: r in Compiled(plan, p) && Hits(r, proto, ip, dport))
       <==> exists part :: part in plan && Separates(part, p, proto, ip, dport)
  {
    hide Separates, Compiled;
    if r :| r in Compiled(plan, p) && Hits(r, proto, ip, dport) {
      CompiledIff(plan, p, r);
    }
    if part :| part in plan && Separates(part, p, proto, ip, dport) {
      var r := Drop(proto, ip, dport, Comment(part));
      CompiledIff(plan, p, r);
      assert Hits(r, proto, ip, dport);
    }
  }
}
