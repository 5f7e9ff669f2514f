/** The two independently written compilers, drop rules and session teardown, hit the same endpoints. */
module Agreement {
  import opened Discovery
  import opened Backend
  import opened Kernel
  import I = Iptables
  import C = Conntrack
  import Scope

  /** An endpoint as seen from one member: netns, address, protocol and port. */
  datatype Endpoint = Endpoint(pid: int, ip: Addr, protocol: Protocol, port: nat)

  /** The endpoints a command list blocks, in order and with repetitions. */
  ghost function Blocked(calls: seq<Call>): seq<Endpoint> {
    if calls == [] then []
    else
      (match calls[0].cmd
       case AppendRule(r) => [Endpoint(calls[0].pid, r.dst, r.protocol, r.dport)]
       case _ => [])
      + Blocked(calls[1..])
  }

  /** The endpoints whose conntrack entries a command list deletes. */
  ghost function Deleted(calls: seq<Call>): seq<Endpoint> {
    if calls == [] then []
    else
      (match calls[0].cmd
       case DeleteConntrack(ip, protocol, port) => [Endpoint(calls[0].pid, ip, protocol, port)]
       case _ => [])
      + Deleted(calls[1..])
  }

  /** The endpoints whose sockets a command list kills; `ss -K` takes TCP sockets. */
  ghost function Killed(calls: seq<Call>): seq<Endpoint> {
    if calls == [] then []
    else
      (match calls[0].cmd
       case KillSockets(ip, port) => [Endpoint(calls[0].pid, ip, TCP, port)]
       case _ => [])
      + Killed(calls[1..])
  }

  ghost function OverTcp(es: seq<Endpoint>): seq<Endpoint> {
    if es == [] then [] else (if es[0].protocol.TCP? then [es[0]] else []) + OverTcp(es[1..])
  }

  /** The sockets of a TCP endpoint are killed immediately before its conntrack entry is deleted. */
  ghost predicate KilledFirst(calls: seq<Call>) {
    && (forall i :: 0 <= i < |calls| && calls[i].cmd.KillSockets? ==>
          i + 1 < |calls|
          && calls[i + 1] == Call(calls[i].pid, DeleteConntrack(calls[i].cmd.dst, TCP, calls[i].cmd.dport)))
    && (forall i :: 0 <= i < |calls| && calls[i].cmd.DeleteConntrack? && calls[i].cmd.protocol.TCP? ==>
          i > 0 && calls[i - 1] == Call(calls[i].pid, KillSockets(calls[i].cmd.dst, calls[i].cmd.dport)))
  }

  lemma KilledFirstConcat(xs: seq<Call>, ys: seq<Call>)
    requires KilledFirst(xs) && KilledFirst(ys)
    ensures KilledFirst(xs + ys)
  {
    var all := xs + ys;
    forall i | 0 <= i < |all| && all[i].cmd.KillSockets?
      ensures i + 1 < |all|
      ensures all[i + 1] == Call(all[i].pid, DeleteConntrack(all[i].cmd.dst, TCP, all[i].cmd.dport))
    {
      assert all[i] == if i < |xs| then xs[i] else ys[i - |xs|];
    }
    forall i | 0 <= i < |all| && all[i].cmd.DeleteConntrack? && all[i].cmd.protocol.TCP?
      ensures i > 0 && all[i - 1] == Call(all[i].pid, KillSockets(all[i].cmd.dst, all[i].cmd.dport))
    {
      assert all[i] == if i < |xs| then xs[i] else ys[i - |xs|];
    }
  }

  /**
   * `flush` deletes exactly the endpoints `install` blocks, in order, and kills exactly the TCP ones among them, each
   * before it is deleted.
   */
  ghost predicate Agree(install: seq<Call>, flush: seq<Call>) {
    Deleted(flush) == Blocked(install) && Killed(flush) == OverTcp(Blocked(install)) && KilledFirst(flush)
  }

  lemma {:induction false} BlockedConcat(xs: seq<Call>, ys: seq<Call>)
    ensures Blocked(xs + ys) == Blocked(xs) + Blocked(ys)
  {
    if xs == [] {
      assert xs + ys == ys;
    } else {
      assert (xs + ys)[1..] == xs[1..] + ys;
      BlockedConcat(xs[1..], ys);
    }
  }

  lemma {:induction false} DeletedConcat(xs: seq<Call>, ys: seq<Call>)
    ensures Deleted(xs + ys) == Deleted(xs) + Deleted(ys)
  {
    if xs == [] {
      assert xs + ys == ys;
    } else {
      assert (xs + ys)[1..] == xs[1..] + ys;
      DeletedConcat(xs[1..], ys);
    }
  }

  lemma {:induction false} KilledConcat(xs: seq<Call>, ys: seq<Call>)
    ensures Killed(xs + ys) == Killed(xs) + Killed(ys)
  {
    if xs == [] {
      assert xs + ys == ys;
    } else {
      assert (xs + ys)[1..] == xs[1..] + ys;
      KilledConcat(xs[1..], ys);
    }
  }

  lemma {:induction false} OverTcpConcat(xs: seq<Endpoint>, ys: seq<Endpoint>)
    ensures OverTcp(xs + ys) == OverTcp(xs) + OverTcp(ys)
  {
    if xs == [] {
      assert xs + ys == ys;
    } else {
      assert (xs + ys)[1..] == xs[1..] + ys && (xs + ys)[0] == xs[0];
      OverTcpConcat(xs[1..], ys);
      var first, rest, last := if xs[0].protocol.TCP? then [xs[0]] else [], OverTcp(xs[1..]), OverTcp(ys);
      assert first + (rest + last) == first + rest + last;
    }
  }

  lemma AgreeConcat(xs: seq<Call>, ys: seq<Call>, fs: seq<Call>, gs: seq<Call>)
    requires Agree(xs, fs) && Agree(ys, gs)
    ensures Agree(xs + ys, fs + gs)
  {
    BlockedConcat(xs, ys);
    DeletedConcat(fs, gs);
    KilledConcat(fs, gs);
    OverTcpConcat(Blocked(xs), Blocked(ys));
    KilledFirstConcat(fs, gs);
    hide KilledFirst;
  }

  lemma OneEndpoint(pid: int, ip: Addr, port: Port, comment: string)
    ensures Agree([I.DropCall(pid, ip, port, comment)], C.TearDown(pid, ip, port))
  {
    TearDownInOrder(pid, ip, port);
    hide KilledFirst;
    var e := Endpoint(pid, ip, port.protocol, port.number);
    var del := Call(pid, DeleteConntrack(ip, port.protocol, port.number));
    assert Blocked([I.DropCall(pid, ip, port, comment)]) == [e] && Deleted([del]) == [e] && Killed([del]) == [];
    assert OverTcp([e]) == if e.protocol.TCP? then [e] else [];
    if port.protocol.TCP? {
      var kill := Call(pid, KillSockets(ip, port.number));
      assert e == Endpoint(pid, ip, TCP, port.number);
      assert Deleted([kill]) == [] && Killed([kill]) == [e] + Killed([]);
      DeletedConcat([kill], [del]);
      KilledConcat([kill], [del]);
      assert [kill] + [del] == C.TearDown(pid, ip, port);
    } else {
      assert [del] == C.TearDown(pid, ip, port);
    }
  }

  lemma TearDownInOrder(pid: int, ip: Addr, port: Port)
    ensures KilledFirst(C.TearDown(pid, ip, port))
  {
  }

  lemma {:induction false} IpsAgree(pid: int, ips: seq<Addr>, port: Port, comment: string)
    ensures Agree(I.IpCalls(pid, ips, port, comment), C.FlushIps(pid, ips, port))
  {
    hide Agree;
    if ips == [] {
      Nothing();
    } else {
      OneEndpoint(pid, ips[0], port, comment);
      IpsAgree(pid, ips[1..], port, comment);
      AgreeConcat([I.DropCall(pid, ips[0], port, comment)], I.IpCalls(pid, ips[1..], port, comment),
                  C.TearDown(pid, ips[0], port), C.FlushIps(pid, ips[1..], port));
    }
  }

  lemma Nothing()
    ensures Agree([], [])
  {
  }

  lemma {:induction false} PortsAgree(pid: int, ports: seq<Port>, ips: seq<Addr>, comment: string)
    ensures Agree(I.PortCalls(pid, ports, ips, comment), C.FlushPorts(pid, ports, ips))
  {
    hide Agree;
    if ports == [] {
      Nothing();
    } else {
      IpsAgree(pid, ips, ports[0], comment);
      PortsAgree(pid, ports[1..], ips, comment);
      AgreeConcat(I.IpCalls(pid, ips, ports[0], comment), I.PortCalls(pid, ports[1..], ips, comment),
                  C.FlushIps(pid, ips, ports[0]), C.FlushPorts(pid, ports[1..], ips));
    }
  }

  lemma {:induction false} PeersAgree(pid: int, peers: seq<Container>, scopes: seq<string>, comment: string)
    ensures Agree(I.PeerCalls(pid, peers, scopes, comment), C.FlushPeers(pid, peers, scopes))
  {
    hide Agree;
    if peers == [] {
      Nothing();
    } else {
      var ports := Scope.InScope(peers[0], peers[0].ports, scopes);
      PortsAgree(pid, ports, peers[0].ips, comment);
      PeersAgree(pid, peers[1..], scopes, comment);
      AgreeConcat(I.PortCalls(pid, ports, peers[0].ips, comment), I.PeerCalls(pid, peers[1..], scopes, comment),
                  C.FlushPorts(pid, ports, peers[0].ips), C.FlushPeers(pid, peers[1..], scopes));
    }
  }

  lemma {:induction false} MembersAgree(group: seq<Container>, peers: seq<Container>, scopes: seq<string>,
                                        comment: string)
    ensures Agree(I.MemberCalls(group, peers, scopes, comment), C.FlushMembers(group, peers, scopes))
  {
    hide Agree;
    if group == [] {
      Nothing();
    } else {
      PeersAgree(group[0].pid, peers, scopes, comment);
      MembersAgree(group[1..], peers, scopes, comment);
      AgreeConcat(I.PeerCalls(group[0].pid, peers, scopes, comment), I.MemberCalls(group[1..], peers, scopes, comment),
                  C.FlushPeers(group[0].pid, peers, scopes), C.FlushMembers(group[1..], peers, scopes));
    }
  }

  lemma {:induction false} GroupsAgree(p: Partition, i: nat)
    requires i <= |p.groups|
    ensures Agree(I.GroupCalls(p, i), C.FlushGroups(p, i))
    decreases |p.groups| - i
  {
    hide Agree;
    if i == |p.groups| {
      Nothing();
    } else {
      var peers := Others(p.groups, i);
      MembersAgree(p.groups[i], peers, p.scope, I.Comment(p));
      GroupsAgree(p, i + 1);
      AgreeConcat(I.MemberCalls(p.groups[i], peers, p.scope, I.Comment(p)), I.GroupCalls(p, i + 1),
                  C.FlushMembers(p.groups[i], peers, p.scope), C.FlushGroups(p, i + 1));
    }
  }

  /**
   * For every plan, conntrack deletes exactly the endpoints iptables blocks, in the same order and
   * multiplicity, and `ss -K` is asked for exactly the TCP ones among them, each right before its entry is deleted.
   */
  lemma {:induction false} CompilersAgree(plan: seq<Partition>)
    ensures Deleted(C.FlushPlan(plan)) == Blocked(I.PlanCalls(plan))
    ensures Killed(C.FlushPlan(plan)) == OverTcp(Blocked(I.PlanCalls(plan)))
    ensures KilledFirst(C.FlushPlan(plan))
  {
    if plan == [] {
      Nothing();
    } else {
      hide KilledFirst;
      GroupsAgree(plan[0], 0);
      CompilersAgree(plan[1..]);
      AgreeConcat(I.GroupCalls(plan[0], 0), I.PlanCalls(plan[1..]), C.FlushGroups(plan[0], 0), C.FlushPlan(plan[1..]));
    }
  }

  /** A complete install logs the compiled commands, one for one; a teardown logs its commands even when they fail. */
  lemma {:induction false} RunAllLogs(faults: Faults, w: World, calls: seq<Call>)
    ensures I.RunAll(faults, w, calls).ok ==> C.Logged(w, I.RunAll(faults, w, calls).w, calls)
    decreases calls
  {
    hide Issue;
    if calls == [] {
    } else {
      IssueLogs(faults, w, calls[0]);
      RunAllLogs(faults, Issue(faults, w, calls[0]).0, calls[1..]);
    }
  }

  lemma IssueLogs(faults: Faults, w: World, call: Call)
    ensures var w1 := Issue(faults, w, call).0;
            w.log <= w1.log && |w1.log| == |w.log| + 1 && w1.log[|w.log|].call == call
  {
  }

  lemma {:induction false} InstallAllIsRunAll(faults: Faults, w: World, plan: seq<Partition>)
    requires I.InstallAll(faults, w, plan).ok
    ensures I.InstallAll(faults, w, plan) == I.RunAll(faults, w, I.PlanCalls(plan))
    decreases plan
  {
    if plan == [] {
    } else {
      var calls := I.GroupCalls(plan[0], 0);
      I.RunAllConcat(faults, w, calls, I.PlanCalls(plan[1..]));
      InstallAllIsRunAll(faults, I.RunAll(faults, w, calls).w, plan[1..]);
    }
  }
}
