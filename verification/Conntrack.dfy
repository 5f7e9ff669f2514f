/** Teardown of sessions that a partition is about to block (internal/backend/conntrack/conntrack.go). */
module Conntrack {
  import opened Discovery
  import opened Backend
  import opened Kernel
  import Scope

  // ---- The commands of one flush, in order ----

  function TearDown(pid: int, ip: Addr, port: Port): seq<Call> {
    (if port.protocol.TCP? then [Call(pid, KillSockets(ip, port.number))] else [])
    + [Call(pid, DeleteConntrack(ip, port.protocol, port.number))]
  }

  function FlushIps(pid: int, ips: seq<Addr>, port: Port): seq<Call> {
    if ips == [] then [] else TearDown(pid, ips[0], port) + FlushIps(pid, ips[1..], port)
  }

  function FlushPorts(pid: int, ports: seq<Port>, ips: seq<Addr>): seq<Call> {
    if ports == [] then [] else FlushIps(pid, ips, ports[0]) + FlushPorts(pid, ports[1..], ips)
  }

  function FlushPeers(pid: int, peers: seq<Container>, scopes: seq<string>): seq<Call> {
    if peers == [] then []
    else
      FlushPorts(pid, Scope.InScope(peers[0], peers[0].ports, scopes), peers[0].ips)
      + FlushPeers(pid, peers[1..], scopes)
  }

  function FlushMembers(group: seq<Container>, peers: seq<Container>, scopes: seq<string>): seq<Call> {
    if group == [] then [] else FlushPeers(group[0].pid, peers, scopes) + FlushMembers(group[1..], peers, scopes)
  }

  function FlushGroups(p: Partition, i: nat): seq<Call>
    requires i <= |p.groups|
    decreases |p.groups| - i
  {
    if i == |p.groups| then []
    else FlushMembers(p.groups[i], Others(p.groups, i), p.scope) + FlushGroups(p, i + 1)
  }

  function FlushPlan(plan: seq<Partition>): seq<Call> {
    if plan == [] then [] else FlushGroups(plan[0], 0) + FlushPlan(plan[1..])
  }

  /** Runs every command, whatever becomes of the ones before. */
  function RunEach(faults: Faults, w: World, calls: seq<Call>): World
    decreases calls
  {
    if calls == [] then w else RunEach(faults, Issue(faults, w, calls[0]).0, calls[1..])
  }

  lemma {:induction false} RunEachConcat(faults: Faults, w: World, xs: seq<Call>, ys: seq<Call>)
    ensures RunEach(faults, w, xs + ys) == RunEach(faults, RunEach(faults, w, xs), ys)
    decreases xs
  {
    if xs == [] {
      assert xs + ys == ys;
    } else {
      assert (xs + ys)[1..] == xs[1..] + ys;
      RunEachConcat(faults, Issue(faults, w, xs[0]).0, xs[1..], ys);
    }
  }

  /** The new log entries record exactly `calls`, in order. */
  ghost predicate Logged(before: World, after: World, calls: seq<Call>) {
    && before.log <= after.log
    && |after.log| == |before.log| + |calls|
    && forall i :: |before.log| <= i < |after.log| ==> after.log[i].call == calls[i - |before.log|]
  }

  lemma FlushPlanTearsDown(plan: seq<Partition>)
    ensures forall c :: c in FlushPlan(plan) ==> IsTearDown(c.cmd)
  {
    if plan == [] {
    } else {
      FlushGroupsTearDown(plan[0], 0);
      FlushPlanTearsDown(plan[1..]);
    }
  }

  lemma FlushGroupsTearDown(p: Partition, i: nat)
    requires i <= |p.groups|
    ensures forall c :: c in FlushGroups(p, i) ==> IsTearDown(c.cmd)
    decreases |p.groups| - i
  {
    if i == |p.groups| {
    } else {
      FlushMembersTearDown(p.groups[i], Others(p.groups, i), p.scope);
      FlushGroupsTearDown(p, i + 1);
    }
  }

  lemma FlushMembersTearDown(group: seq<Container>, peers: seq<Container>, scopes: seq<string>)
    ensures forall c :: c in FlushMembers(group, peers, scopes) ==> IsTearDown(c.cmd)
  {
    if group == [] {
    } else {
      FlushPeersTearDown(group[0].pid, peers, scopes);
      FlushMembersTearDown(group[1..], peers, scopes);
    }
  }

  lemma FlushPeersTearDown(pid: int, peers: seq<Container>, scopes: seq<string>)
    ensures forall c :: c in FlushPeers(pid, peers, scopes) ==> IsTearDown(c.cmd)
  {
    if peers == [] {
    } else {
      FlushPortsTearDown(pid, Scope.InScope(peers[0], peers[0].ports, scopes), peers[0].ips);
      FlushPeersTearDown(pid, peers[1..], scopes);
    }
  }

  lemma FlushPortsTearDown(pid: int, ports: seq<Port>, ips: seq<Addr>)
    ensures forall c :: c in FlushPorts(pid, ports, ips) ==> IsTearDown(c.cmd)
  {
    if ports == [] {
    } else {
      FlushIpsTearDown(pid, ips, ports[0]);
      FlushPortsTearDown(pid, ports[1..], ips);
    }
  }

  lemma {:induction false} FlushIpsTearDown(pid: int, ips: seq<Addr>, port: Port)
    ensures forall c :: c in FlushIps(pid, ips, port) ==> IsTearDown(c.cmd)
  {
    if ips == [] {
    } else {
      FlushIpsTearDown(pid, ips[1..], port);
    }
  }

  /** Teardown changes no netns, whatever fails; all its commands are tried, in the same state of the kernel. */
  lemma {:induction false} RunEachEffect(faults: Faults, w: World, calls: seq<Call>)
    requires forall c :: c in calls ==> IsTearDown(c.cmd)
    ensures var w1 := RunEach(faults, w, calls);
            && w1.nets == w.nets && w.clock <= w1.clock
            && Logged(w, w1, calls)
            && forall i :: |w.log| <= i < |w1.log| ==> w1.log[i].quiet == Quiet(w.nets) && !w1.log[i].left
    decreases calls
  {
    if calls == [] {
    } else {
      TearDownIssued(faults, w, calls[0]);
      hide Issue;
      var w1 := Issue(faults, w, calls[0]).0;
      RunEachEffect(faults, w1, calls[1..]);
    }
  }

  lemma TearDownIssued(faults: Faults, w: World, call: Call)
    requires IsTearDown(call.cmd)
    ensures var w1 := Issue(faults, w, call).0;
            && w1.nets == w.nets && w.clock <= w1.clock
            && |w1.log| == |w.log| + 1 && w.log <= w1.log
            && w1.log[|w.log|].call == call && w1.log[|w.log|].quiet == Quiet(w.nets) && !w1.log[|w.log|].left
  {
  }

  class Service {
    const enterer: Enterer

    constructor (enterer: Enterer)
      ensures this.enterer == enterer
    {
      this.enterer := enterer;
    }

    method KillSocket(member: Container, ip: Addr, port: Port)
      modifies enterer
      ensures enterer.world
           == if port.protocol.TCP? then
                Issue(enterer.faults, old(enterer.world), Call(member.pid, KillSockets(ip, port.number))).0
              else old(enterer.world)
    {
      if !port.protocol.TCP? {
        return;
      }
      var _ := enterer.Run(Call(member.pid, KillSockets(ip, port.number)));
    }

    method DeleteConntrackEntry(member: Container, ip: Addr, port: Port)
      modifies enterer
      ensures enterer.world
           == Issue(enterer.faults, old(enterer.world),
                    Call(member.pid, DeleteConntrack(ip, port.protocol, port.number))).0
    {
      var _ := enterer.Run(Call(member.pid, DeleteConntrack(ip, port.protocol, port.number)));
    }

    /** The six nested loops of Flush, over partitions, groups, members, peers, ports and addresses. */
    method Flush(plan: seq<Partition>) returns (ok: bool)
      modifies enterer
      ensures ok
      ensures enterer.world == RunEach(enterer.faults, old(enterer.world), FlushPlan(plan))
    {
      hide Issue, RunEach, FlushPlan, FlushGroups, FlushMembers, FlushPeers, FlushPorts, FlushIps, Others;
      hide Scope.InScope;
      ghost var goal := RunEach(enterer.faults, enterer.world, FlushPlan(plan));
      assert plan[0..] == plan;
      for i := 0 to |plan|
        invariant goal == RunEach(enterer.faults, enterer.world, FlushPlan(plan[i..]))
      {
        var p := plan[i];
        ghost var afterPartition := FlushPlan(plan[i + 1..]);
        FlushPlanStep(plan, i);
        for groupIdx := 0 to |p.groups|
          invariant goal == RunEach(enterer.faults, enterer.world, FlushGroups(p, groupIdx) + afterPartition)
        {
          var group := p.groups[groupIdx];
          var peers := OtherGroupContainers(p.groups, groupIdx);
          ghost var afterGroup := FlushGroups(p, groupIdx + 1) + afterPartition;
          FlushGroupsStep(p, groupIdx, afterPartition);
          for m := 0 to |group|
            invariant goal
                   == RunEach(enterer.faults, enterer.world, FlushMembers(group[m..], peers, p.scope) + afterGroup)
          {
            var member := group[m];
            ghost var afterMember := FlushMembers(group[m + 1..], peers, p.scope) + afterGroup;
            FlushMembersStep(group, m, peers, p.scope, afterGroup);
            for q := 0 to |peers|
              invariant goal
                     == RunEach(enterer.faults, enterer.world,
                                FlushPeers(member.pid, peers[q..], p.scope) + afterMember)
            {
              var peer := peers[q];
              var ports := Scope.FilterPorts(peer, p.scope);
              ghost var afterPeer := FlushPeers(member.pid, peers[q + 1..], p.scope) + afterMember;
              FlushPeersStep(member.pid, peers, q, p.scope, afterMember);
              if |ports| == 0 {
                continue;
              }
              for t := 0 to |ports|
                invariant goal
                       == RunEach(enterer.faults, enterer.world,
                                  FlushPorts(member.pid, ports[t..], peer.ips) + afterPeer)
              {
                var port := ports[t];
                ghost var afterPort := FlushPorts(member.pid, ports[t + 1..], peer.ips) + afterPeer;
                FlushPortsStep(member.pid, ports, t, peer.ips, afterPeer);
                for k := 0 to |peer.ips|
                  invariant goal
                         == RunEach(enterer.faults, enterer.world,
                                    FlushIps(member.pid, peer.ips[k..], port) + afterPort)
                {
                  FlushIpsStep(enterer.faults, enterer.world, member.pid, peer.ips, k, port, afterPort);
                  KillSocket(member, peer.ips[k], port);
                  DeleteConntrackEntry(member, peer.ips[k], port);
                }
                FlushIpsEnd(member.pid, peer.ips, port, afterPort);
              }
              FlushPortsEnd(member.pid, ports, peer.ips, afterPeer);
            }
            FlushPeersEnd(member.pid, peers, p.scope, afterMember);
          }
          FlushMembersEnd(group, peers, p.scope, afterGroup);
        }
        FlushGroupsEnd(p, afterPartition);
      }
      FlushPlanEnd(enterer.faults, enterer.world, plan);
      ok := true;
    }
  }

  // ---- One step of each loop, and its end ----

  lemma FlushPlanStep(plan: seq<Partition>, i: nat)
    requires i < |plan|
    ensures FlushPlan(plan[i..]) == FlushGroups(plan[i], 0) + FlushPlan(plan[i + 1..])
  {
  }

  lemma FlushPlanEnd(faults: Faults, w: World, plan: seq<Partition>)
    ensures RunEach(faults, w, FlushPlan(plan[|plan|..])) == w
  {
  }

  lemma FlushGroupsEnd(p: Partition, rest: seq<Call>)
    ensures FlushGroups(p, |p.groups|) + rest == rest
  {
  }

  lemma FlushMembersEnd(group: seq<Container>, peers: seq<Container>, scopes: seq<string>, rest: seq<Call>)
    ensures FlushMembers(group[|group|..], peers, scopes) + rest == rest
  {
  }

  lemma FlushPeersEnd(pid: int, peers: seq<Container>, scopes: seq<string>, rest: seq<Call>)
    ensures FlushPeers(pid, peers[|peers|..], scopes) + rest == rest
  {
  }

  lemma FlushPortsEnd(pid: int, ports: seq<Port>, ips: seq<Addr>, rest: seq<Call>)
    ensures FlushPorts(pid, ports[|ports|..], ips) + rest == rest
  {
  }

  lemma FlushIpsEnd(pid: int, ips: seq<Addr>, port: Port, rest: seq<Call>)
    ensures FlushIps(pid, ips[|ips|..], port) + rest == rest
  {
  }

  lemma FlushGroupsStep(p: Partition, i: nat, rest: seq<Call>)
    requires i < |p.groups|
    ensures FlushGroups(p, i) + rest
         == FlushMembers(p.groups[i][0..], Others(p.groups, i), p.scope) + (FlushGroups(p, i + 1) + rest)
  {
  }

  lemma FlushMembersStep(group: seq<Container>, m: nat, peers: seq<Container>, scopes: seq<string>, rest: seq<Call>)
    requires m < |group|
    ensures FlushMembers(group[m..], peers, scopes) + rest
         == FlushPeers(group[m].pid, peers[0..], scopes) + (FlushMembers(group[m + 1..], peers, scopes) + rest)
  {
  }

  lemma FlushPeersStep(pid: int, peers: seq<Container>, q: nat, scopes: seq<string>, rest: seq<Call>)
    requires q < |peers|
    ensures var ports := Scope.InScope(peers[q], peers[q].ports, scopes);
            && FlushPeers(pid, peers[q..], scopes) + rest
               == FlushPorts(pid, ports[0..], peers[q].ips) + (FlushPeers(pid, peers[q + 1..], scopes) + rest)
            && (ports == [] ==>
                  FlushPeers(pid, peers[q..], scopes) + rest == FlushPeers(pid, peers[q + 1..], scopes) + rest)
  {
    assert peers[q..][1..] == peers[q + 1..];
    var ports := Scope.InScope(peers[q], peers[q].ports, scopes);
    assert ports[0..] == ports;
  }

  lemma FlushPortsStep(pid: int, ports: seq<Port>, t: nat, ips: seq<Addr>, rest: seq<Call>)
    requires t < |ports|
    ensures FlushPorts(pid, ports[t..], ips) + rest
         == FlushIps(pid, ips[0..], ports[t]) + (FlushPorts(pid, ports[t + 1..], ips) + rest)
  {
  }

  lemma FlushIpsStep(faults: Faults, w: World, pid: int, ips: seq<Addr>, k: nat, port: Port, rest: seq<Call>)
    requires k < |ips|
    ensures var killed := if port.protocol.TCP? then Issue(faults, w, Call(pid, KillSockets(ips[k], port.number))).0
                          else w;
            var deleted := Issue(faults, killed, Call(pid, DeleteConntrack(ips[k], port.protocol, port.number))).0;
            RunEach(faults, w, FlushIps(pid, ips[k..], port) + rest)
            == RunEach(faults, deleted, FlushIps(pid, ips[k + 1..], port) + rest)
  {
    hide Issue;
    assert ips[k..][1..] == ips[k + 1..];
    var now, later := TearDown(pid, ips[k], port), FlushIps(pid, ips[k + 1..], port) + rest;
    assert FlushIps(pid, ips[k..], port) + rest == now + later;
    RunEachConcat(faults, w, now, later);
    if port.protocol.TCP? {
      assert now[1..] == [Call(pid, DeleteConntrack(ips[k], port.protocol, port.number))];
    }
  }
}
