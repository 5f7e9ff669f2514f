/** Hard partitions: one DISRUPTOOR chain per netns (internal/backend/iptables/iptables.go). */
module Iptables {
  import opened Wrappers
  import opened Discovery
  import opened Backend
  import opened Kernel
  import Scope

  /** flushChainBestEffort */
  function Flush(faults: Faults, w: World, c: Container): Done {
    if c.pid == 0 then Done(w, true)
    else
      var (w1, a) := Issue(faults, w, Call(c.pid, FlushChain));
      Done(w1, a.Ok? || ExitCode(a) == 1)
  }

  /** clearTargetsLocked: every target is flushed; one failure is enough to report failure. */
  function ClearTargets(faults: Faults, w: World, ts: seq<Container>): Done
    decreases ts
  {
    if ts == [] then Done(w, true)
    else
      var first := Flush(faults, w, ts[0]);
      var rest := ClearTargets(faults, first.w, ts[1..]);
      Done(rest.w, first.ok && rest.ok)
  }

  /** The last two steps of ensureChain: check for the jump, and add it when the check exits. */
  function EnsureJump(faults: Faults, w: World, pid: int): Done {
    var (w1, checked) := Issue(faults, w, Call(pid, CheckJump));
    if checked.Ok? then Done(w1, true)
    else if checked.failure.Other? then Done(w1, false)
    else
      var (w2, added) := Issue(faults, w1, Call(pid, AppendJump));
      Done(w2, added.Ok?)
  }

  function EnsureChain(faults: Faults, w: World, c: Container): Done {
    var (w1, created) := Issue(faults, w, Call(c.pid, NewChain));
    if created.Failed? && ExitCode(created) != 1 then Done(w1, false)
    else
      var (w2, flushed) := Issue(faults, w1, Call(c.pid, FlushChain));
      if flushed.Failed? then Done(w2, false) else EnsureJump(faults, w2, c.pid)
  }

  function EnsureAll(faults: Faults, w: World, ts: seq<Container>): Done
    decreases ts
  {
    if ts == [] then Done(w, true)
    else
      var first := EnsureChain(faults, w, ts[0]);
      if !first.ok then first else EnsureAll(faults, first.w, ts[1..])
  }

  /** Runs commands in order, up to the first failure. */
  function RunAll(faults: Faults, w: World, calls: seq<Call>): Done
    decreases calls
  {
    if calls == [] then Done(w, true)
    else
      var (w1, a) := Issue(faults, w, calls[0]);
      if a.Failed? then Done(w1, false) else RunAll(faults, w1, calls[1..])
  }

  // ---- Compilation: the commands a plan stands for ----

  function DropCall(pid: int, ip: Addr, port: Port, comment: string): Call {
    Call(pid, AppendRule(Drop(port.protocol, ip, port.number, comment)))
  }

  function IpCalls(pid: int, ips: seq<Addr>, port: Port, comment: string): seq<Call> {
    if ips == [] then [] else [DropCall(pid, ips[0], port, comment)] + IpCalls(pid, ips[1..], port, comment)
  }

  function PortCalls(pid: int, ports: seq<Port>, ips: seq<Addr>, comment: string): seq<Call> {
    if ports == [] then [] else IpCalls(pid, ips, ports[0], comment) + PortCalls(pid, ports[1..], ips, comment)
  }

  function PeerCalls(pid: int, peers: seq<Container>, scopes: seq<string>, comment: string): seq<Call> {
    if peers == [] then []
    else
      PortCalls(pid, Scope.InScope(peers[0], peers[0].ports, scopes), peers[0].ips, comment)
      + PeerCalls(pid, peers[1..], scopes, comment)
  }

  function MemberCalls(group: seq<Container>, peers: seq<Container>, scopes: seq<string>, comment: string): seq<Call> {
    if group == [] then []
    else PeerCalls(group[0].pid, peers, scopes, comment) + MemberCalls(group[1..], peers, scopes, comment)
  }

  function Comment(p: Partition): string {
    "disruptoor:" + p.name
  }

  /** The commands of partition p from group i on. */
  function GroupCalls(p: Partition, i: nat): seq<Call>
    requires i <= |p.groups|
    decreases |p.groups| - i
  {
    if i == |p.groups| then []
    else MemberCalls(p.groups[i], Others(p.groups, i), p.scope, Comment(p)) + GroupCalls(p, i + 1)
  }

  function PlanCalls(plan: seq<Partition>): seq<Call> {
    if plan == [] then [] else GroupCalls(plan[0], 0) + PlanCalls(plan[1..])
  }

  /** Installs the partitions one after the other; an asymmetric one is refused when its turn comes. */
  function InstallAll(faults: Faults, w: World, plan: seq<Partition>): Done
    decreases plan
  {
    if plan == [] then Done(w, true)
    else if !plan[0].symmetric then Done(w, false)
    else
      var first := RunAll(faults, w, GroupCalls(plan[0], 0));
      if !first.ok then first else InstallAll(faults, first.w, plan[1..])
  }

  ghost function Cleared(faults: Faults, w: World, last: seq<Container>): Outcome {
    var d := ClearTargets(faults, w, last);
    Outcome(d.w, if d.ok then [] else last, d.ok)
  }

  ghost function Applied(faults: Faults, w: World, last: seq<Container>, plan: seq<Partition>): Outcome {
    var c := Cleared(faults, w, last);
    if !c.ok || plan == [] then c
    else
      var e := EnsureAll(faults, c.w, Targets(plan));
      if !e.ok then Outcome(e.w, Targets(plan), false)
      else
        var i := InstallAll(faults, e.w, plan);
        Outcome(i.w, Targets(plan), i.ok)
  }

  class Service {
    const enterer: Enterer
    var lastTargets: seq<Container>

    constructor (enterer: Enterer)
      ensures this.enterer == enterer && lastTargets == []
    {
      this.enterer := enterer;
      lastTargets := [];
    }

    method FlushChainBestEffort(c: Container) returns (ok: bool)
      modifies enterer
      ensures Done(enterer.world, ok) == Flush(enterer.faults, old(enterer.world), c)
    {
      if c.pid == 0 {
        return true;
      }
      var a := enterer.Run(Call(c.pid, FlushChain));
      if a.Ok? {
        return true;
      }
      ok := ExitCode(a) == 1;
    }

    method ClearTargetsLocked(targets: seq<Container>) returns (ok: bool)
      modifies enterer
      ensures Done(enterer.world, ok) == ClearTargets(enterer.faults, old(enterer.world), targets)
    {
      ok := true;
      for i := 0 to |targets|
        invariant var rest := ClearTargets(enterer.faults, enterer.world, targets[i..]);
                  ClearTargets(enterer.faults, old(enterer.world), targets) == Done(rest.w, ok && rest.ok)
      {
        assert targets[i..][1..] == targets[i + 1..];
        var flushed := FlushChainBestEffort(targets[i]);
        if !flushed {
          ok := false;
        }
      }
    }

    method EnsureChainIn(c: Container) returns (ok: bool)
      modifies enterer
      ensures Done(enterer.world, ok) == EnsureChain(enterer.faults, old(enterer.world), c)
    {
      var created := enterer.Run(Call(c.pid, NewChain));
      if created.Failed? && ExitCode(created) != 1 {
        return false;
      }
      var flushed := enterer.Run(Call(c.pid, FlushChain));
      if flushed.Failed? {
        return false;
      }
      var checked := enterer.Run(Call(c.pid, CheckJump));
      if checked.Failed? {
        if checked.failure.Other? {
          return false;
        }
        var added := enterer.Run(Call(c.pid, AppendJump));
        if added.Failed? {
          return false;
        }
      }
      ok := true;
    }

    method InstallMemberRules(member: Container, peers: seq<Container>, p: Partition) returns (ok: bool)
      modifies enterer
      ensures Done(enterer.world, ok)
           == RunAll(enterer.faults, old(enterer.world), PeerCalls(member.pid, peers, p.scope, Comment(p)))
    {
      hide Issue, RunAll, PeerCalls, PortCalls, IpCalls, Scope.InScope;
      var comment := "disruptoor:" + p.name;
      ghost var goal := RunAll(enterer.faults, enterer.world, PeerCalls(member.pid, peers, p.scope, comment));
      assert peers[0..] == peers;
      for i := 0 to |peers|
        invariant goal == RunAll(enterer.faults, enterer.world, PeerCalls(member.pid, peers[i..], p.scope, comment))
      {
        var peer := peers[i];
        var ports := Scope.FilterPorts(peer, p.scope);
        ghost var later := PeerCalls(member.pid, peers[i + 1..], p.scope, comment);
        PeerCallsStep(member.pid, peers, i, p.scope, comment);
        if |ports| == 0 {
          continue;
        }
        for j := 0 to |ports|
          invariant goal
                 == RunAll(enterer.faults, enterer.world, PortCalls(member.pid, ports[j..], peer.ips, comment) + later)
        {
          var port := ports[j];
          ghost var next := PortCalls(member.pid, ports[j + 1..], peer.ips, comment) + later;
          PortCallsStep(member.pid, ports, j, peer.ips, comment, later);
          for k := 0 to |peer.ips|
            invariant goal
                   == RunAll(enterer.faults, enterer.world, IpCalls(member.pid, peer.ips[k..], port, comment) + next)
          {
            var call := Call(member.pid, AppendRule(Drop(port.protocol, peer.ips[k], port.number, comment)));
            IpCallsStep(member.pid, peer.ips, k, port, comment, next);
            RunAllStep(enterer.faults, enterer.world, call,
                       IpCalls(member.pid, peer.ips[k + 1..], port, comment) + next);
            var a := enterer.Run(call);
            if a.Failed? {
              return false;
            }
          }
          IpCallsEnd(member.pid, peer.ips, port, comment, next);
        }
        PortCallsEnd(member.pid, ports, peer.ips, comment, later);
      }
      PeerCallsEnd(enterer.faults, enterer.world, member.pid, peers, p.scope, comment);
      ok := true;
    }

    method ApplyPartition(p: Partition) returns (ok: bool)
      modifies enterer
      ensures Done(enterer.world, ok) == RunAll(enterer.faults, old(enterer.world), GroupCalls(p, 0))
    {
      ghost var goal := RunAll(enterer.faults, enterer.world, GroupCalls(p, 0));
      for groupIdx := 0 to |p.groups|
        invariant goal == RunAll(enterer.faults, enterer.world, GroupCalls(p, groupIdx))
      {
        var group := p.groups[groupIdx];
        var others := OtherGroupContainers(p.groups, groupIdx);
        ghost var later := GroupCalls(p, groupIdx + 1);
        for i := 0 to |group|
          invariant goal
                 == RunAll(enterer.faults, enterer.world, MemberCalls(group[i..], others, p.scope, Comment(p)) + later)
        {
          MemberCallsStep(group, i, others, p.scope, Comment(p), later);
          RunAllConcat(enterer.faults, enterer.world, PeerCalls(group[i].pid, others, p.scope, Comment(p)),
                       MemberCalls(group[i + 1..], others, p.scope, Comment(p)) + later);
          var installed := InstallMemberRules(group[i], others, p);
          if !installed {
            return false;
          }
        }
        assert MemberCalls(group[|group|..], others, p.scope, Comment(p)) + later == later;
      }
      ok := true;
    }

    method Apply(plan: seq<Partition>) returns (ok: bool)
      modifies this, enterer
      ensures Outcome(enterer.world, lastTargets, ok)
           == Applied(enterer.faults, old(enterer.world), old(lastTargets), plan)
    {
      var cleared := ClearTargetsLocked(lastTargets);
      if !cleared {
        return false;
      }
      lastTargets := [];
      if |plan| == 0 {
        return true;
      }
      var newTargets := AllTargets(plan);
      lastTargets := newTargets;
      ghost var ensured := EnsureAll(enterer.faults, enterer.world, newTargets);
      for i := 0 to |newTargets|
        invariant lastTargets == newTargets
        invariant ensured == EnsureAll(enterer.faults, enterer.world, newTargets[i..])
      {
        assert newTargets[i..][1..] == newTargets[i + 1..];
        var ready := EnsureChainIn(newTargets[i]);
        if !ready {
          return false;
        }
      }
      ghost var installed := InstallAll(enterer.faults, enterer.world, plan);
      for i := 0 to |plan|
        invariant lastTargets == newTargets
        invariant installed == InstallAll(enterer.faults, enterer.world, plan[i..])
      {
        assert plan[i..][1..] == plan[i + 1..];
        if !plan[i].symmetric {
          return false;
        }
        var applied := ApplyPartition(plan[i]);
        if !applied {
          return false;
        }
      }
      ok := true;
    }

    method Clear() returns (ok: bool)
      modifies this, enterer
      ensures Outcome(enterer.world, lastTargets, ok) == Cleared(enterer.faults, old(enterer.world), old(lastTargets))
    {
      var cleared := ClearTargetsLocked(lastTargets);
      if !cleared {
        return false;
      }
      lastTargets := [];
      ok := true;
    }

    /** Start: a fresh service flushes every container it can list, whatever the outcome. */
    method Start(targets: Listing) returns (ok: bool)
      modifies enterer
      ensures ok
      ensures enterer.world
           == if targets.None? then old(enterer.world)
              else ClearTargets(enterer.faults, old(enterer.world), targets.value).w
    {
      ok := true;
      if targets.None? {
        return;
      }
      for i := 0 to |targets.value|
        invariant ClearTargets(enterer.faults, old(enterer.world), targets.value).w
               == ClearTargets(enterer.faults, enterer.world, targets.value[i..]).w
      {
        assert targets.value[i..][1..] == targets.value[i + 1..];
        var _ := FlushChainBestEffort(targets.value[i]);
      }
    }
  }

  lemma {:induction false} RunAllConcat(faults: Faults, w: World, xs: seq<Call>, ys: seq<Call>)
    ensures RunAll(faults, w, xs + ys)
         == var first := RunAll(faults, w, xs); if first.ok then RunAll(faults, first.w, ys) else first
    decreases xs
  {
    if xs == [] {
      assert xs + ys == ys;
    } else {
      assert (xs + ys)[1..] == xs[1..] + ys;
      var (w1, a) := Issue(faults, w, xs[0]);
      RunAllConcat(faults, w1, xs[1..], ys);
    }
  }

  lemma RunAllStep(faults: Faults, w: World, call: Call, rest: seq<Call>)
    ensures RunAll(faults, w, [call] + rest)
         == var (w1, a) := Issue(faults, w, call); if a.Failed? then Done(w1, false) else RunAll(faults, w1, rest)
  {
  }

  lemma IpCallsStep(pid: int, ips: seq<Addr>, k: nat, port: Port, comment: string, next: seq<Call>)
    requires k < |ips|
    ensures IpCalls(pid, ips[k..], port, comment) + next
         == [DropCall(pid, ips[k], port, comment)] + (IpCalls(pid, ips[k + 1..], port, comment) + next)
  {
  }

  lemma PortCallsStep(pid: int, ports: seq<Port>, j: nat, ips: seq<Addr>, comment: string, later: seq<Call>)
    requires j < |ports|
    ensures PortCalls(pid, ports[j..], ips, comment) + later
         == IpCalls(pid, ips[0..], ports[j], comment) + (PortCalls(pid, ports[j + 1..], ips, comment) + later)
  {
  }

  lemma PeerCallsStep(pid: int, peers: seq<Container>, i: nat, scopes: seq<string>, comment: string)
    requires i < |peers|
    ensures PeerCalls(pid, peers[i..], scopes, comment)
         == PortCalls(pid, Scope.InScope(peers[i], peers[i].ports, scopes)[0..], peers[i].ips, comment)
            + PeerCalls(pid, peers[i + 1..], scopes, comment)
    ensures Scope.InScope(peers[i], peers[i].ports, scopes) == [] ==>
              PeerCalls(pid, peers[i..], scopes, comment) == PeerCalls(pid, peers[i + 1..], scopes, comment)
  {
  }

  lemma IpCallsEnd(pid: int, ips: seq<Addr>, port: Port, comment: string, next: seq<Call>)
    ensures IpCalls(pid, ips[|ips|..], port, comment) + next == next
  {
  }

  lemma PortCallsEnd(pid: int, ports: seq<Port>, ips: seq<Addr>, comment: string, later: seq<Call>)
    ensures PortCalls(pid, ports[|ports|..], ips, comment) + later == later
  {
  }

  lemma PeerCallsEnd(faults: Faults, w: World, pid: int, peers: seq<Container>, scopes: seq<string>, comment: string)
    ensures RunAll(faults, w, PeerCalls(pid, peers[|peers|..], scopes, comment)) == Done(w, true)
  {
  }

  lemma MemberCallsStep(group: seq<Container>, i: nat, peers: seq<Container>, scopes: seq<string>, comment: string,
                        later: seq<Call>)
    requires i < |group|
    ensures MemberCalls(group[i..], peers, scopes, comment) + later
         == PeerCalls(group[i].pid, peers, scopes, comment)
            + (MemberCalls(group[i + 1..], peers, scopes, comment) + later)
  {
    assert group[i..][1..] == group[i + 1..];
  }
}
