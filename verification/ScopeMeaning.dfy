/**
 * What the scope names mean, from the state a client sends to the packets a netns drops: everything is said in scope
 * names, label values and port names, as they stand in requests and on containers.
 */
module ScopeMeaning {
  import opened Wrappers
  import opened Discovery
  import opened Backend
  import opened Kernel
  import opened Compilation
  import opened Api
  import opened Runs
  import S = State
  import T = ETag
  import G = Guarantees
  import Safety
  import Scope

  ghost predicate Labelled(c: Container, clientType: string) {
    var key := "com.kurtosistech.custom.ethereum-package.client-type";
    key in c.labels && c.labels[key] == clientType
  }

  ghost predicate Gossip(name: string) {
    name in ["tcp-discovery", "udp-discovery", "quic-discovery", "libp2p", "devp2p"]
  }

  ghost predicate Control(name: string) {
    name in ["rpc", "engine-rpc", "ws", "http", "metrics"]
  }

  /** The scope that a client asked for covers a port of this name on container c. */
  ghost predicate Covers(scope: seq<string>, c: Container, name: string) {
    || (("cl_p2p" in scope || scope == []) && Labelled(c, "beacon") && Gossip(name))
    || (("el_p2p" in scope || scope == []) && Labelled(c, "execution") && Gossip(name))
    || ("include_control" in scope && Control(name))
  }

  lemma MatchMeans(peer: Container, port: Port, part: S.Partition)
    ensures Scope.Match(peer, port, S.EffectiveScope(part)) <==> Covers(part.scope, peer, port.name)
  {
    var scopes := S.EffectiveScope(part);
    if Covers(part.scope, peer, port.name) {
      var s := if ("cl_p2p" in part.scope || part.scope == []) && Labelled(peer, "beacon") && Gossip(port.name)
      then "cl_p2p" else if ("el_p2p" in part.scope || part.scope == []) && Labelled(peer, "execution")
                            && Gossip(port.name) then "el_p2p" else "include_control";
      assert s in scopes && Scope.Hits(peer, port, s);
    }
  }

  /** Container c is among the answers for group i of partition k. */
  ghost predicate Answered(docker: Docker, k: nat, i: nat, c: Container) {
    docker.group(k, i).Some? && c in docker.group(k, i).value
  }

  /** Container c has an address and, covered by the scope, a port there. */
  ghost predicate Offers(c: Container, scope: seq<string>, proto: Protocol, ip: Addr, dport: nat) {
    ip in c.ips
    && exists port :: port in c.ports && port.protocol == proto && port.number == dport && Covers(scope, c, port.name)
  }

  /** Partition k has a container with PID p in one group, and in another one that offers this endpoint. */
  ghost predicate CutsOff(docker: Docker, part: S.Partition, k: nat, p: int, proto: Protocol, ip: Addr, dport: nat) {
    exists i: nat, j: nat, m, peer ::
      && i < |part.groups| && j < |part.groups| && i != j
      && Answered(docker, k, i, m) && m.pid == p
      && Answered(docker, k, j, peer) && Offers(peer, part.scope, proto, ip, dport)
  }

  lemma ServesMeans(peer: Container, part: S.Partition, proto: Protocol, ip: Addr, dport: nat)
    ensures Serves(peer, S.EffectiveScope(part), proto, ip, dport) <==> Offers(peer, part.scope, proto, ip, dport)
  {
    forall port
      ensures Scope.Match(peer, port, S.EffectiveScope(part)) <==> Covers(part.scope, peer, port.name)
    {
      MatchMeans(peer, port, part);
    }
    hide Scope.Match, Covers;
  }

  lemma SeparatesMeans(docker: Docker, ps: seq<S.Partition>, k: nat, p: int, proto: Protocol, ip: Addr, dport: nat)
    requires k < |ps| && ResolvePartitions(docker, ps, |ps|).Some?
    ensures |ResolvePartitions(docker, ps, |ps|).value| == |ps|
    ensures Separates(ResolvePartitions(docker, ps, |ps|).value[k], p, proto, ip, dport)
       <==> CutsOff(docker, ps[k], k, p, proto, ip, dport)
  {
    ResolvePartitionsIff(docker, ps, |ps|);
    hide ResolvePartitions, Serves, Offers, S.EffectiveScope;
    var part := ResolvePartitions(docker, ps, |ps|).value[k];
    forall peer
      ensures Serves(peer, part.scope, proto, ip, dport) <==> Offers(peer, ps[k].scope, proto, ip, dport)
    {
      ServesMeans(peer, ps[k], proto, ip, dport);
    }
    forall i: nat, c | i < |ps[k].groups|
      ensures c in part.groups[i] <==> Answered(docker, k, i, c)
    {
      assert Some(part.groups[i]) == docker.group(k, i);
    }
  }

  /**
   * From the state a client sends to the packets that are dropped: the compiled chain of netns p drops what goes to
   * an endpoint exactly when some partition has a container with PID p in one group, and in another group one that
   * owns the address and has a port there that the scope names cover, by port name and client type.
   */
  lemma DroppedIff(docker: Docker, s: S.State, p: int, proto: Protocol, ip: Addr, dport: nat)
    requires Resolve(docker, s).Some?
    ensures (exists r :: r in Compiled(Resolve(docker, s).value.partitions, p)
                         && r.protocol == proto && r.dst == ip && r.dport == dport)
       <==> exists k: nat :: k < |s.partitions| && CutsOff(docker, s.partitions[k], k, p, proto, ip, dport)
  {
    var ps, plan := s.partitions, Resolve(docker, s).value.partitions;
    CompiledDropsIff(plan, p, proto, ip, dport);
    hide Compiled, Separates, CutsOff, ResolvePartitions, ResolveShaping;
    forall k: nat | k < |ps|
      ensures |plan| == |ps|
      ensures Separates(plan[k], p, proto, ip, dport) <==> CutsOff(docker, ps[k], k, p, proto, ip, dport)
    {
      SeparatesMeans(docker, ps, k, p, proto, ip, dport);
    }
    if part :| part in plan && Separates(part, p, proto, ip, dport) {
      PlanLength(docker, ps);
      var k :| 0 <= k < |plan| && plan[k] == part;
    }
    if k: nat :| k < |ps| && CutsOff(docker, ps[k], k, p, proto, ip, dport) {
      assert plan[k] in plan;
    }
  }

  lemma PlanLength(docker: Docker, ps: seq<S.Partition>)
    requires ResolvePartitions(docker, ps, |ps|).Some?
    ensures |ResolvePartitions(docker, ps, |ps|).value| == |ps|
  {
    ResolvePartitionsIff(docker, ps, |ps|);
  }

  // ---- One port ----

  /** The chain of netns p drops what goes to this port of an address. */
  ghost predicate Drops(docker: Docker, s: S.State, p: int, ip: Addr, port: Port)
    requires Resolve(docker, s).Some?
  {
    exists r :: r in Compiled(Resolve(docker, s).value.partitions, p)
                && r.protocol == port.protocol && r.dst == ip && r.dport == port.number
  }

  /** Partition k sets a container with PID p apart from `peer`, which owns the address, alone, and has the port. */
  ghost predicate Across(docker: Docker, s: S.State, k: nat, p: int, peer: Container, ip: Addr, port: Port) {
    && k < |s.partitions|
    && ip in peer.ips && port in peer.ports
    && (exists i: nat, j: nat, m ::
          && i < |s.partitions[k].groups| && j < |s.partitions[k].groups| && i != j
          && Answered(docker, k, i, m) && m.pid == p && Answered(docker, k, j, peer))
    && forall h: nat, i: nat, c | h < |s.partitions| && i < |s.partitions[h].groups| && Answered(docker, h, i, c)
      :: ip in c.ips ==> c == peer
  }

  /** All other ports of the container with this number and protocol have the same kind of name, as far as p2p goes. */
  ghost predicate NoGossipBeside(peer: Container, port: Port) {
    forall other :: other in peer.ports && other.number == port.number && other.protocol == port.protocol ==>
                      !Gossip(other.name)
  }

  /** All partitions of the state ask for this scope. */
  ghost predicate AllScoped(s: S.State, scope: seq<string>) {
    forall q :: q in s.partitions ==> q.scope == scope
  }

  lemma DropsIffOffers(docker: Docker, s: S.State, scope: seq<string>, k: nat, p: int, peer: Container, ip: Addr,
                       port: Port)
    requires Resolve(docker, s).Some? && AllScoped(s, scope) && Across(docker, s, k, p, peer, ip, port)
    ensures Drops(docker, s, p, ip, port) <==> Offers(peer, scope, port.protocol, ip, port.number)
  {
    DroppedIff(docker, s, p, port.protocol, ip, port.number);
    hide Compiled, Resolve, Covers;
    if Offers(peer, scope, port.protocol, ip, port.number) {
      assert CutsOff(docker, s.partitions[k], k, p, port.protocol, ip, port.number);
    }
  }

  /** "cl_p2p" cuts the p2p ports of beacon nodes off, and no others. */
  lemma ClP2PMeans(docker: Docker, s: S.State, k: nat, p: int, peer: Container, ip: Addr, port: Port)
    requires Resolve(docker, s).Some? && AllScoped(s, ["cl_p2p"]) && Across(docker, s, k, p, peer, ip, port)
    requires port.name in ["tcp-discovery", "udp-discovery", "quic-discovery", "libp2p", "devp2p"]
    ensures Drops(docker, s, p, ip, port) <==> Labelled(peer, "beacon")
  {
    DropsIffOffers(docker, s, ["cl_p2p"], k, p, peer, ip, port);
    hide Drops, Across;
    assert "cl_p2p"[0] == 'c' && "el_p2p"[0] == 'e' && "include_control"[0] == 'i';
  }

  /** "el_p2p" cuts the p2p ports of execution clients off, and no others. */
  lemma ElP2PMeans(docker: Docker, s: S.State, k: nat, p: int, peer: Container, ip: Addr, port: Port)
    requires Resolve(docker, s).Some? && AllScoped(s, ["el_p2p"]) && Across(docker, s, k, p, peer, ip, port)
    requires port.name in ["tcp-discovery", "udp-discovery", "quic-discovery", "libp2p", "devp2p"]
    ensures Drops(docker, s, p, ip, port) <==> Labelled(peer, "execution")
  {
    DropsIffOffers(docker, s, ["el_p2p"], k, p, peer, ip, port);
    hide Drops, Across;
    assert "cl_p2p"[0] == 'c' && "el_p2p"[0] == 'e' && "include_control"[0] == 'i';
  }

  /** Without a scope, the p2p ports of both are cut off, and of nobody else. */
  lemma DefaultScopeMeans(docker: Docker, s: S.State, k: nat, p: int, peer: Container, ip: Addr, port: Port)
    requires Resolve(docker, s).Some? && AllScoped(s, []) && Across(docker, s, k, p, peer, ip, port)
    requires port.name in ["tcp-discovery", "udp-discovery", "quic-discovery", "libp2p", "devp2p"]
    ensures Drops(docker, s, p, ip, port) <==> Labelled(peer, "beacon") || Labelled(peer, "execution")
  {
    DropsIffOffers(docker, s, [], k, p, peer, ip, port);
    hide Drops, Across;
  }

  /** Control ports are cut off exactly by "include_control", on whatever container. */
  lemma ControlMeans(docker: Docker, s: S.State, scope: seq<string>, k: nat, p: int, peer: Container, ip: Addr,
                     port: Port)
    requires Resolve(docker, s).Some? && AllScoped(s, scope) && Across(docker, s, k, p, peer, ip, port)
    requires port.name in ["rpc", "engine-rpc", "ws", "http", "metrics"] && NoGossipBeside(peer, port)
    ensures Drops(docker, s, p, ip, port) <==> "include_control" in scope
  {
    DropsIffOffers(docker, s, scope, k, p, peer, ip, port);
    hide Drops, Across;
  }

  /**
   * In the kernel: after a successful apply, from any reachable state, the chain of a target netns drops what goes
   * to an endpoint exactly when the state cuts it off.
   */
  lemma AppliedDropsIff(faults: Faults, hash: T.Hash, start: Sys, steps: seq<Step>, desired: S.State, docker: Docker,
                        p: Pid, proto: Protocol, ip: Addr, dport: nat)
    requires Fresh(start) && G.AllSteady(steps) && OnePid(docker, desired)
    ensures var s := Run(faults, hash, start, steps);
            var (s1, stage) := ApplyLocked(faults, s, desired, docker);
            stage.None? && p in s.w.nets ==>
              && p in s1.w.nets && Resolve(docker, desired).Some?
              && (p in Pids(Targets(Resolve(docker, desired).value.partitions)) ==>
                    ((exists r :: r in Rules(s1.w.nets[p]) && r.protocol == proto && r.dst == ip && r.dport == dport)
                     <==> exists k: nat :: k < |desired.partitions|
                                           && CutsOff(docker, desired.partitions[k], k, p, proto, ip, dport)))
  {
    G.SuccessEnacts(faults, hash, start, steps, desired, docker, p);
    hide Run, ApplyLocked, Compiled, Resolve, Targets;
    var s := Run(faults, hash, start, steps);
    if ApplyLocked(faults, s, desired, docker).1.None? && p in s.w.nets {
      DroppedIff(docker, desired, p, proto, ip, dport);
    }
  }
}
