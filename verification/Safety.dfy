/** Which traffic a plan spares: control ports by default, and peers of the same group always. */
module Safety {
  import opened Wrappers
  import opened Discovery
  import opened Backend
  import opened Kernel
  import opened Compilation
  import opened Api
  import S = State
  import Scope

  /** The compiled chain of netns p drops packets to (ip, proto, dport). */
  ghost predicate Blocks(plan: seq<Partition>, p: int, proto: Protocol, ip: Addr, dport: nat) {
    exists r :: r in Compiled(plan, p) && Hits(r, proto, ip, dport)
  }

  // ---- Scopes and unions ----

  lemma WiderMatch(peer: Container, port: Port, narrow: seq<string>, wide: seq<string>)
    requires Scope.Match(peer, port, narrow) && forall s :: s in narrow ==> s in wide
    ensures Scope.Match(peer, port, wide)
  {
  }

  /** Widening the scope of a partition never spares a packet that was dropped. */
  lemma WiderSeparates(part: Partition, wide: seq<string>, p: int, proto: Protocol, ip: Addr, dport: nat)
    requires Separates(part, p, proto, ip, dport) && forall s :: s in part.scope ==> s in wide
    ensures Separates(part.(scope := wide), p, proto, ip, dport)
  {
    hide Scope.Match;
    var i, j, m, peer :|
      && 0 <= i < |part.groups| && 0 <= j < |part.groups| && i != j
      && m in part.groups[i] && m.pid == p
      && peer in part.groups[j] && Serves(peer, part.scope, proto, ip, dport);
    var port :| port in peer.ports && Scope.Match(peer, port, part.scope)
      && port.protocol == proto && port.number == dport;
    WiderMatch(peer, port, part.scope, wide);
    assert Serves(peer, wide, proto, ip, dport);
  }

  /** `wide` is `narrow` with some scopes widened. */
  ghost predicate Widens(narrow: seq<Partition>, wide: seq<Partition>) {
    && |wide| == |narrow|
    && forall k :: 0 <= k < |narrow| ==>
                     wide[k] == narrow[k].(scope := wide[k].scope)
                     && forall s :: s in narrow[k].scope ==> s in wide[k].scope
  }

  lemma ScopeMonotone(narrow: seq<Partition>, wide: seq<Partition>, p: int, proto: Protocol, ip: Addr, dport: nat)
    requires Widens(narrow, wide)
    ensures Blocks(narrow, p, proto, ip, dport) ==> Blocks(wide, p, proto, ip, dport)
  {
    hide Separates, Compiled;
    CompiledDropsIff(narrow, p, proto, ip, dport);
    CompiledDropsIff(wide, p, proto, ip, dport);
    if part :| part in narrow && Separates(part, p, proto, ip, dport) {
      var k :| 0 <= k < |narrow| && narrow[k] == part;
      WiderSeparates(part, wide[k].scope, p, proto, ip, dport);
      assert wide[k] in wide;
    }
  }

  /** A plan drops what one of its parts drops: partitions do not interfere. */
  lemma UnionOfPartitions(xs: seq<Partition>, ys: seq<Partition>, p: int, proto: Protocol, ip: Addr, dport: nat)
    ensures Blocks(xs + ys, p, proto, ip, dport) <==> Blocks(xs, p, proto, ip, dport) || Blocks(ys, p, proto, ip, dport)
  {
    hide Separates, Compiled;
    CompiledDropsIff(xs, p, proto, ip, dport);
    CompiledDropsIff(ys, p, proto, ip, dport);
    CompiledDropsIff(xs + ys, p, proto, ip, dport);
    if part :| part in xs && Separates(part, p, proto, ip, dport) {
      assert part in xs + ys;
    }
    if part :| part in ys && Separates(part, p, proto, ip, dport) {
      assert part in xs + ys;
    }
  }

  // ---- The default scope spares control ports ----

  /** No two containers share an address. */
  ghost predicate UniqueIps(cs: seq<Container>) {
    forall a, b, ip :: a in cs && b in cs && ip in a.ips && ip in b.ips ==> a == b
  }

  ghost predicate P2POnly(scope: seq<string>) {
    forall s :: s in scope ==> s == Scope.CL_P2P || s == Scope.EL_P2P
  }

  lemma P2PMatch(peer: Container, port: Port, scope: seq<string>)
    requires P2POnly(scope) && Scope.Match(peer, port, scope)
    ensures Scope.IsP2P(port.name)
  {
    hide Scope.IsP2P, Scope.IsControl, Scope.ClientType;
    var s :| s in scope && Scope.Hits(peer, port, s);
    assert Scope.CL_P2P[0] == 'c' && Scope.EL_P2P[0] == 'e' && Scope.CONTROL[0] == 'i';
  }

  lemma {:induction false} ResolvedScopes(docker: Docker, ps: seq<S.Partition>, k: nat, part: Partition)
    requires k <= |ps| && ResolvePartitions(docker, ps, k).Some? && part in ResolvePartitions(docker, ps, k).value
    requires forall q :: q in ps ==> P2POnly(q.scope)
    ensures P2POnly(part.scope)
  {
    var init := ResolvePartitions(docker, ps, k - 1).value;
    if part in init {
      ResolvedScopes(docker, ps, k - 1, part);
    } else {
      assert ps[k - 1] in ps;
      assert part.scope == S.EffectiveScope(ps[k - 1]);
    }
  }

  /**
   * With scopes omitted or p2p only, an applied state never drops a packet to a port of a member that none of
   * its p2p ports shares number and protocol with: RPC, engine, metrics and HTTP ports stay reachable.
   */
  lemma DefaultScopeSparesControl(docker: Docker, s: S.State, peer: Container, p: int, proto: Protocol, ip: Addr,
                                  dport: nat)
    requires Resolve(docker, s).Some? && forall q :: q in s.partitions ==> P2POnly(q.scope)
    requires var plan := Resolve(docker, s).value.partitions;
             UniqueIps(Members(plan)) && peer in Members(plan) && ip in peer.ips
    requires forall port :: port in peer.ports && Scope.IsP2P(port.name) ==>
                              port.number != dport || port.protocol != proto
    ensures !Blocks(Resolve(docker, s).value.partitions, p, proto, ip, dport)
  {
    var plan := Resolve(docker, s).value.partitions;
    CompiledDropsIff(plan, p, proto, ip, dport);
    hide Compiled, Resolve, Separates, Scope.IsP2P, Members;
    if part :| part in plan && Separates(part, p, proto, ip, dport) {
      ResolvedScopesOf(docker, s, part);
      var other, port := SeparatedOwner(plan, part, p, proto, ip, dport);
      assert false;
    }
  }

  /** Under p2p scopes, what separates a netns from an address is a p2p port of an owner of the address. */
  lemma SeparatedOwner(plan: seq<Partition>, part: Partition, p: int, proto: Protocol, ip: Addr, dport: nat)
    returns (owner: Container, port: Port)
    requires part in plan && P2POnly(part.scope) && Separates(part, p, proto, ip, dport)
    ensures owner in Members(plan) && ip in owner.ips
    ensures port in owner.ports && Scope.IsP2P(port.name) && port.number == dport && port.protocol == proto
  {
    hide Scope.IsP2P, Scope.Match, Members, P2POnly;
    var i, j, m, peer :|
      && 0 <= i < |part.groups| && 0 <= j < |part.groups| && i != j
      && m in part.groups[i] && m.pid == p
      && peer in part.groups[j] && Serves(peer, part.scope, proto, ip, dport);
    owner := peer;
    MembersIff(plan, owner);
    port :| port in owner.ports && Scope.Match(owner, port, part.scope)
      && port.protocol == proto && port.number == dport;
    P2PMatch(owner, port, part.scope);
  }

  lemma ResolvedScopesOf(docker: Docker, s: S.State, part: Partition)
    requires Resolve(docker, s).Some? && part in Resolve(docker, s).value.partitions
    requires forall q :: q in s.partitions ==> P2POnly(q.scope)
    ensures P2POnly(part.scope)
  {
    ResolvedScopes(docker, s.partitions, |s.partitions|, part);
  }

  // ---- Members of one group ----

  /** Containers, PIDs and addresses of a partition belong together one to one. */
  ghost predicate OwnIdentity(groups: seq<seq<Container>>) {
    forall i, j, a, b ::
      0 <= i < |groups| && 0 <= j < |groups| && a in groups[i] && b in groups[j] ==>
        && (a.pid == b.pid ==> a.id == b.id)
        && forall ip :: ip in a.ips && ip in b.ips ==> a.id == b.id
  }

  /** A partition never drops traffic between two members of the same group, in whatever scope. */
  lemma IntraGroupSafe(docker: Docker, k: nat, n: nat, part: Partition, g: nat, m: Container, peer: Container,
                       proto: Protocol, ip: Addr, dport: nat)
    requires Grouped(docker, k, n) == Some(part.groups) && OwnIdentity(part.groups)
    requires g < |part.groups| && m in part.groups[g] && peer in part.groups[g] && ip in peer.ips
    ensures !Blocks([part], m.pid, proto, ip, dport)
  {
    hide Compiled, Serves;
    CompiledDropsIff([part], m.pid, proto, ip, dport);
    assert Disjoint(part.groups);
    SameGroup(part, g, m, peer, proto, ip, dport);
  }

  lemma SameGroup(part: Partition, g: nat, m: Container, peer: Container, proto: Protocol, ip: Addr, dport: nat)
    requires Disjoint(part.groups) && OwnIdentity(part.groups)
    requires g < |part.groups| && m in part.groups[g] && peer in part.groups[g] && ip in peer.ips
    ensures !Separates(part, m.pid, proto, ip, dport)
  {
  }

  // ---- Order does not matter ----

  ghost function MemberSets(groups: seq<seq<Container>>): seq<set<Container>> {
    seq(|groups|, i requires 0 <= i < |groups| => set c | c in groups[i])
  }

  function Without<T>(xs: seq<T>, i: nat): seq<T>
    requires i < |xs|
  {
    xs[..i] + xs[i + 1..]
  }

  lemma WithoutCounts<T>(xs: seq<T>, i: nat)
    requires i < |xs|
    ensures multiset(Without(xs, i)) == multiset(xs) - multiset{xs[i]}
  {
    assert xs == xs[..i] + [xs[i]] + xs[i + 1..];
  }

  lemma WithoutHas<T>(xs: seq<T>, i: nat, j: nat)
    requires i < |xs| && j < |xs| && i != j
    ensures xs[j] in multiset(Without(xs, i))
  {
  }

  lemma PairInMultiset<T>(xs: seq<T>, ys: seq<T>, i: nat, j: nat) returns (i': nat, j': nat)
    requires multiset(xs) == multiset(ys) && i < |xs| && j < |xs| && i != j
    ensures i' < |ys| && j' < |ys| && i' != j' && ys[i'] == xs[i] && ys[j'] == xs[j]
  {
    assert xs[i] in multiset(ys);
    i' :| 0 <= i' < |ys| && ys[i'] == xs[i];
    WithoutCounts(xs, i);
    WithoutCounts(ys, i');
    WithoutHas(xs, i, j);
    var rest := Without(ys, i');
    assert xs[j] in multiset(rest) by {
      hide Without;
    }
    var k :| 0 <= k < |rest| && rest[k] == xs[j];
    j' := if k < i' then k else k + 1;
  }

  /** Reordering the groups, or the members of a group, changes nothing about what a partition drops. */
  lemma OrderIrrelevant(a: Partition, b: Partition, p: int, proto: Protocol, ip: Addr, dport: nat)
    requires multiset(MemberSets(a.groups)) == multiset(MemberSets(b.groups))
    requires forall s :: s in a.scope <==> s in b.scope
    ensures Blocks([a], p, proto, ip, dport) <==> Blocks([b], p, proto, ip, dport)
  {
    hide Compiled;
    CompiledDropsIff([a], p, proto, ip, dport);
    CompiledDropsIff([b], p, proto, ip, dport);
    if Separates(a, p, proto, ip, dport) {
      Reordered(a, b, p, proto, ip, dport);
    }
    if Separates(b, p, proto, ip, dport) {
      Reordered(b, a, p, proto, ip, dport);
    }
  }

  lemma Reordered(a: Partition, b: Partition, p: int, proto: Protocol, ip: Addr, dport: nat)
    requires multiset(MemberSets(a.groups)) == multiset(MemberSets(b.groups))
    requires forall s :: s in a.scope ==> s in b.scope
    requires Separates(a, p, proto, ip, dport)
    ensures Separates(b, p, proto, ip, dport)
  {
    WiderSeparates(a, b.scope, p, proto, ip, dport);
    hide Serves;
    var i, j, m, peer :|
      && 0 <= i < |a.groups| && 0 <= j < |a.groups| && i != j
      && m in a.groups[i] && m.pid == p
      && peer in a.groups[j] && Serves(peer, b.scope, proto, ip, dport);
    var xs, ys := MemberSets(a.groups), MemberSets(b.groups);
    var i', j' := PairInMultiset(xs, ys, i, j);
    assert m in xs[i] && peer in xs[j];
    assert m in b.groups[i'] && peer in b.groups[j'];
  }
}
