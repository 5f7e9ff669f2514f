/** Which ports of a peer a disruption scope hits (internal/scope/scope.go). */
module Scope {
  import opened Discovery

  const CL_P2P := "cl_p2p"
  const EL_P2P := "el_p2p"
  const CONTROL := "include_control"
  const CLIENT_TYPE_LABEL := "com.kurtosistech.custom.ethereum-package.client-type"

  const P2P_PORT_NAMES := {"tcp-discovery", "udp-discovery", "quic-discovery", "libp2p", "devp2p"}
  const CONTROL_PORT_NAMES := {"rpc", "engine-rpc", "ws", "http", "metrics"}

  predicate IsP2P(name: string) {
    name in P2P_PORT_NAMES
  }

  predicate IsControl(name: string) {
    name in CONTROL_PORT_NAMES
  }

  function ClientType(c: Container): string {
    if CLIENT_TYPE_LABEL in c.labels then c.labels[CLIENT_TYPE_LABEL] else ""
  }

  /** Scope `s` alone hits port `p` of `peer`. */
  predicate Hits(peer: Container, p: Port, s: string) {
    || (s == CL_P2P && ClientType(peer) == "beacon" && IsP2P(p.name))
    || (s == EL_P2P && ClientType(peer) == "execution" && IsP2P(p.name))
    || (s == CONTROL && IsControl(p.name))
  }

  predicate Match(peer: Container, p: Port, scopes: seq<string>) {
    exists s :: s in scopes && Hits(peer, p, s)
  }

  /** The ports among `ports` that some scope hits, in catalog order. */
  function InScope(peer: Container, ports: seq<Port>, scopes: seq<string>): (out: seq<Port>)
  {
    if ports == [] then []
    else (if Match(peer, ports[0], scopes) then [ports[0]] else []) + InScope(peer, ports[1..], scopes)
  }

  lemma {:induction false} InScopeIff(peer: Container, ports: seq<Port>, scopes: seq<string>, p: Port)
    ensures p in InScope(peer, ports, scopes) <==> p in ports && Match(peer, p, scopes)
  {
    if ports == [] {
    } else {
      InScopeIff(peer, ports[1..], scopes, p);
      assert ports == [ports[0]] + ports[1..];
    }
  }

  method FilterPorts(peer: Container, scopes: seq<string>) returns (out: seq<Port>)
    ensures out == InScope(peer, peer.ports, scopes)
  {
    out := [];
    for i := 0 to |peer.ports|
      invariant InScope(peer, peer.ports, scopes) == out + InScope(peer, peer.ports[i..], scopes)
    {
      var p := peer.ports[i];
      InScopeStep(peer, scopes, i);
      var hit := MatchLoop(peer, p, scopes);
      if hit {
        out := out + [p];
      }
    }
  }

  lemma InScopeStep(peer: Container, scopes: seq<string>, i: nat)
    requires i < |peer.ports|
    ensures InScope(peer, peer.ports[i..], scopes)
         == (if Match(peer, peer.ports[i], scopes) then [peer.ports[i]] else [])
            + InScope(peer, peer.ports[i + 1..], scopes)
  {
  }

  /** Match as the source runs it: a switch inside a loop over the scopes. */
  method MatchLoop(peer: Container, p: Port, scopes: seq<string>) returns (hit: bool)
    ensures hit <==> Match(peer, p, scopes)
  {
    var clientType := ClientType(peer);
    for i := 0 to |scopes|
      invariant forall k :: 0 <= k < i ==> !Hits(peer, p, scopes[k])
    {
      var s := scopes[i];
      assert s in scopes;
      if s == CL_P2P {
        if clientType == "beacon" && IsP2P(p.name) {
          return true;
        }
      } else if s == EL_P2P {
        if clientType == "execution" && IsP2P(p.name) {
          return true;
        }
      } else if s == CONTROL {
        if IsControl(p.name) {
          return true;
        }
      }
    }
    hit := false;
  }
}
