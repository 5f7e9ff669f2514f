/** Where a standing drop rule comes from: a plan that was asked for, whatever failed before or since. */
module Provenance {
  import opened Wrappers
  import opened Discovery
  import opened Backend
  import opened Kernel
  import opened Api
  import opened Runs
  import opened Compilation
  import opened Safety
  import S = State
  import T = ETag
  import I = Iptables
  import Tc
  import Scope
  import N = Netfilter
  import Q = Qdiscs
  import P = Progress
  import G = Guarantees

  /** Every rule of `after` stood before, or is one of `rules`. */
  ghost predicate Adds(before: Net, after: Net, rules: seq<Rule>) {
    forall r :: r in Rules(after) ==> r in Rules(before) || r in rules
  }

  lemma AddsTrans(a: Net, b: Net, c: Net, rules: seq<Rule>)
    requires Adds(a, b, rules) && Adds(b, c, rules)
    ensures Adds(a, c, rules)
  {
  }

  lemma DrainedAdds(a: Net, b: Net, rules: seq<Rule>)
    requires N.Drained(a, b)
    ensures Adds(a, b, rules)
  {
  }

  // ---- One operation ----

  lemma AppendAdds(n: Net, rule: Rule, fault: Fault)
    ensures var m := Struck(n, AppendRule(rule), fault).0;
            Rules(m) == Rules(n) || Rules(m) == Rules(n) + [rule]
  {
  }

  lemma {:induction false} RunAllAdds(faults: Faults, w: World, calls: seq<Call>, p: Pid)
    requires p in w.nets && N.AppendsOnly(calls)
    ensures var w1 := I.RunAll(faults, w, calls).w;
            p in w1.nets && Adds(w.nets[p], w1.nets[p], RulesOf(calls, p))
    decreases calls
  {
    hide Issue, Struck, Rules;
    if calls == [] {
    } else {
      var call := calls[0];
      assert calls == [call] + calls[1..];
      IssueEffect(faults, w, call, p);
      AppendAdds(w.nets[p], call.cmd.rule, faults(w.clock));
      RunAllAdds(faults, Issue(faults, w, call).0, calls[1..], p);
    }
  }

  lemma {:induction false} InstallAllAdds(faults: Faults, w: World, plan: seq<Partition>, p: Pid)
    requires p in w.nets && N.AppendsOnly(I.PlanCalls(plan))
    ensures var w1 := I.InstallAll(faults, w, plan).w;
            p in w1.nets && Adds(w.nets[p], w1.nets[p], Compiled(plan, p))
    decreases plan
  {
    hide I.RunAll, Rules;
    if plan == [] || !plan[0].symmetric {
    } else {
      var calls := I.GroupCalls(plan[0], 0);
      assert I.PlanCalls(plan) == calls + I.PlanCalls(plan[1..]);
      RulesOfConcat(calls, I.PlanCalls(plan[1..]), p);
      RunAllAdds(faults, w, calls, p);
      InstallAllAdds(faults, I.RunAll(faults, w, calls).w, plan[1..], p);
    }
  }

  lemma InstallRulesAdds(faults: Faults, s: Sys, plan: Plan, p: Pid)
    requires p in s.w.nets
    ensures var n := InstallRulesLocked(faults, s, plan).0.w.nets;
            p in n && Adds(s.w.nets[p], n[p], Compiled(plan.partitions, p))
  {
    hide I.EnsureAll, I.InstallAll, I.Cleared, Compiled, N.SparesQdiscs, N.Drained, Adds;
    var rules := Compiled(plan.partitions, p);
    N.ClearEffect(faults, s.w, s.ipt, p);
    var c := I.Cleared(faults, s.w, s.ipt).w;
    DrainedAdds(s.w.nets[p], c.nets[p], rules);
    var ts := Targets(plan.partitions);
    N.EnsureAllEffect(faults, c, ts, p);
    var e := I.EnsureAll(faults, c, ts).w;
    DrainedAdds(c.nets[p], e.nets[p], rules);
    AddsTrans(s.w.nets[p], c.nets[p], e.nets[p], rules);
    N.PlanAppendsOnly(plan.partitions);
    InstallAllAdds(faults, e, plan.partitions, p);
    AddsTrans(s.w.nets[p], e.nets[p], I.InstallAll(faults, e, plan.partitions).w.nets[p], rules);
  }

  lemma InstallQdiscsAdds(faults: Faults, s: Sys, plan: Plan, p: Pid, rules: seq<Rule>)
    requires p in s.w.nets
    ensures var n := InstallQdiscsLocked(faults, s, plan).0.w.nets;
            p in n && Adds(s.w.nets[p], n[p], rules)
  {
    hide Tc.Applied;
    Q.ApplyEffect(faults, s.w, s.tc, plan.shaping, p);
  }

  lemma ClearAdds(faults: Faults, s: Sys, p: Pid, rules: seq<Rule>)
    requires p in s.w.nets
    ensures var n := ClearLocked(faults, s).0.w.nets;
            p in n && Adds(s.w.nets[p], n[p], rules)
  {
    hide I.Cleared, Tc.Cleared;
    Q.ClearEffect(faults, s.w, s.tc, p);
    N.ClearEffect(faults, Tc.Cleared(faults, s.w, s.tc).w, s.ipt, p);
  }

  lemma RollbackAdds(faults: Faults, before: Net, s: Sys, p: Pid, rules: seq<Rule>)
    requires p in s.w.nets && Adds(before, s.w.nets[p], rules)
    ensures var n := ClearLocked(faults, s).0.w.nets;
            p in n && Adds(before, n[p], rules)
  {
    hide ClearLocked, Adds;
    ClearAdds(faults, s, p, rules);
    AddsTrans(before, s.w.nets[p], ClearLocked(faults, s).0.w.nets[p], rules);
  }

  /** The rules a plan asks for in netns p; none where it does not resolve. */
  ghost function AskedRules(docker: Docker, s: S.State, p: int): seq<Rule> {
    if Resolve(docker, s).Some? then Compiled(Resolve(docker, s).value.partitions, p) else []
  }

  /** An apply, wherever it fails, adds no rule that its plan does not ask for. */
  lemma ApplyAdds(faults: Faults, s: Sys, desired: S.State, docker: Docker, p: Pid)
    requires p in s.w.nets
    ensures var n := ApplyLocked(faults, s, desired, docker).0.w.nets;
            p in n && Adds(s.w.nets[p], n[p], AskedRules(docker, desired, p))
  {
    hide ClearLocked, TornDown, InstallRulesLocked, InstallQdiscsLocked, Adds, Compiled;
    var rules := AskedRules(docker, desired, p);
    ClearAdds(faults, s, p, rules);
    if Resolve(docker, desired).Some? {
      var plan := Resolve(docker, desired).value;
      var before := s.w.nets[p];
      var s1 := ClearLocked(faults, s).0;
      TornDownEffect(faults, s1, plan);
      var t := TornDown(faults, s1, plan);
      InstallRulesAdds(faults, t, plan, p);
      var s2 := InstallRulesLocked(faults, t, plan).0;
      AddsTrans(before, s1.w.nets[p], s2.w.nets[p], rules);
      RollbackAdds(faults, before, s2, p, rules);
      InstallQdiscsAdds(faults, s2, plan, p, rules);
      var s3 := InstallQdiscsLocked(faults, s2, plan).0;
      AddsTrans(before, s2.w.nets[p], s3.w.nets[p], rules);
      RollbackAdds(faults, before, s3, p, rules);
    }
  }

  // ---- Whole runs ----

  /** This step asks for rule r in netns p. */
  ghost predicate Asks(step: Step, p: int, r: Rule) {
    match step
    case Put(body, _, docker) => body.Some? && r in AskedRules(docker, body.value, p)
    case Config(desired, docker) => r in AskedRules(docker, desired, p)
    case _ => false
  }

  /** Every rule of netns p stood there before, or this step asks for it. */
  ghost predicate Justified(before: map<Pid, Net>, after: map<Pid, Net>, step: Step, p: Pid) {
    p in after ==> forall r :: r in Rules(after[p]) ==> (p in before && r in Rules(before[p])) || Asks(step, p, r)
  }

  lemma SameJustified(nets: map<Pid, Net>, step: Step, p: Pid)
    ensures Justified(nets, nets, step, p)
  {
  }

  lemma ApplyJustified(faults: Faults, s: Sys, desired: S.State, docker: Docker, step: Step, p: Pid)
    requires (step.Put? && step.body == Some(desired) && step.docker == docker) || step == Step.Config(desired, docker)
    ensures Justified(s.w.nets, ApplyLocked(faults, s, desired, docker).0.w.nets, step, p)
  {
    hide ApplyLocked, AskedRules;
    ApplyLockedRecords(faults, s, desired, docker);
    if p in s.w.nets {
      ApplyAdds(faults, s, desired, docker, p);
    }
  }

  lemma ClearJustified(faults: Faults, s: Sys, p: Pid)
    ensures Justified(s.w.nets, ClearLocked(faults, s).0.w.nets, Clear, p)
  {
    hide ClearLocked;
    ClearLockedRecords(faults, s);
    if p in s.w.nets {
      ClearAdds(faults, s, p, []);
    }
  }

  lemma RestartJustified(faults: Faults, s: Sys, step: Step, p: Pid)
    requires step.Restart?
    ensures Justified(s.w.nets, Restarted(faults, s, step.chains, step.qdiscs).w.nets, step, p)
  {
    G.RecoveredExtends(faults, s.w, step.chains, step.qdiscs);
    if p in s.w.nets {
      var w1 := s.w;
      if step.chains.Some? {
        N.ClearTargetsEffect(faults, s.w, step.chains.value, p);
        w1 := I.ClearTargets(faults, s.w, step.chains.value).w;
      }
      if step.qdiscs.Some? {
        Q.DropRootsEffect(faults, w1, step.qdiscs.value, p);
      }
    }
    hide I.ClearTargets, Tc.DropRoots;
  }

  lemma NetnsJustified(faults: Faults, hash: T.Hash, s: Sys, step: Step, p: Pid)
    requires step.Spawn? || step.Die?
    ensures Justified(s.w.nets, Next(faults, hash, s, step).w.nets, step, p)
  {
  }

  lemma NextJustified(faults: Faults, hash: T.Hash, s: Sys, step: Step, p: Pid)
    ensures Justified(s.w.nets, Next(faults, hash, s, step).w.nets, step, p)
  {
    hide Justified, ApplyLocked, ClearLocked, Restarted, S.Valid, S.Clone, T.Allows, T.Tag, T.Encodable;
    SameJustified(s.w.nets, step, p);
    match step
    case Put(body, ifMatch, docker) =>
      if body.Some? {
        ApplyJustified(faults, s, body.value, docker, step, p);
      }
    case Config(desired, docker) =>
      ApplyJustified(faults, s, desired, docker, step, p);
    case Clear =>
      ClearJustified(faults, s, p);
    case Restart(chains, qdiscs) =>
      RestartJustified(faults, s, step, p);
    case Die(_) =>
      NetnsJustified(faults, hash, s, step, p);
    case Spawn(_, _) =>
      NetnsJustified(faults, hash, s, step, p);
  }

  /** Every drop rule that stands in any netns after any run was asked for in that netns by some request of the run. */
  lemma {:induction false} RulesWereAsked(faults: Faults, hash: T.Hash, start: Sys, steps: seq<Step>, p: Pid, r: Rule)
    requires Fresh(start)
    requires var nets := Run(faults, hash, start, steps).w.nets; p in nets && r in Rules(nets[p])
    ensures exists step :: step in steps && Asks(step, p, r)
  {
    hide Next, Asks;
    if steps == [] {
    } else {
      var init, last := steps[..|steps| - 1], steps[|steps| - 1];
      var before := Run(faults, hash, start, init);
      NextJustified(faults, hash, before, last, p);
      if !Asks(last, p, r) {
        RulesWereAsked(faults, hash, start, init, p, r);
        var step :| step in init && Asks(step, p, r);
        assert step in steps;
      } else {
        assert last in steps;
      }
    }
  }

  // ---- Traffic that no run ever drops ----

  /** The plan this step asks for, if it is a request that resolves. */
  ghost function PlanOf(step: Step): Option<Plan> {
    match step
    case Put(body, _, docker) => if body.Some? then Resolve(docker, body.value) else None
    case Config(desired, docker) => Resolve(docker, desired)
    case _ => None
  }

  ghost function StateOf(step: Step): S.State {
    match step
    case Put(body, _, _) => if body.Some? then body.value else S.EMPTY
    case Config(desired, _) => desired
    case _ => S.EMPTY
  }

  lemma AsksSeparates(step: Step, p: int, r: Rule)
    requires Asks(step, p, r)
    ensures PlanOf(step).Some?
    ensures exists part :: part in PlanOf(step).value.partitions && Separates(part, p, r.protocol, r.dst, r.dport)
  {
    hide Compiled, Separates, Resolve;
    CompiledIff(PlanOf(step).value.partitions, p, r);
  }

  /** Nobody who owns `ip` has a p2p port with this number and protocol. */
  ghost predicate NoP2PAt(cs: seq<Container>, proto: Protocol, ip: Addr, dport: nat) {
    forall c, port :: c in cs && ip in c.ips && port in c.ports && Scope.IsP2P(port.name) ==>
                        port.number != dport || port.protocol != proto
  }

  /** The step asks for p2p scopes only, if for any, and no p2p port of its plan is at this endpoint. */
  ghost predicate Spares(step: Step, proto: Protocol, ip: Addr, dport: nat) {
    && (forall q :: q in StateOf(step).partitions ==> P2POnly(q.scope))
    && (PlanOf(step).Some? ==> NoP2PAt(Members(PlanOf(step).value.partitions), proto, ip, dport))
  }

  lemma SparesAsked(step: Step, p: int, r: Rule)
    requires Spares(step, r.protocol, r.dst, r.dport)
    ensures !Asks(step, p, r)
  {
    hide Scope.IsP2P, Resolve, Separates, Members, P2POnly;
    if Asks(step, p, r) {
      AsksSeparates(step, p, r);
      var plan := PlanOf(step).value.partitions;
      var part :| part in plan && Separates(part, p, r.protocol, r.dst, r.dport);
      ResolvedScopesOf(step.docker, StateOf(step), part);
      var peer, port := SeparatedOwner(plan, part, p, r.protocol, r.dst, r.dport);
      assert false;
    }
  }

  /**
   * Where every request of a run keeps to p2p scopes, no rule that ever stands in any netns, whatever fails, drops
   * a packet to an endpoint without a p2p port: RPC, engine, metrics and HTTP ports stay reachable.
   */
  lemma ControlStaysReachable(faults: Faults, hash: T.Hash, start: Sys, steps: seq<Step>, p: Pid,
                              proto: Protocol, ip: Addr, dport: nat)
    requires Fresh(start) && forall step :: step in steps ==> Spares(step, proto, ip, dport)
    ensures var nets := Run(faults, hash, start, steps).w.nets;
            p in nets ==> forall r :: r in Rules(nets[p]) ==> !Hits(r, proto, ip, dport)
  {
    hide Spares, Asks;
    var nets := Run(faults, hash, start, steps).w.nets;
    if p in nets {
      forall r | r in Rules(nets[p]) && Hits(r, proto, ip, dport)
        ensures false
      {
        RulesWereAsked(faults, hash, start, steps, p, r);
        var step :| step in steps && Asks(step, p, r);
        SparesAsked(step, p, r);
      }
    }
  }

  /** No partition of the plan has a container with PID p in one group and an owner of `ip` in another. */
  ghost predicate Together(plan: seq<Partition>, p: int, ip: Addr) {
    forall part, i, j, m, peer |
      && part in plan && 0 <= i < |part.groups| && 0 <= j < |part.groups|
      && m in part.groups[i] && m.pid == p && peer in part.groups[j] && ip in peer.ips :: i == j
  }

  /** Two containers in one group of a partition are together in it. */
  lemma SameGroupTogether(part: Partition, g: nat, m: Container, peer: Container, ip: Addr)
    requires Disjoint(part.groups) && OwnIdentity(part.groups)
    requires g < |part.groups| && m in part.groups[g] && peer in part.groups[g] && ip in peer.ips
    ensures Together([part], m.pid, ip)
  {
  }

  /** Where no plan of a run sets a container apart from a peer, no rule ever drops what goes from one to the other. */
  lemma TogetherStaysReachable(faults: Faults, hash: T.Hash, start: Sys, steps: seq<Step>, p: Pid, ip: Addr)
    requires Fresh(start)
    requires forall step :: step in steps && PlanOf(step).Some? ==> Together(PlanOf(step).value.partitions, p, ip)
    ensures var nets := Run(faults, hash, start, steps).w.nets;
            p in nets ==> forall r :: r in Rules(nets[p]) ==> r.dst != ip
  {
    hide Asks, PlanOf;
    var nets := Run(faults, hash, start, steps).w.nets;
    if p in nets {
      forall r | r in Rules(nets[p]) && r.dst == ip
        ensures false
      {
        RulesWereAsked(faults, hash, start, steps, p, r);
        var step :| step in steps && Asks(step, p, r);
        AsksSeparates(step, p, r);
      }
    }
  }
}
