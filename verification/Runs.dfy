/**
 * Whole runs of the service, with any command failing at any moment: puts, clears, config applies,
 * crashes with recovery, and containers that go away.
 */
module Runs {
  import opened Wrappers
  import opened Discovery
  import opened Backend
  import opened Kernel
  import opened Api
  import S = State
  import T = ETag
  import Iptables
  import Tc
  import Conntrack
  import Compilation
  import N = Netfilter
  import Q = Qdiscs
  import P = Progress

  /**
   * One step of a run. A crash may come in the middle of a request: it is a request whose remaining commands
   * all fail without effect, followed by Restart. The two listings of Restart are what recovery finds.
   * A container that is spawned gets a PID which is in use nowhere, not even in a record.
   */
  datatype Step =
    | Put(body: Option<S.State>, ifMatch: string, docker: Docker)
    | Clear
    | Config(desired: S.State, docker: Docker)
    | Restart(chains: Listing, qdiscs: Listing)
    | Die(pid: Pid)
    | Spawn(pid: Pid, output: seq<OutEntry>)

  /** A new process knows nothing: rules and qdiscs that survived recovery are nobody's. */
  function Forgotten(n: Net): Net {
    n.(orphan := Rules(n) != [], leaked := n.root.Some?)
  }

  function ForgetAll(nets: map<Pid, Net>): map<Pid, Net> {
    map p | p in nets :: Forgotten(nets[p])
  }

  /** Process start: both backends clean up whatever they can list. */
  ghost function Recovered(faults: Faults, w: World, chains: Listing, qdiscs: Listing): World {
    var w1 := if chains.None? then w else Iptables.ClearTargets(faults, w, chains.value).w;
    if qdiscs.None? then w1 else Tc.DropRoots(faults, w1, qdiscs.value)
  }

  ghost function Restarted(faults: Faults, s: Sys, chains: Listing, qdiscs: Listing): Sys {
    var w := Recovered(faults, s.w, chains, qdiscs);
    Sys(w.(nets := ForgetAll(w.nets)), [], [], S.EMPTY, s.docker, [])
  }

  ghost function Next(faults: Faults, hash: T.Hash, s: Sys, step: Step): Sys {
    match step
    case Put(body, ifMatch, docker) => PutState(faults, hash, s, body, ifMatch, docker).0
    case Clear => PostClear(faults, s).0
    case Config(desired, docker) => ApplyConfig(faults, s, desired, docker)
    case Restart(chains, qdiscs) => Restarted(faults, s, chains, qdiscs)
    case Die(pid) => s.(w := s.w.(nets := s.w.nets - {pid}))
    case Spawn(pid, output) => if InUse(s, pid) then s else s.(w := s.w.(nets := s.w.nets[pid := NewNet(output)]))
  }

  ghost predicate InUse(s: Sys, pid: Pid) {
    pid in s.w.nets || pid in Pids(s.ipt) || pid in Pids(s.tc)
  }

  function NewNet(output: seq<OutEntry>): Net {
    Net(None, output, None, false, false, false)
  }

  ghost function Run(faults: Faults, hash: T.Hash, s: Sys, steps: seq<Step>): Sys {
    if steps == [] then s else Next(faults, hash, Run(faults, hash, s, steps[..|steps| - 1]), steps[|steps| - 1])
  }

  // ---- The invariant of every run ----

  /** The answers one request sees give every container ID one PID. */
  ghost predicate OnePid(docker: Docker, s: S.State) {
    Resolve(docker, s).Some? ==> OnePidPerId(Members(Resolve(docker, s).value.partitions))
  }

  ghost predicate Steady(step: Step) {
    match step
    case Put(body, _, docker) => body.Some? ==> OnePid(docker, body.value)
    case Config(desired, docker) => OnePid(docker, desired)
    case _ => true
  }

  /** What netns p looks like under a plan: its chain and its qdisc, with all that is not the plan's accounted for. */
  ghost predicate NetSound(n: Net, p: Pid, s: Sys, plan: Plan) {
    && N.ChainCovered(n, p, s.ipt)
    && Q.RootCovered(n, p, s.tc)
    && (p in Pids(Targets(plan.partitions)) ==> N.Loaded(n, Compilation.Compiled(plan.partitions, p)))
    && (p in Pids(Tc.Shaped(plan.shaping)) ==>
          && Q.RuleFor(Tc.Jobs(plan.shaping), p).Some?
          && n.root == Some(Tc.Tree(Q.RuleFor(Tc.Jobs(plan.shaping), p).value))
          && !n.leaked)
  }

  /**
   * The advertised state, resolved with the answers it was applied with, is what the kernel holds: targets
   * carry exactly their compiled chain and tree; everything else is empty, tracked for cleanup, or flagged.
   */
  ghost predicate Sound(s: Sys) {
    && Resolve(s.docker, s.applied).Some?
    && var plan := Resolve(s.docker, s.applied).value;
       && OnePidPerId(Members(plan.partitions))
       && (plan.partitions != [] ==> s.ipt == Targets(plan.partitions))
       && s.tc == Tc.Shaped(plan.shaping)
       && forall p :: p in s.w.nets ==> NetSound(s.w.nets[p], p, s, plan)
  }

  /** A service that has just started on a kernel without disruptoor's traces. */
  ghost predicate Fresh(s: Sys) {
    && s.ipt == [] && s.tc == [] && s.applied == S.EMPTY && s.events == []
    && forall p :: p in s.w.nets ==> Untouched(s.w.nets[p])
  }

  ghost predicate Untouched(n: Net) {
    Rules(n) == [] && n.root.None? && !n.orphan && !n.leaked && !n.misread
  }

  lemma EmptyResolves(docker: Docker)
    ensures Resolve(docker, S.EMPTY) == Some(Plan([], []))
  {
  }

  lemma FreshIsSound(s: Sys)
    requires Fresh(s)
    ensures Sound(s)
  {
  }

  // ---- One operation, one netns ----

  /** Both kinds of disruption in netns p are accounted for by the backends' records. */
  ghost predicate Tracked(s: Sys, p: Pid) {
    p in s.w.nets ==> N.ChainCovered(s.w.nets[p], p, s.ipt) && Q.RootCovered(s.w.nets[p], p, s.tc)
  }

  lemma ClearLockedEffect(faults: Faults, s: Sys, p: Pid)
    requires p in s.w.nets && Tracked(s, p)
    ensures var (s1, ok) := ClearLocked(faults, s);
            && s1.w.nets.Keys == s.w.nets.Keys && s.w.log <= s1.w.log
            && s1 == s.(w := s1.w, tc := [], ipt := s1.ipt)
            && (ok ==> s1.ipt == [])
            && Tracked(s1, p) && Q.Bare(s1.w.nets[p])
            && (ok ==> N.Silent(s1.w.nets[p]))
            && N.Tame(s.w.nets[p], s1.w.nets[p])
            && (NoneLeft(s1.w.log, |s.w.log|) && !s.w.nets[p].orphan ==>
                  Rules(s1.w.nets[p]) == [] && !s1.w.nets[p].orphan)
            && (NoneLeft(s1.w.log, |s.w.log|) && !s.w.nets[p].leaked ==>
                  s1.w.nets[p].root.None? && !s1.w.nets[p].leaked)
  {
    hide Iptables.Cleared, Tc.Cleared;
    var t := Tc.Cleared(faults, s.w, s.tc);
    Q.ClearEffect(faults, s.w, s.tc, p);
    N.ClearEffect(faults, t.w, s.ipt, p);
    var s1 := ClearLocked(faults, s).0;
    if NoneLeft(s1.w.log, |s.w.log|) {
      NoneLeftPart(t.w.log, s1.w.log, |s.w.log|);
    }
  }

  lemma TornDownEffect(faults: Faults, s: Sys, plan: Plan)
    ensures var s1 := TornDown(faults, s, plan);
            && s1 == s.(w := s1.w) && s1.w.nets == s.w.nets && P.Extends(s.w, s1.w) && s.w.log <= s1.w.log
            && NoneLeft(s1.w.log, |s.w.log|)
            && forall i :: |s.w.log| <= i < |s1.w.log| ==> s1.w.log[i].quiet == Quiet(s.w.nets)
  {
    Conntrack.FlushPlanTearsDown(plan.partitions);
    Conntrack.RunEachEffect(faults, s.w, Conntrack.FlushPlan(plan.partitions));
  }

  lemma InstallRulesEffect(faults: Faults, s: Sys, plan: Plan, p: Pid)
    requires p in s.w.nets && Tracked(s, p) && Q.Bare(s.w.nets[p]) && OnePidPerId(Members(plan.partitions))
    ensures var (s1, ok) := InstallRulesLocked(faults, s, plan);
            && s1.w.nets.Keys == s.w.nets.Keys && s.w.log <= s1.w.log
            && s1 == s.(w := s1.w, ipt := s1.ipt)
            && Tracked(s1, p) && Q.Bare(s1.w.nets[p])
            && N.Tame(s.w.nets[p], s1.w.nets[p])
            && (ok ==> s1.ipt == Targets(plan.partitions))
            && (ok && p in Pids(Targets(plan.partitions)) ==>
                  N.Loaded(s1.w.nets[p], Compilation.Compiled(plan.partitions, p)))
            && s1.w.nets[p].leaked == s.w.nets[p].leaked && s1.w.nets[p].root == s.w.nets[p].root
            && (NoneLeft(s1.w.log, |s.w.log|) && !s.w.nets[p].orphan ==> !s1.w.nets[p].orphan)
  {
    hide Iptables.Applied, N.Loaded;
    N.ApplyEffect(faults, s.w, s.ipt, plan.partitions, p);
  }

  lemma InstallQdiscsEffect(faults: Faults, s: Sys, plan: Plan, p: Pid)
    requires p in s.w.nets && Tracked(s, p)
    ensures var (s1, ok) := InstallQdiscsLocked(faults, s, plan);
            && s1.w.nets.Keys == s.w.nets.Keys && s.w.log <= s1.w.log
            && s1 == s.(w := s1.w, tc := s1.tc)
            && Tracked(s1, p)
            && Q.SparesChains(s.w.nets[p], s1.w.nets[p])
            && (ok ==> s1.tc == Tc.Shaped(plan.shaping))
            && (ok && p in Pids(Tc.Shaped(plan.shaping)) ==>
                  && Q.RuleFor(Tc.Jobs(plan.shaping), p).Some?
                  && s1.w.nets[p].root == Some(Tc.Tree(Q.RuleFor(Tc.Jobs(plan.shaping), p).value))
                  && !s1.w.nets[p].leaked)
            && (NoneLeft(s1.w.log, |s.w.log|) && !s.w.nets[p].leaked ==> !s1.w.nets[p].leaked)
  {
    hide Tc.Applied, Tc.Tree, Q.RuleFor;
    Q.ApplyEffect(faults, s.w, s.tc, plan.shaping, p);
  }

  lemma TameTrans(a: Net, b: Net, c: Net)
    requires N.Tame(a, b) && N.Tame(b, c)
    ensures N.Tame(a, c)
  {
  }

  /** A rollback, from wherever the pipeline stopped. */
  lemma RollbackEffect(faults: Faults, s: Sys, from: Sys, p: Pid)
    requires p in s.w.nets && p in from.w.nets && Tracked(from, p)
    requires s.w.log <= from.w.log && N.Tame(s.w.nets[p], from.w.nets[p]) && from.w.nets.Keys == s.w.nets.Keys
    requires NoneLeft(from.w.log, |s.w.log|) && !s.w.nets[p].orphan ==> !from.w.nets[p].orphan
    requires NoneLeft(from.w.log, |s.w.log|) && !s.w.nets[p].leaked ==> !from.w.nets[p].leaked
    ensures var s1 := ClearLocked(faults, from).0;
            && s1.w.nets.Keys == s.w.nets.Keys && s.w.log <= s1.w.log
            && s1 == from.(w := s1.w, tc := [], ipt := s1.ipt)
            && Tracked(s1, p) && Q.Bare(s1.w.nets[p])
            && N.Tame(s.w.nets[p], s1.w.nets[p])
            && (NoneLeft(s1.w.log, |s.w.log|) && !s.w.nets[p].orphan ==>
                  Rules(s1.w.nets[p]) == [] && !s1.w.nets[p].orphan)
            && (NoneLeft(s1.w.log, |s.w.log|) && !s.w.nets[p].leaked ==>
                  s1.w.nets[p].root.None? && !s1.w.nets[p].leaked)
  {
    ClearLockedEffect(faults, from, p);
    var s1 := ClearLocked(faults, from).0;
    hide ClearLocked;
    TameTrans(s.w.nets[p], from.w.nets[p], s1.w.nets[p]);
    if NoneLeft(s1.w.log, |s.w.log|) {
      NoneLeftPart(from.w.log, s1.w.log, |s.w.log|);
    }
  }

  /** The pipeline: success leaves netns p as the plan has it; any failure leaves it empty, tracked or flagged. */
  lemma ApplyLockedEffect(faults: Faults, s: Sys, desired: S.State, docker: Docker, p: Pid)
    requires p in s.w.nets && Tracked(s, p) && OnePid(docker, desired)
    ensures var (s1, stage) := ApplyLocked(faults, s, desired, docker);
            && s1.w.nets.Keys == s.w.nets.Keys && s.w.log <= s1.w.log
            && s1 == s.(w := s1.w, tc := s1.tc, ipt := s1.ipt)
            && Tracked(s1, p)
            && N.Tame(s.w.nets[p], s1.w.nets[p])
            && (stage.Some? ==> s1.tc == [] && Q.Bare(s1.w.nets[p]))
            && (stage.None? ==>
                  && Resolve(docker, desired).Some?
                  && var plan := Resolve(docker, desired).value;
                     && s1.ipt == Targets(plan.partitions)
                     && s1.tc == Tc.Shaped(plan.shaping)
                     && NetSound(s1.w.nets[p], p, s1, plan))
            && (NoneLeft(s1.w.log, |s.w.log|) && !s.w.nets[p].orphan ==>
                  !s1.w.nets[p].orphan && (stage.Some? ==> Rules(s1.w.nets[p]) == []))
            && (NoneLeft(s1.w.log, |s.w.log|) && !s.w.nets[p].leaked ==>
                  !s1.w.nets[p].leaked && (stage.Some? ==> s1.w.nets[p].root.None?))
  {
    hide ClearLocked, TornDown, InstallRulesLocked, InstallQdiscsLocked, N.Loaded, N.Tame, Tc.Tree, Q.RuleFor;
    hide P.Extends, N.ChainCovered, Q.RootCovered, Q.Bare, N.Silent, NoneLeft, OnePidPerId, Targets, Tc.Shaped;
    ClearLockedEffect(faults, s, p);
    if Resolve(docker, desired).Some? {
      var plan := Resolve(docker, desired).value;
      var (s1, cleared) := ClearLocked(faults, s);
      if cleared {
        TornDownEffect(faults, s1, plan);
        var t := TornDown(faults, s1, plan);
        InstallRulesEffect(faults, t, plan, p);
        var (s2, ruled) := InstallRulesLocked(faults, t, plan);
        TameTrans(s.w.nets[p], s1.w.nets[p], s2.w.nets[p]);
        if NoneLeft(s2.w.log, |s.w.log|) {
          NoneLeftPart(s1.w.log, s2.w.log, |s.w.log|);
          NoneLeftPart(t.w.log, s2.w.log, |s.w.log|);
        }
        if !ruled {
          RollbackEffect(faults, s, s2, p);
        } else {
          InstallQdiscsEffect(faults, s2, plan, p);
          var (s3, shaped) := InstallQdiscsLocked(faults, s2, plan);
          ShapingTame(s.w.nets[p], s2.w.nets[p], s3.w.nets[p]);
          if NoneLeft(s3.w.log, |s.w.log|) {
            NoneLeftPart(s2.w.log, s3.w.log, |s.w.log|);
          }
          ShapingLoaded(s2.w.nets[p], s3.w.nets[p], Compilation.Compiled(plan.partitions, p));
          if !shaped {
            RollbackEffect(faults, s, s3, p);
          }
        }
      }
    }
  }

  lemma ShapingTame(a: Net, b: Net, c: Net)
    requires N.Tame(a, b) && Q.SparesChains(b, c)
    ensures N.Tame(a, c)
  {
  }

  lemma ShapingLoaded(b: Net, c: Net, rules: seq<Rule>)
    requires Q.SparesChains(b, c)
    ensures N.Loaded(c, rules) <==> N.Loaded(b, rules)
  {
  }

  // ---- One step ----

  lemma {:induction false} PartitionsClone(docker: Docker, s: S.State, k: nat)
    requires k <= |s.partitions|
    ensures ResolvePartitions(docker, S.Clone(s).partitions, k) == ResolvePartitions(docker, s.partitions, k)
  {
    if k == 0 {
    } else {
      PartitionsClone(docker, s, k - 1);
      var p := s.partitions[k - 1];
      assert S.Clone(s).partitions[k - 1] == S.ClonePartition(p);
      assert |S.ClonePartition(p).groups| == |p.groups|;
    }
  }

  lemma {:induction false} ShapingClone(docker: Docker, s: S.State, k: nat)
    requires k <= |s.shaping|
    ensures ResolveShaping(docker, S.Clone(s).shaping, k) == ResolveShaping(docker, s.shaping, k)
  {
    if k == 0 {
    } else {
      ShapingClone(docker, s, k - 1);
    }
  }

  /** A stored copy resolves like the state it was made from. */
  lemma ResolveClone(docker: Docker, s: S.State)
    ensures Resolve(docker, S.Clone(s)) == Resolve(docker, s)
  {
    PartitionsClone(docker, s, |s.partitions|);
    ShapingClone(docker, s, |s.shaping|);
  }

  /** Settling the outcome of a pipeline that ran keeps the invariant. */
  lemma ApplySound(faults: Faults, s: Sys, source: Source, desired: S.State, docker: Docker)
    requires Sound(s) && OnePid(docker, desired)
    ensures var (s1, stage) := ApplyLocked(faults, s, desired, docker);
            Sound(Settle(s1, stage, source, desired, docker))
  {
    hide ApplyLocked;
    var (s1, stage) := ApplyLocked(faults, s, desired, docker);
    var s2 := Settle(s1, stage, source, desired, docker);
    EmptyResolves(s.docker);
    ResolveClone(docker, desired);
    ApplyLockedRecords(faults, s, desired, docker);
    forall p | p in s2.w.nets
      ensures NetSound(s2.w.nets[p], p, s2, Resolve(s2.docker, s2.applied).value)
    {
      ApplyLockedEffect(faults, s, desired, docker, p);
    }
  }

  lemma ClearLockedRecords(faults: Faults, s: Sys)
    ensures var (s1, ok) := ClearLocked(faults, s);
            && P.Proceeds(s.w, s1.w, false)
            && s1 == s.(w := s1.w, tc := [], ipt := if ok then [] else s.ipt)
  {
    var w1 := Tc.Cleared(faults, s.w, s.tc).w;
    P.TcExtends(faults, s.w, s.tc, []);
    P.IptablesExtends(faults, w1, s.ipt, []);
    hide P.Proceeds;
    P.ProceedsTrans(s.w, w1, ClearLocked(faults, s).0.w, false);
  }

  /** What applyLocked does to the records, whether or not any netns exists. */
  lemma ApplyLockedRecords(faults: Faults, s: Sys, desired: S.State, docker: Docker)
    ensures var (s1, stage) := ApplyLocked(faults, s, desired, docker);
            && P.Extends(s.w, s1.w)
            && s1 == s.(w := s1.w, tc := s1.tc, ipt := s1.ipt)
            && (stage.Some? ==> s1.tc == [])
            && (stage.None? ==>
                  && Resolve(docker, desired).Some?
                  && s1.ipt == Targets(Resolve(docker, desired).value.partitions)
                  && s1.tc == Tc.Shaped(Resolve(docker, desired).value.shaping))
  {
    hide ClearLocked, TornDown, Iptables.Applied, Tc.Applied, P.Extends;
    ClearLockedRecords(faults, s);
    if Resolve(docker, desired).Some? {
      var plan := Resolve(docker, desired).value;
      var s1 := ClearLocked(faults, s).0;
      TornDownEffect(faults, s1, plan);
      var t := TornDown(faults, s1, plan);
      P.ExtendsTrans(s.w, s1.w, t.w);
      P.IptablesExtends(faults, t.w, t.ipt, plan.partitions);
      InstallRulesRecords(faults, t, plan);
      var s2 := InstallRulesLocked(faults, t, plan).0;
      P.ExtendsTrans(s.w, t.w, s2.w);
      RollbackRecords(faults, s, s2);
      P.TcExtends(faults, s2.w, s2.tc, plan.shaping);
      InstallQdiscsRecords(faults, s2, plan);
      var s3 := InstallQdiscsLocked(faults, s2, plan).0;
      P.ExtendsTrans(s.w, s2.w, s3.w);
      RollbackRecords(faults, s, s3);
    }
  }

  lemma RollbackRecords(faults: Faults, s: Sys, from: Sys)
    requires P.Extends(s.w, from.w)
    ensures var s1 := ClearLocked(faults, from).0;
            P.Extends(s.w, s1.w) && s1 == from.(w := s1.w, tc := [], ipt := s1.ipt)
  {
    ClearLockedRecords(faults, from);
    hide ClearLocked, P.Extends;
    P.ExtendsTrans(s.w, from.w, ClearLocked(faults, from).0.w);
  }

  lemma InstallRulesRecords(faults: Faults, s: Sys, plan: Plan)
    ensures InstallRulesLocked(faults, s, plan).1 ==>
              InstallRulesLocked(faults, s, plan).0.ipt == Targets(plan.partitions)
  {
  }

  lemma InstallQdiscsRecords(faults: Faults, s: Sys, plan: Plan)
    ensures InstallQdiscsLocked(faults, s, plan).1 ==>
              InstallQdiscsLocked(faults, s, plan).0.tc == Tc.Shaped(plan.shaping)
  {
  }

  /** Every step of every run keeps the invariant, whatever fails. */
  lemma NextSound(faults: Faults, hash: T.Hash, s: Sys, step: Step)
    requires Sound(s) && Steady(step)
    ensures Sound(Next(faults, hash, s, step))
  {
    hide ApplyLocked, Recovered;
    match step
    case Put(body, ifMatch, docker) =>
      if body.Some? {
        ApplySound(faults, s, Http, body.value, docker);
      }
    case Config(desired, docker) =>
      ApplySound(faults, s, Source.Config, desired, docker);
    case Clear =>
      ClearSound(faults, hash, s);
    case Restart(chains, qdiscs) =>
      EmptyResolves(s.docker);
    case Die(pid) =>
    case Spawn(pid, output) =>
      SpawnSound(faults, hash, s, step);
  }

  lemma SpawnSound(faults: Faults, hash: T.Hash, s: Sys, step: Step)
    requires Sound(s) && step.Spawn?
    ensures Sound(Next(faults, hash, s, step))
  {
    hide Resolve, Compilation.Compiled, Tc.Tree, Q.RuleFor;
    var s1 := Next(faults, hash, s, step);
    var plan := Resolve(s.docker, s.applied).value;
    assert plan.partitions == [] ==> Targets(plan.partitions) == [];
    hide Targets, Tc.Shaped, Members;
    forall p | p in s1.w.nets
      ensures NetSound(s1.w.nets[p], p, s1, plan)
    {
    }
  }

  lemma ClearSound(faults: Faults, hash: T.Hash, s: Sys)
    requires Sound(s)
    ensures Sound(PostClear(faults, s).0)
  {
    hide ClearLocked;
    ClearLockedRecords(faults, s);
    EmptyResolves(s.docker);
    var s2 := PostClear(faults, s).0;
    forall p | p in s2.w.nets
      ensures NetSound(s2.w.nets[p], p, s2, Plan([], []))
    {
      ClearLockedEffect(faults, s, p);
    }
  }

  /** The invariant holds after every run, with any pattern of failures. */
  lemma {:induction false} RunSound(faults: Faults, hash: T.Hash, s: Sys, steps: seq<Step>)
    requires Sound(s) && forall step :: step in steps ==> Steady(step)
    ensures Sound(Run(faults, hash, s, steps))
  {
    hide Sound, Next;
    if steps == [] {
    } else {
      var init, last := steps[..|steps| - 1], steps[|steps| - 1];
      RunSound(faults, hash, s, init);
      NextSound(faults, hash, Run(faults, hash, s, init), last);
    }
  }
}
