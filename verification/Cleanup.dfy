/**
 * Exactly when cleanup reaches everything, and with it exactly when the service's promises hold: that an error
 * leaves a known-empty kernel, and that GET tells what the kernel holds. The conditions speak of the state and
 * the faults that cleanup starts from, not of what it leaves.
 */
module Cleanup {
  import opened Wrappers
  import opened Discovery
  import opened Backend
  import opened Kernel
  import opened Api
  import opened Runs
  import S = State
  import T = ETag
  import I = Iptables
  import Tc
  import Compilation
  import N = Netfilter
  import Q = Qdiscs
  import P = Progress
  import G = Guarantees

  // ---- Which commands do their work ----

  /** The command does its work: nothing strikes it, or only after it took effect. */
  predicate Works(fault: Fault) {
    fault.Obey? || fault.took
  }

  /** How many commands one command per container is: none for PIDs that the enterer rejects. */
  function Ticks(cs: seq<Container>): nat {
    if cs == [] then 0 else Tick(cs[0]) + Ticks(cs[1..])
  }

  function Tick(c: Container): nat {
    if c.pid > 0 then 1 else 0
  }

  /** The command for the i-th listed container enters netns p and does its work. */
  ghost predicate ReachesAt(faults: Faults, clock: nat, ts: seq<Container>, p: int, i: nat)
    requires i < |ts|
  {
    ts[i].pid == p && Works(faults(clock + Ticks(ts[..i])))
  }

  /** Of the commands that go to the listed containers from this moment on, one enters netns p and does its work. */
  ghost predicate Reaches(faults: Faults, clock: nat, ts: seq<Container>, p: int) {
    exists i :: 0 <= i < |ts| && ReachesAt(faults, clock, ts, p, i)
  }

  lemma ReachesLater(faults: Faults, clock: nat, ts: seq<Container>, p: int, i: nat)
    requires 0 < i < |ts|
    ensures ReachesAt(faults, clock, ts, p, i) <==> ReachesAt(faults, clock + Tick(ts[0]), ts[1..], p, i - 1)
  {
    hide Works;
    assert ts[..i][1..] == ts[1..][..i - 1];
  }

  lemma ReachesCons(faults: Faults, clock: nat, ts: seq<Container>, p: int)
    requires ts != []
    ensures Reaches(faults, clock, ts, p)
       <==> (ts[0].pid == p && Works(faults(clock))) || Reaches(faults, clock + Tick(ts[0]), ts[1..], p)
  {
    assert ReachesAt(faults, clock, ts, p, 0) <==> ts[0].pid == p && Works(faults(clock));
    hide ReachesAt;
    var rest, later := ts[1..], clock + Tick(ts[0]);
    if i :| 0 < i < |ts| && ReachesAt(faults, clock, ts, p, i) {
      ReachesLater(faults, clock, ts, p, i);
    }
    if i :| 0 <= i < |rest| && ReachesAt(faults, later, rest, p, i) {
      ReachesLater(faults, clock, ts, p, i + 1);
    }
  }

  lemma DropRootStep(faults: Faults, w: World, c: Container, p: Pid)
    requires p in w.nets
    ensures var w1 := Tc.DropRoot(faults, w, c).w;
            && p in w1.nets && w1.clock == w.clock + Tick(c)
            && (w1.nets[p].root.None? <==> w.nets[p].root.None? || (c.pid == p && Works(faults(w.clock))))
            && w1.nets[p].chain == w.nets[p].chain
  {
  }

  /** A root qdisc goes exactly when a delete that works reaches it. */
  lemma {:induction false} DropRootsIff(faults: Faults, w: World, ts: seq<Container>, p: Pid)
    requires p in w.nets
    ensures var w1 := Tc.DropRoots(faults, w, ts);
            && p in w1.nets && w1.clock == w.clock + Ticks(ts)
            && (w1.nets[p].root.None? <==> w.nets[p].root.None? || Reaches(faults, w.clock, ts, p))
            && w1.nets[p].chain == w.nets[p].chain
    decreases ts
  {
    hide Tc.DropRoot, Works;
    if ts == [] {
    } else {
      DropRootStep(faults, w, ts[0], p);
      ReachesCons(faults, w.clock, ts, p);
      hide Reaches;
      DropRootsIff(faults, Tc.DropRoot(faults, w, ts[0]).w, ts[1..], p);
    }
  }

  lemma FlushStep(faults: Faults, w: World, c: Container, p: Pid)
    requires p in w.nets
    ensures var w1 := I.Flush(faults, w, c).w;
            && p in w1.nets && w1.clock == w.clock + Tick(c)
            && (Rules(w1.nets[p]) == [] <==> Rules(w.nets[p]) == [] || (c.pid == p && Works(faults(w.clock))))
            && w1.nets[p].root == w.nets[p].root
  {
  }

  /** A chain is emptied exactly when a flush that works reaches it. */
  lemma {:induction false} ClearTargetsIff(faults: Faults, w: World, ts: seq<Container>, p: Pid)
    requires p in w.nets
    ensures var w1 := I.ClearTargets(faults, w, ts).w;
            && p in w1.nets && w1.clock == w.clock + Ticks(ts)
            && (Rules(w1.nets[p]) == [] <==> Rules(w.nets[p]) == [] || Reaches(faults, w.clock, ts, p))
            && w1.nets[p].root == w.nets[p].root
    decreases ts
  {
    hide I.Flush, Works, Rules;
    if ts == [] {
    } else {
      FlushStep(faults, w, ts[0], p);
      ReachesCons(faults, w.clock, ts, p);
      hide Reaches;
      ClearTargetsIff(faults, I.Flush(faults, w, ts[0]).w, ts[1..], p);
    }
  }

  // ---- Known-empty after an error ----

  /** The qdisc of netns p, if any, meets a delete that works. */
  ghost predicate RootGoes(faults: Faults, s: Sys, p: Pid)
    requires p in s.w.nets
  {
    s.w.nets[p].root.Some? ==> Reaches(faults, s.w.clock, s.tc, p)
  }

  /** The rules of netns p, if any, meet a flush that works. Flushes come after the deletes. */
  ghost predicate RulesGo(faults: Faults, s: Sys, p: Pid)
    requires p in s.w.nets
  {
    Rules(s.w.nets[p]) != [] ==> Reaches(faults, s.w.clock + Ticks(s.tc), s.ipt, p)
  }

  ghost predicate CleanupWorks(faults: Faults, s: Sys) {
    forall p :: p in s.w.nets ==> RootGoes(faults, s, p) && RulesGo(faults, s, p)
  }

  ghost predicate Empty(nets: map<Pid, Net>) {
    forall p :: p in nets ==> Rules(nets[p]) == [] && nets[p].root.None?
  }

  lemma ClearLockedIff(faults: Faults, s: Sys, p: Pid)
    requires p in s.w.nets
    ensures var s1 := ClearLocked(faults, s).0;
            && p in s1.w.nets
            && (Rules(s1.w.nets[p]) == [] <==> RulesGo(faults, s, p))
            && (s1.w.nets[p].root.None? <==> RootGoes(faults, s, p))
            && (p !in Pids(s.ipt) ==> Rules(s1.w.nets[p]) == Rules(s.w.nets[p]))
  {
    hide Reaches, I.ClearTargets, Tc.DropRoots;
    DropRootsIff(faults, s.w, s.tc, p);
    var w1 := Tc.DropRoots(faults, s.w, s.tc);
    ClearTargetsIff(faults, w1, s.ipt, p);
    N.ClearTargetsEffect(faults, w1, s.ipt, p);
  }

  /** The flush of a container is taken for a success: it works, or exits 1, or there is nothing to enter. */
  predicate Passes(fault: Fault, c: Container) {
    c.pid == 0 || (c.pid > 0 && (fault.Obey? || fault.failure == Exit(1)))
  }

  ghost predicate PassesAt(faults: Faults, clock: nat, ts: seq<Container>, i: nat)
    requires i < |ts|
  {
    Passes(faults(clock + Ticks(ts[..i])), ts[i])
  }

  lemma FlushPassesIff(faults: Faults, w: World, c: Container)
    ensures I.Flush(faults, w, c).ok <==> Passes(faults(w.clock), c)
    ensures I.Flush(faults, w, c).w.clock == w.clock + Tick(c)
  {
  }

  lemma PassesLater(faults: Faults, clock: nat, ts: seq<Container>, i: nat)
    requires 0 < i < |ts|
    ensures PassesAt(faults, clock, ts, i) <==> PassesAt(faults, clock + Tick(ts[0]), ts[1..], i - 1)
  {
    hide Passes;
    assert ts[..i][1..] == ts[1..][..i - 1];
  }

  ghost predicate AllPass(faults: Faults, clock: nat, ts: seq<Container>) {
    forall i: nat :: i < |ts| ==> PassesAt(faults, clock, ts, i)
  }

  lemma AllPassCons(faults: Faults, clock: nat, ts: seq<Container>)
    requires ts != []
    ensures AllPass(faults, clock, ts)
       <==> Passes(faults(clock), ts[0]) && AllPass(faults, clock + Tick(ts[0]), ts[1..])
  {
    assert PassesAt(faults, clock, ts, 0) <==> Passes(faults(clock), ts[0]);
    hide PassesAt, Passes;
    var rest, later := ts[1..], clock + Tick(ts[0]);
    forall i: nat | i < |rest|
      ensures PassesAt(faults, clock, ts, i + 1) <==> PassesAt(faults, later, rest, i)
    {
      PassesLater(faults, clock, ts, i + 1);
    }
    if AllPass(faults, later, rest) && Passes(faults(clock), ts[0]) {
      forall i: nat | i < |ts|
        ensures PassesAt(faults, clock, ts, i)
      {
        assert i == 0 || PassesAt(faults, later, rest, i - 1);
      }
    }
  }

  /** clearTargetsLocked reports success exactly when each flush, at its own place, passes. */
  lemma {:induction false} ClearPassesIff(faults: Faults, w: World, ts: seq<Container>)
    ensures I.ClearTargets(faults, w, ts).ok <==> AllPass(faults, w.clock, ts)
    decreases ts
  {
    hide I.Flush, Passes;
    if ts == [] {
    } else {
      FlushPassesIff(faults, w, ts[0]);
      AllPassCons(faults, w.clock, ts);
      hide AllPass;
      ClearPassesIff(faults, I.Flush(faults, w, ts[0]).w, ts[1..]);
    }
  }

  lemma {:induction false} DropRootsTicks(faults: Faults, w: World, ts: seq<Container>)
    ensures Tc.DropRoots(faults, w, ts).clock == w.clock + Ticks(ts)
    decreases ts
  {
    if ts == [] {
    } else {
      DropRootsTicks(faults, Tc.DropRoot(faults, w, ts[0]).w, ts[1..]);
    }
  }

  /** From any state, a clear answers success exactly when the flush of every recorded container passes. */
  lemma ClearAnswersIff(faults: Faults, s: Sys)
    ensures PostClear(faults, s).1.Healed?
       <==> AllPass(faults, s.w.clock + Ticks(s.tc), s.ipt)
  {
    hide I.ClearTargets, Tc.DropRoots, AllPass, Ticks;
    DropRootsTicks(faults, s.w, s.tc);
    ClearPassesIff(faults, Tc.DropRoots(faults, s.w, s.tc), s.ipt);
  }

  /** From any state, a clear empties the kernel exactly when everything that stands meets a command that works. */
  lemma ClearEmptiesIff(faults: Faults, s: Sys)
    ensures Empty(ClearLocked(faults, s).0.w.nets) <==> CleanupWorks(faults, s)
  {
    hide ClearLocked, RootGoes, RulesGo, Rules;
    var s1 := ClearLocked(faults, s).0;
    ClearLockedRecords(faults, s);
    forall p | p in s.w.nets
      ensures Rules(s1.w.nets[p]) == [] <==> RulesGo(faults, s, p)
      ensures s1.w.nets[p].root.None? <==> RootGoes(faults, s, p)
    {
      ClearLockedIff(faults, s, p);
    }
  }

  /** The failure point of an apply that fails: the state from which it cleans up for the last time. */
  ghost function FailurePoint(faults: Faults, s: Sys, desired: S.State, docker: Docker): Sys {
    if Resolve(docker, desired).None? || !ClearLocked(faults, s).1 then s
    else
      var plan := Resolve(docker, desired).value;
      var (s2, ruled) := InstallRulesLocked(faults, TornDown(faults, ClearLocked(faults, s).0, plan), plan);
      if !ruled then s2 else InstallQdiscsLocked(faults, s2, plan).0
  }

  /** An apply that fails, wherever it fails, ends with one cleanup from its failure point. */
  lemma FailedApply(faults: Faults, s: Sys, desired: S.State, docker: Docker)
    requires ApplyLocked(faults, s, desired, docker).1.Some?
    ensures ApplyLocked(faults, s, desired, docker).0 == ClearLocked(faults, FailurePoint(faults, s, desired, docker)).0
  {
    hide ClearLocked, TornDown, InstallRulesLocked, InstallQdiscsLocked;
  }

  /**
   * An apply that fails leaves the kernel empty exactly when everything at its failure point meets a command that
   * works.
   */
  lemma ApplyEmptiesIff(faults: Faults, s: Sys, desired: S.State, docker: Docker)
    requires ApplyLocked(faults, s, desired, docker).1.Some?
    ensures Empty(ApplyLocked(faults, s, desired, docker).0.w.nets)
       <==> CleanupWorks(faults, FailurePoint(faults, s, desired, docker))
  {
    hide ApplyLocked, ClearLocked, FailurePoint, CleanupWorks;
    FailedApply(faults, s, desired, docker);
    ClearEmptiesIff(faults, FailurePoint(faults, s, desired, docker));
  }

  // ---- A rollback that works heals ----

  lemma AllReached(faults: Faults, clock: nat, ts: seq<Container>, p: int)
    requires p in Pids(ts) && forall t :: clock <= t ==> Works(faults(t))
    ensures Reaches(faults, clock, ts, p)
  {
    var c :| c in ts && c.pid == p;
    var i :| 0 <= i < |ts| && ts[i] == c;
    assert ReachesAt(faults, clock, ts, p, i);
  }

  /** Installing rules, even where it fails, touches nothing but recorded netnses. */
  lemma InstallRulesOutside(faults: Faults, s: Sys, plan: Plan, p: Pid)
    requires p in s.w.nets && s.ipt == [] && OnePidPerId(Members(plan.partitions))
    ensures var s1 := InstallRulesLocked(faults, s, plan).0;
            && p in s1.w.nets && s1.w.nets[p].root == s.w.nets[p].root && s1.tc == s.tc
            && (p !in Pids(s1.ipt) ==> Rules(s1.w.nets[p]) == Rules(s.w.nets[p]))
  {
    hide I.EnsureAll, I.InstallAll, Targets, N.Tame;
    N.ApplyEffect(faults, s.w, [], plan.partitions, p);
    if plan.partitions != [] {
      var ts := Targets(plan.partitions);
      TargetsCoverMembers(plan.partitions);
      N.PlanAppendsOnly(plan.partitions);
      N.EnsureAllEffect(faults, s.w, ts, p);
      N.InstallAllEffect(faults, I.EnsureAll(faults, s.w, ts).w, plan.partitions, p, []);
    }
  }

  lemma InstallQdiscsOutside(faults: Faults, s: Sys, plan: Plan, p: Pid)
    requires p in s.w.nets && s.tc == []
    ensures var s1 := InstallQdiscsLocked(faults, s, plan).0;
            && p in s1.w.nets && s1.w.nets[p].chain == s.w.nets[p].chain && s1.ipt == s.ipt
            && (p !in Pids(s1.tc) ==> s1.w.nets[p].root == s.w.nets[p].root)
  {
    hide Tc.RunJobs, Tc.Consistent, Tc.Tree, Tc.Shaped, Q.RuleFor;
    Q.ApplyEffect(faults, s.w, [], plan.shaping, p);
    Q.ShapedPids(plan.shaping, p);
    Q.RunJobsEffect(faults, s.w, Tc.Jobs(plan.shaping), p);
  }

  /** Whatever stands at a failure point behind a clear that worked is on record there. */
  lemma FailureOnRecord(faults: Faults, s: Sys, desired: S.State, docker: Docker, p: Pid)
    requires CleanupWorks(faults, s) && OnePid(docker, desired)
    requires Resolve(docker, desired).Some? && ClearLocked(faults, s).1
    ensures var from := FailurePoint(faults, s, desired, docker);
            p in from.w.nets ==>
              && (from.w.nets[p].root.Some? ==> p in Pids(from.tc))
              && (Rules(from.w.nets[p]) != [] ==> p in Pids(from.ipt))
  {
    hide ClearLocked, TornDown, InstallRulesLocked, InstallQdiscsLocked, RulesGo, RootGoes;
    var plan := Resolve(docker, desired).value;
    var s1 := ClearLocked(faults, s).0;
    ClearLockedRecords(faults, s);
    TornDownEffect(faults, s1, plan);
    var t := TornDown(faults, s1, plan);
    var s2 := InstallRulesLocked(faults, t, plan).0;
    InstallKeys(faults, t, plan);
    InstallKeys(faults, s2, plan);
    if p in s.w.nets {
      ClearLockedIff(faults, s, p);
      InstallRulesOutside(faults, t, plan, p);
      InstallQdiscsOutside(faults, s2, plan, p);
    }
  }

  lemma InstallKeys(faults: Faults, s: Sys, plan: Plan)
    ensures InstallRulesLocked(faults, s, plan).0.w.nets.Keys == s.w.nets.Keys
    ensures InstallQdiscsLocked(faults, s, plan).0.w.nets.Keys == s.w.nets.Keys
  {
    P.IptablesExtends(faults, s.w, s.ipt, plan.partitions);
    P.TcExtends(faults, s.w, s.tc, plan.shaping);
    hide I.Applied, Tc.Applied;
  }

  /**
   * The known-empty promise, kept: if the first clear reaches everything and commands work again from the failure
   * point on, an apply that fails leaves nothing, wherever and however it failed.
   */
  lemma RollbackHeals(faults: Faults, s: Sys, desired: S.State, docker: Docker)
    requires ApplyLocked(faults, s, desired, docker).1.Some? && OnePid(docker, desired)
    requires CleanupWorks(faults, s)
    requires forall t :: FailurePoint(faults, s, desired, docker).w.clock <= t ==> Works(faults(t))
    ensures Empty(ApplyLocked(faults, s, desired, docker).0.w.nets)
  {
    FailurePointWorks(faults, s, desired, docker);
    ApplyEmptiesIff(faults, s, desired, docker);
    hide *;
  }

  lemma FailurePointWorks(faults: Faults, s: Sys, desired: S.State, docker: Docker)
    requires CleanupWorks(faults, s) && OnePid(docker, desired)
    requires forall t :: FailurePoint(faults, s, desired, docker).w.clock <= t ==> Works(faults(t))
    ensures CleanupWorks(faults, FailurePoint(faults, s, desired, docker))
  {
    var from := FailurePoint(faults, s, desired, docker);
    if Resolve(docker, desired).Some? && ClearLocked(faults, s).1 {
      hide FailurePoint, ClearLocked, Resolve, Rules, OnePid;
      forall p | p in from.w.nets
        ensures RootGoes(faults, from, p) && RulesGo(faults, from, p)
      {
        FailureOnRecord(faults, s, desired, docker, p);
        AllReachedHere(faults, from, p);
      }
    }
  }

  lemma AllReachedHere(faults: Faults, s: Sys, p: Pid)
    requires p in s.w.nets && forall t :: s.w.clock <= t ==> Works(faults(t))
    requires s.w.nets[p].root.Some? ==> p in Pids(s.tc)
    requires Rules(s.w.nets[p]) != [] ==> p in Pids(s.ipt)
    ensures RootGoes(faults, s, p) && RulesGo(faults, s, p)
  {
    hide Reaches, Works;
    if s.w.nets[p].root.Some? {
      AllReached(faults, s.w.clock, s.tc, p);
    }
    if Rules(s.w.nets[p]) != [] {
      AllReached(faults, s.w.clock + Ticks(s.tc), s.ipt, p);
    }
  }

  // ---- GET tells the truth ----

  /** Netns n holds what the plan says, no more and no less. */
  ghost predicate Conforms(n: Net, p: Pid, plan: Plan) {
    Rules(n) == Compilation.Compiled(plan.partitions, p) && n.root == G.WantedRoot(plan.shaping, p)
  }

  /** Every netns holds exactly the advertised state, resolved with the answers it was applied with. */
  ghost predicate TellsTruth(s: Sys) {
    Resolve(s.docker, s.applied).Some?
    && forall p :: p in s.w.nets ==> Conforms(s.w.nets[p], p, Resolve(s.docker, s.applied).value)
  }

  /** Netns p holds what is advertised. */
  ghost predicate TruthIn(s: Sys, p: Pid)
    requires p in s.w.nets
  {
    Resolve(s.docker, s.applied).Some? && Conforms(s.w.nets[p], p, Resolve(s.docker, s.applied).value)
  }

  /** Of what stood in netns p before the apply, all that is not the new plan's meets a command that works. */
  ghost predicate RestGoes(faults: Faults, s: Sys, plan: Plan, p: Pid)
    requires p in s.w.nets
  {
    && (p !in Pids(Targets(plan.partitions)) ==> RulesGo(faults, s, p))
    && (p !in Pids(Tc.Shaped(plan.shaping)) ==> RootGoes(faults, s, p))
  }

  /** What cleanup has to achieve in netns p for GET to tell the truth after an apply that succeeded, or failed. */
  ghost predicate ReachesIn(faults: Faults, s: Sys, desired: S.State, docker: Docker, p: Pid)
    requires p in s.w.nets
  {
    if ApplyLocked(faults, s, desired, docker).1.None? && Resolve(docker, desired).Some? then
      RestGoes(faults, s, Resolve(docker, desired).value, p)
    else
      var from := FailurePoint(faults, s, desired, docker);
      p in from.w.nets && RootGoes(faults, from, p) && RulesGo(faults, from, p)
  }

  /** And in all of them. */
  ghost predicate ApplyReaches(faults: Faults, s: Sys, desired: S.State, docker: Docker) {
    forall p :: p in s.w.nets ==> ReachesIn(faults, s, desired, docker, p)
  }

  /** With nothing on record, installing rules touches no netns outside the plan. */
  lemma InstallRulesSpares(faults: Faults, s: Sys, plan: Plan, p: Pid)
    requires p in s.w.nets && s.ipt == [] && OnePidPerId(Members(plan.partitions))
    requires InstallRulesLocked(faults, s, plan).1
    ensures var n := InstallRulesLocked(faults, s, plan).0.w.nets;
            && p in n && n[p].root == s.w.nets[p].root
            && Rules(n[p]) == if p in Pids(Targets(plan.partitions)) then Compilation.Compiled(plan.partitions, p)
                              else Rules(s.w.nets[p])
  {
    hide I.Applied, Targets, Compilation.Compiled, N.Tame;
    N.ApplyEffect(faults, s.w, [], plan.partitions, p);
    InstallRulesOutside(faults, s, plan, p);
  }

  lemma InstallQdiscsSpares(faults: Faults, s: Sys, plan: Plan, p: Pid)
    requires p in s.w.nets && s.tc == [] && InstallQdiscsLocked(faults, s, plan).1
    ensures var n := InstallQdiscsLocked(faults, s, plan).0.w.nets;
            && p in n && n[p].chain == s.w.nets[p].chain
            && n[p].root == if p in Pids(Tc.Shaped(plan.shaping)) then G.WantedRoot(plan.shaping, p)
                            else s.w.nets[p].root
  {
    hide Tc.Applied, Tc.Consistent, Tc.Tree, Tc.Shaped, Q.RuleFor;
    Q.ApplyEffect(faults, s.w, [], plan.shaping, p);
    InstallQdiscsOutside(faults, s, plan, p);
  }

  /** What a successful apply leaves in netns p: the plan's, or else what the clear left there. */
  lemma SuccessLeaves(faults: Faults, s: Sys, desired: S.State, docker: Docker, p: Pid)
    requires p in s.w.nets && ApplyLocked(faults, s, desired, docker).1.None? && OnePid(docker, desired)
    ensures Resolve(docker, desired).Some?
    ensures var plan := Resolve(docker, desired).value;
            var n := ApplyLocked(faults, s, desired, docker).0.w.nets;
            && p in n
            && (if p in Pids(Targets(plan.partitions)) then Rules(n[p]) == Compilation.Compiled(plan.partitions, p)
                else Rules(n[p]) == [] <==> RulesGo(faults, s, p))
            && (if p in Pids(Tc.Shaped(plan.shaping)) then n[p].root == G.WantedRoot(plan.shaping, p)
                else n[p].root.None? <==> RootGoes(faults, s, p))
  {
    hide ClearLocked, TornDown, InstallRulesLocked, InstallQdiscsLocked, RulesGo, RootGoes, Targets, Tc.Shaped;
    hide G.WantedRoot, Compilation.Compiled;
    var plan := Resolve(docker, desired).value;
    var s1 := ClearLocked(faults, s).0;
    ClearLockedIff(faults, s, p);
    ClearLockedRecords(faults, s);
    var t := TornDown(faults, s1, plan);
    TornDownEffect(faults, s1, plan);
    InstallRulesSpares(faults, t, plan, p);
    var s2 := InstallRulesLocked(faults, t, plan).0;
    InstallRulesKeepsTc(faults, t, plan);
    InstallQdiscsSpares(faults, s2, plan, p);
  }

  lemma InstallRulesKeepsTc(faults: Faults, s: Sys, plan: Plan)
    ensures InstallRulesLocked(faults, s, plan).0.tc == s.tc
  {
  }

  lemma NothingWanted(p: Pid)
    ensures Compilation.Compiled([], p) == [] && G.WantedRoot([], p) == None
  {
  }

  /** Outside the plan, nothing is wanted. */
  lemma OutsidePlan(plan: Plan, p: Pid)
    requires OnePidPerId(Members(plan.partitions))
    ensures p !in Pids(Targets(plan.partitions)) ==> Compilation.Compiled(plan.partitions, p) == []
    ensures p !in Pids(Tc.Shaped(plan.shaping)) ==> G.WantedRoot(plan.shaping, p) == None
  {
    hide Compilation.Compiled, Targets, Tc.Shaped, Q.RuleFor;
    Q.ShapedPids(plan.shaping, p);
    if p !in Pids(Targets(plan.partitions)) {
      G.CompiledOutside(plan.partitions, p);
    }
  }

  lemma TruthAfterSuccess(faults: Faults, s: Sys, source: Source, desired: S.State, docker: Docker, p: Pid)
    requires p in s.w.nets && ApplyLocked(faults, s, desired, docker).1.None? && OnePid(docker, desired)
    ensures var s1 := Settle(ApplyLocked(faults, s, desired, docker).0, None, source, desired, docker);
            p in s1.w.nets && (TruthIn(s1, p) <==> ReachesIn(faults, s, desired, docker, p))
  {
    ApplyLockedRecords(faults, s, desired, docker);
    hide ApplyLocked, Resolve, RulesGo, RootGoes, Rules, Targets, Tc.Shaped, G.WantedRoot, Compilation.Compiled;
    hide Members, FailurePoint;
    ResolveClone(docker, desired);
    SuccessLeaves(faults, s, desired, docker, p);
    OutsidePlan(Resolve(docker, desired).value, p);
  }

  /** Where nothing is advertised, the truth is an empty netns. */
  lemma TruthOfNothing(s: Sys, p: Pid)
    requires s.applied == S.EMPTY && p in s.w.nets
    ensures Resolve(s.docker, s.applied).Some?
    ensures TruthIn(s, p) <==> Rules(s.w.nets[p]) == [] && s.w.nets[p].root.None?
  {
    EmptyResolves(s.docker);
    hide Resolve, G.WantedRoot, Compilation.Compiled;
    NothingWanted(p);
  }

  lemma FailureKeys(faults: Faults, s: Sys, desired: S.State, docker: Docker)
    ensures FailurePoint(faults, s, desired, docker).w.nets.Keys == s.w.nets.Keys
  {
    hide ClearLocked, TornDown, InstallRulesLocked, InstallQdiscsLocked, Resolve;
    ClearLockedRecords(faults, s);
    if Resolve(docker, desired).Some? {
      var plan := Resolve(docker, desired).value;
      var s1 := ClearLocked(faults, s).0;
      TornDownEffect(faults, s1, plan);
      var t := TornDown(faults, s1, plan);
      InstallKeys(faults, t, plan);
      InstallKeys(faults, InstallRulesLocked(faults, t, plan).0, plan);
    }
  }

  lemma TruthAfterFailure(faults: Faults, s: Sys, source: Source, desired: S.State, docker: Docker, p: Pid)
    requires p in s.w.nets && ApplyLocked(faults, s, desired, docker).1.Some?
    ensures var (s1, stage) := ApplyLocked(faults, s, desired, docker);
            var s2 := Settle(s1, stage, source, desired, docker);
            p in s2.w.nets && (TruthIn(s2, p) <==> ReachesIn(faults, s, desired, docker, p))
  {
    FailedApply(faults, s, desired, docker);
    FailureKeys(faults, s, desired, docker);
    hide ApplyLocked, ClearLocked, FailurePoint, RulesGo, RootGoes, TruthIn;
    ClearLockedIff(faults, FailurePoint(faults, s, desired, docker), p);
    var (s1, stage) := ApplyLocked(faults, s, desired, docker);
    TruthOfNothing(Settle(s1, stage, source, desired, docker), p);
  }

  /** After an apply, successful or not, a netns holds what GET tells exactly when cleanup did its part there. */
  lemma ApplyTruthIn(faults: Faults, s: Sys, source: Source, desired: S.State, docker: Docker, p: Pid)
    requires p in s.w.nets && OnePid(docker, desired)
    ensures var (s1, stage) := ApplyLocked(faults, s, desired, docker);
            var s2 := Settle(s1, stage, source, desired, docker);
            p in s2.w.nets && (TruthIn(s2, p) <==> ReachesIn(faults, s, desired, docker, p))
  {
    hide ApplyLocked, TruthIn, ReachesIn, OnePid;
    if ApplyLocked(faults, s, desired, docker).1.None? {
      TruthAfterSuccess(faults, s, source, desired, docker, p);
    } else {
      TruthAfterFailure(faults, s, source, desired, docker, p);
    }
  }

  /** And so GET tells the truth of the whole kernel exactly when cleanup did its part everywhere. */
  lemma ApplyTruthIff(faults: Faults, s: Sys, source: Source, desired: S.State, docker: Docker)
    requires OnePid(docker, desired)
    ensures var (s1, stage) := ApplyLocked(faults, s, desired, docker);
            TellsTruth(Settle(s1, stage, source, desired, docker)) <==> ApplyReaches(faults, s, desired, docker)
  {
    ApplyLockedRecords(faults, s, desired, docker);
    ResolveClone(docker, desired);
    var (s1, stage) := ApplyLocked(faults, s, desired, docker);
    EmptyResolves(s1.docker);
    hide ApplyLocked, ReachesIn, OnePid, Resolve, Conforms;
    forall p | p in s.w.nets
      ensures var s2 := Settle(s1, stage, source, desired, docker);
              p in s2.w.nets && (TruthIn(s2, p) <==> ReachesIn(faults, s, desired, docker, p))
    {
      ApplyTruthIn(faults, s, source, desired, docker, p);
    }
  }

  // ---- The requests ----

  /** A PUT that gets as far as the pipeline. */
  ghost predicate Accepted(hash: T.Hash, s: Sys, body: Option<S.State>, ifMatch: string) {
    && body.Some? && S.Valid(body.value)
    && T.Encodable(s.applied) && T.Allows(ifMatch, T.Tag(hash, s.applied)) && T.Encodable(S.Clone(body.value))
  }

  /**
   * From any state, with any failures: after a PUT that is accepted, GET tells the truth exactly when cleanup
   * reached what it had to reach; a PUT that is not accepted changes nothing.
   */
  lemma PutTruthIff(faults: Faults, hash: T.Hash, s: Sys, body: Option<S.State>, ifMatch: string, docker: Docker)
    requires body.Some? ==> OnePid(docker, body.value)
    ensures var s1 := PutState(faults, hash, s, body, ifMatch, docker).0;
            if Accepted(hash, s, body, ifMatch) then TellsTruth(s1) <==> ApplyReaches(faults, s, body.value, docker)
            else s1 == s
  {
    hide ApplyLocked, TellsTruth, ApplyReaches, S.Valid, S.Clone, T.Encodable, T.Allows, T.Tag, OnePid;
    if body.Some? {
      ApplyTruthIff(faults, s, Http, body.value, docker);
    }
  }

  /** The same for the config path. */
  lemma ConfigTruthIff(faults: Faults, s: Sys, desired: S.State, docker: Docker)
    requires OnePid(docker, desired)
    ensures var s1 := ApplyConfig(faults, s, desired, docker);
            if S.Valid(desired) then TellsTruth(s1) <==> ApplyReaches(faults, s, desired, docker) else s1 == s
  {
    hide ApplyLocked, TellsTruth, ApplyReaches, S.Valid, S.Clone, OnePid;
    ApplyTruthIff(faults, s, Source.Config, desired, docker);
  }

  lemma ClearTruthIn(faults: Faults, s: Sys, p: Pid)
    requires p in s.w.nets
    ensures var s1 := PostClear(faults, s).0;
            p in s1.w.nets && (TruthIn(s1, p) <==> RootGoes(faults, s, p) && RulesGo(faults, s, p))
  {
    hide ClearLocked, RootGoes, RulesGo, TruthIn;
    ClearLockedIff(faults, s, p);
    TruthOfNothing(PostClear(faults, s).0, p);
  }

  /** The same for a clear, whatever it answers. */
  lemma ClearTruthIff(faults: Faults, s: Sys)
    ensures TellsTruth(PostClear(faults, s).0) <==> CleanupWorks(faults, s)
  {
    ClearLockedRecords(faults, s);
    EmptyResolves(s.docker);
    hide ClearLocked, RootGoes, RulesGo, Conforms, Resolve;
    forall p | p in s.w.nets
      ensures var s1 := PostClear(faults, s).0;
              p in s1.w.nets && (TruthIn(s1, p) <==> RootGoes(faults, s, p) && RulesGo(faults, s, p))
    {
      ClearTruthIn(faults, s, p);
    }
  }

  // ---- Restarts ----

  /** What recovery goes through: nothing, where the listing fails. */
  function Targeted(listing: Listing): seq<Container> {
    if listing.None? then [] else listing.value
  }

  /** The rules and the qdisc of netns p, if any, meet a recovery command that works. Flushes come first. */
  ghost predicate Recoverable(faults: Faults, w: World, chains: Listing, qdiscs: Listing, p: Pid)
    requires p in w.nets
  {
    && (Rules(w.nets[p]) != [] ==> Reaches(faults, w.clock, Targeted(chains), p))
    && (w.nets[p].root.Some? ==> Reaches(faults, w.clock + Ticks(Targeted(chains)), Targeted(qdiscs), p))
  }

  lemma RecoveredIff(faults: Faults, w: World, chains: Listing, qdiscs: Listing, p: Pid)
    requires p in w.nets
    ensures var n := Recovered(faults, w, chains, qdiscs).nets;
            && p in n
            && (Rules(n[p]) == [] && n[p].root.None? <==> Recoverable(faults, w, chains, qdiscs, p))
  {
    hide Reaches;
    ClearTargetsIff(faults, w, Targeted(chains), p);
    var w1 := I.ClearTargets(faults, w, Targeted(chains)).w;
    DropRootsIff(faults, w1, Targeted(qdiscs), p);
    assert Recovered(faults, w, chains, qdiscs) == Tc.DropRoots(faults, w1, Targeted(qdiscs));
  }

  lemma RestartTruthIn(faults: Faults, s: Sys, chains: Listing, qdiscs: Listing, p: Pid)
    requires p in s.w.nets
    ensures var s1 := Restarted(faults, s, chains, qdiscs);
            p in s1.w.nets && (TruthIn(s1, p) <==> Recoverable(faults, s.w, chains, qdiscs, p))
  {
    RecoveredIff(faults, s.w, chains, qdiscs, p);
    ForgottenStands(faults, s, chains, qdiscs);
    hide Recovered, Recoverable, TruthIn, Rules;
    TruthOfNothing(Restarted(faults, s, chains, qdiscs), p);
  }

  /** From any state, a restart leaves GET telling the truth exactly when recovery reaches all that stands. */
  lemma RestartTruthIff(faults: Faults, s: Sys, chains: Listing, qdiscs: Listing)
    ensures TellsTruth(Restarted(faults, s, chains, qdiscs))
       <==> forall p :: p in s.w.nets ==> Recoverable(faults, s.w, chains, qdiscs, p)
  {
    G.RecoveredExtends(faults, s.w, chains, qdiscs);
    EmptyResolves(s.docker);
    hide Recovered, Recoverable, Conforms, Resolve;
    forall p | p in s.w.nets
      ensures var s1 := Restarted(faults, s, chains, qdiscs);
              p in s1.w.nets && (TruthIn(s1, p) <==> Recoverable(faults, s.w, chains, qdiscs, p))
    {
      RestartTruthIn(faults, s, chains, qdiscs, p);
    }
  }

  /** Forgetting changes no chain and no qdisc. */
  lemma ForgottenStands(faults: Faults, s: Sys, chains: Listing, qdiscs: Listing)
    ensures var a, b := Recovered(faults, s.w, chains, qdiscs).nets, Restarted(faults, s, chains, qdiscs).w.nets;
            && a.Keys == b.Keys
            && forall p :: p in a ==> p in b && Rules(b[p]) == Rules(a[p]) && b[p].root == a[p].root
  {
    hide Recovered;
  }
}
