/** What a request achieves when no command fails from now on, and what becomes of it when cleanup does fail. */
module Liveness {
  import opened Wrappers
  import opened Discovery
  import opened Backend
  import opened Kernel
  import opened Api
  import opened Runs
  import S = State
  import I = Iptables
  import Tc
  import N = Netfilter
  import Q = Qdiscs
  import P = Progress

  /** From now on no command fails. */
  ghost predicate Calm(faults: Faults, clock: nat) {
    forall t :: clock <= t ==> faults(t) == Obey
  }

  ghost predicate Live(w: World, cs: seq<Container>) {
    forall c :: c in cs ==> c.pid in w.nets
  }

  ghost predicate NoNegativePid(cs: seq<Container>) {
    forall c :: c in cs ==> c.pid >= 0
  }

  // ---- iptables ----

  lemma {:induction false} CalmClear(faults: Faults, w: World, ts: seq<Container>)
    requires Calm(faults, w.clock)
    ensures I.ClearTargets(faults, w, ts).ok <==> NoNegativePid(ts)
    decreases ts
  {
    if ts == [] {
    } else {
      CalmFlush(faults, w, ts[0]);
      hide I.Flush;
      CalmClear(faults, I.Flush(faults, w, ts[0]).w, ts[1..]);
      assert ts == [ts[0]] + ts[1..];
    }
  }

  lemma CalmFlush(faults: Faults, w: World, c: Container)
    requires Calm(faults, w.clock)
    ensures I.Flush(faults, w, c).ok <==> c.pid >= 0
    ensures w.clock <= I.Flush(faults, w, c).w.clock
  {
  }

  /** ensureChain works on a calm kernel exactly where there is a netns. */
  lemma CalmEnsureChain(faults: Faults, w: World, c: Container)
    requires Calm(faults, w.clock)
    ensures I.EnsureChain(faults, w, c).ok <==> c.pid in w.nets
  {
  }

  lemma NoNetns(faults: Faults, w: World, call: Call)
    requires call.pid !in w.nets
    ensures Issue(faults, w, call).1.Failed?
  {
  }

  /** The answers of a working kernel. */
  lemma CalmStruck(n: Net, cmd: Command)
    ensures var (m, a) := Struck(n, cmd, Obey);
            match cmd
            case NewChain => (a.Ok? || ExitCode(a) == 1) && m.chain.Some?
            case FlushChain => (n.chain.Some? ==> a.Ok?) && m.chain.Some? == n.chain.Some?
            case CheckJump => (a.Ok? || a.failure.Exit?) && m.chain == n.chain
            case AppendJump => (n.chain.Some? ==> a.Ok?) && m.chain == n.chain
            case AppendRule(_) => (n.chain.Some? ==> a.Ok?) && m.chain.Some? == n.chain.Some?
            case DelRoot => m.root.None?
            case AddRootTbf(args) => (n.root.None? ==> a.Ok? && m.root == Some(Tbf(args, None)))
            case AddRootNetem(args) => (n.root.None? ==> a.Ok?)
            case AddChildNetem(args) => (n.root.Some? && n.root.value.Tbf? && n.root.value.under.None? ==> a.Ok?)
            case _ => true
  {
  }

  lemma {:induction false} CalmEnsureAll(faults: Faults, w: World, ts: seq<Container>)
    requires Calm(faults, w.clock)
    ensures I.EnsureAll(faults, w, ts).ok <==> Live(w, ts)
    decreases ts
  {
    hide I.EnsureChain;
    if ts == [] {
    } else {
      CalmEnsureChain(faults, w, ts[0]);
      P.EnsureChainExtends(faults, w, ts[0]);
      CalmEnsureAll(faults, I.EnsureChain(faults, w, ts[0]).w, ts[1..]);
      assert ts == [ts[0]] + ts[1..];
    }
  }

  ghost predicate Chained(w: World, calls: seq<Call>) {
    forall c :: c in calls ==> c.pid in w.nets && w.nets[c.pid].chain.Some?
  }

  lemma {:induction false} CalmRunAll(faults: Faults, w: World, calls: seq<Call>)
    requires Calm(faults, w.clock) && N.AppendsOnly(calls) && Chained(w, calls)
    ensures I.RunAll(faults, w, calls).ok
    decreases calls
  {
    hide Issue, Struck;
    if calls == [] {
    } else {
      var call := calls[0];
      assert call in calls;
      var w1 := Issue(faults, w, call).0;
      P.IssueExtends(faults, w, call);
      forall c | c in calls
        ensures c.pid in w1.nets && w1.nets[c.pid].chain.Some?
      {
        IssueEffect(faults, w, call, c.pid);
        CalmStruck(w.nets[c.pid], call.cmd);
        assert faults(w.clock) == Obey;
      }
      IssueEffect(faults, w, call, call.pid);
      CalmStruck(w.nets[call.pid], call.cmd);
      assert faults(w.clock) == Obey;
      CalmRunAll(faults, w1, calls[1..]);
    }
  }

  lemma {:induction false} SymmetricInstall(faults: Faults, w: World, plan: seq<Partition>)
    ensures (forall p :: p in plan ==> p.symmetric) ==>
              I.InstallAll(faults, w, plan) == I.RunAll(faults, w, I.PlanCalls(plan))
    ensures I.InstallAll(faults, w, plan).ok ==> forall p :: p in plan ==> p.symmetric
    decreases plan
  {
    if plan == [] {
    } else {
      var calls := I.GroupCalls(plan[0], 0);
      I.RunAllConcat(faults, w, calls, I.PlanCalls(plan[1..]));
      SymmetricInstall(faults, I.RunAll(faults, w, calls).w, plan[1..]);
      assert plan == [plan[0]] + plan[1..];
    }
  }

  /** iptables Apply, on a calm kernel. */
  lemma CalmInstallRules(faults: Faults, w: World, plan: seq<Partition>)
    requires Calm(faults, w.clock) && OnePidPerId(Members(plan))
    ensures I.Applied(faults, w, [], plan).ok <==> Live(w, Targets(plan)) && forall p :: p in plan ==> p.symmetric
  {
    var ts := Targets(plan);
    var e := I.EnsureAll(faults, w, ts);
    CalmEnsureAll(faults, w, ts);
    P.EnsureAllExtends(faults, w, ts);
    SymmetricInstall(faults, e.w, plan);
    if e.ok && forall p :: p in plan ==> p.symmetric {
      TargetsCoverMembers(plan);
      N.PlanAppendsOnly(plan);
      var calls := I.PlanCalls(plan);
      forall c | c in calls
        ensures c.pid in e.w.nets && e.w.nets[c.pid].chain.Some?
      {
        assert c.pid in N.CallPids(calls);
        var t :| t in ts && t.pid == c.pid;
        N.EnsureAllEffect(faults, w, ts, c.pid);
      }
      CalmRunAll(faults, e.w, calls);
    }
    hide I.EnsureAll, I.InstallAll;
  }

  // ---- tc ----

  predicate HasParameters(sh: Shaping) {
    Tc.HasBandwidth(sh) || Tc.HasNetem(sh)
  }

  lemma CalmDropRoot(faults: Faults, w: World, c: Container)
    requires Calm(faults, w.clock) && c.pid in w.nets
    ensures var w1 := Tc.DropRoot(faults, w, c).w;
            c.pid in w1.nets && w1.nets[c.pid].root.None? && w.clock <= w1.clock
  {
  }

  lemma CalmApplyTo(faults: Faults, w: World, job: Tc.Job)
    requires Calm(faults, w.clock)
    ensures Tc.ApplyTo(faults, w, job).ok <==> job.c.pid in w.nets && HasParameters(job.rule)
  {
    hide Issue, Struck, Tc.DropRoot, Tc.NetemSpec, Tc.TbfArgs;
    var (c, sh) := (job.c, job.rule);
    var w0 := Tc.DropRoot(faults, w, c).w;
    DropRootKeys(faults, w, c);
    var root := Call(c.pid, if Tc.HasBandwidth(sh) then AddRootTbf(Tc.TbfArgs(sh)) else AddRootNetem(Tc.NetemSpec(sh)));
    if c.pid !in w.nets {
      NoNetns(faults, w0, root);
    } else {
      CalmDropRoot(faults, w, c);
      IssueEffect(faults, w0, root, c.pid);
      P.IssueExtends(faults, w0, root);
      CalmStruck(w0.nets[c.pid], root.cmd);
      var w1 := Issue(faults, w0, root).0;
      var child := AddChildNetem(Tc.NetemSpec(sh));
      IssueEffect(faults, w1, Call(c.pid, child), c.pid);
      CalmStruck(w1.nets[c.pid], child);
      assert faults(w0.clock) == Obey && faults(w1.clock) == Obey;
    }
  }

  lemma DropRootKeys(faults: Faults, w: World, c: Container)
    ensures P.Extends(w, Tc.DropRoot(faults, w, c).w)
  {
  }

  ghost predicate Doable(w: World, jobs: seq<Tc.Job>) {
    forall job :: job in jobs ==> job.c.pid in w.nets && HasParameters(job.rule)
  }

  lemma {:induction false} CalmRunJobs(faults: Faults, w: World, jobs: seq<Tc.Job>)
    requires Calm(faults, w.clock)
    ensures Tc.RunJobs(faults, w, jobs).ok <==> Doable(w, jobs)
    decreases jobs
  {
    hide Tc.ApplyTo, HasParameters;
    if jobs == [] {
    } else {
      CalmApplyTo(faults, w, jobs[0]);
      P.ApplyToExtends(faults, w, jobs[0]);
      CalmRunJobs(faults, Tc.ApplyTo(faults, w, jobs[0]).w, jobs[1..]);
      assert jobs == [jobs[0]] + jobs[1..];
    }
  }

  lemma {:induction false} RuleJobsIff(target: seq<Container>, sh: Shaping, job: Tc.Job)
    ensures job in Tc.RuleJobs(target, sh) <==> job.rule == sh && job.c in target
  {
    if target == [] {
    } else {
      RuleJobsIff(target[1..], sh, job);
      assert target == [target[0]] + target[1..];
    }
  }

  lemma {:induction false} JobsIff(plan: seq<Shaping>, job: Tc.Job)
    ensures job in Tc.Jobs(plan) <==> job.rule in plan && job.c in job.rule.target
  {
    if plan == [] {
    } else {
      RuleJobsIff(plan[0].target, plan[0], job);
      JobsIff(plan[1..], job);
      assert plan == [plan[0]] + plan[1..];
    }
  }

  /** tc Apply, on a calm kernel. */
  lemma CalmInstallQdiscs(faults: Faults, w: World, last: seq<Container>, plan: seq<Shaping>)
    requires Calm(faults, w.clock)
    ensures Tc.Applied(faults, w, last, plan).ok <==>
            && Tc.Consistent(plan)
            && Live(w, Tc.Shaped(plan))
            && forall sh :: sh in plan ==> HasParameters(sh)
  {
    hide HasParameters;
    P.DropRootsExtends(faults, w, last);
    var w0 := Tc.DropRoots(faults, w, last);
    CalmRunJobs(faults, w0, Tc.Jobs(plan));
    if Tc.Consistent(plan) {
      if Doable(w0, Tc.Jobs(plan)) {
        forall c | c in Tc.Shaped(plan)
          ensures c.pid in w.nets
        {
          Q.ShapedIff(plan, c);
          var sh :| sh in plan && c in sh.target;
          JobsIff(plan, Tc.Job(c, sh));
        }
        forall sh | sh in plan
          ensures HasParameters(sh)
        {
          JobsIff(plan, Tc.Job(sh.target[0], sh));
        }
      }
      if Live(w, Tc.Shaped(plan)) && forall sh :: sh in plan ==> HasParameters(sh) {
        forall job | job in Tc.Jobs(plan)
          ensures job.c.pid in w0.nets && HasParameters(job.rule)
        {
          JobsIff(plan, job);
          Q.ShapedIff(plan, job.c);
        }
      }
    }
  }

  // ---- Requests ----

  lemma {:induction false} ValidPartitions(docker: Docker, ps: seq<S.Partition>, k: nat)
    requires k <= |ps| && forall p :: p in ps ==> S.ValidPartition(p)
    ensures ResolvePartitions(docker, ps, k).Some? ==>
              forall p :: p in ResolvePartitions(docker, ps, k).value ==> p.symmetric
  {
    if k == 0 {
    } else {
      assert ps[k - 1] in ps;
      ValidPartitions(docker, ps, k - 1);
    }
  }

  lemma {:induction false} ValidShaping(docker: Docker, rules: seq<S.Shaping>, k: nat)
    requires k <= |rules| && forall sh :: sh in rules ==> S.ValidShaping(sh)
    ensures ResolveShaping(docker, rules, k).Some? ==>
              forall sh :: sh in ResolveShaping(docker, rules, k).value ==> HasParameters(sh)
  {
    if k == 0 {
    } else {
      assert rules[k - 1] in rules;
      ValidShaping(docker, rules, k - 1);
    }
  }

  /** What a valid request needs beyond a working kernel. */
  ghost predicate Feasible(s: Sys, desired: S.State, docker: Docker) {
    && NoNegativePid(s.ipt)
    && Resolve(docker, desired).Some?
    && var plan := Resolve(docker, desired).value;
       && Live(s.w, Targets(plan.partitions))
       && Live(s.w, Tc.Shaped(plan.shaping))
       && (forall i :: 0 <= i < |plan.shaping| ==> plan.shaping[i].target != [])
       && forall i: nat, k: nat, j: nat, l: nat
            | i < |plan.shaping| && j < |plan.shaping|
              && k < |plan.shaping[i].target| && l < |plan.shaping[j].target|
            :: plan.shaping[i].target[k].id == plan.shaping[j].target[l].id ==> i == j && k == l
  }

  /** The same, as the pre-flight check has it. */
  ghost predicate Possible(s: Sys, desired: S.State, docker: Docker) {
    && NoNegativePid(s.ipt)
    && Resolve(docker, desired).Some?
    && var plan := Resolve(docker, desired).value;
       Live(s.w, Targets(plan.partitions)) && Tc.Consistent(plan.shaping) && Live(s.w, Tc.Shaped(plan.shaping))
  }

  lemma FeasibleIff(s: Sys, desired: S.State, docker: Docker)
    ensures Feasible(s, desired, docker) <==> Possible(s, desired, docker)
  {
    hide Resolve, Tc.Consistent, Live, Targets, Tc.Shaped;
    if Resolve(docker, desired).Some? {
      Q.ConsistentIff(Resolve(docker, desired).value.shaping);
    }
  }

  /**
   * On a calm kernel a valid state is applied exactly when it resolves, every rule targets something, no container is
   * shaped in two places, every container it names has a netns, and no recorded PID is negative.
   */
  lemma CalmApplyIff(faults: Faults, s: Sys, desired: S.State, docker: Docker)
    requires Calm(faults, s.w.clock) && S.Valid(desired) && OnePid(docker, desired)
    ensures ApplyLocked(faults, s, desired, docker).1.None? <==> Feasible(s, desired, docker)
  {
    FeasibleIff(s, desired, docker);
    hide Feasible;
    P.DropRootsExtends(faults, s.w, s.tc);
    CalmClear(faults, Tc.DropRoots(faults, s.w, s.tc), s.ipt);
    ClearLockedRecords(faults, s);
    ValidPartitions(docker, desired.partitions, |desired.partitions|);
    ValidShaping(docker, desired.shaping, |desired.shaping|);
    var (s1, cleared) := ClearLocked(faults, s);
    assert cleared <==> NoNegativePid(s.ipt);
    hide ClearLocked, TornDown, I.Applied, Tc.Applied, Tc.Consistent, Targets, Tc.Shaped, HasParameters;
    if Resolve(docker, desired).Some? && cleared {
      var plan := Resolve(docker, desired).value;
      TornDownEffect(faults, s1, plan);
      var t := TornDown(faults, s1, plan);
      CalmInstallRules(faults, t.w, plan.partitions);
      P.IptablesExtends(faults, t.w, [], plan.partitions);
      var s2 := InstallRulesLocked(faults, t, plan).0;
      CalmInstallQdiscs(faults, s2.w, s2.tc, plan.shaping);
    }
  }

  /** A clear can be retried until it works: on a calm kernel it succeeds exactly when no recorded PID is negative. */
  lemma RetrySucceedsIff(faults: Faults, s: Sys)
    requires Calm(faults, s.w.clock)
    ensures PostClear(faults, s).1.Healed? <==> NoNegativePid(s.ipt)
  {
    P.DropRootsExtends(faults, s.w, s.tc);
    CalmClear(faults, Tc.DropRoots(faults, s.w, s.tc), s.ipt);
  }

  // ---- When cleanup fails ----

  /** From now on every command fails without effect. */
  ghost predicate Dead(faults: Faults, clock: nat) {
    forall t :: clock <= t ==> faults(t) == Break(Other, false)
  }

  lemma {:induction false} DeadDropRoots(faults: Faults, w: World, ts: seq<Container>, p: Pid)
    requires Dead(faults, w.clock) && p in w.nets
    ensures var w1 := Tc.DropRoots(faults, w, ts);
            && p in w1.nets && w1.nets[p].chain == w.nets[p].chain && w1.nets[p].root == w.nets[p].root
            && Dead(faults, w1.clock)
    decreases ts
  {
    hide Struck;
    if ts == [] {
    } else {
      var call := Call(ts[0].pid, DelRoot);
      IssueEffect(faults, w, call, p);
      P.IssueExtends(faults, w, call);
      DeadDel(w.nets[p]);
      assert faults(w.clock) == Break(Other, false);
      hide Issue;
      DeadDropRoots(faults, Tc.DropRoot(faults, w, ts[0]).w, ts[1..], p);
    }
  }

  lemma DeadDel(n: Net)
    ensures var m := Struck(n, DelRoot, Break(Other, false)).0; m.chain == n.chain && m.root == n.root
    ensures var m := Struck(n, FlushChain, Break(Other, false)).0; m.chain == n.chain && m.root == n.root
  {
  }

  lemma {:induction false} DeadClearTargets(faults: Faults, w: World, ts: seq<Container>, p: Pid)
    requires Dead(faults, w.clock) && p in w.nets
    ensures var w1 := I.ClearTargets(faults, w, ts).w;
            p in w1.nets && w1.nets[p].chain == w.nets[p].chain && w1.nets[p].root == w.nets[p].root
    decreases ts
  {
    hide Struck;
    if ts == [] {
    } else {
      var call := Call(ts[0].pid, FlushChain);
      IssueEffect(faults, w, call, p);
      P.IssueExtends(faults, w, call);
      DeadDel(w.nets[p]);
      assert faults(w.clock) == Break(Other, false);
      hide Issue;
      DeadClearTargets(faults, I.Flush(faults, w, ts[0]).w, ts[1..], p);
    }
  }

  /**
   * "Known-empty after any error" fails when cleanup itself fails: from any state, a clear on a dead kernel
   * advertises the empty state while every drop rule and every qdisc still stands.
   */
  lemma DeadClearKeepsEverything(faults: Faults, s: Sys, p: Pid)
    requires Dead(faults, s.w.clock) && p in s.w.nets
    ensures var s1 := PostClear(faults, s).0;
            && s1.applied == S.EMPTY
            && p in s1.w.nets
            && Rules(s1.w.nets[p]) == Rules(s.w.nets[p])
            && s1.w.nets[p].root == s.w.nets[p].root
  {
    DeadDropRoots(faults, s.w, s.tc, p);
    DeadClearTargets(faults, Tc.DropRoots(faults, s.w, s.tc), s.ipt, p);
    hide I.ClearTargets, Tc.DropRoots;
  }
}
