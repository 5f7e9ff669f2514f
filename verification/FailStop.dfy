/** Nothing is installed on top of a failure: an install command that fails is followed by cleanup, in every run. */
module FailStop {
  import opened Wrappers
  import opened Discovery
  import opened Backend
  import opened Kernel
  import opened Api
  import opened Runs
  import S = State
  import T = ETag
  import I = Iptables
  import Tc
  import Conntrack
  import N = Netfilter
  import L = Liveness
  import Q = Qdiscs
  import G = Guarantees

  predicate Installs(cmd: Command) {
    cmd.AppendJump? || cmd.AppendRule? || cmd.AddRootTbf? || cmd.AddRootNetem? || cmd.AddChildNetem?
  }

  predicate CleansUp(cmd: Command) {
    cmd.FlushChain? || cmd.DelRoot?
  }

  /** An install command that failed inside a netns, or tried to enter one. */
  predicate Broke(e: Entry) {
    Installs(e.call.cmd) && e.call.pid > 0 && !e.ok
  }

  /** Every install command that failed is followed by cleanup, except where it is the last command so far. */
  ghost predicate Halts(log: seq<Entry>) {
    forall i :: 0 <= i < |log| - 1 && Broke(log[i]) ==> CleansUp(log[i + 1].call.cmd)
  }

  /** The last command of the log is an install command that failed. */
  predicate Hangs(log: seq<Entry>) {
    log != [] && Broke(log[|log| - 1])
  }

  /** It failed in the netns of a container that is on record. */
  ghost predicate HangsAt(log: seq<Entry>, ts: seq<Container>) {
    Hangs(log) && exists c :: c in ts && c.pid == log[|log| - 1].call.pid
  }

  /** The log is in order, and nothing hangs. */
  ghost predicate Settled(log: seq<Entry>) {
    Halts(log) && !Hangs(log)
  }

  lemma IssueHalts(faults: Faults, w: World, call: Call)
    requires Halts(w.log) && (Hangs(w.log) ==> CleansUp(call.cmd))
    ensures var (w1, a) := Issue(faults, w, call);
            && Halts(w1.log)
            && (Hangs(w1.log) <==> Installs(call.cmd) && call.pid > 0 && a.Failed?)
            && (Hangs(w1.log) ==> w1.log[|w1.log| - 1].call == call)
  {
    var e := IssueAppends(faults, w, call);
    var log := Issue(faults, w, call).0.log;
    hide Issue;
    assert log[|w.log|] == e;
    assert forall i :: 0 <= i < |w.log| ==> log[i] == w.log[i];
  }

  lemma IssueAppends(faults: Faults, w: World, call: Call) returns (e: Entry)
    ensures var (w1, a) := Issue(faults, w, call);
            w1.log == w.log + [e] && e.call == call && e.ok == a.Ok?
  {
    hide Struck, Quiet, LeftBehind, Lies;
    e := Issue(faults, w, call).0.log[|w.log|];
  }

  // ---- Cleanup ----

  lemma FlushHalts(faults: Faults, w: World, c: Container)
    requires Halts(w.log)
    ensures var w1 := I.Flush(faults, w, c).w;
            Halts(w1.log) && (if c.pid == 0 then w1 == w else !Hangs(w1.log))
  {
    hide Issue, Halts;
    if c.pid != 0 {
      IssueHalts(faults, w, Call(c.pid, FlushChain));
    }
  }

  lemma {:induction false} ClearTargetsHalts(faults: Faults, w: World, ts: seq<Container>)
    requires Halts(w.log)
    ensures var w1 := I.ClearTargets(faults, w, ts).w;
            && Halts(w1.log)
            && (!Hangs(w.log) || HangsAt(w.log, ts) ==> !Hangs(w1.log))
            && (Hangs(w1.log) ==> w1.log == w.log)
    decreases ts
  {
    hide I.Flush, Halts;
    if ts == [] {
    } else {
      FlushHalts(faults, w, ts[0]);
      var first := I.Flush(faults, w, ts[0]).w;
      ClearTargetsHalts(faults, first, ts[1..]);
      if HangsAt(w.log, ts) && ts[0].pid == 0 {
        var c :| c in ts && c.pid == w.log[|w.log| - 1].call.pid;
        assert c in ts[1..];
      }
    }
  }

  lemma DropRootHalts(faults: Faults, w: World, c: Container)
    requires Halts(w.log)
    ensures var w1 := Tc.DropRoot(faults, w, c).w;
            Halts(w1.log) && (if c.pid == 0 then w1 == w else !Hangs(w1.log))
  {
    hide Issue, Halts;
    if c.pid != 0 {
      IssueHalts(faults, w, Call(c.pid, DelRoot));
    }
  }

  lemma {:induction false} DropRootsHalts(faults: Faults, w: World, ts: seq<Container>)
    requires Halts(w.log)
    ensures var w1 := Tc.DropRoots(faults, w, ts);
            && Halts(w1.log)
            && (!Hangs(w.log) || HangsAt(w.log, ts) ==> !Hangs(w1.log))
            && (Hangs(w1.log) ==> w1.log == w.log)
    decreases ts
  {
    hide Tc.DropRoot, Halts;
    if ts == [] {
    } else {
      DropRootHalts(faults, w, ts[0]);
      var first := Tc.DropRoot(faults, w, ts[0]).w;
      DropRootsHalts(faults, first, ts[1..]);
      if HangsAt(w.log, ts) && ts[0].pid == 0 {
        var c :| c in ts && c.pid == w.log[|w.log| - 1].call.pid;
        assert c in ts[1..];
      }
    }
  }

  /** A clear settles the log if nothing hangs, or what hangs is on record. */
  lemma ClearHalts(faults: Faults, s: Sys)
    requires Halts(s.w.log) && (Hangs(s.w.log) ==> HangsAt(s.w.log, s.tc) || HangsAt(s.w.log, s.ipt))
    ensures Settled(ClearLocked(faults, s).0.w.log)
  {
    hide I.ClearTargets, Tc.DropRoots, Halts;
    DropRootsHalts(faults, s.w, s.tc);
    ClearTargetsHalts(faults, Tc.DropRoots(faults, s.w, s.tc), s.ipt);
  }

  // ---- iptables ----

  lemma EnsureJumpHalts(faults: Faults, w: World, pid: int)
    requires Settled(w.log)
    ensures var d := I.EnsureJump(faults, w, pid);
            Halts(d.w.log) && (Hangs(d.w.log) ==> !d.ok && d.w.log[|d.w.log| - 1].call.pid == pid)
  {
    hide Issue, Halts;
    IssueHalts(faults, w, Call(pid, CheckJump));
    var w1 := Issue(faults, w, Call(pid, CheckJump)).0;
    IssueHalts(faults, w1, Call(pid, AppendJump));
  }

  lemma EnsureChainHalts(faults: Faults, w: World, c: Container)
    requires Settled(w.log)
    ensures var d := I.EnsureChain(faults, w, c);
            Halts(d.w.log) && (Hangs(d.w.log) ==> !d.ok && d.w.log[|d.w.log| - 1].call.pid == c.pid)
  {
    hide Issue, Halts, I.EnsureJump;
    IssueHalts(faults, w, Call(c.pid, NewChain));
    var w1 := Issue(faults, w, Call(c.pid, NewChain)).0;
    IssueHalts(faults, w1, Call(c.pid, FlushChain));
    EnsureJumpHalts(faults, Issue(faults, w1, Call(c.pid, FlushChain)).0, c.pid);
  }

  lemma {:induction false} EnsureAllHalts(faults: Faults, w: World, ts: seq<Container>)
    requires Settled(w.log)
    ensures var d := I.EnsureAll(faults, w, ts);
            Halts(d.w.log) && (Hangs(d.w.log) ==> !d.ok && HangsAt(d.w.log, ts))
    decreases ts
  {
    hide I.EnsureChain, Halts;
    if ts == [] {
    } else {
      EnsureChainHalts(faults, w, ts[0]);
      assert ts[0] in ts;
      var first := I.EnsureChain(faults, w, ts[0]);
      if first.ok {
        EnsureAllHalts(faults, first.w, ts[1..]);
      }
    }
  }

  lemma {:induction false} RunAllHalts(faults: Faults, w: World, calls: seq<Call>)
    requires Settled(w.log)
    ensures var d := I.RunAll(faults, w, calls);
            && Halts(d.w.log)
            && (Hangs(d.w.log) ==> !d.ok && d.w.log[|d.w.log| - 1].call in calls)
    decreases calls
  {
    hide Issue, Halts;
    if calls == [] {
    } else {
      IssueHalts(faults, w, calls[0]);
      var (w1, a) := Issue(faults, w, calls[0]);
      if a.Ok? {
        RunAllHalts(faults, w1, calls[1..]);
      }
    }
  }

  lemma {:induction false} InstallAllHalts(faults: Faults, w: World, plan: seq<Partition>)
    requires Settled(w.log)
    ensures var d := I.InstallAll(faults, w, plan);
            && Halts(d.w.log)
            && (Hangs(d.w.log) ==> !d.ok && d.w.log[|d.w.log| - 1].call in I.PlanCalls(plan))
    decreases plan
  {
    hide I.RunAll, Halts, I.GroupCalls;
    if plan == [] || !plan[0].symmetric {
    } else {
      RunAllHalts(faults, w, I.GroupCalls(plan[0], 0));
      var first := I.RunAll(faults, w, I.GroupCalls(plan[0], 0));
      if first.ok {
        InstallAllHalts(faults, first.w, plan[1..]);
      }
    }
  }

  /** A rule that fails is in the netns of a recorded target. */
  lemma RulesHalt(faults: Faults, s: Sys, plan: Plan)
    requires Settled(s.w.log) && OnePidPerId(Members(plan.partitions))
    ensures var (s1, ok) := InstallRulesLocked(faults, s, plan);
            Halts(s1.w.log) && (Hangs(s1.w.log) ==> !ok && HangsAt(s1.w.log, s1.ipt))
  {
    hide I.ClearTargets, I.EnsureAll, I.InstallAll, Halts, Targets, Members, I.PlanCalls;
    ClearTargetsHalts(faults, s.w, s.ipt);
    var c := I.ClearTargets(faults, s.w, s.ipt).w;
    var ts := Targets(plan.partitions);
    EnsureAllHalts(faults, c, ts);
    var e := I.EnsureAll(faults, c, ts);
    if e.ok {
      InstallAllHalts(faults, e.w, plan.partitions);
      var log := I.InstallAll(faults, e.w, plan.partitions).w.log;
      if Hangs(log) {
        TargetOf(plan.partitions, log[|log| - 1].call);
      }
    }
  }

  lemma TargetOf(plan: seq<Partition>, call: Call)
    requires OnePidPerId(Members(plan)) && call in I.PlanCalls(plan)
    ensures exists c :: c in Targets(plan) && c.pid == call.pid
  {
    N.PlanAppendsOnly(plan);
    TargetsCoverMembers(plan);
    assert call.pid in N.CallPids(I.PlanCalls(plan));
  }

  // ---- tc ----

  lemma ApplyToHalts(faults: Faults, w: World, job: Tc.Job)
    requires Settled(w.log)
    ensures var d := Tc.ApplyTo(faults, w, job);
            Halts(d.w.log) && (Hangs(d.w.log) ==> !d.ok && d.w.log[|d.w.log| - 1].call.pid == job.c.pid)
  {
    hide Issue, Halts, Tc.DropRoot, Tc.TbfArgs, Tc.NetemSpec;
    var (c, sh) := (job.c, job.rule);
    DropRootHalts(faults, w, c);
    var w0 := Tc.DropRoot(faults, w, c).w;
    var root := Call(c.pid, if Tc.HasBandwidth(sh) then AddRootTbf(Tc.TbfArgs(sh)) else AddRootNetem(Tc.NetemSpec(sh)));
    IssueHalts(faults, w0, root);
    var (w1, a) := Issue(faults, w0, root);
    if a.Ok? {
      IssueHalts(faults, w1, Call(c.pid, AddChildNetem(Tc.NetemSpec(sh))));
    }
  }

  ghost predicate JobAt(jobs: seq<Tc.Job>, pid: int) {
    exists job :: job in jobs && job.c.pid == pid
  }

  lemma {:induction false} RunJobsHalts(faults: Faults, w: World, jobs: seq<Tc.Job>)
    requires Settled(w.log)
    ensures var d := Tc.RunJobs(faults, w, jobs);
            Halts(d.w.log) && (Hangs(d.w.log) ==> !d.ok && JobAt(jobs, d.w.log[|d.w.log| - 1].call.pid))
    decreases jobs
  {
    hide Tc.ApplyTo, Halts;
    if jobs == [] {
    } else {
      ApplyToHalts(faults, w, jobs[0]);
      assert jobs[0] in jobs;
      var first := Tc.ApplyTo(faults, w, jobs[0]);
      if first.ok {
        RunJobsHalts(faults, first.w, jobs[1..]);
      }
    }
  }

  lemma QdiscsHalt(faults: Faults, s: Sys, plan: Plan)
    requires Settled(s.w.log)
    ensures var (s1, ok) := InstallQdiscsLocked(faults, s, plan);
            Halts(s1.w.log) && (Hangs(s1.w.log) ==> !ok && HangsAt(s1.w.log, s1.tc))
  {
    hide Tc.DropRoots, Tc.RunJobs, Halts, Tc.Consistent, Tc.Jobs, Tc.Shaped;
    DropRootsHalts(faults, s.w, s.tc);
    var w0 := Tc.DropRoots(faults, s.w, s.tc);
    RunJobsHalts(faults, w0, Tc.Jobs(plan.shaping));
    var log := Tc.RunJobs(faults, w0, Tc.Jobs(plan.shaping)).w.log;
    if Hangs(log) {
      ShapedJob(plan.shaping, log[|log| - 1].call.pid);
    }
  }

  lemma ShapedJob(rules: seq<Shaping>, pid: int)
    requires JobAt(Tc.Jobs(rules), pid)
    ensures exists c :: c in Tc.Shaped(rules) && c.pid == pid
  {
    var job :| job in Tc.Jobs(rules) && job.c.pid == pid;
    L.JobsIff(rules, job);
    Q.ShapedIff(rules, job.c);
  }

  // ---- Requests and runs ----

  lemma {:induction false} RunEachHalts(faults: Faults, w: World, calls: seq<Call>)
    requires Settled(w.log) && forall c :: c in calls ==> IsTearDown(c.cmd)
    ensures Settled(Conntrack.RunEach(faults, w, calls).log)
    decreases calls
  {
    hide Issue, Halts;
    if calls == [] {
    } else {
      IssueHalts(faults, w, calls[0]);
      RunEachHalts(faults, Issue(faults, w, calls[0]).0, calls[1..]);
    }
  }

  /** An apply, wherever it fails, settles the log. */
  lemma ApplyHalts(faults: Faults, s: Sys, desired: S.State, docker: Docker)
    requires Settled(s.w.log) && OnePid(docker, desired)
    ensures Settled(ApplyLocked(faults, s, desired, docker).0.w.log)
  {
    hide ClearLocked, InstallRulesLocked, InstallQdiscsLocked, Halts, Members, Conntrack.FlushPlan, Conntrack.RunEach;
    ClearHalts(faults, s);
    if Resolve(docker, desired).Some? {
      var plan := Resolve(docker, desired).value;
      var s1 := ClearLocked(faults, s).0;
      Conntrack.FlushPlanTearsDown(plan.partitions);
      RunEachHalts(faults, s1.w, Conntrack.FlushPlan(plan.partitions));
      var t := TornDown(faults, s1, plan);
      RulesHalt(faults, t, plan);
      var (s2, ruled) := InstallRulesLocked(faults, t, plan);
      ClearHalts(faults, s2);
      if ruled {
        QdiscsHalt(faults, s2, plan);
        ClearHalts(faults, InstallQdiscsLocked(faults, s2, plan).0);
      }
    }
  }

  lemma RestartHalts(faults: Faults, s: Sys, chains: Listing, qdiscs: Listing)
    requires Settled(s.w.log)
    ensures Settled(Restarted(faults, s, chains, qdiscs).w.log)
  {
    hide I.ClearTargets, Tc.DropRoots, Halts;
    var w1 := s.w;
    if chains.Some? {
      ClearTargetsHalts(faults, s.w, chains.value);
      w1 := I.ClearTargets(faults, s.w, chains.value).w;
    }
    if qdiscs.Some? {
      DropRootsHalts(faults, w1, qdiscs.value);
    }
  }

  lemma NextHalts(faults: Faults, hash: T.Hash, s: Sys, step: Step)
    requires Settled(s.w.log) && Steady(step)
    ensures Settled(Next(faults, hash, s, step).w.log)
  {
    hide ApplyLocked, ClearLocked, Restarted, Settled, S.Valid, S.Clone, T.Encodable, T.Allows, T.Tag;
    match step
    case Put(body, _, docker) =>
      if body.Some? {
        ApplyHalts(faults, s, body.value, docker);
      }
    case Config(desired, docker) =>
      ApplyHalts(faults, s, desired, docker);
    case Clear =>
      SettledClear(faults, s);
    case Restart(chains, qdiscs) =>
      RestartHalts(faults, s, chains, qdiscs);
    case Die(_) =>
    case Spawn(_, _) =>
  }

  lemma SettledClear(faults: Faults, s: Sys)
    requires Settled(s.w.log)
    ensures Settled(ClearLocked(faults, s).0.w.log)
  {
    hide ClearLocked, Halts;
    ClearHalts(faults, s);
  }

  /**
   * Fail-stop, over whole runs: whenever a command that installs a jump, a rule or a qdisc fails, in whatever netns
   * and for whatever reason, the very next command is a flush or a delete.
   */
  lemma {:induction false} FailStops(faults: Faults, hash: T.Hash, start: Sys, steps: seq<Step>)
    requires start.w.log == [] && G.AllSteady(steps)
    ensures Settled(Run(faults, hash, start, steps).w.log)
    ensures var log := Run(faults, hash, start, steps).w.log;
            forall i :: 0 <= i < |log| && Installs(log[i].call.cmd) && log[i].call.pid > 0 && !log[i].ok ==>
                          i + 1 < |log| && CleansUp(log[i + 1].call.cmd)
  {
    hide Next, Steady;
    if steps == [] {
    } else {
      var init, last := steps[..|steps| - 1], steps[|steps| - 1];
      FailStops(faults, hash, start, init);
      NextHalts(faults, hash, Run(faults, hash, start, init), last);
      SettledMeans(Run(faults, hash, start, steps).w.log);
    }
  }

  lemma SettledMeans(log: seq<Entry>)
    requires Settled(log)
    ensures forall i :: 0 <= i < |log| && Installs(log[i].call.cmd) && log[i].call.pid > 0 && !log[i].ok ==>
                          i + 1 < |log| && CleansUp(log[i + 1].call.cmd)
  {
    forall i | 0 <= i < |log| && Broke(log[i])
      ensures i + 1 < |log| && CleansUp(log[i + 1].call.cmd)
    {
    }
  }
}
