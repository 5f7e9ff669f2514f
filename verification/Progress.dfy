/**
 * No operation creates or destroys a netns, the command log only grows, and while exit codes can be trusted no
 * netns escapes the bookkeeping.
 */
module Progress {
  import opened Discovery
  import opened Backend
  import opened Kernel
  import Iptables
  import Tc
  import N = Netfilter

  ghost predicate Extends(a: World, b: World) {
    && b.nets.Keys == a.nets.Keys && a.log <= b.log && a.clock <= b.clock
    && (TrueExits(b.log, |a.log|) ==> Undeceived(a, b))
  }

  /** On the way no session was torn down, and no drop rule added unless `adding`. */
  ghost predicate Proceeds(a: World, b: World, adding: bool) {
    && Extends(a, b)
    && forall i :: |a.log| <= i < |b.log| ==>
                     !IsTearDown(b.log[i].call.cmd) && (b.log[i].call.cmd.AppendRule? ==> adding)
  }

  /** No rules become untracked, and no jump is overlooked. */
  ghost predicate Undeceived(a: World, b: World) {
    forall p :: p in a.nets && p in b.nets ==>
                  (b.nets[p].orphan ==> a.nets[p].orphan) && (b.nets[p].misread ==> a.nets[p].misread)
  }

  lemma ExtendsTrans(a: World, b: World, c: World)
    requires Extends(a, b) && Extends(b, c)
    ensures Extends(a, c)
  {
  }

  lemma ProceedsTrans(a: World, b: World, c: World, adding: bool)
    requires Proceeds(a, b, adding) && Proceeds(b, c, adding)
    ensures Proceeds(a, c, adding)
  {
    ExtendsTrans(a, b, c);
    assert forall i :: 0 <= i < |b.log| ==> b.log[i] == c.log[i];
  }

  lemma ProceedsRefl(a: World)
    ensures Proceeds(a, a, false)
  {
  }

  lemma ProceedsMore(a: World, b: World, adding: bool)
    requires Proceeds(a, b, false)
    ensures Proceeds(a, b, adding)
  {
  }

  lemma IssueExtends(faults: Faults, w: World, call: Call)
    ensures Extends(w, Issue(faults, w, call).0)
    ensures !IsTearDown(call.cmd) ==> Proceeds(w, Issue(faults, w, call).0, call.cmd.AppendRule?)
  {
    var w1 := Issue(faults, w, call).0;
    if TrueExits(w1.log, |w.log|) && call.pid in w.nets {
      assert !w1.log[|w.log|].lied;
      StruckTrue(w.nets[call.pid], call.cmd, faults(w.clock));
      hide Struck, Lies;
    }
  }

  lemma StruckTrue(n: Net, cmd: Command, fault: Fault)
    ensures var (m, a) := Struck(n, cmd, fault);
            !Lies(n, cmd, a) ==> (m.orphan ==> n.orphan) && (m.misread ==> n.misread)
  {
  }

  lemma FlushExtends(faults: Faults, w: World, c: Container)
    ensures Proceeds(w, Iptables.Flush(faults, w, c).w, false)
  {
    hide Issue, Proceeds, Extends;
    ProceedsRefl(w);
    IssueExtends(faults, w, Call(c.pid, FlushChain));
  }

  lemma {:induction false} ClearTargetsExtends(faults: Faults, w: World, ts: seq<Container>)
    ensures Proceeds(w, Iptables.ClearTargets(faults, w, ts).w, false)
    decreases ts
  {
    hide Proceeds, Extends, Iptables.Flush;
    if ts == [] {
      ProceedsRefl(w);
    } else {
      var first := Iptables.Flush(faults, w, ts[0]).w;
      FlushExtends(faults, w, ts[0]);
      ClearTargetsExtends(faults, first, ts[1..]);
      ProceedsTrans(w, first, Iptables.ClearTargets(faults, first, ts[1..]).w, false);
    }
  }

  lemma EnsureChainExtends(faults: Faults, w: World, c: Container)
    ensures Proceeds(w, Iptables.EnsureChain(faults, w, c).w, false)
  {
    hide Issue, Proceeds, Extends;
    var w1 := Issue(faults, w, Call(c.pid, NewChain)).0;
    IssueExtends(faults, w, Call(c.pid, NewChain));
    var w2 := Issue(faults, w1, Call(c.pid, FlushChain)).0;
    IssueExtends(faults, w1, Call(c.pid, FlushChain));
    ProceedsTrans(w, w1, w2, false);
    var w3 := Issue(faults, w2, Call(c.pid, CheckJump)).0;
    IssueExtends(faults, w2, Call(c.pid, CheckJump));
    ProceedsTrans(w, w2, w3, false);
    var w4 := Issue(faults, w3, Call(c.pid, AppendJump)).0;
    IssueExtends(faults, w3, Call(c.pid, AppendJump));
    ProceedsTrans(w, w3, w4, false);
  }

  lemma {:induction false} EnsureAllExtends(faults: Faults, w: World, ts: seq<Container>)
    ensures Proceeds(w, Iptables.EnsureAll(faults, w, ts).w, false)
    decreases ts
  {
    hide Iptables.EnsureChain, Proceeds, Extends;
    if ts == [] {
      ProceedsRefl(w);
    } else {
      var first := Iptables.EnsureChain(faults, w, ts[0]).w;
      EnsureChainExtends(faults, w, ts[0]);
      EnsureAllExtends(faults, first, ts[1..]);
      ProceedsTrans(w, first, Iptables.EnsureAll(faults, first, ts[1..]).w, false);
    }
  }

  lemma {:induction false} RunAllExtends(faults: Faults, w: World, calls: seq<Call>)
    requires N.AppendsOnly(calls)
    ensures Proceeds(w, Iptables.RunAll(faults, w, calls).w, true)
    decreases calls
  {
    hide Issue, Proceeds, Extends;
    if calls == [] {
      ProceedsRefl(w);
      ProceedsMore(w, w, true);
    } else {
      var w1 := Issue(faults, w, calls[0]).0;
      IssueExtends(faults, w, calls[0]);
      RunAllExtends(faults, w1, calls[1..]);
      ProceedsTrans(w, w1, Iptables.RunAll(faults, w1, calls[1..]).w, true);
    }
  }

  lemma {:induction false} InstallAllExtends(faults: Faults, w: World, plan: seq<Partition>)
    requires N.AppendsOnly(Iptables.PlanCalls(plan))
    ensures Proceeds(w, Iptables.InstallAll(faults, w, plan).w, true)
    decreases plan
  {
    hide Iptables.RunAll, Proceeds, Extends;
    ProceedsRefl(w);
    ProceedsMore(w, w, true);
    if plan == [] {
    } else {
      var calls := Iptables.GroupCalls(plan[0], 0);
      assert Iptables.PlanCalls(plan) == calls + Iptables.PlanCalls(plan[1..]);
      var first := Iptables.RunAll(faults, w, calls).w;
      RunAllExtends(faults, w, calls);
      InstallAllExtends(faults, first, plan[1..]);
      ProceedsTrans(w, first, Iptables.InstallAll(faults, first, plan[1..]).w, true);
    }
  }

  lemma DropRootExtends(faults: Faults, w: World, c: Container)
    ensures Proceeds(w, Tc.DropRoot(faults, w, c).w, false)
  {
    hide Issue, Proceeds, Extends;
    ProceedsRefl(w);
    IssueExtends(faults, w, Call(c.pid, DelRoot));
  }

  lemma {:induction false} DropRootsExtends(faults: Faults, w: World, ts: seq<Container>)
    ensures Proceeds(w, Tc.DropRoots(faults, w, ts), false)
    decreases ts
  {
    hide Tc.DropRoot, Proceeds, Extends;
    if ts == [] {
      ProceedsRefl(w);
    } else {
      var first := Tc.DropRoot(faults, w, ts[0]).w;
      DropRootExtends(faults, w, ts[0]);
      DropRootsExtends(faults, first, ts[1..]);
      ProceedsTrans(w, first, Tc.DropRoots(faults, first, ts[1..]), false);
    }
  }

  lemma ApplyToExtends(faults: Faults, w: World, job: Tc.Job)
    ensures Proceeds(w, Tc.ApplyTo(faults, w, job).w, false)
  {
    hide Issue, Proceeds, Extends, Tc.DropRoot, Tc.NetemSpec, Tc.TbfArgs;
    var (pid, sh) := (job.c.pid, job.rule);
    ProceedsRefl(w);
    DropRootExtends(faults, w, job.c);
    var w0 := Tc.DropRoot(faults, w, job.c).w;
    var root := Call(pid, if Tc.HasBandwidth(sh) then AddRootTbf(Tc.TbfArgs(sh)) else AddRootNetem(Tc.NetemSpec(sh)));
    var w1 := Issue(faults, w0, root).0;
    IssueExtends(faults, w0, root);
    ProceedsTrans(w, w0, w1, false);
    var child := Call(pid, AddChildNetem(Tc.NetemSpec(sh)));
    IssueExtends(faults, w1, child);
    ProceedsTrans(w, w1, Issue(faults, w1, child).0, false);
  }

  lemma {:induction false} RunJobsExtends(faults: Faults, w: World, jobs: seq<Tc.Job>)
    ensures Proceeds(w, Tc.RunJobs(faults, w, jobs).w, false)
    decreases jobs
  {
    hide Tc.ApplyTo, Proceeds, Extends;
    if jobs == [] {
      ProceedsRefl(w);
    } else {
      var first := Tc.ApplyTo(faults, w, jobs[0]).w;
      ApplyToExtends(faults, w, jobs[0]);
      RunJobsExtends(faults, first, jobs[1..]);
      ProceedsTrans(w, first, Tc.RunJobs(faults, first, jobs[1..]).w, false);
    }
  }

  lemma IptablesExtends(faults: Faults, w: World, last: seq<Container>, plan: seq<Partition>)
    ensures Proceeds(w, Iptables.Cleared(faults, w, last).w, false)
    ensures Proceeds(w, Iptables.Applied(faults, w, last, plan).w, true)
  {
    hide Proceeds, Extends, Iptables.ClearTargets, Iptables.EnsureAll, Iptables.InstallAll;
    ClearTargetsExtends(faults, w, last);
    var w1 := Iptables.ClearTargets(faults, w, last).w;
    ProceedsMore(w, w1, true);
    EnsureAllExtends(faults, w1, Targets(plan));
    var w2 := Iptables.EnsureAll(faults, w1, Targets(plan)).w;
    ProceedsMore(w1, w2, true);
    ProceedsTrans(w, w1, w2, true);
    N.PlanAppendsOnly(plan);
    InstallAllExtends(faults, w2, plan);
    ProceedsTrans(w, w2, Iptables.InstallAll(faults, w2, plan).w, true);
  }

  lemma TcExtends(faults: Faults, w: World, last: seq<Container>, plan: seq<Shaping>)
    ensures Proceeds(w, Tc.Cleared(faults, w, last).w, false)
    ensures Proceeds(w, Tc.Applied(faults, w, last, plan).w, false)
  {
    hide Proceeds, Extends, Tc.DropRoots, Tc.RunJobs;
    DropRootsExtends(faults, w, last);
    var w1 := Tc.DropRoots(faults, w, last);
    RunJobsExtends(faults, w1, Tc.Jobs(plan));
    ProceedsTrans(w, w1, Tc.RunJobs(faults, w1, Tc.Jobs(plan)).w, false);
  }
}
