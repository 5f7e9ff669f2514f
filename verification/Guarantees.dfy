/** What holds after every run that starts on a clean kernel, with any pattern of command failures. */
module Guarantees {
  import opened Wrappers
  import opened Discovery
  import opened Backend
  import opened Kernel
  import opened Api
  import opened Runs
  import S = State
  import T = ETag
  import Iptables
  import Tc
  import Compilation
  import N = Netfilter
  import Q = Qdiscs
  import P = Progress
  import W = Wire

  ghost predicate AllSteady(steps: seq<Step>) {
    forall step :: step in steps ==> Steady(step)
  }

  /** The qdisc a plan wants at the root of netns p. */
  ghost function WantedRoot(rules: seq<Shaping>, p: int): Option<Qdisc> {
    var rule := Q.RuleFor(Tc.Jobs(rules), p);
    if rule.None? then None else Some(Tc.Tree(rule.value))
  }

  // ---- Cleanup coverage ----

  /** Whatever failed before, every drop rule and every qdisc is on record for cleanup, or flagged as out of reach. */
  lemma CleanupCoverage(faults: Faults, hash: T.Hash, start: Sys, steps: seq<Step>, p: Pid)
    requires Fresh(start) && AllSteady(steps)
    ensures var s := Run(faults, hash, start, steps);
            p in s.w.nets ==>
              && (Rules(s.w.nets[p]) != [] ==> p in Pids(s.ipt) || s.w.nets[p].orphan)
              && (s.w.nets[p].root.Some? ==> p in Pids(s.tc) || s.w.nets[p].leaked)
  {
    FreshIsSound(start);
    RunSound(faults, hash, start, steps);
  }

  /** A clear that reports success leaves no tracked rule and no tracked qdisc, from any reachable state. */
  lemma ClearHeals(faults: Faults, hash: T.Hash, start: Sys, steps: seq<Step>, p: Pid)
    requires Fresh(start) && AllSteady(steps)
    ensures var s := Run(faults, hash, start, steps);
            var (s1, response) := PostClear(faults, s);
            response.Healed? && p in s.w.nets ==>
              && p in s1.w.nets
              && (Rules(s1.w.nets[p]) == [] || s1.w.nets[p].orphan)
              && (s1.w.nets[p].root.None? || s1.w.nets[p].leaked)
  {
    FreshIsSound(start);
    RunSound(faults, hash, start, steps);
    var s := Run(faults, hash, start, steps);
    hide Run, ClearLocked;
    if p in s.w.nets {
      ClearLockedEffect(faults, s, p);
    }
  }

  // ---- Whole-state replacement ----

  lemma CompiledOutside(plan: seq<Partition>, p: int)
    requires OnePidPerId(Members(plan)) && p !in Pids(Targets(plan))
    ensures Compilation.Compiled(plan, p) == []
  {
    TargetsCoverMembers(plan);
    N.PlanAppendsOnly(plan);
    if Compilation.Compiled(plan, p) != [] {
      var r := Compilation.Compiled(plan, p)[0];
      Compilation.RulesOfIff(Iptables.PlanCalls(plan), p, r);
      assert false;
    }
  }

  /**
   * Netns p holds what the plan wants: exactly the compiled chain and the wanted qdisc, save for rules and
   * qdiscs that nobody could remove any more on containers outside the plan.
   */
  ghost predicate Enacts(n: Net, p: Pid, plan: Plan) {
    && (Rules(n) == Compilation.Compiled(plan.partitions, p) || (n.orphan && p !in Pids(Targets(plan.partitions))))
    && (n.root == WantedRoot(plan.shaping, p) || (n.leaked && p !in Pids(Tc.Shaped(plan.shaping))))
  }

  lemma SoundEnacts(n: Net, p: Pid, s: Sys, plan: Plan)
    requires NetSound(n, p, s, plan) && s.ipt == Targets(plan.partitions) && s.tc == Tc.Shaped(plan.shaping)
    requires OnePidPerId(Members(plan.partitions))
    ensures Enacts(n, p, plan)
  {
    Q.ShapedPids(plan.shaping, p);
    if p !in Pids(Targets(plan.partitions)) {
      CompiledOutside(plan.partitions, p);
    }
  }

  /** A successful apply enacts exactly the new plan, whatever happened before. */
  lemma SuccessEnacts(faults: Faults, hash: T.Hash, start: Sys, steps: seq<Step>, desired: S.State, docker: Docker,
                      p: Pid)
    requires Fresh(start) && AllSteady(steps) && OnePid(docker, desired)
    ensures var s := Run(faults, hash, start, steps);
            var (s1, stage) := ApplyLocked(faults, s, desired, docker);
            stage.None? && p in s.w.nets ==>
              p in s1.w.nets && Resolve(docker, desired).Some?
              && Enacts(s1.w.nets[p], p, Resolve(docker, desired).value)
  {
    FreshIsSound(start);
    RunSound(faults, hash, start, steps);
    var s := Run(faults, hash, start, steps);
    hide Run, ApplyLocked, Enacts;
    assert Tracked(s, p);
    hide Sound, NetSound;
    var (s1, stage) := ApplyLocked(faults, s, desired, docker);
    if stage.None? && p in s.w.nets {
      ApplyLockedEffect(faults, s, desired, docker, p);
      SoundEnacts(s1.w.nets[p], p, s1, Resolve(docker, desired).value);
    }
  }

  /** After a successful apply every container of a rule carries exactly the tree that rule describes. */
  lemma SuccessShapes(faults: Faults, hash: T.Hash, start: Sys, steps: seq<Step>, desired: S.State, docker: Docker,
                      sh: Shaping, c: Container)
    requires Fresh(start) && AllSteady(steps) && OnePid(docker, desired)
    requires Resolve(docker, desired).Some?
    requires var rules := Resolve(docker, desired).value.shaping;
             && sh in rules && c in sh.target
             && forall a, b :: a in Tc.Shaped(rules) && b in Tc.Shaped(rules) && a.pid == b.pid ==> a.id == b.id
    ensures var s := Run(faults, hash, start, steps);
            var (s1, stage) := ApplyLocked(faults, s, desired, docker);
            stage.None? && c.pid in s.w.nets ==> c.pid in s1.w.nets && s1.w.nets[c.pid].root == Some(Tc.Tree(sh))
  {
    var s := Run(faults, hash, start, steps);
    if ApplyLocked(faults, s, desired, docker).1.None? && c.pid in s.w.nets {
      var plan := Resolve(docker, desired).value;
      SuccessEnacts(faults, hash, start, steps, desired, docker, c.pid);
      SuccessConsistent(faults, s, desired, docker);
      hide Run, ApplyLocked, Resolve, Tc.Tree, Compilation.Compiled;
      Q.UniqueRule(plan.shaping, sh, c);
      Q.ShapedPids(plan.shaping, c.pid);
    }
  }

  lemma SuccessConsistent(faults: Faults, s: Sys, desired: S.State, docker: Docker)
    requires ApplyLocked(faults, s, desired, docker).1.None?
    ensures Tc.Consistent(Resolve(docker, desired).value.shaping)
  {
    hide ClearLocked, TornDown, InstallRulesLocked, Tc.Consistent, Tc.RunJobs;
  }

  /**
   * History independence: two services with any pasts, any failures and any kernels under them, that both
   * succeed in applying the same state against the same containers, leave netns p with the same drop rules
   * and the same qdisc, save for what neither could remove on containers outside the plan.
   */
  lemma HistoryIndependence(
    faults: Faults, hash: T.Hash, start: Sys, steps: seq<Step>,
    faults': Faults, hash': T.Hash, start': Sys, steps': seq<Step>,
    desired: S.State, docker: Docker, p: Pid)
    requires Fresh(start) && AllSteady(steps) && Fresh(start') && AllSteady(steps') && OnePid(docker, desired)
    ensures var s, s' := Run(faults, hash, start, steps), Run(faults', hash', start', steps');
            var (s1, stage) := ApplyLocked(faults, s, desired, docker);
            var (s1', stage') := ApplyLocked(faults', s', desired, docker);
            stage.None? && stage'.None? && p in s.w.nets && p in s'.w.nets ==>
              && p in s1.w.nets && p in s1'.w.nets && Resolve(docker, desired).Some?
              && var plan := Resolve(docker, desired).value;
                 var (n, n') := (s1.w.nets[p], s1'.w.nets[p]);
                 && (p in Pids(Targets(plan.partitions)) || (!n.orphan && !n'.orphan) ==> Rules(n) == Rules(n'))
                 && (p in Pids(Tc.Shaped(plan.shaping)) || (!n.leaked && !n'.leaked) ==> n.root == n'.root)
  {
    SuccessEnacts(faults, hash, start, steps, desired, docker, p);
    SuccessEnacts(faults', hash', start', steps', desired, docker, p);
    hide Run, ApplyLocked, Compilation.Compiled, WantedRoot;
  }

  // ---- Truthfulness ----

  /** Recovery after a crash lists every netns there is. */
  ghost predicate Complete(listing: Listing, nets: map<Pid, Net>) {
    listing.Some? && forall p :: p in nets ==> p in Pids(listing.value)
  }

  ghost predicate Recovers(s: Sys, step: Step) {
    step.Restart? ==> Complete(step.chains, s.w.nets) && Complete(step.qdiscs, s.w.nets)
  }

  /**
   * Since the last restart, if any, no cleanup command left anything behind, and that restart reached every
   * netns. A crash in the middle of a request and the rollback it cut off are forgiven by the restart.
   */
  ghost predicate CleanSince(faults: Faults, hash: T.Hash, s: Sys, steps: seq<Step>) {
    steps != [] ==>
      var init, last := steps[..|steps| - 1], steps[|steps| - 1];
      var before := Run(faults, hash, s, init);
      && Recovers(before, last)
      && NoneLeft(Next(faults, hash, before, last).w.log, |before.w.log|)
      && (last.Restart? || CleanSince(faults, hash, s, init))
  }

  /** Nothing in the kernel is out of the service's reach, and nothing stands while nothing is advertised. */
  ghost predicate NetSpotless(n: Net, plan: Plan) {
    !n.orphan && !n.leaked && (plan.partitions == [] ==> Rules(n) == [])
  }

  ghost predicate Spotless(s: Sys) {
    Resolve(s.docker, s.applied).Some?
    && forall p :: p in s.w.nets ==> NetSpotless(s.w.nets[p], Resolve(s.docker, s.applied).value)
  }

  lemma ApplySpotless(faults: Faults, s: Sys, source: Source, desired: S.State, docker: Docker)
    requires Sound(s) && Spotless(s) && OnePid(docker, desired)
    requires NoneLeft(ApplyLocked(faults, s, desired, docker).0.w.log, |s.w.log|)
    ensures var (s1, stage) := ApplyLocked(faults, s, desired, docker);
            Spotless(Settle(s1, stage, source, desired, docker))
  {
    var (s1, stage) := ApplyLocked(faults, s, desired, docker);
    hide ApplyLocked;
    var s2 := Settle(s1, stage, source, desired, docker);
    EmptyResolves(s.docker);
    ResolveClone(docker, desired);
    ApplyLockedRecords(faults, s, desired, docker);
    forall p | p in s2.w.nets
      ensures NetSpotless(s2.w.nets[p], Resolve(s2.docker, s2.applied).value)
    {
      ApplyLockedEffect(faults, s, desired, docker, p);
    }
  }

  lemma ClearSpotless(faults: Faults, s: Sys)
    requires Sound(s) && Spotless(s)
    requires NoneLeft(PostClear(faults, s).0.w.log, |s.w.log|)
    ensures Spotless(PostClear(faults, s).0)
  {
    hide ClearLocked;
    ClearLockedRecords(faults, s);
    EmptyResolves(s.docker);
    var s2 := PostClear(faults, s).0;
    forall p | p in s2.w.nets
      ensures NetSpotless(s2.w.nets[p], Plan([], []))
    {
      ClearLockedEffect(faults, s, p);
    }
  }

  lemma RecoveredExtends(faults: Faults, w: World, chains: Listing, qdiscs: Listing)
    ensures P.Proceeds(w, Recovered(faults, w, chains, qdiscs), false)
  {
    hide P.Proceeds;
    P.ProceedsRefl(w);
    var w1 := if chains.None? then w else Iptables.ClearTargets(faults, w, chains.value).w;
    if chains.Some? {
      P.ClearTargetsExtends(faults, w, chains.value);
    }
    if qdiscs.Some? {
      P.DropRootsExtends(faults, w1, qdiscs.value);
      P.ProceedsTrans(w, w1, Tc.DropRoots(faults, w1, qdiscs.value), false);
    }
  }

  /** Recovery that reaches every netns, with no cleanup failing, leaves nothing. */
  lemma RecoveredBare(faults: Faults, w: World, chains: Listing, qdiscs: Listing, p: Pid)
    requires p in w.nets && Complete(chains, w.nets) && Complete(qdiscs, w.nets)
    requires NoneLeft(Recovered(faults, w, chains, qdiscs).log, |w.log|)
    ensures var w1 := Recovered(faults, w, chains, qdiscs);
            p in w1.nets && Rules(w1.nets[p]) == [] && w1.nets[p].root.None?
  {
    N.ClearTargetsEffect(faults, w, chains.value, p);
    var w1 := Iptables.ClearTargets(faults, w, chains.value).w;
    Q.DropRootsEffect(faults, w1, qdiscs.value, p);
    NoneLeftPart(w1.log, Tc.DropRoots(faults, w1, qdiscs.value).log, |w.log|);
  }

  lemma RestartSpotless(faults: Faults, s: Sys, chains: Listing, qdiscs: Listing)
    requires Complete(chains, s.w.nets) && Complete(qdiscs, s.w.nets)
    requires NoneLeft(Restarted(faults, s, chains, qdiscs).w.log, |s.w.log|)
    ensures Spotless(Restarted(faults, s, chains, qdiscs))
  {
    hide Recovered;
    RecoveredExtends(faults, s.w, chains, qdiscs);
    EmptyResolves(s.docker);
    var s2 := Restarted(faults, s, chains, qdiscs);
    forall p | p in s2.w.nets
      ensures NetSpotless(s2.w.nets[p], Plan([], []))
    {
      RecoveredBare(faults, s.w, chains, qdiscs, p);
    }
  }

  /** A step whose cleanup works keeps the kernel spotless; a recovery makes it so, whatever went wrong before. */
  lemma NextSpotless(faults: Faults, hash: T.Hash, s: Sys, step: Step)
    requires Sound(s) && (Spotless(s) || step.Restart?) && Steady(step) && Recovers(s, step)
    requires NoneLeft(Next(faults, hash, s, step).w.log, |s.w.log|)
    ensures Spotless(Next(faults, hash, s, step))
  {
    hide ApplyLocked, Restarted, ClearLocked;
    match step
    case Put(body, ifMatch, docker) =>
      if body.Some? && Next(faults, hash, s, step) != s {
        ApplySpotless(faults, s, Http, body.value, docker);
      }
    case Config(desired, docker) =>
      if S.Valid(desired) {
        ApplySpotless(faults, s, Source.Config, desired, docker);
      }
    case Clear =>
      ClearSpotless(faults, s);
    case Restart(chains, qdiscs) =>
      RestartSpotless(faults, s, chains, qdiscs);
    case Die(pid) =>
    case Spawn(_, _) =>
  }

  lemma {:induction false} RunSpotless(faults: Faults, hash: T.Hash, s: Sys, steps: seq<Step>)
    requires Sound(s) && Spotless(s) && AllSteady(steps) && CleanSince(faults, hash, s, steps)
    ensures Spotless(Run(faults, hash, s, steps))
  {
    hide Sound, Spotless, Next, Recovers, Steady;
    if steps == [] {
    } else {
      var init, last := steps[..|steps| - 1], steps[|steps| - 1];
      var before := Run(faults, hash, s, init);
      RunSound(faults, hash, s, init);
      if !last.Restart? {
        RunSpotless(faults, hash, s, init);
      }
      NextSpotless(faults, hash, before, last);
    }
  }

  /**
   * GET tells the truth: if since the last restart no cleanup command left anything behind, and that restart
   * reached every netns, each netns holds exactly the compiled form of the advertised state, resolved with the
   * answers it was applied with. In particular a failed apply or clear, which advertises nothing, leaves nothing.
   */
  lemma Truthful(faults: Faults, hash: T.Hash, start: Sys, steps: seq<Step>, p: Pid)
    requires Fresh(start) && AllSteady(steps) && CleanSince(faults, hash, start, steps)
    ensures var s := Run(faults, hash, start, steps);
            p in s.w.nets ==>
              && Resolve(s.docker, s.applied).Some?
              && var plan := Resolve(s.docker, s.applied).value;
                 && Rules(s.w.nets[p]) == Compilation.Compiled(plan.partitions, p)
                 && s.w.nets[p].root == WantedRoot(plan.shaping, p)
                 && (p in Pids(Targets(plan.partitions)) ==> Jump in s.w.nets[p].output)
  {
    FreshIsSound(start);
    FreshIsSpotless(start);
    RunSound(faults, hash, start, steps);
    RunSpotless(faults, hash, start, steps);
    var s := Run(faults, hash, start, steps);
    hide Run;
    if p in s.w.nets {
      SpotlessExact(s, p);
    }
  }

  lemma FreshIsSpotless(s: Sys)
    requires Fresh(s)
    ensures Spotless(s)
  {
  }

  lemma SpotlessExact(s: Sys, p: Pid)
    requires Sound(s) && Spotless(s) && p in s.w.nets
    ensures var plan := Resolve(s.docker, s.applied).value;
            && Rules(s.w.nets[p]) == Compilation.Compiled(plan.partitions, p)
            && s.w.nets[p].root == WantedRoot(plan.shaping, p)
            && (p in Pids(Targets(plan.partitions)) ==> Jump in s.w.nets[p].output)
  {
    var plan := Resolve(s.docker, s.applied).value;
    var n := s.w.nets[p];
    hide Resolve, Compilation.Compiled, Tc.Tree;
    assert NetSound(n, p, s, plan) && NetSpotless(n, plan);
    Q.ShapedPids(plan.shaping, p);
    if p !in Pids(Targets(plan.partitions)) {
      CompiledOutside(plan.partitions, p);
    }
  }

  // ---- Coverage and healing without exceptions, as long as exit codes can be trusted ----

  /**
   * Every exit code meant what the iptables backend takes it to mean, and every restart reached every netns
   * with a cleanup that worked.
   */
  ghost predicate Trustworthy(faults: Faults, hash: T.Hash, s: Sys, steps: seq<Step>) {
    steps != [] ==>
      var init, last := steps[..|steps| - 1], steps[|steps| - 1];
      && Trustworthy(faults, hash, s, init)
      && TrustworthyStep(faults, hash, Run(faults, hash, s, init), last)
  }

  ghost predicate TrustworthyStep(faults: Faults, hash: T.Hash, s: Sys, step: Step) {
    var log := Next(faults, hash, s, step).w.log;
    TrueExits(log, |s.w.log|) && (step.Restart? ==> Recovers(s, step) && NoneLeft(log, |s.w.log|))
  }

  /** No netns holds rules outside the bookkeeping, and no jump was overlooked. */
  ghost predicate NoneOrphaned(nets: map<Pid, Net>) {
    forall p :: p in nets ==> !nets[p].orphan && !nets[p].misread
  }

  lemma NextNoneOrphaned(faults: Faults, hash: T.Hash, s: Sys, step: Step)
    requires NoneOrphaned(s.w.nets) && TrustworthyStep(faults, hash, s, step)
    ensures NoneOrphaned(Next(faults, hash, s, step).w.nets)
  {
    hide ApplyLocked, Restarted, ClearLocked, S.Valid, S.Clone, T.Allows, T.Tag, T.Encodable, Recovers;
    match step
    case Put(body, ifMatch, docker) =>
      if body.Some? {
        ApplyLockedRecords(faults, s, body.value, docker);
      }
    case Config(desired, docker) =>
      ApplyLockedRecords(faults, s, desired, docker);
    case Clear =>
      ClearLockedRecords(faults, s);
    case Restart(chains, qdiscs) =>
      RestartNoneOrphaned(faults, hash, s, step);
    case Die(_) =>
    case Spawn(_, _) =>
  }

  lemma RestartNoneOrphaned(faults: Faults, hash: T.Hash, s: Sys, step: Step)
    requires step.Restart? && NoneOrphaned(s.w.nets) && TrustworthyStep(faults, hash, s, step)
    ensures NoneOrphaned(Restarted(faults, s, step.chains, step.qdiscs).w.nets)
  {
    hide Recovered;
    RecoveredExtends(faults, s.w, step.chains, step.qdiscs);
    var s1 := Restarted(faults, s, step.chains, step.qdiscs);
    forall p | p in s1.w.nets
      ensures !s1.w.nets[p].orphan && !s1.w.nets[p].misread
    {
      RecoveredBare(faults, s.w, step.chains, step.qdiscs, p);
    }
  }

  lemma {:induction false} RunNoneOrphaned(faults: Faults, hash: T.Hash, s: Sys, steps: seq<Step>)
    requires NoneOrphaned(s.w.nets) && Trustworthy(faults, hash, s, steps)
    ensures NoneOrphaned(Run(faults, hash, s, steps).w.nets)
  {
    hide NoneOrphaned, TrustworthyStep, Next;
    if steps == [] {
    } else {
      var init, last := steps[..|steps| - 1], steps[|steps| - 1];
      RunNoneOrphaned(faults, hash, s, init);
      NextNoneOrphaned(faults, hash, Run(faults, hash, s, init), last);
    }
  }

  /**
   * With trustworthy exit codes there are no exceptions: after any run, with any other failures, every
   * non-empty chain is on record; once a clear reports success every chain is empty; and while conntrack
   * teardown runs every chain is empty.
   */
  lemma NothingEscapes(faults: Faults, hash: T.Hash, start: Sys, steps: seq<Step>, p: Pid)
    requires Fresh(start) && AllSteady(steps) && Trustworthy(faults, hash, start, steps)
    ensures var s := Run(faults, hash, start, steps);
            p in s.w.nets ==>
              && (Rules(s.w.nets[p]) != [] ==> p in Pids(s.ipt))
              && var (s1, ok) := ClearLocked(faults, s);
                 ok && TrueExits(s1.w.log, |s.w.log|) ==>
                   && p in s1.w.nets && Rules(s1.w.nets[p]) == []
                   && forall plan :: var s2 := TornDown(faults, s1, plan); p in s2.w.nets && Rules(s2.w.nets[p]) == []
  {
    var s := Run(faults, hash, start, steps);
    CleanupCoverage(faults, hash, start, steps, p);
    RunNoneOrphaned(faults, hash, start, steps);
    FreshIsSound(start);
    RunSound(faults, hash, start, steps);
    if p in s.w.nets {
      hide Run, ClearLocked, TornDown;
      var s1 := ClearLocked(faults, s).0;
      ClearLockedEffect(faults, s, p);
      ClearLockedRecords(faults, s);
      forall plan
        ensures TornDown(faults, s1, plan).w.nets == s1.w.nets
      {
        TornDownEffect(faults, s1, plan);
      }
    }
  }

  // ---- Other people's rules, and the jump ----

  /** Netns p comes into being in this step. */
  ghost predicate Born(s: Sys, step: Step, p: Pid) {
    step.Spawn? && step.pid == p && !InUse(s, p)
  }

  /** Netns p as it was when the run began, or else when it last came into being. */
  ghost function Origin(faults: Faults, hash: T.Hash, s: Sys, steps: seq<Step>, p: Pid): Option<Net> {
    if steps == [] then if p in s.w.nets then Some(s.w.nets[p]) else None
    else
      var init, last := steps[..|steps| - 1], steps[|steps| - 1];
      if Born(Run(faults, hash, s, init), last, p) then Some(NewNet(last.output)) else Origin(faults, hash, s, init, p)
  }

  /** Netns p, if it is still there, was there before and has been left tame. */
  ghost predicate TameAt(before: map<Pid, Net>, after: map<Pid, Net>, p: Pid) {
    p in after ==> p in before && N.Tame(before[p], after[p])
  }

  lemma TameAtFrame(before: map<Pid, Net>, after: map<Pid, Net>, p: Pid)
    requires p in after ==> p in before && after[p] == before[p]
    ensures TameAt(before, after, p)
  {
  }

  lemma RestartTame(faults: Faults, s: Sys, chains: Listing, qdiscs: Listing, p: Pid)
    ensures TameAt(s.w.nets, Restarted(faults, s, chains, qdiscs).w.nets, p)
  {
    RecoveredExtends(faults, s.w, chains, qdiscs);
    if p in s.w.nets {
      var w1 := s.w;
      if chains.Some? {
        N.ClearTargetsEffect(faults, s.w, chains.value, p);
        w1 := Iptables.ClearTargets(faults, s.w, chains.value).w;
      }
      if qdiscs.Some? {
        Q.DropRootsEffect(faults, w1, qdiscs.value, p);
      }
    }
    hide Iptables.ClearTargets, Tc.DropRoots;
  }

  lemma ClearTame(faults: Faults, s: Sys, p: Pid)
    requires Sound(s)
    ensures TameAt(s.w.nets, ClearLocked(faults, s).0.w.nets, p)
  {
    hide ClearLocked;
    ClearLockedRecords(faults, s);
    if p in s.w.nets {
      assert Tracked(s, p);
      ClearLockedEffect(faults, s, p);
    }
  }

  lemma ApplyTame(faults: Faults, s: Sys, desired: S.State, docker: Docker, p: Pid)
    requires Sound(s) && OnePid(docker, desired)
    ensures TameAt(s.w.nets, ApplyLocked(faults, s, desired, docker).0.w.nets, p)
  {
    hide ApplyLocked;
    ApplyLockedRecords(faults, s, desired, docker);
    if p in s.w.nets {
      assert Tracked(s, p);
      ApplyLockedEffect(faults, s, desired, docker, p);
    }
  }

  lemma NextTame(faults: Faults, hash: T.Hash, s: Sys, step: Step, p: Pid)
    requires Sound(s) && Steady(step) && !Born(s, step, p)
    ensures TameAt(s.w.nets, Next(faults, hash, s, step).w.nets, p)
  {
    hide TameAt, Sound, ApplyLocked, Restarted, ClearLocked, S.Valid, S.Clone, T.Allows, T.Tag, T.Encodable;
    TameAtFrame(s.w.nets, s.w.nets, p);
    match step
    case Put(body, ifMatch, docker) =>
      if body.Some? {
        ApplyTame(faults, s, body.value, docker, p);
      }
    case Config(desired, docker) =>
      ApplyTame(faults, s, desired, docker, p);
    case Clear =>
      ClearTame(faults, s, p);
    case Restart(chains, qdiscs) =>
      RestartTame(faults, s, chains, qdiscs, p);
    case Die(pid) =>
      TameAtFrame(s.w.nets, s.w.nets - {pid}, p);
    case Spawn(pid, output) =>
      if !InUse(s, pid) {
        TameAtFrame(s.w.nets, s.w.nets[pid := NewNet(output)], p);
      }
  }

  ghost predicate TameSince(origin: Option<Net>, after: map<Pid, Net>, p: Pid) {
    p in after ==> origin.Some? && N.Tame(origin.value, after[p])
  }

  lemma TameSinceTrans(origin: Option<Net>, before: map<Pid, Net>, after: map<Pid, Net>, p: Pid)
    requires TameSince(origin, before, p) && TameAt(before, after, p)
    ensures TameSince(origin, after, p)
  {
    hide N.Tame;
    if p in after {
      TameTrans(origin.value, before[p], after[p]);
    }
  }

  lemma NewTame(nets: map<Pid, Net>, p: Pid)
    ensures p in nets ==> TameSince(Some(nets[p]), nets, p)
  {
  }

  lemma {:induction false} RunTame(faults: Faults, hash: T.Hash, s: Sys, steps: seq<Step>, p: Pid)
    requires Sound(s) && AllSteady(steps)
    ensures TameSince(Origin(faults, hash, s, steps, p), Run(faults, hash, s, steps).w.nets, p)
  {
    NewTame(s.w.nets, p);
    if steps == [] {
    } else {
      var init, last := steps[..|steps| - 1], steps[|steps| - 1];
      var before := Run(faults, hash, s, init);
      RunTame(faults, hash, s, init, p);
      if Born(before, last, p) {
        NewTame(before.w.nets[p := NewNet(last.output)], p);
        BornNext(faults, hash, before, last, p);
      } else {
        hide Sound, Next, Steady, TameAt, TameSince, Born;
        RunSound(faults, hash, s, init);
        NextTame(faults, hash, before, last, p);
        TameSinceTrans(Origin(faults, hash, s, init, p), before.w.nets, Run(faults, hash, s, steps).w.nets, p);
      }
      hide Next, N.Tame;
    }
  }

  lemma BornNext(faults: Faults, hash: T.Hash, s: Sys, step: Step, p: Pid)
    requires Born(s, step, p)
    ensures Next(faults, hash, s, step).w.nets == s.w.nets[p := NewNet(step.output)]
  {
  }

  /**
   * Over whole runs, other people's OUTPUT rules keep their contents and order in every netns, counted from the
   * start of the run or from its creation, and a netns that came with at most one jump never has two, unless `-C`
   * once denied the one that was there.
   */
  lemma ForeignRulesSurvive(faults: Faults, hash: T.Hash, start: Sys, steps: seq<Step>, p: Pid)
    requires Sound(start) && AllSteady(steps)
    ensures var s := Run(faults, hash, start, steps);
            var origin := Origin(faults, hash, start, steps, p);
            p in s.w.nets ==>
              && origin.Some?
              && N.ForeignRules(s.w.nets[p].output) == N.ForeignRules(origin.value.output)
              && (N.Jumps(origin.value.output) <= 1 && !s.w.nets[p].misread ==> N.Jumps(s.w.nets[p].output) <= 1)
  {
    RunTame(faults, hash, start, steps, p);
  }

  /** While a partition is advertised, OUTPUT of every target holds exactly one jump into the chain. */
  lemma ExactlyOneJump(faults: Faults, hash: T.Hash, start: Sys, steps: seq<Step>, p: Pid)
    requires Sound(start) && AllSteady(steps)
    ensures var s := Run(faults, hash, start, steps);
            var origin := Origin(faults, hash, start, steps, p);
            && Resolve(s.docker, s.applied).Some?
            && (p in s.w.nets && p in Pids(Targets(Resolve(s.docker, s.applied).value.partitions))
                && origin.Some? && N.Jumps(origin.value.output) <= 1 && !s.w.nets[p].misread
                ==> N.Jumps(s.w.nets[p].output) == 1)
  {
    RunSound(faults, hash, start, steps);
    ForeignRulesSurvive(faults, hash, start, steps, p);
    var s := Run(faults, hash, start, steps);
    hide Run, Origin, Resolve, Compilation.Compiled, N.ForeignRules, Tc.Tree;
    var plan := Resolve(s.docker, s.applied).value;
    if p in s.w.nets {
      assert NetSound(s.w.nets[p], p, s, plan);
    }
  }

  // ---- The event log ----

  /** What one event says about the applied state. */
  ghost function Told(e: Event): S.State {
    match e
    case Applied(_, state) => state
    case Cleared => S.EMPTY
    case ApplyFailed(_, _) => S.EMPTY
  }

  ghost function Replay(events: seq<Event>): S.State {
    if events == [] then S.EMPTY else Told(events[|events| - 1])
  }

  /** After every run, replaying the events since the process started yields the applied state. */
  lemma {:induction false} EventsReplay(faults: Faults, hash: T.Hash, start: Sys, steps: seq<Step>)
    requires start.applied == Replay(start.events)
    ensures var s := Run(faults, hash, start, steps);
            s.applied == Replay(s.events)
  {
    hide ApplyLocked, ClearLocked, Restarted;
    if steps == [] {
    } else {
      var init, last := steps[..|steps| - 1], steps[|steps| - 1];
      EventsReplay(faults, hash, start, init);
      NextReplays(faults, hash, Run(faults, hash, start, init), last);
    }
  }

  lemma NextReplays(faults: Faults, hash: T.Hash, s: Sys, step: Step)
    requires s.applied == Replay(s.events)
    ensures var s1 := Next(faults, hash, s, step);
            s1.applied == Replay(s1.events)
  {
    hide ApplyLocked, ClearLocked, Recovered;
  }

  /**
   * A PUT that is refused changes nothing and says nothing; one that is not emits exactly one event, which
   * tells the state it left behind.
   */
  lemma PutEmits(faults: Faults, hash: T.Hash, s: Sys, body: Option<S.State>, ifMatch: string, docker: Docker)
    ensures var (s1, response) := PutState(faults, hash, s, body, ifMatch, docker);
            && (response.BadRequest? || response.PreconditionFailed? ==> s1 == s)
            && (s1 != s ==>
                  |s1.events| == |s.events| + 1 && s1.events[..|s.events|] == s.events
                  && s1.applied == Told(s1.events[|s.events|]))
            && (response.Success? <==> |s1.events| == |s.events| + 1 && s1.events[|s.events|].Applied?)
  {
    hide ApplyLocked;
    if body.Some? {
      ApplyLockedRecords(faults, s, body.value, docker);
    }
  }

  // ---- The applied state always has a tag ----

  /** Some shaping rule targets the empty selector. */
  ghost predicate TargetsNothing(s: S.State) {
    exists sh :: sh in s.shaping && sh.target.Some? && S.EmptySelector(sh.target.value)
  }

  lemma CloneEmptiness(sel: S.Selector)
    ensures S.EmptySelector(S.CloneSelector(sel)) <==> S.EmptySelector(sel)
  {
  }

  lemma CloneEncodablePartition(p: S.Partition)
    requires S.ValidPartition(p)
    ensures T.EncodableSelectors(S.ClonePartition(p).groups)
  {
    var groups := S.ClonePartition(p).groups;
    forall j | 0 <= j < |groups|
      ensures !S.EmptySelector(groups[j])
    {
      assert p.groups[j] in p.groups;
      CloneEmptiness(p.groups[j]);
    }
  }

  lemma CloneEncodableShaping(sh: S.Shaping)
    requires S.ValidShaping(sh)
    ensures T.EncodableShaping(S.CloneShaping(sh)) <==> !S.EmptySelector(sh.target.value)
  {
  }

  /** The stored copy of a validated state marshals exactly when no shaping rule targets the empty selector. */
  lemma EncodableIff(s: S.State)
    requires S.Valid(s)
    ensures T.Encodable(S.Clone(s)) <==> !TargetsNothing(s)
  {
    hide T.EncodableShaping, T.EncodableSelectors, S.EmptySelector, S.CloneShaping, S.ClonePartition, S.ValidShaping;
    var c := S.Clone(s);
    forall i | 0 <= i < |s.partitions|
      ensures T.EncodableSelectors(c.partitions[i].groups)
    {
      assert s.partitions[i] in s.partitions;
      CloneEncodablePartition(s.partitions[i]);
    }
    forall i | 0 <= i < |s.shaping|
      ensures s.shaping[i].target.Some?
      ensures T.EncodableShaping(c.shaping[i]) <==> !S.EmptySelector(s.shaping[i].target.value)
    {
      assert s.shaping[i] in s.shaping;
      CloneEncodableShaping(s.shaping[i]);
      ValidTarget(s.shaping[i]);
    }
    if TargetsNothing(s) {
      var i :| 0 <= i < |s.shaping| && s.shaping[i].target.Some? && S.EmptySelector(s.shaping[i].target.value);
      assert c.shaping[i] in c.shaping;
    }
  }

  lemma ValidTarget(sh: S.Shaping)
    requires S.ValidShaping(sh)
    ensures sh.target.Some?
  {
  }

  lemma DecodedTargetsSomething(s: S.State)
    requires W.FromJson(s)
    ensures !TargetsNothing(s)
  {
  }

  /**
   * GET and PUT never want for a tag: configs are decoded like request bodies, so no rule of theirs targets the
   * empty selector, and a PUT checks before it stores.
   */
  lemma {:induction false} AlwaysTagged(faults: Faults, hash: T.Hash, start: Sys, steps: seq<Step>)
    requires T.Encodable(start.applied)
    requires forall step :: step in steps && step.Config? ==> W.FromJson(step.desired)
    ensures T.Encodable(Run(faults, hash, start, steps).applied)
  {
    hide Next, T.Encodable, TargetsNothing, W.FromJson;
    if steps == [] {
    } else {
      var init, last := steps[..|steps| - 1], steps[|steps| - 1];
      AlwaysTagged(faults, hash, start, init);
      if last.Config? {
        DecodedTargetsSomething(last.desired);
      }
      NextTagged(faults, hash, Run(faults, hash, start, init), last);
    }
  }

  lemma NextTagged(faults: Faults, hash: T.Hash, s: Sys, step: Step)
    requires T.Encodable(s.applied) && (step.Config? ==> !TargetsNothing(step.desired))
    ensures T.Encodable(Next(faults, hash, s, step).applied)
  {
    EmptyTagged();
    hide ApplyLocked, ClearLocked, Recovered, T.Encodable, S.Clone, S.Valid, TargetsNothing, T.Allows, T.Tag;
    match step
    case Put(body, _, docker) =>
      if body.Some? {
        ApplyLockedRecords(faults, s, body.value, docker);
      }
    case Config(desired, docker) =>
      ApplyLockedRecords(faults, s, desired, docker);
      if S.Valid(desired) {
        EncodableIff(desired);
      }
    case Clear =>
      ClearLockedRecords(faults, s);
    case Restart(_, _) =>
    case Die(_) =>
    case Spawn(_, _) =>
  }

  lemma EmptyTagged()
    ensures T.Encodable(S.EMPTY)
  {
  }
}
