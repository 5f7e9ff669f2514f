/**
 * From one enclave to one kernel: if Docker lists the same containers for the same selectors, the answers that two
 * requests see, and the chains and qdiscs that they end in, are the same.
 */
module Enclave {
  import opened Wrappers
  import opened Discovery
  import opened Backend
  import opened Kernel
  import opened Api
  import opened Runs
  import S = State
  import T = ETag
  import Tc
  import M = Matching
  import G = Guarantees

  /** What Docker lists for each selector, each container with what inspecting it answers. */
  type Listings = S.Selector -> Option<seq<M.Listed>>

  /** The answers of one request come from these listings, each selector resolved in visiting orders of its own. */
  ghost predicate Answers(cfg: M.Config, lists: Listings, s: S.State, docker: Docker) {
    && (forall k: nat, i: nat :: k < |s.partitions| && i < |s.partitions[k].groups| ==>
          var sel := s.partitions[k].groups[i]; M.MayResolve(cfg, sel, lists(sel), docker.group(k, i)))
    && (forall k: nat :: k < |s.shaping| && s.shaping[k].target.Some? ==>
          var sel := s.shaping[k].target.value; M.MayResolve(cfg, sel, lists(sel), docker.target(k)))
  }

  ghost predicate WellSpelled(prefix: string, s: S.State) {
    && (forall p, sel :: p in s.partitions && sel in p.groups ==> M.WellSpelled(prefix, sel))
    && (forall sh :: sh in s.shaping && sh.target.Some? ==> M.WellSpelled(prefix, sh.target.value))
  }

  lemma {:induction false} SameAnswer(cfg: M.Config, sel: S.Selector, listed: Option<seq<M.Listed>>, r: Listing,
                                      r': Listing)
    requires M.WellSpelled(cfg.prefix, sel) && M.MayResolve(cfg, sel, listed, r) && M.MayResolve(cfg, sel, listed, r')
    ensures r == r'
  {
    hide M.WellSpelled, M.Visited;
    if listed.Some? {
      M.OneAnswer(cfg, sel, listed.value, r);
      M.OneAnswer(cfg, sel, listed.value, r');
    }
  }

  /** Both requests see the same answers wherever a selector of the state asks. */
  ghost predicate Agreeing(s: S.State, docker: Docker, docker': Docker) {
    && (forall k: nat, i: nat :: k < |s.partitions| && i < |s.partitions[k].groups| ==>
          docker.group(k, i) == docker'.group(k, i))
    && (forall k: nat :: k < |s.shaping| ==> docker.target(k) == docker'.target(k))
  }

  lemma {:induction false} SameListingsAgree(cfg: M.Config, lists: Listings, s: S.State, docker: Docker,
                                             docker': Docker)
    requires Answers(cfg, lists, s, docker) && Answers(cfg, lists, s, docker')
    requires WellSpelled(cfg.prefix, s) && forall sh :: sh in s.shaping ==> sh.target.Some?
    ensures Agreeing(s, docker, docker')
  {
    hide M.WellSpelled, M.MayResolve;
    forall k: nat, i: nat | k < |s.partitions| && i < |s.partitions[k].groups|
      ensures docker.group(k, i) == docker'.group(k, i)
    {
      var p := s.partitions[k];
      assert p in s.partitions && p.groups[i] in p.groups;
      SameAnswer(cfg, p.groups[i], lists(p.groups[i]), docker.group(k, i), docker'.group(k, i));
    }
    forall k: nat | k < |s.shaping|
      ensures docker.target(k) == docker'.target(k)
    {
      var sh := s.shaping[k];
      assert sh in s.shaping;
      SameAnswer(cfg, sh.target.value, lists(sh.target.value), docker.target(k), docker'.target(k));
    }
  }

  lemma SameGroups(docker: Docker, docker': Docker, k: nat, n: nat)
    requires forall i: nat :: i < n ==> docker.group(k, i) == docker'.group(k, i)
    ensures Grouped(docker, k, n) == Grouped(docker', k, n)
  {
    hide Disjoint;
    if Answered(docker, k, n) {
      var groups, groups' := Groups(docker, k, n), Groups(docker', k, n);
      forall i: nat | i < n
        ensures groups[i] == groups'[i]
      {
        assert docker.group(k, i) == docker'.group(k, i);
      }
      assert groups == groups';
    } else {
      assert !Answered(docker', k, n);
    }
  }

  lemma {:induction false} SamePartitions(docker: Docker, docker': Docker, ps: seq<S.Partition>, k: nat)
    requires k <= |ps|
    requires forall j: nat, i: nat :: j < |ps| && i < |ps[j].groups| ==> docker.group(j, i) == docker'.group(j, i)
    ensures ResolvePartitions(docker, ps, k) == ResolvePartitions(docker', ps, k)
  {
    hide Grouped;
    if k == 0 {
    } else {
      SamePartitions(docker, docker', ps, k - 1);
      SameGroups(docker, docker', k - 1, |ps[k - 1].groups|);
    }
  }

  lemma {:induction false} SameTargets(docker: Docker, docker': Docker, rules: seq<S.Shaping>, k: nat)
    requires k <= |rules| && forall j: nat :: j < |rules| ==> docker.target(j) == docker'.target(j)
    ensures ResolveShaping(docker, rules, k) == ResolveShaping(docker', rules, k)
  {
    if k == 0 {
    } else {
      SameTargets(docker, docker', rules, k - 1);
    }
  }

  /** Agreeing answers are applied alike. */
  lemma SameApply(faults: Faults, s: Sys, desired: S.State, docker: Docker, docker': Docker)
    requires Agreeing(desired, docker, docker')
    ensures Resolve(docker, desired) == Resolve(docker', desired)
    ensures ApplyLocked(faults, s, desired, docker) == ApplyLocked(faults, s, desired, docker')
  {
    hide ClearLocked, TornDown, InstallRulesLocked, InstallQdiscsLocked, ResolvePartitions, ResolveShaping;
    SamePartitions(docker, docker', desired.partitions, |desired.partitions|);
    SameTargets(docker, docker', desired.shaping, |desired.shaping|);
  }

  /**
   * History independence from the enclave to the kernel: two services with any pasts, any failures and any kernels
   * under them apply the same valid, well-spelled state to the same enclave, each resolving selectors for itself, in
   * visiting orders of its own. If both succeed, netns p holds the same drop rules and the same qdisc, save for what
   * neither could remove on containers outside the plan.
   */
  lemma SameEnclaveSameKernel(
    faults: Faults, hash: T.Hash, start: Sys, steps: seq<Step>, docker: Docker,
    faults': Faults, hash': T.Hash, start': Sys, steps': seq<Step>, docker': Docker,
    cfg: M.Config, lists: Listings, desired: S.State, p: Pid)
    requires Fresh(start) && G.AllSteady(steps) && Fresh(start') && G.AllSteady(steps')
    requires S.Valid(desired) && WellSpelled(cfg.prefix, desired) && OnePid(docker, desired)
    requires Answers(cfg, lists, desired, docker) && Answers(cfg, lists, desired, docker')
    ensures Resolve(docker, desired) == Resolve(docker', desired)
    ensures var s, s' := Run(faults, hash, start, steps), Run(faults', hash', start', steps');
            var (s1, stage) := ApplyLocked(faults, s, desired, docker);
            var (s1', stage') := ApplyLocked(faults', s', desired, docker');
            stage.None? && stage'.None? && p in s.w.nets && p in s'.w.nets ==>
              && p in s1.w.nets && p in s1'.w.nets && Resolve(docker, desired).Some?
              && var plan := Resolve(docker, desired).value;
                 var (n, n') := (s1.w.nets[p], s1'.w.nets[p]);
                 && (p in Pids(Targets(plan.partitions)) || (!n.orphan && !n'.orphan) ==> Rules(n) == Rules(n'))
                 && (p in Pids(Tc.Shaped(plan.shaping)) || (!n.leaked && !n'.leaked) ==> n.root == n'.root)
  {
    SameListingsAgree(cfg, lists, desired, docker, docker');
    SameApply(faults', Run(faults', hash', start', steps'), desired, docker, docker');
    G.HistoryIndependence(faults, hash, start, steps, faults', hash', start', steps', desired, docker, p);
    hide Run, ApplyLocked, Resolve, Targets, Tc.Shaped;
  }
}
