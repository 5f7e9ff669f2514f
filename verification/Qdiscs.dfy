/** What every tc operation does to an arbitrary netns `p`, whatever fails on the way. */
module Qdiscs {
  import opened Wrappers
  import opened Discovery
  import opened Backend
  import opened Kernel
  import opened Tc

  /** What no tc operation ever touches. */
  ghost predicate SparesChains(a: Net, b: Net) {
    b.chain == a.chain && b.output == a.output && b.orphan == a.orphan && b.misread == a.misread
  }

  /** No root qdisc, or one that outlived a delete. */
  ghost predicate Bare(n: Net) {
    n.root.None? || n.leaked
  }

  /** The root qdisc, if any, is the one there was, and a leaked one stays known as leaked. */
  ghost predicate Pruned(a: Net, b: Net) {
    b.root.None? || (b.root == a.root && (a.leaked ==> b.leaked))
  }

  // ---- One command ----

  lemma DelStruck(n: Net, fault: Fault)
    ensures var (m, a) := Struck(n, DelRoot, fault);
            && SparesChains(n, m) && Pruned(n, m) && Bare(m)
            && (m.root.None? ==> !m.leaked)
            && (!LeftBehind(DelRoot, m, a) ==> m.root.None? && !m.leaked)
  {
  }

  /** `qdisc add root` works on a bare interface only. */
  lemma AddRootStruck(n: Net, cmd: Command, fault: Fault)
    requires cmd.AddRootTbf? || cmd.AddRootNetem?
    ensures var (m, a) := Struck(n, cmd, fault);
            && SparesChains(n, m)
            && (a.Ok? ==>
                  n.root.None? && m.root == Some(if cmd.AddRootTbf? then Tbf(cmd.args, None) else Netem(cmd.args)))
            && (!n.leaked ==> !m.leaked)
            && ((n.root.None? ==> !n.leaked) && a.Ok? ==> !m.leaked)
  {
  }

  lemma AddChildStruck(n: Net, args: seq<string>, fault: Fault)
    ensures var (m, a) := Struck(n, AddChildNetem(args), fault);
            && SparesChains(n, m)
            && (!n.leaked ==> !m.leaked)
            && (a.Ok? ==> n.root.Some? && n.root.value.Tbf? && m.root == Some(Tbf(n.root.value.args, Some(args))))
  {
  }

  // ---- Cleanup ----

  lemma DropRootEffect(faults: Faults, w: World, c: Container, p: Pid)
    requires p in w.nets
    ensures var d := DropRoot(faults, w, c);
            && d.w.nets.Keys == w.nets.Keys && w.log <= d.w.log
            && SparesChains(w.nets[p], d.w.nets[p])
            && Pruned(w.nets[p], d.w.nets[p])
            && (p != c.pid ==> d.w.nets[p] == w.nets[p])
            && (p == c.pid ==> Bare(d.w.nets[p]) && (d.w.nets[p].root.None? ==> !d.w.nets[p].leaked))
            && (p == c.pid && NoneLeft(d.w.log, |w.log|) ==> d.w.nets[p].root.None? && !d.w.nets[p].leaked)
  {
    hide Issue, Struck;
    if c.pid != 0 {
      IssueEffect(faults, w, Call(c.pid, DelRoot), p);
      DelStruck(w.nets[p], faults(w.clock));
    }
  }

  /** A delete reports the qdisc gone exactly when it works in a netns, exits 2, or has nothing to enter. */
  lemma GoneIff(faults: Faults, w: World, c: Container)
    ensures DropRoot(faults, w, c).ok
       <==> || c.pid == 0
            || (c.pid in w.nets && faults(w.clock).Obey?)
            || (c.pid > 0 && faults(w.clock).Break? && faults(w.clock).failure == Exit(2))
    ensures c.pid == 0 ==> DropRoot(faults, w, c).w == w
  {
  }

  lemma {:induction false} DropRootsEffect(faults: Faults, w: World, ts: seq<Container>, p: Pid)
    requires p in w.nets
    ensures var w1 := DropRoots(faults, w, ts);
            && w1.nets.Keys == w.nets.Keys && w.log <= w1.log
            && SparesChains(w.nets[p], w1.nets[p])
            && Pruned(w.nets[p], w1.nets[p])
            && (p !in Pids(ts) ==> w1.nets[p] == w.nets[p])
            && (p in Pids(ts) ==> Bare(w1.nets[p]))
            && (p in Pids(ts) && NoneLeft(w1.log, |w.log|) ==> w1.nets[p].root.None? && !w1.nets[p].leaked)
    decreases ts
  {
    hide DropRoot;
    if ts == [] {
    } else {
      DropRootEffect(faults, w, ts[0], p);
      var first := DropRoot(faults, w, ts[0]).w;
      DropRootsEffect(faults, first, ts[1..], p);
      if NoneLeft(DropRoots(faults, w, ts).log, |w.log|) {
        NoneLeftPart(first.log, DropRoots(faults, w, ts).log, |w.log|);
      }
      PidsCons(ts);
    }
  }

  // ---- Installing trees ----

  /** A successful applyToContainer leaves exactly the rule's tree, even where an earlier delete had failed. */
  lemma ApplyToEffect(faults: Faults, w: World, job: Job, p: Pid)
    requires p in w.nets
    ensures var d := ApplyTo(faults, w, job);
            && d.w.nets.Keys == w.nets.Keys && w.log <= d.w.log
            && SparesChains(w.nets[p], d.w.nets[p])
            && (p != job.c.pid ==> d.w.nets[p] == w.nets[p])
            && (p == job.c.pid && d.ok ==> d.w.nets[p].root == Some(Tree(job.rule)) && !d.w.nets[p].leaked)
            && (NoneLeft(d.w.log, |w.log|) && !w.nets[p].leaked ==> !d.w.nets[p].leaked)
  {
    hide Issue, Struck, DropRoot, NetemSpec, TbfArgs;
    var (c, sh) := (job.c, job.rule);
    if HasBandwidth(sh) || HasNetem(sh) {
      DropRootEffect(faults, w, c, p);
      var w0 := DropRoot(faults, w, c).w;
      if NoneLeft(ApplyTo(faults, w, job).w.log, |w.log|) && w0.log <= ApplyTo(faults, w, job).w.log {
        NoneLeftPart(w0.log, ApplyTo(faults, w, job).w.log, |w.log|);
      }
      var root := Call(c.pid, if HasBandwidth(sh) then AddRootTbf(TbfArgs(sh)) else AddRootNetem(NetemSpec(sh)));
      IssueEffect(faults, w0, root, p);
      AddRootStruck(w0.nets[p], root.cmd, faults(w0.clock));
      var (w1, a) := Issue(faults, w0, root);
      if HasBandwidth(sh) && HasNetem(sh) && a.Ok? {
        IssueEffect(faults, w1, Call(c.pid, AddChildNetem(NetemSpec(sh))), p);
        AddChildStruck(w1.nets[p], NetemSpec(sh), faults(w1.clock));
      }
    }
  }

  /** The rule of the last job that enters netns p. */
  ghost function RuleFor(jobs: seq<Job>, p: int): Option<Shaping> {
    if jobs == [] then None
    else
      var later := RuleFor(jobs[1..], p);
      if later.Some? then later else if jobs[0].c.pid == p then Some(jobs[0].rule) else None
  }

  lemma {:induction false} RunJobsEffect(faults: Faults, w: World, jobs: seq<Job>, p: Pid)
    requires p in w.nets
    ensures var d := RunJobs(faults, w, jobs);
            && d.w.nets.Keys == w.nets.Keys && w.log <= d.w.log
            && SparesChains(w.nets[p], d.w.nets[p])
            && (RuleFor(jobs, p).None? ==> d.w.nets[p] == w.nets[p])
            && (d.ok && RuleFor(jobs, p).Some? ==>
                  d.w.nets[p].root == Some(Tree(RuleFor(jobs, p).value)) && !d.w.nets[p].leaked)
            && (NoneLeft(d.w.log, |w.log|) && !w.nets[p].leaked ==> !d.w.nets[p].leaked)
    decreases jobs
  {
    hide ApplyTo, Tree;
    if jobs == [] {
    } else {
      ApplyToEffect(faults, w, jobs[0], p);
      var first := ApplyTo(faults, w, jobs[0]);
      RunJobsEffect(faults, first.w, jobs[1..], p);
      if NoneLeft(RunJobs(faults, w, jobs).w.log, |w.log|) {
        NoneLeftPart(first.w.log, RunJobs(faults, w, jobs).w.log, |w.log|);
      }
    }
  }

  lemma {:induction false} RuleJobsRuleFor(target: seq<Container>, sh: Shaping, rest: seq<Job>, p: int)
    ensures RuleFor(RuleJobs(target, sh) + rest, p)
         == if RuleFor(rest, p).Some? then RuleFor(rest, p) else if p in Pids(target) then Some(sh) else None
  {
    var jobs := RuleJobs(target, sh) + rest;
    if target == [] {
      assert jobs == rest;
    } else {
      PidsCons(target);
      assert jobs[1..] == RuleJobs(target[1..], sh) + rest;
      RuleJobsRuleFor(target[1..], sh, rest, p);
    }
  }

  ghost predicate Shapes(sh: Shaping, p: int) {
    p in Pids(sh.target)
  }

  /** Netns p is shaped exactly when some rule targets it, and then by such a rule. */
  lemma {:induction false} RuleForIff(plan: seq<Shaping>, p: int)
    ensures RuleFor(Jobs(plan), p).Some? <==> exists sh :: sh in plan && Shapes(sh, p)
    ensures RuleFor(Jobs(plan), p).Some? ==>
              RuleFor(Jobs(plan), p).value in plan && Shapes(RuleFor(Jobs(plan), p).value, p)
  {
    if plan == [] {
    } else {
      RuleJobsRuleFor(plan[0].target, plan[0], Jobs(plan[1..]), p);
      RuleForIff(plan[1..], p);
      assert plan == [plan[0]] + plan[1..];
      if sh :| sh in plan && Shapes(sh, p) {
        assert sh == plan[0] || sh in plan[1..];
      }
      var rule := RuleFor(Jobs(plan), p);
      if rule.Some? {
        assert rule.value == plan[0] || rule.value in plan[1..];
        assert Shapes(rule.value, p);
      }
    }
  }

  lemma {:induction false} ShapedIff(plan: seq<Shaping>, c: Container)
    ensures c in Shaped(plan) <==> exists sh :: sh in plan && c in sh.target
  {
    if plan == [] {
    } else {
      var init := plan[..|plan| - 1];
      ShapedIff(init, c);
      assert plan == init + [plan[|plan| - 1]];
      if sh :| sh in plan && c in sh.target {
        assert sh == plan[|plan| - 1] || sh in init;
      }
    }
  }

  /** The netnses a plan shapes are those of its targets. */
  lemma ShapedPids(plan: seq<Shaping>, p: int)
    ensures p in Pids(Shaped(plan)) <==> RuleFor(Jobs(plan), p).Some?
  {
    RuleForIff(plan, p);
    if p in Pids(Shaped(plan)) {
      var c :| c in Shaped(plan) && c.pid == p;
      ShapedIff(plan, c);
      var sh :| sh in plan && c in sh.target;
      assert Shapes(sh, p);
    }
    if sh :| sh in plan && Shapes(sh, p) {
      var c :| c in sh.target && c.pid == p;
      ShapedIff(plan, c);
    }
  }

  lemma DistinctAcross(front: seq<Container>, back: seq<Container>, c: Container, d: Container)
    requires DistinctIds(front + back) && c in front && d in back
    ensures c.id != d.id
  {
    var i :| 0 <= i < |front| && front[i] == c;
    var j :| 0 <= j < |back| && back[j] == d;
    assert (front + back)[i] == c && (front + back)[|front| + j] == d;
  }

  /** Where no container is listed twice, a container is in the target of one rule only. */
  lemma {:induction false} OneRulePerId(plan: seq<Shaping>, a: Shaping, b: Shaping, c: Container, d: Container)
    requires DistinctIds(Shaped(plan)) && a in plan && b in plan && c in a.target && d in b.target && c.id == d.id
    ensures a == b
  {
    var init, last := plan[..|plan| - 1], plan[|plan| - 1];
    assert plan == init + [last];
    var before := Shaped(init);
    assert Shaped(plan) == before + last.target;
    if a in init && b in init {
      assert forall i :: 0 <= i < |before| ==> Shaped(plan)[i] == before[i];
      OneRulePerId(init, a, b, c, d);
    } else if a != b {
      var (early, late) := if a in init then (c, d) else (d, c);
      ShapedIff(init, early);
      DistinctAcross(before, last.target, early, late);
      assert false;
    }
  }

  lemma DistinctConcat(front: seq<Container>, back: seq<Container>)
    ensures DistinctIds(front + back)
       <==> DistinctIds(front) && DistinctIds(back)
            && forall k, l :: 0 <= k < |front| && 0 <= l < |back| ==> front[k].id != back[l].id
  {
    var all := front + back;
    assert forall k :: 0 <= k < |front| ==> all[k] == front[k];
    assert forall l :: 0 <= l < |back| ==> all[|front| + l] == back[l];
    if DistinctIds(all) {
      assert DistinctIds(front);
      forall k, l | 0 <= k < l < |back|
        ensures back[k].id != back[l].id
      {
        assert all[|front| + k] == back[k] && all[|front| + l] == back[l];
      }
      forall k, l | 0 <= k < |front| && 0 <= l < |back|
        ensures front[k].id != back[l].id
      {
        assert all[k] == front[k] && all[|front| + l] == back[l];
      }
    }
  }

  /** The k-th container of rule i and the l-th of rule j are one and the same container. */
  ghost predicate Twice(plan: seq<Shaping>, i: nat, k: nat, j: nat, l: nat) {
    && i < |plan| && j < |plan| && k < |plan[i].target| && l < |plan[j].target|
    && plan[i].target[k].id == plan[j].target[l].id
    && (i, k) != (j, l)
  }

  /** No place of `init` repeats an ID of `last`. */
  lemma AcrossIff(init: seq<Shaping>, last: Shaping)
    ensures (forall a, l :: 0 <= a < |Shaped(init)| && 0 <= l < |last.target| ==>
                              Shaped(init)[a].id != last.target[l].id)
       <==> forall i, k, l :: 0 <= i < |init| && 0 <= k < |init[i].target| && 0 <= l < |last.target| ==>
                                init[i].target[k].id != last.target[l].id
  {
    var before := Shaped(init);
    if i, k, l :|
      && 0 <= i < |init| && 0 <= k < |init[i].target| && 0 <= l < |last.target|
      && init[i].target[k].id == last.target[l].id
    {
      ShapedIff(init, init[i].target[k]);
      var a :| 0 <= a < |before| && before[a] == init[i].target[k];
    }
    if a, l :| 0 <= a < |before| && 0 <= l < |last.target| && before[a].id == last.target[l].id {
      ShapedIff(init, before[a]);
      var sh :| sh in init && before[a] in sh.target;
      var i :| 0 <= i < |init| && init[i] == sh;
      var k :| 0 <= k < |sh.target| && sh.target[k] == before[a];
      assert init[i].target[k].id == last.target[l].id;
    }
  }

  lemma {:induction false} DistinctIff(plan: seq<Shaping>)
    ensures DistinctIds(Shaped(plan)) <==> forall i: nat, k: nat, j: nat, l: nat :: !Twice(plan, i, k, j, l)
  {
    hide DistinctIds;
    if plan == [] {
      NoneTwice();
    } else {
      var n := |plan| - 1;
      var init, last := plan[..n], plan[n];
      DistinctIff(init);
      DistinctConcat(Shaped(init), last.target);
      AcrossIff(init, last);
      hide Shaped;
      TwiceSnoc(plan);
      TwiceIn(last.target);
    }
  }

  lemma NoneTwice()
    ensures DistinctIds(Shaped([]))
  {
  }

  lemma TwiceIn(target: seq<Container>)
    ensures DistinctIds(target)
       <==> forall k, l :: 0 <= k < |target| && 0 <= l < |target| && target[k].id == target[l].id ==> k == l
  {
  }

  /** A repetition lies among the earlier rules, within the last one, or across the two. */
  lemma TwiceSnoc(plan: seq<Shaping>)
    requires plan != []
    ensures var n := |plan| - 1;
            var init, last := plan[..n], plan[n].target;
            (exists i: nat, k: nat, j: nat, l: nat :: Twice(plan, i, k, j, l))
            <==> || (exists i: nat, k: nat, j: nat, l: nat :: Twice(init, i, k, j, l))
                 || (exists k, l :: 0 <= k < |last| && 0 <= l < |last| && last[k].id == last[l].id && k != l)
                 || (exists i, k, l :: 0 <= i < n && 0 <= k < |init[i].target| && 0 <= l < |last|
                                       && init[i].target[k].id == last[l].id)
  {
    var n := |plan| - 1;
    var init, last := plan[..n], plan[n].target;
    assert forall i :: 0 <= i < n ==> init[i] == plan[i];
    if i: nat, k: nat, j: nat, l: nat :| Twice(init, i, k, j, l) {
      assert Twice(plan, i, k, j, l);
    }
    if k, l :| 0 <= k < |last| && 0 <= l < |last| && last[k].id == last[l].id && k != l {
      assert Twice(plan, n, k, n, l);
    }
    if i, k, l :| 0 <= i < n && 0 <= k < |init[i].target| && 0 <= l < |last| && init[i].target[k].id == last[l].id {
      assert Twice(plan, i, k, n, l);
    }
    if i: nat, k: nat, j: nat, l: nat :| Twice(plan, i, k, j, l) {
      TwiceWhere(plan, i, k, j, l);
    }
  }

  lemma TwiceWhere(plan: seq<Shaping>, i: nat, k: nat, j: nat, l: nat)
    requires Twice(plan, i, k, j, l)
    ensures var n := |plan| - 1;
            var init, last := plan[..n], plan[n].target;
            || Twice(init, i, k, j, l)
            || (exists k, l :: 0 <= k < |last| && 0 <= l < |last| && last[k].id == last[l].id && k != l)
            || (exists i, k, l :: 0 <= i < n && 0 <= k < |init[i].target| && 0 <= l < |last|
                                  && init[i].target[k].id == last[l].id)
  {
    var n := |plan| - 1;
    var init, last := plan[..n], plan[n].target;
    if i < n && j < n {
      assert Twice(init, i, k, j, l);
    } else if i == n && j == n {
      assert last[k].id == last[l].id;
    } else if i < n {
      assert init[i].target[k].id == last[l].id;
    } else {
      assert init[j].target[l].id == last[k].id;
    }
  }

  /** The pre-flight check passes exactly where every rule matched something and no ID stands in two places. */
  lemma ConsistentIff(plan: seq<Shaping>)
    ensures Consistent(plan)
       <==> && (forall i :: 0 <= i < |plan| ==> plan[i].target != [])
            && forall i: nat, k: nat, j: nat, l: nat
                 | i < |plan| && j < |plan| && k < |plan[i].target| && l < |plan[j].target|
                 :: plan[i].target[k].id == plan[j].target[l].id ==> i == j && k == l
  {
    DistinctIff(plan);
    hide Shaped, DistinctIds;
    if forall i: nat, k: nat, j: nat, l: nat :: !Twice(plan, i, k, j, l) {
      forall i: nat, k: nat, j: nat, l: nat | i < |plan| && j < |plan| && k < |plan[i].target| && l < |plan[j].target|
        && plan[i].target[k].id == plan[j].target[l].id
        ensures i == j && k == l
      {
        assert !Twice(plan, i, k, j, l);
      }
    }
  }

  /**
   * In a consistent plan over containers with PIDs of their own, a container is shaped by the one rule that targets it.
   */
  lemma UniqueRule(plan: seq<Shaping>, sh: Shaping, c: Container)
    requires Consistent(plan) && sh in plan && c in sh.target
    requires forall a, b :: a in Shaped(plan) && b in Shaped(plan) && a.pid == b.pid ==> a.id == b.id
    ensures RuleFor(Jobs(plan), c.pid) == Some(sh)
  {
    hide Jobs, RuleFor, Shaped, DistinctIds;
    RuleForIff(plan, c.pid);
    assert Shapes(sh, c.pid);
    var other := RuleFor(Jobs(plan), c.pid).value;
    var d :| d in other.target && d.pid == c.pid;
    ShapedIff(plan, c);
    ShapedIff(plan, d);
    OneRulePerId(plan, sh, other, c, d);
  }

  // ---- The two operations of the backend ----

  /** Every root qdisc is on a recorded container, unless it outlived a delete. */
  ghost predicate RootCovered(n: Net, p: Pid, last: seq<Container>) {
    Bare(n) || p in Pids(last)
  }

  /** Clear forgets its targets and leaves no qdisc behind but those whose delete failed. */
  lemma ClearEffect(faults: Faults, w: World, last: seq<Container>, p: Pid)
    requires p in w.nets
    ensures var r := Cleared(faults, w, last);
            && r.w.nets.Keys == w.nets.Keys && w.log <= r.w.log
            && SparesChains(w.nets[p], r.w.nets[p])
            && Pruned(w.nets[p], r.w.nets[p])
            && (RootCovered(w.nets[p], p, last) ==> Bare(r.w.nets[p]))
            && (NoneLeft(r.w.log, |w.log|) && RootCovered(w.nets[p], p, last) && !w.nets[p].leaked ==>
                  r.w.nets[p].root.None? && !r.w.nets[p].leaked)
            && (p !in Pids(last) ==> r.w.nets[p] == w.nets[p])
            && r.last == []
  {
    DropRootsEffect(faults, w, last, p);
  }

  /**
   * Apply: success means every container of the plan carries exactly its rule's tree; an inconsistent plan
   * installs nothing; and at every failure point each tree is on a recorded container or outlived a delete.
   */
  lemma ApplyEffect(faults: Faults, w: World, last: seq<Container>, plan: seq<Shaping>, p: Pid)
    requires p in w.nets
    ensures var r := Applied(faults, w, last, plan);
            && r.w.nets.Keys == w.nets.Keys && w.log <= r.w.log
            && SparesChains(w.nets[p], r.w.nets[p])
            && (RootCovered(w.nets[p], p, last) ==> RootCovered(r.w.nets[p], p, r.last))
            && (!Consistent(plan) ==> !r.ok && Pruned(w.nets[p], r.w.nets[p])
                                      && (RootCovered(w.nets[p], p, last) ==> Bare(r.w.nets[p])))
            && (r.ok ==> Consistent(plan) && r.last == Shaped(plan))
            && (r.ok && p in Pids(Shaped(plan)) ==>
                  && RuleFor(Jobs(plan), p).Some?
                  && r.w.nets[p].root == Some(Tree(RuleFor(Jobs(plan), p).value))
                  && !r.w.nets[p].leaked)
            && (r.ok && p !in Pids(Shaped(plan)) && RootCovered(w.nets[p], p, last) ==> Bare(r.w.nets[p]))
            && (NoneLeft(r.w.log, |w.log|) && !w.nets[p].leaked ==> !r.w.nets[p].leaked)
  {
    hide Consistent, Tree, RuleFor, RunJobs, DropRoots;
    DropRootsEffect(faults, w, last, p);
    ShapedPids(plan, p);
    var w0 := DropRoots(faults, w, last);
    RunJobsEffect(faults, w0, Jobs(plan), p);
    var r := Applied(faults, w, last, plan);
    if NoneLeft(r.w.log, |w.log|) {
      NoneLeftPart(w0.log, r.w.log, |w.log|);
    }
  }
}
