/**
 * What a shaping rule means, from the state a client sends to the qdisc of a container, and which rules are refused
 * when they meet the containers of the enclave.
 */
module ShapingMeaning {
  import opened Wrappers
  import opened Discovery
  import opened Backend
  import opened Kernel
  import opened Api
  import opened Runs
  import S = State
  import T = ETag
  import Iptables
  import Tc
  import N = Netfilter
  import Q = Qdiscs
  import C = Cleanup
  import G = Guarantees

  // ---- The tree of a rule ----

  /** The arguments of netem: a delay, a jitter after it, a loss as a percentage, as far as they are given. */
  ghost predicate ImpairsBy(args: seq<string>, delay: string, jitter: string, loss: string) {
    exists percent ::
      && (percent == loss || percent == loss + "%") && |percent| > 0 && percent[|percent| - 1] == '%'
      && (loss != "" && loss[|loss| - 1] == '%' ==> percent == loss)
      && args == if delay == "" then if loss == "" then [] else ["loss", percent]
                 else if jitter == "" then
                   if loss == "" then ["delay", delay] else ["delay", delay, "loss", percent]
                 else if loss == "" then ["delay", delay, jitter]
                 else ["delay", delay, jitter, "loss", percent]
  }

  /** The qdisc a rule asks for: tbf at the bandwidth, with a burst of 32kbit and a latency of 400ms, over netem. */
  ghost predicate Renders(q: Qdisc, sh: S.Shaping) {
    match q
    case Netem(args) => sh.bandwidth == "" && ImpairsBy(args, sh.delay, sh.jitter, sh.loss)
    case Tbf(args, under) =>
      && sh.bandwidth != ""
      && args == ["rate", sh.bandwidth, "burst", "32kbit", "latency", "400ms"]
      && (under.None? <==> sh.delay == "" && sh.loss == "")
      && (under.Some? ==> ImpairsBy(under.value, sh.delay, sh.jitter, sh.loss))
  }

  /** The resolved rule has the parameters that the client gave. */
  ghost predicate From(rule: Shaping, sh: S.Shaping) {
    rule.delay == sh.delay && rule.jitter == sh.jitter && rule.loss == sh.loss && rule.bandwidth == sh.bandwidth
  }

  lemma TreeRenders(rule: Shaping, sh: S.Shaping)
    requires S.ValidShaping(sh) && From(rule, sh)
    ensures Renders(Tc.Tree(rule), sh)
  {
    Tc.NetemShape(rule);
    hide Tc.NetemSpec;
    var percent := Tc.Percent(rule.loss);
    assert ImpairsBy(Tc.NetemSpec(rule), sh.delay, sh.jitter, sh.loss);
  }

  lemma RuleFrom(docker: Docker, s: S.State, k: nat)
    requires Resolve(docker, s).Some? && k < |s.shaping|
    ensures var rules := Resolve(docker, s).value.shaping;
            |rules| == |s.shaping| && From(rules[k], s.shaping[k]) && Some(rules[k].target) == docker.target(k)
  {
    ResolveShapingIff(docker, s.shaping, |s.shaping|);
  }

  /**
   * From the state a client sends to the kernel: after a successful apply, from any reachable state, a container that
   * Docker lists for a rule carries the qdisc that the rule asks for.
   */
  lemma AppliedTree(faults: Faults, hash: T.Hash, start: Sys, steps: seq<Step>, desired: S.State, docker: Docker,
                    k: nat, c: Container)
    requires Fresh(start) && G.AllSteady(steps) && OnePid(docker, desired) && S.Valid(desired)
    requires k < |desired.shaping| && docker.target(k).Some? && c in docker.target(k).value
    requires Resolve(docker, desired).Some? ==>
               var rules := Resolve(docker, desired).value.shaping;
               forall a, b :: a in Tc.Shaped(rules) && b in Tc.Shaped(rules) && a.pid == b.pid ==> a.id == b.id
    ensures var s := Run(faults, hash, start, steps);
            var (s1, stage) := ApplyLocked(faults, s, desired, docker);
            stage.None? && c.pid in s.w.nets ==>
              && c.pid in s1.w.nets && s1.w.nets[c.pid].root.Some?
              && Renders(s1.w.nets[c.pid].root.value, desired.shaping[k])
  {
    var s := Run(faults, hash, start, steps);
    if ApplyLocked(faults, s, desired, docker).1.None? && c.pid in s.w.nets {
      ApplyLockedRecords(faults, s, desired, docker);
      hide Run, ApplyLocked, Tc.Tree, Tc.Shaped, Resolve, Renders, From;
      RuleFrom(docker, desired, k);
      var rule := Resolve(docker, desired).value.shaping[k];
      G.SuccessShapes(faults, hash, start, steps, desired, docker, rule, c);
      ValidRule(desired, k);
      TreeRenders(rule, desired.shaping[k]);
    }
  }

  lemma ValidRule(s: S.State, k: nat)
    requires S.Valid(s) && k < |s.shaping|
    ensures S.ValidShaping(s.shaping[k])
  {
    assert s.shaping[k] in s.shaping;
  }

  /** The loss `a` is `b` with the percent sign that it lacks. */
  ghost predicate InPercent(a: string, b: string) {
    b != "" && b[|b| - 1] != '%' && a == b + "%"
  }

  /** Two rules of states that pass validation get the same tree exactly when they ask for the same. */
  lemma SameTreeIff(docker: Docker, s: S.State, k: nat, docker': Docker, s': S.State, k': nat)
    requires S.Valid(s) && Resolve(docker, s).Some? && k < |s.shaping|
    requires S.Valid(s') && Resolve(docker', s').Some? && k' < |s'.shaping|
    ensures |Resolve(docker, s).value.shaping| == |s.shaping|
    ensures |Resolve(docker', s').value.shaping| == |s'.shaping|
    ensures Tc.Tree(Resolve(docker, s).value.shaping[k]) == Tc.Tree(Resolve(docker', s').value.shaping[k'])
       <==> var (a, b) := (s.shaping[k], s'.shaping[k']);
            && a.bandwidth == b.bandwidth && a.delay == b.delay && a.jitter == b.jitter
            && (a.loss == b.loss || InPercent(a.loss, b.loss) || InPercent(b.loss, a.loss))
  {
    RuleFrom(docker, s, k);
    RuleFrom(docker', s', k');
    ValidRule(s, k);
    ValidRule(s', k');
    hide Resolve, S.Valid, Tc.Tree;
    var rule, rule' := Resolve(docker, s).value.shaping[k], Resolve(docker', s').value.shaping[k'];
    Tc.TreeIff(rule, rule');
    LossIff(rule.loss, rule'.loss);
  }

  lemma LossIff(a: string, b: string)
    ensures Tc.LossPercent(a) == Tc.LossPercent(b)
       <==> a == b || InPercent(a, b) || InPercent(b, a)
  {
    if InPercent(a, b) {
      assert a[|a| - 1] == '%';
    }
    if InPercent(b, a) {
      assert b[|b| - 1] == '%';
    }
    if a != "" && b != "" && Tc.LossPercent(a) == Tc.LossPercent(b) && a != b {
      assert a == Tc.Percent(a) || b == Tc.Percent(b);
    }
  }

  // ---- Rules that are refused ----

  /** Some rule matched nothing, or some container is in two places of the rules. */
  ghost predicate Clashes(rules: seq<Shaping>) {
    || (exists i :: 0 <= i < |rules| && rules[i].target == [])
    || exists i: nat, k: nat, j: nat, l: nat :: Q.Twice(rules, i, k, j, l)
  }

  lemma ClashesInconsistent(rules: seq<Shaping>)
    requires Clashes(rules)
    ensures !Tc.Consistent(rules)
  {
    Q.ConsistentIff(rules);
    hide Tc.Consistent;
  }

  /** Every root qdisc was there before, if there is one at all. */
  ghost predicate NothingInstalled(before: map<Pid, Net>, after: map<Pid, Net>) {
    forall p :: p in after ==> p in before && (after[p].root.None? || after[p].root == before[p].root)
  }

  lemma ClearInstallsNothing(faults: Faults, s: Sys)
    ensures NothingInstalled(s.w.nets, ClearLocked(faults, s).0.w.nets)
  {
    ClearLockedRecords(faults, s);
    hide ClearLocked;
    forall p | p in s.w.nets
      ensures var n := ClearLocked(faults, s).0.w.nets;
              p in n && (n[p].root.None? || n[p].root == s.w.nets[p].root)
    {
      ClearRoot(faults, s, p);
    }
  }

  lemma ClearRoot(faults: Faults, s: Sys, p: Pid)
    requires p in s.w.nets
    ensures var n := ClearLocked(faults, s).0.w.nets;
            p in n && (n[p].root.None? || n[p].root == s.w.nets[p].root)
  {
    Q.ClearEffect(faults, s.w, s.tc, p);
    N.ClearEffect(faults, Tc.Cleared(faults, s.w, s.tc).w, s.ipt, p);
    hide Tc.Cleared, Iptables.Cleared, N.Tame, N.Drained, N.Silent;
  }

  lemma RulesInstallNothing(faults: Faults, s: Sys, plan: Plan)
    requires OnePidPerId(Members(plan.partitions))
    ensures NothingInstalled(s.w.nets, InstallRulesLocked(faults, s, plan).0.w.nets)
  {
    C.InstallKeys(faults, s, plan);
    hide Iptables.Applied, Members;
    forall p | p in s.w.nets
      ensures var n := InstallRulesLocked(faults, s, plan).0.w.nets; p in n && n[p].root == s.w.nets[p].root
    {
      N.ApplyEffect(faults, s.w, s.ipt, plan.partitions, p);
    }
  }

  lemma QdiscsInstallNothing(faults: Faults, s: Sys, plan: Plan)
    requires !Tc.Consistent(plan.shaping)
    ensures !InstallQdiscsLocked(faults, s, plan).1
    ensures NothingInstalled(s.w.nets, InstallQdiscsLocked(faults, s, plan).0.w.nets)
  {
    C.InstallKeys(faults, s, plan);
    hide Tc.Consistent;
    forall p | p in s.w.nets
      ensures var n := InstallQdiscsLocked(faults, s, plan).0.w.nets;
              p in n && (n[p].root.None? || n[p].root == s.w.nets[p].root)
    {
      Q.ApplyEffect(faults, s.w, s.tc, plan.shaping, p);
    }
  }

  lemma InstallsNothingTrans(a: map<Pid, Net>, b: map<Pid, Net>, c: map<Pid, Net>)
    requires NothingInstalled(a, b) && NothingInstalled(b, c)
    ensures NothingInstalled(a, c)
  {
  }

  /**
   * From any state and whatever fails: an apply with a rule that matched no container, or with one container in two
   * places of its rules, fails, and installs no qdisc anywhere.
   */
  lemma ClashesRefused(faults: Faults, s: Sys, desired: S.State, docker: Docker)
    requires Resolve(docker, desired).Some? && OnePid(docker, desired)
    requires Clashes(Resolve(docker, desired).value.shaping)
    ensures var (s1, stage) := ApplyLocked(faults, s, desired, docker);
            stage.Some? && NothingInstalled(s.w.nets, s1.w.nets)
  {
    var plan := Resolve(docker, desired).value;
    ClashesInconsistent(plan.shaping);
    hide Clashes, Tc.Consistent, ClearLocked, TornDown, InstallRulesLocked, InstallQdiscsLocked, NothingInstalled;
    hide Members;
    var s1 := ClearLocked(faults, s).0;
    ClearInstallsNothing(faults, s);
    TornDownEffect(faults, s1, plan);
    var t := TornDown(faults, s1, plan);
    var s2 := InstallRulesLocked(faults, t, plan).0;
    RulesInstallNothing(faults, t, plan);
    InstallsNothingTrans(s.w.nets, s1.w.nets, s2.w.nets);
    ClearInstallsNothing(faults, s2);
    InstallsNothingTrans(s.w.nets, s2.w.nets, ClearLocked(faults, s2).0.w.nets);
    var s3 := InstallQdiscsLocked(faults, s2, plan).0;
    QdiscsInstallNothing(faults, s2, plan);
    InstallsNothingTrans(s.w.nets, s2.w.nets, s3.w.nets);
    ClearInstallsNothing(faults, s3);
    InstallsNothingTrans(s.w.nets, s3.w.nets, ClearLocked(faults, s3).0.w.nets);
  }

  /**
   * What the client sees of it: a PUT whose rules name a selector that matches nothing, or clash on a container, is
   * not answered with success and does not leave its state advertised.
   */
  lemma ClashingPutFails(faults: Faults, hash: T.Hash, s: Sys, body: S.State, ifMatch: string, docker: Docker)
    requires forall k: nat :: k < |body.shaping| ==> docker.target(k).Some?
    requires || (exists k: nat :: k < |body.shaping| && docker.target(k).value == [])
             || (exists i: nat, k: nat, j: nat, l: nat ::
                   && i < |body.shaping| && j < |body.shaping|
                   && k < |docker.target(i).value| && l < |docker.target(j).value| && (i, k) != (j, l)
                   && docker.target(i).value[k].id == docker.target(j).value[l].id)
    requires OnePid(docker, body)
    ensures var (s1, response) := PutState(faults, hash, s, Some(body), ifMatch, docker);
            !response.Success? && (s1 == s || (s1.applied == S.EMPTY && NothingInstalled(s.w.nets, s1.w.nets)))
  {
    NothingInstalledByNothing(s.w.nets);
    ApplyLockedRecords(faults, s, body, docker);
    if Resolve(docker, body).Some? {
      ClashingTargets(docker, body);
      ClashesRefused(faults, s, body, docker);
    } else {
      UnresolvedRefused(faults, s, body, docker);
    }
    hide ApplyLocked, S.Valid, S.Clone, T.Encodable, T.Allows, T.Tag, Resolve, NothingInstalled, Clashes, OnePid;
  }

  lemma NothingInstalledByNothing(nets: map<Pid, Net>)
    ensures NothingInstalled(nets, nets)
  {
  }

  lemma UnresolvedRefused(faults: Faults, s: Sys, desired: S.State, docker: Docker)
    requires Resolve(docker, desired).None?
    ensures var (s1, stage) := ApplyLocked(faults, s, desired, docker);
            stage.Some? && NothingInstalled(s.w.nets, s1.w.nets)
  {
    ClearInstallsNothing(faults, s);
    hide ClearLocked, ResolvePartitions, ResolveShaping, NothingInstalled;
  }

  lemma ClashingTargets(docker: Docker, s: S.State)
    requires Resolve(docker, s).Some? && forall k: nat :: k < |s.shaping| ==> docker.target(k).Some?
    requires || (exists k: nat :: k < |s.shaping| && docker.target(k).value == [])
             || (exists i: nat, k: nat, j: nat, l: nat ::
                   && i < |s.shaping| && j < |s.shaping|
                   && k < |docker.target(i).value| && l < |docker.target(j).value| && (i, k) != (j, l)
                   && docker.target(i).value[k].id == docker.target(j).value[l].id)
    ensures Clashes(Resolve(docker, s).value.shaping)
  {
    ResolveShapingIff(docker, s.shaping, |s.shaping|);
    hide ResolvePartitions, ResolveShaping;
    var rules := Resolve(docker, s).value.shaping;
    if k: nat :| k < |s.shaping| && docker.target(k).value == [] {
      assert rules[k].target == [];
    } else {
      var i: nat, k: nat, j: nat, l: nat :|
        && i < |s.shaping| && j < |s.shaping|
        && k < |docker.target(i).value| && l < |docker.target(j).value| && (i, k) != (j, l)
        && docker.target(i).value[k].id == docker.target(j).value[l].id;
      assert Q.Twice(rules, i, k, j, l);
    }
  }
}
