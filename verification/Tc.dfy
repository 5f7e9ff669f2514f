/** Egress shaping: one qdisc tree at the root of eth0 (internal/backend/tc/tc.go). */
module Tc {
  import opened Wrappers
  import opened Discovery
  import opened Backend
  import opened Kernel

  /** One installation: a container and the rule that shapes it. */
  datatype Job = Job(c: Container, rule: Shaping)

  /** strings.TrimSuffix(s, "%") + "%" */
  function Percent(s: string): (r: string)
    ensures |r| > 0 && r[|r| - 1] == '%'
    ensures r == s || (r == s + "%" && (s == "" || s[|s| - 1] != '%'))
  {
    if |s| > 0 && s[|s| - 1] == '%' then s else s + "%"
  }

  function NetemSpec(sh: Shaping): seq<string> {
    (if sh.delay == "" then [] else ["delay", sh.delay] + if sh.jitter == "" then [] else [sh.jitter])
    + (if sh.loss == "" then [] else ["loss", Percent(sh.loss)])
  }

  function TbfArgs(sh: Shaping): seq<string> {
    ["rate", sh.bandwidth, "burst", "32kbit", "latency", "400ms"]
  }

  /** What a netem argument list asks for. */
  datatype Impairment = Impairment(delay: string, jitter: string, loss: string)

  /** Reads arguments in the order of tc-netem(8): `delay TIME [JITTER]`, then `loss PERCENT`, each part optional. */
  function ReadNetem(args: seq<string>): Option<Impairment> {
    if |args| >= 2 && args[0] == "delay" then
      if |args| >= 3 && args[2] != "loss" then ReadLoss(args[1], args[2], args[3..])
      else ReadLoss(args[1], "", args[2..])
    else
      ReadLoss("", "", args)
  }

  function ReadLoss(delay: string, jitter: string, args: seq<string>): Option<Impairment> {
    if args == [] then Some(Impairment(delay, jitter, ""))
    else if |args| == 2 && args[0] == "loss" then Some(Impairment(delay, jitter, args[1]))
    else None
  }

  /** A loss with exactly one percent sign added if it had none; none at all stays none. */
  function LossPercent(loss: string): string {
    if loss == "" then "" else Percent(loss)
  }

  /**
   * Exactly the rule's delay, jitter and loss read back, unless there is jitter without a delay to carry it (which
   * validation rejects), or a jitter spelled like the keyword that may follow it.
   */
  lemma ReadNetemIff(sh: Shaping)
    ensures ReadNetem(NetemSpec(sh)) == Some(Impairment(sh.delay, sh.jitter, LossPercent(sh.loss)))
       <==> (sh.jitter != "" ==> sh.delay != "" && sh.jitter != "loss")
  {
  }

  predicate HasBandwidth(sh: Shaping) {
    sh.bandwidth != ""
  }

  predicate HasNetem(sh: Shaping) {
    sh.delay != "" || sh.jitter != "" || sh.loss != ""
  }

  /** The tree a rule describes: tbf at the root with netem at 1:1, tbf alone, or netem at the root. */
  ghost function Tree(sh: Shaping): Qdisc {
    if !HasBandwidth(sh) then Netem(NetemSpec(sh))
    else Tbf(TbfArgs(sh), if HasNetem(sh) then Some(NetemSpec(sh)) else None)
  }

  /** What a qdisc tree does to the link: `bandwidth` is empty where there is no limit. */
  datatype Link = Link(bandwidth: string, impairment: Impairment)

  function ReadRate(args: seq<string>): string {
    if |args| >= 2 && args[0] == "rate" then args[1] else ""
  }

  function ReadTree(q: Qdisc): Option<Link> {
    var args := match q case Netem(args) => args case Tbf(_, under) => if under.Some? then under.value else [];
    var netem := ReadNetem(args);
    if netem.None? then None else Some(Link(if q.Tbf? then ReadRate(q.args) else "", netem.value))
  }

  /** The tree tells the rule: bandwidth, delay, jitter and loss all read back, with the same exceptions. */
  lemma ReadTreeIff(sh: Shaping)
    ensures ReadTree(Tree(sh)) == Some(Link(sh.bandwidth, Impairment(sh.delay, sh.jitter, LossPercent(sh.loss))))
       <==> (sh.jitter != "" ==> sh.delay != "" && sh.jitter != "loss")
  {
    hide ReadNetem, NetemSpec, Percent;
    ReadNetemIff(sh);
    ReadNothing(sh);
  }

  lemma ReadNothing(sh: Shaping)
    ensures ReadNetem([]) == Some(Impairment("", "", ""))
    ensures !HasNetem(sh) ==> NetemSpec(sh) == []
  {
  }

  /** Validation's demand: jitter only with a delay. */
  predicate Carried(sh: Shaping) {
    sh.jitter != "" ==> sh.delay != ""
  }

  /**
   * The tree stands for the parameters: rules that pass validation have equal trees exactly when they ask for the same.
   */
  lemma TreeIff(a: Shaping, b: Shaping)
    requires Carried(a) && Carried(b)
    ensures Tree(a) == Tree(b)
       <==> a.bandwidth == b.bandwidth && a.delay == b.delay && a.jitter == b.jitter
            && LossPercent(a.loss) == LossPercent(b.loss)
  {
    NetemSpecIff(a, b);
    hide NetemSpec, Percent;
    if Tree(a) == Tree(b) && HasBandwidth(a) {
      assert TbfArgs(a)[1] == a.bandwidth && TbfArgs(b)[1] == b.bandwidth;
    }
  }

  lemma NetemSpecIff(a: Shaping, b: Shaping)
    requires Carried(a) && Carried(b)
    ensures NetemSpec(a) == NetemSpec(b)
       <==> a.delay == b.delay && a.jitter == b.jitter && LossPercent(a.loss) == LossPercent(b.loss)
    ensures !HasNetem(a) <==> NetemSpec(a) == []
  {
    NetemShape(a);
    NetemShape(b);
    hide NetemSpec, Percent;
    assert "delay"[0] == 'd' && "loss"[0] == 'l';
  }

  /** The arguments by length: none, a loss, a delay, a delay with jitter, and these with a loss. */
  lemma NetemShape(sh: Shaping)
    requires Carried(sh)
    ensures var args, loss := NetemSpec(sh), Percent(sh.loss);
            args == if sh.delay == "" then if sh.loss == "" then [] else ["loss", loss]
                    else if sh.jitter == "" then
                      if sh.loss == "" then ["delay", sh.delay] else ["delay", sh.delay, "loss", loss]
                    else if sh.loss == "" then ["delay", sh.delay, sh.jitter]
                    else ["delay", sh.delay, sh.jitter, "loss", loss]
  {
  }

  /** delRootBestEffort */
  function DropRoot(faults: Faults, w: World, c: Container): Done {
    if c.pid == 0 then Done(w, true)
    else
      var (w1, a) := Issue(faults, w, Call(c.pid, DelRoot));
      Done(w1, a.Ok? || ExitCode(a) == 2)
  }

  function DropRoots(faults: Faults, w: World, ts: seq<Container>): World
    decreases ts
  {
    if ts == [] then w else DropRoots(faults, DropRoot(faults, w, ts[0]).w, ts[1..])
  }

  function ApplyTo(faults: Faults, w: World, job: Job): Done {
    var (c, sh) := (job.c, job.rule);
    if !HasBandwidth(sh) && !HasNetem(sh) then Done(w, false)
    else
      var w0 := DropRoot(faults, w, c).w;
      if HasBandwidth(sh) then
        var (w1, a) := Issue(faults, w0, Call(c.pid, AddRootTbf(TbfArgs(sh))));
        if a.Failed? then Done(w1, false)
        else if !HasNetem(sh) then Done(w1, true)
        else
          var (w2, b) := Issue(faults, w1, Call(c.pid, AddChildNetem(NetemSpec(sh))));
          Done(w2, b.Ok?)
      else
        var (w1, a) := Issue(faults, w0, Call(c.pid, AddRootNetem(NetemSpec(sh))));
        Done(w1, a.Ok?)
  }

  function RunJobs(faults: Faults, w: World, jobs: seq<Job>): Done
    decreases jobs
  {
    if jobs == [] then Done(w, true)
    else
      var first := ApplyTo(faults, w, jobs[0]);
      if !first.ok then first else RunJobs(faults, first.w, jobs[1..])
  }

  function RuleJobs(target: seq<Container>, sh: Shaping): seq<Job> {
    if target == [] then [] else [Job(target[0], sh)] + RuleJobs(target[1..], sh)
  }

  function Jobs(plan: seq<Shaping>): seq<Job> {
    if plan == [] then [] else RuleJobs(plan[0].target, plan[0]) + Jobs(plan[1..])
  }

  /** Every container a plan shapes, in plan order. */
  ghost function Shaped(plan: seq<Shaping>): seq<Container> {
    if plan == [] then [] else Shaped(plan[..|plan| - 1]) + plan[|plan| - 1].target
  }

  ghost predicate DistinctIds(cs: seq<Container>) {
    forall i, j :: 0 <= i < j < |cs| ==> cs[i].id != cs[j].id
  }

  /** The pre-flight check: every rule matched something, and no container is shaped twice. */
  ghost predicate Consistent(plan: seq<Shaping>) {
    (forall sh :: sh in plan ==> sh.target != []) && DistinctIds(Shaped(plan))
  }

  ghost function Cleared(faults: Faults, w: World, last: seq<Container>): Outcome {
    Outcome(DropRoots(faults, w, last), [], true)
  }

  ghost function Applied(faults: Faults, w: World, last: seq<Container>, plan: seq<Shaping>): Outcome {
    var w0 := DropRoots(faults, w, last);
    if !Consistent(plan) then Outcome(w0, [], false)
    else
      var r := RunJobs(faults, w0, Jobs(plan));
      Outcome(r.w, Shaped(plan), r.ok)
  }

  class Service {
    const enterer: Enterer
    var lastTargets: seq<Container>

    constructor (enterer: Enterer)
      ensures this.enterer == enterer && lastTargets == []
    {
      this.enterer := enterer;
      lastTargets := [];
    }

    method DelRootBestEffort(c: Container) returns (gone: bool)
      modifies enterer
      ensures Done(enterer.world, gone) == DropRoot(enterer.faults, old(enterer.world), c)
    {
      if c.pid == 0 {
        return true;
      }
      var a := enterer.Run(Call(c.pid, DelRoot));
      if a.Ok? {
        return true;
      }
      gone := ExitCode(a) == 2;
    }

    method DelAll(targets: seq<Container>)
      modifies enterer
      ensures enterer.world == DropRoots(enterer.faults, old(enterer.world), targets)
    {
      for i := 0 to |targets|
        invariant DropRoots(enterer.faults, old(enterer.world), targets)
               == DropRoots(enterer.faults, enterer.world, targets[i..])
      {
        assert targets[i..][1..] == targets[i + 1..];
        var _ := DelRootBestEffort(targets[i]);
      }
    }

    /** Start: a fresh service deletes the root qdisc of every container it can list, whatever the outcome. */
    method Start(targets: Listing)
      modifies enterer
      ensures enterer.world
           == if targets.None? then old(enterer.world) else DropRoots(enterer.faults, old(enterer.world), targets.value)
    {
      if targets.Some? {
        DelAll(targets.value);
      }
    }

    method Clear()
      modifies this, enterer
      ensures Outcome(enterer.world, lastTargets, true) == Cleared(enterer.faults, old(enterer.world), old(lastTargets))
    {
      DelAll(lastTargets);
      lastTargets := [];
    }

    method ApplyToContainer(c: Container, sh: Shaping) returns (ok: bool)
      modifies enterer
      ensures Done(enterer.world, ok) == ApplyTo(enterer.faults, old(enterer.world), Job(c, sh))
    {
      hide Issue;
      var hasBandwidth := sh.bandwidth != "";
      var hasNetem := sh.delay != "" || sh.jitter != "" || sh.loss != "";
      if !hasBandwidth && !hasNetem {
        return false;
      }
      var _ := DelRootBestEffort(c);
      if hasBandwidth {
        var tbf := enterer.Run(Call(c.pid, AddRootTbf(["rate", sh.bandwidth, "burst", "32kbit", "latency", "400ms"])));
        if tbf.Failed? {
          return false;
        }
        if hasNetem {
          var netem := enterer.Run(Call(c.pid, AddChildNetem(NetemSpec(sh))));
          if netem.Failed? {
            return false;
          }
        }
      } else {
        var netem := enterer.Run(Call(c.pid, AddRootNetem(NetemSpec(sh))));
        if netem.Failed? {
          return false;
        }
      }
      ok := true;
    }

    /** The pre-flight loops of Apply: collects the targets, or finds the plan inconsistent. */
    method PreFlight(plan: seq<Shaping>) returns (ok: bool, targets: seq<Container>)
      ensures ok <==> Consistent(plan)
      ensures ok ==> targets == Shaped(plan)
    {
      targets := [];
      var seen: set<string> := {};
      for i := 0 to |plan|
        invariant targets == Shaped(plan[..i]) && seen == Ids(targets) && DistinctIds(targets)
        invariant forall sh :: sh in plan[..i] ==> sh.target != []
      {
        var sh := plan[i];
        if |sh.target| == 0 {
          return false, [];
        }
        ghost var before := targets;
        for j := 0 to |sh.target|
          invariant targets == before + sh.target[..j] && seen == Ids(targets) && DistinctIds(targets)
        {
          var c := sh.target[j];
          if c.id in seen {
            ShapedTwice(plan, i, j);
            return false, [];
          }
          seen := seen + {c.id};
          IdsSnoc(targets, c);
          targets := targets + [c];
          assert targets == before + sh.target[..j + 1];
        }
        assert plan[..i + 1] == plan[..i] + [sh];
        assert (plan[..i] + [sh])[..i] == plan[..i];
        assert sh.target[..|sh.target|] == sh.target;
      }
      assert plan[..|plan|] == plan;
      ok := true;
    }

    method Apply(plan: seq<Shaping>) returns (ok: bool)
      modifies this, enterer
      ensures Outcome(enterer.world, lastTargets, ok)
           == Applied(enterer.faults, old(enterer.world), old(lastTargets), plan)
    {
      DelAll(lastTargets);
      lastTargets := [];
      if |plan| == 0 {
        return true;
      }
      var consistent, newTargets := PreFlight(plan);
      if !consistent {
        return false;
      }
      lastTargets := newTargets;
      ghost var goal := RunJobs(enterer.faults, enterer.world, Jobs(plan));
      for i := 0 to |plan|
        invariant lastTargets == newTargets
        invariant goal == RunJobs(enterer.faults, enterer.world, Jobs(plan[i..]))
      {
        var sh := plan[i];
        ghost var later := Jobs(plan[i + 1..]);
        JobsStep(plan, i);
        for j := 0 to |sh.target|
          invariant lastTargets == newTargets
          invariant goal == RunJobs(enterer.faults, enterer.world, RuleJobs(sh.target[j..], sh) + later)
        {
          RuleJobsStep(sh.target, j, sh, later);
          var applied := ApplyToContainer(sh.target[j], sh);
          if !applied {
            return false;
          }
        }
        assert RuleJobs(sh.target[|sh.target|..], sh) + later == later;
      }
      ok := true;
    }
  }

  lemma JobsStep(plan: seq<Shaping>, i: nat)
    requires i < |plan|
    ensures Jobs(plan[i..]) == RuleJobs(plan[i].target[0..], plan[i]) + Jobs(plan[i + 1..])
  {
  }

  lemma RuleJobsStep(target: seq<Container>, j: nat, sh: Shaping, later: seq<Job>)
    requires j < |target|
    ensures var now, next := RuleJobs(target[j..], sh) + later, RuleJobs(target[j + 1..], sh) + later;
            now != [] && now[0] == Job(target[j], sh) && now[1..] == next
  {
  }

  lemma {:induction false} ShapedPrefix(plan: seq<Shaping>, i: nat)
    requires i <= |plan|
    ensures Shaped(plan[..i]) <= Shaped(plan)
    decreases |plan| - i
  {
    if i == |plan| {
      assert plan[..i] == plan;
    } else {
      ShapedPrefix(plan, i + 1);
      assert plan[..i + 1][..i] == plan[..i];
      assert Shaped(plan[..i + 1]) == Shaped(plan[..i]) + plan[i].target;
      PrefixTrans(Shaped(plan[..i]), plan[i].target, Shaped(plan));
    }
  }

  lemma PrefixTrans(a: seq<Container>, b: seq<Container>, c: seq<Container>)
    requires a + b <= c
    ensures a <= c
  {
  }

  /** A container met again makes the plan inconsistent. */
  lemma ShapedTwice(plan: seq<Shaping>, i: nat, j: nat)
    requires i < |plan| && j < |plan[i].target|
    requires plan[i].target[j].id in Ids(Shaped(plan[..i]) + plan[i].target[..j])
    ensures !Consistent(plan)
  {
    var before := Shaped(plan[..i]) + plan[i].target[..j];
    var d :| d in before && d.id == plan[i].target[j].id;
    var k :| 0 <= k < |before| && before[k] == d;
    ShapedPrefix(plan, i + 1);
    assert plan[..i + 1][..i] == plan[..i];
    var cs := Shaped(plan);
    assert cs[k] == before[k] && cs[|before|] == plan[i].target[j];
  }
}
