/** What requests answer, and what they announce: to the client in the response, to the operator in the event log. */
module Notices {
  import opened Wrappers
  import opened Discovery
  import opened Backend
  import opened Kernel
  import opened Api
  import opened Runs
  import S = State
  import T = ETag
  import I = Iptables
  import Tc
  import C = Cleanup
  import G = Guarantees

  // ---- What is wrong with a body ----

  ghost predicate FlawedPartition(p: S.Partition) {
    || p.name == ""
    || |p.groups| < 2
    || (exists g :: g in p.groups && !g.all && |g.labels| == 0)
    || p.symmetric == Some(false)
    || exists sc :: sc in p.scope && sc !in ["cl_p2p", "el_p2p", "include_control"]
  }

  ghost predicate FlawedShaping(sh: S.Shaping) {
    || sh.name == ""
    || sh.target == None
    || |sh.between| > 0
    || sh.direction !in ["", "egress"]
    || (sh.delay == "" && sh.loss == "" && sh.bandwidth == "")
    || (sh.jitter != "" && sh.delay == "")
    || sh.scope != ["include_control"]
  }

  /** The names of all entries, partitions first. */
  function Names(s: S.State): seq<string> {
    seq(|s.partitions|, i requires 0 <= i < |s.partitions| => s.partitions[i].name)
    + seq(|s.shaping|, i requires 0 <= i < |s.shaping| => s.shaping[i].name)
  }

  ghost predicate Repeats(names: seq<string>) {
    exists i, j :: 0 <= i < j < |names| && names[i] == names[j]
  }

  lemma PartitionFlaws(p: S.Partition)
    ensures S.ValidPartition(p) <==> !FlawedPartition(p)
  {
    forall g: S.Selector
      ensures S.EmptySelector(g) <==> !g.all && |g.labels| == 0
    {
      assert g.labels == map[] <==> |g.labels| == 0;
    }
  }

  lemma ShapingFlaws(sh: S.Shaping)
    ensures S.ValidShaping(sh) <==> !FlawedShaping(sh)
  {
  }

  lemma NamesApart(s: S.State)
    ensures Repeats(Names(s))
       <==> || (exists i, j :: 0 <= i < j < |s.partitions| && s.partitions[i].name == s.partitions[j].name)
            || (exists i, j :: 0 <= i < j < |s.shaping| && s.shaping[i].name == s.shaping[j].name)
            || (exists p, sh :: p in s.partitions && sh in s.shaping && p.name == sh.name)
  {
    var names, n := Names(s), |s.partitions|;
    if i, j :| 0 <= i < j < |s.shaping| && s.shaping[i].name == s.shaping[j].name {
      assert names[n + i] == names[n + j];
    }
    if i, j :| 0 <= i < j < n && s.partitions[i].name == s.partitions[j].name {
      assert names[i] == names[j];
    }
    if p, sh :| p in s.partitions && sh in s.shaping && p.name == sh.name {
      var i :| 0 <= i < n && s.partitions[i] == p;
      var j :| 0 <= j < |s.shaping| && s.shaping[j] == sh;
      assert names[i] == names[n + j];
    }
    if i, j :| 0 <= i < j < |names| && names[i] == names[j] {
      RepeatedAt(s, i, j);
    }
  }

  lemma RepeatedAt(s: S.State, i: nat, j: nat)
    requires i < j < |Names(s)| && Names(s)[i] == Names(s)[j]
    ensures || (exists i, j :: 0 <= i < j < |s.partitions| && s.partitions[i].name == s.partitions[j].name)
            || (exists i, j :: 0 <= i < j < |s.shaping| && s.shaping[i].name == s.shaping[j].name)
            || (exists p, sh :: p in s.partitions && sh in s.shaping && p.name == sh.name)
  {
    var n := |s.partitions|;
    if j < n {
      assert s.partitions[i].name == s.partitions[j].name;
    } else if i >= n {
      assert s.shaping[i - n].name == s.shaping[j - n].name;
    } else {
      var p, sh := s.partitions[i], s.shaping[j - n];
      assert p in s.partitions && sh in s.shaping && p.name == sh.name;
    }
  }

  /** A state is invalid exactly when one of its entries is flawed, or two of them share a name. */
  lemma InvalidIff(s: S.State)
    ensures S.Valid(s) <==> && (forall p :: p in s.partitions ==> !FlawedPartition(p))
                            && (forall sh :: sh in s.shaping ==> !FlawedShaping(sh))
                            && !Repeats(Names(s))
  {
    NamesApart(s);
    forall p
      ensures S.ValidPartition(p) <==> !FlawedPartition(p)
    {
      PartitionFlaws(p);
    }
    forall sh
      ensures S.ValidShaping(sh) <==> !FlawedShaping(sh)
    {
      ShapingFlaws(sh);
    }
    hide S.ValidPartition, S.ValidShaping, FlawedPartition, FlawedShaping, Repeats;
  }

  // ---- Where an apply fails ----

  /** Some group query fails or matches nothing, or two groups share a container. */
  ghost predicate Unresolved(docker: Docker, ps: seq<S.Partition>) {
    exists k: nat :: k < |ps| && !Separable(docker, k, ps[k])
  }

  ghost predicate Untargeted(docker: Docker, rules: seq<S.Shaping>) {
    exists k: nat :: k < |rules| && docker.target(k).None?
  }

  /** The stage that an apply reports: resolution first, in the order of the state, then what the kernel refused. */
  lemma StageIff(faults: Faults, s: Sys, desired: S.State, docker: Docker)
    ensures var stage := ApplyLocked(faults, s, desired, docker).1;
            && (stage == Some(Partitions) <==> Unresolved(docker, desired.partitions))
            && (stage == Some(Stage.Shaping) <==>
                  !Unresolved(docker, desired.partitions) && Untargeted(docker, desired.shaping))
            && (stage == Some(ClearPrevious) <==>
                  && !Unresolved(docker, desired.partitions) && !Untargeted(docker, desired.shaping)
                  && !C.AllPass(faults, s.w.clock + C.Ticks(s.tc), s.ipt))
            && (stage == Some(InstallRules) <==>
                  && !Unresolved(docker, desired.partitions) && !Untargeted(docker, desired.shaping)
                  && C.AllPass(faults, s.w.clock + C.Ticks(s.tc), s.ipt)
                  && !InstallRulesLocked(faults, TornDown(faults, ClearLocked(faults, s).0,
                                                          Resolve(docker, desired).value),
                                         Resolve(docker, desired).value).1)
  {
    C.ClearAnswersIff(faults, s);
    UnresolvedIff(docker, desired);
    hide ClearLocked, TornDown, InstallRulesLocked, InstallQdiscsLocked, C.AllPass, Unresolved, Untargeted;
    hide ResolvePartitions, ResolveShaping;
  }

  lemma UnresolvedIff(docker: Docker, s: S.State)
    ensures ResolvePartitions(docker, s.partitions, |s.partitions|).None? <==> Unresolved(docker, s.partitions)
    ensures ResolveShaping(docker, s.shaping, |s.shaping|).None? <==> Untargeted(docker, s.shaping)
  {
    ResolvePartitionsIff(docker, s.partitions, |s.partitions|);
    ResolveShapingIff(docker, s.shaping, |s.shaping|);
    hide Separable, ResolvePartitions, ResolveShaping;
  }

  // ---- One request ----

  /** A PUT announces itself exactly when it gets as far as the kernel, and tells what became of it. */
  lemma PutNotice(faults: Faults, hash: T.Hash, s: Sys, body: Option<S.State>, ifMatch: string, docker: Docker)
    ensures var (s1, response) := PutState(faults, hash, s, body, ifMatch, docker);
            && (response.BadRequest? <==> body.None? || !S.Valid(body.value))
            && (response.Success? ==> s1.events == s.events + [Applied(Http, s1.applied)])
            && (s1 != s && !response.Success? ==>
                  && response.ServerError? && s1.applied == S.EMPTY
                  && ApplyLocked(faults, s, body.value, docker).1.Some?
                  && s1.events == s.events + [ApplyFailed(Http, ApplyLocked(faults, s, body.value, docker).1.value)])
  {
    if body.Some? {
      ApplyLockedRecords(faults, s, body.value, docker);
    }
    hide ApplyLocked, S.Valid, S.Clone, T.Encodable, T.Allows, T.Tag;
  }

  lemma ConfigNotice(faults: Faults, s: Sys, desired: S.State, docker: Docker)
    ensures var s1 := ApplyConfig(faults, s, desired, docker);
            var stage := ApplyLocked(faults, s, desired, docker).1;
            if !S.Valid(desired) then s1 == s
            else if stage.None? then s1.events == s.events + [Applied(Source.Config, s1.applied)]
            else s1.applied == S.EMPTY && s1.events == s.events + [ApplyFailed(Source.Config, stage.value)]
  {
    ApplyLockedRecords(faults, s, desired, docker);
    hide ApplyLocked, S.Valid, S.Clone;
  }

  /** A clear announces itself exactly once: as cleared exactly when it answers success, as failed otherwise. */
  lemma ClearNotice(faults: Faults, s: Sys)
    ensures var (s1, response) := PostClear(faults, s);
            && (response.Healed? || response.ServerError?)
            && s1.applied == S.EMPTY
            && s1.events == s.events + [if response.Healed? then Cleared else ApplyFailed(Http, ClearPrevious)]
            && (response.Healed? <==> C.AllPass(faults, s.w.clock + C.Ticks(s.tc), s.ipt))
  {
    C.ClearAnswersIff(faults, s);
    ClearLockedRecords(faults, s);
    hide ClearLocked, C.AllPass;
  }

  /** The flush of a container fails with an exit code that the backend takes for "no chain". */
  ghost predicate ExitsOne(faults: Faults, clock: nat, ts: seq<Container>, p: Pid) {
    exists i: nat :: i < |ts| && ts[i].pid == p && faults(clock + C.Ticks(ts[..i])) == Break(Exit(1), false)
  }

  /** A clear that did not reach a recorded chain says so, unless the failing flush exited 1. */
  lemma UnreachedClearTold(faults: Faults, s: Sys, p: Pid)
    requires p in Pids(s.ipt) && !C.Reaches(faults, s.w.clock + C.Ticks(s.tc), s.ipt, p)
    requires !ExitsOne(faults, s.w.clock + C.Ticks(s.tc), s.ipt, p)
    ensures var (s1, response) := PostClear(faults, s);
            response.ServerError? && s1.events == s.events + [ApplyFailed(Http, ClearPrevious)]
  {
    ClearNotice(faults, s);
    hide PostClear;
    var clock := s.w.clock + C.Ticks(s.tc);
    var c :| c in s.ipt && c.pid == p;
    var i: nat :| i < |s.ipt| && s.ipt[i] == c;
    assert !C.ReachesAt(faults, clock, s.ipt, p, i);
    assert !C.PassesAt(faults, clock, s.ipt, i);
  }

  // ---- Whole runs ----

  /** The i-th event of the log is what the n-th step of the run emitted. */
  ghost predicate EmittedBy(faults: Faults, hash: T.Hash, start: Sys, steps: seq<Step>, i: nat, n: nat) {
    var log := Run(faults, hash, start, steps).events;
    && 0 < n <= |steps| && i < |log|
    && Run(faults, hash, start, steps[..n - 1]).events == log[..i]
    && Run(faults, hash, start, steps[..n]).events == log[..i + 1]
  }

  /** What a step adds to the log: nothing, or one event; a restart begins a new log. */
  lemma NextAppends(faults: Faults, hash: T.Hash, s: Sys, step: Step)
    ensures var s1 := Next(faults, hash, s, step);
            if step.Restart? then s1.events == []
            else s1.events == s.events || (exists e :: s1.events == s.events + [e])
  {
    hide ApplyLocked, ClearLocked, Recovered, S.Valid, S.Clone, T.Encodable, T.Allows, T.Tag;
    match step
    case Put(body, ifMatch, docker) =>
      PutNotice(faults, hash, s, body, ifMatch, docker);
      if body.Some? {
        ApplyLockedRecords(faults, s, body.value, docker);
      }
    case Config(desired, docker) =>
      ConfigNotice(faults, s, desired, docker);
    case Clear =>
      ClearNotice(faults, s);
    case Restart(_, _) =>
    case Die(_) =>
    case Spawn(_, _) =>
  }

  /** Every event of the log was emitted by a step of the run. */
  lemma {:induction false} EventOrigin(faults: Faults, hash: T.Hash, start: Sys, steps: seq<Step>, i: nat)
    returns (n: nat)
    requires start.events == [] && i < |Run(faults, hash, start, steps).events|
    ensures EmittedBy(faults, hash, start, steps, i, n)
  {
    hide Next;
    var init, last := steps[..|steps| - 1], steps[|steps| - 1];
    var before, log := Run(faults, hash, start, init).events, Run(faults, hash, start, steps).events;
    NextAppends(faults, hash, Run(faults, hash, start, init), last);
    if i < |before| {
      n := EventOrigin(faults, hash, start, init, i);
      assert steps[..n] == init[..n] && steps[..n - 1] == init[..n - 1];
      assert log[..i] == before[..i] && log[..i + 1] == before[..i + 1];
    } else {
      n := |steps|;
      assert steps[..n] == steps && log[..i] == before && log[..i + 1] == log;
    }
  }

  lemma RunPrefix(faults: Faults, hash: T.Hash, start: Sys, steps: seq<Step>, n: nat)
    requires 0 < n <= |steps|
    ensures Run(faults, hash, start, steps[..n])
         == Next(faults, hash, Run(faults, hash, start, steps[..n - 1]), steps[n - 1])
  {
    assert steps[..n][..n - 1] == steps[..n - 1];
  }

  /** The step that adds a `Cleared` event is a clear that answers success. */
  lemma ClearedByClear(faults: Faults, hash: T.Hash, s: Sys, step: Step)
    requires Next(faults, hash, s, step).events == s.events + [Cleared]
    ensures step.Clear? && PostClear(faults, s).1.Healed?
  {
    hide ApplyLocked, ClearLocked, Recovered, S.Valid, S.Clone, T.Encodable, T.Allows, T.Tag;
    match step
    case Put(body, ifMatch, docker) =>
      PutNotice(faults, hash, s, body, ifMatch, docker);
      LastEvent(s.events);
    case Config(desired, docker) =>
      ConfigNotice(faults, s, desired, docker);
      LastEvent(s.events);
    case Clear =>
      ClearNotice(faults, s);
      LastEvent(s.events);
    case Restart(_, _) =>
    case Die(_) =>
    case Spawn(_, _) =>
  }

  lemma LastEvent(events: seq<Event>)
    ensures events + [Cleared] != events
    ensures forall e :: events + [e] == events + [Cleared] ==> e == Cleared
  {
    forall e | events + [e] == events + [Cleared]
      ensures e == Cleared
    {
      assert (events + [e])[|events|] == e;
      assert (events + [Cleared])[|events|] == Cleared;
    }
  }

  /**
   * "Cleared" is never announced in vain: whenever the log of a run says so, it was a clear, and at that moment no
   * tracked drop rule and no tracked qdisc stood in any netns.
   */
  lemma ClearedMeansClean(faults: Faults, hash: T.Hash, start: Sys, steps: seq<Step>, i: nat, p: Pid)
    returns (n: nat)
    requires Fresh(start) && G.AllSteady(steps)
    requires i < |Run(faults, hash, start, steps).events| && Run(faults, hash, start, steps).events[i].Cleared?
    ensures EmittedBy(faults, hash, start, steps, i, n) && steps[n - 1].Clear?
    ensures var nets := Run(faults, hash, start, steps[..n]).w.nets;
            p in nets ==> (Rules(nets[p]) == [] || nets[p].orphan) && (nets[p].root.None? || nets[p].leaked)
  {
    n := EventOrigin(faults, hash, start, steps, i);
    var log, s := Run(faults, hash, start, steps).events, Run(faults, hash, start, steps[..n - 1]);
    assert log[..i + 1] == log[..i] + [Cleared];
    RunPrefix(faults, hash, start, steps, n);
    ClearedByClear(faults, hash, s, steps[n - 1]);
    FreshIsSound(start);
    RunSound(faults, hash, start, steps[..n - 1]);
    hide Run, ClearLocked;
    ClearLockedRecords(faults, s);
    if p in s.w.nets {
      assert Tracked(s, p);
      ClearLockedEffect(faults, s, p);
    }
  }
}
