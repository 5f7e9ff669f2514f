/**
 * The order of one apply as the kernel sees it: clear, then tear sessions down, then install what they are blocked by.
 */
module Pipeline {
  import opened Wrappers
  import opened Discovery
  import opened Backend
  import opened Kernel
  import opened Api
  import opened Runs
  import opened Agreement
  import S = State
  import T = ETag
  import Iptables
  import Tc
  import Conntrack
  import N = Netfilter
  import P = Progress
  import G = Guarantees

  // ---- Teardown can escape ----

  /** Whatever was torn down on the way, no tracked drop rule stood anywhere at that moment. */
  ghost predicate Escapes(a: World, b: World) {
    && a.log <= b.log
    && forall i :: |a.log| <= i < |b.log| && IsTearDown(b.log[i].call.cmd) ==> b.log[i].quiet
  }

  lemma EscapesTrans(a: World, b: World, c: World)
    requires Escapes(a, b) && Escapes(b, c)
    ensures Escapes(a, c)
  {
    assert forall i :: 0 <= i < |b.log| ==> b.log[i] == c.log[i];
  }

  lemma ProceedsEscapes(a: World, b: World, adding: bool)
    requires P.Proceeds(a, b, adding)
    ensures Escapes(a, b)
  {
  }

  lemma ClearEscapes(faults: Faults, s: Sys)
    ensures Escapes(s.w, ClearLocked(faults, s).0.w)
  {
    ClearLockedRecords(faults, s);
    hide ClearLocked;
    ProceedsEscapes(s.w, ClearLocked(faults, s).0.w, false);
  }

  /** A clear that reports success silences every netns, so what follows it can escape. */
  lemma TornDownEscapes(faults: Faults, s: Sys, plan: Plan)
    requires Sound(s) && ClearLocked(faults, s).1
    ensures var s1 := ClearLocked(faults, s).0; Escapes(s1.w, TornDown(faults, s1, plan).w)
  {
    hide ClearLocked, TornDown, NetSound;
    var s1 := ClearLocked(faults, s).0;
    ClearLockedRecords(faults, s);
    forall p | p in s1.w.nets
      ensures Rules(s1.w.nets[p]) == [] || s1.w.nets[p].orphan
    {
      SoundTracked(s, p);
      ClearLockedEffect(faults, s, p);
    }
    TornDownEffect(faults, s1, plan);
  }

  lemma SoundTracked(s: Sys, p: Pid)
    requires Sound(s) && p in s.w.nets
    ensures Tracked(s, p)
  {
  }

  lemma ApplyEscapes(faults: Faults, s: Sys, desired: S.State, docker: Docker)
    requires Sound(s)
    ensures Escapes(s.w, ApplyLocked(faults, s, desired, docker).0.w)
  {
    hide Sound, ClearLocked, TornDown, Iptables.Applied, Tc.Applied, P.Proceeds, Escapes;
    ClearEscapes(faults, s);
    if Resolve(docker, desired).Some? && ClearLocked(faults, s).1 {
      var plan := Resolve(docker, desired).value;
      var s1 := ClearLocked(faults, s).0;
      TornDownEscapes(faults, s, plan);
      var t := TornDown(faults, s1, plan);
      EscapesTrans(s.w, s1.w, t.w);
      var s2 := InstallRulesLocked(faults, t, plan).0;
      P.IptablesExtends(faults, t.w, t.ipt, plan.partitions);
      ProceedsEscapes(t.w, s2.w, true);
      EscapesTrans(s.w, t.w, s2.w);
      RollbackEscapes(faults, s.w, s2);
      var s3 := InstallQdiscsLocked(faults, s2, plan).0;
      P.TcExtends(faults, s2.w, s2.tc, plan.shaping);
      ProceedsEscapes(s2.w, s3.w, false);
      EscapesTrans(s.w, s2.w, s3.w);
      RollbackEscapes(faults, s.w, s3);
    }
  }

  lemma RollbackEscapes(faults: Faults, w: World, from: Sys)
    requires Escapes(w, from.w)
    ensures Escapes(w, ClearLocked(faults, from).0.w)
  {
    hide ClearLocked, Escapes;
    ClearEscapes(faults, from);
    EscapesTrans(w, from.w, ClearLocked(faults, from).0.w);
  }

  lemma NextEscapes(faults: Faults, hash: T.Hash, s: Sys, step: Step)
    requires Sound(s)
    ensures Escapes(s.w, Next(faults, hash, s, step).w)
  {
    hide Sound, ApplyLocked, Recovered, ClearLocked, P.Proceeds, S.Valid, S.Clone, T.Allows, T.Tag, T.Encodable;
    match step
    case Put(body, ifMatch, docker) =>
      if body.Some? {
        ApplyEscapes(faults, s, body.value, docker);
      }
    case Config(desired, docker) =>
      ApplyEscapes(faults, s, desired, docker);
    case Clear =>
      ClearEscapes(faults, s);
    case Restart(chains, qdiscs) =>
      G.RecoveredExtends(faults, s.w, chains, qdiscs);
      ProceedsEscapes(s.w, Recovered(faults, s.w, chains, qdiscs), false);
    case Die(_) =>
    case Spawn(_, _) =>
  }

  lemma {:induction false} RunEscapes(faults: Faults, hash: T.Hash, s: Sys, steps: seq<Step>)
    requires Sound(s) && G.AllSteady(steps)
    ensures Escapes(s.w, Run(faults, hash, s, steps).w)
  {
    hide Sound, Next, Steady;
    if steps == [] {
    } else {
      var init, last := steps[..|steps| - 1], steps[|steps| - 1];
      var before := Run(faults, hash, s, init);
      RunSound(faults, hash, s, init);
      RunEscapes(faults, hash, s, init);
      NextEscapes(faults, hash, before, last);
      EscapesTrans(s.w, before.w, Run(faults, hash, s, steps).w);
    }
  }

  /**
   * Whenever a session is torn down, in any run with any failures, no tracked drop rule stands in any netns:
   * the FIN and RST packets that the teardown provokes are not dropped.
   */
  lemma TeardownEscapes(faults: Faults, hash: T.Hash, start: Sys, steps: seq<Step>)
    requires Fresh(start) && G.AllSteady(steps)
    ensures var log := Run(faults, hash, start, steps).w.log;
            forall i :: |start.w.log| <= i < |log| && IsTearDown(log[i].call.cmd) ==> log[i].quiet
  {
    FreshIsSound(start);
    RunEscapes(faults, hash, start, steps);
    hide Run;
  }

  // ---- What is torn down is what is then blocked ----

  function Calls(log: seq<Entry>): seq<Call> {
    seq(|log|, i requires 0 <= i < |log| => log[i].call)
  }

  /** The commands issued on the way from a to b. */
  ghost function Issued(a: World, b: World): seq<Call>
    requires a.log <= b.log
  {
    Calls(b.log[|a.log|..])
  }

  lemma IssuedTrans(a: World, b: World, c: World)
    requires a.log <= b.log <= c.log
    ensures Issued(a, c) == Issued(a, b) + Issued(b, c)
  {
    assert c.log[|a.log|..] == b.log[|a.log|..] + c.log[|b.log|..];
  }

  lemma IssuedLogged(a: World, b: World, calls: seq<Call>)
    requires Conntrack.Logged(a, b, calls)
    ensures Issued(a, b) == calls
  {
  }

  ghost predicate NoTearDown(calls: seq<Call>) {
    forall c :: c in calls ==> !IsTearDown(c.cmd)
  }

  ghost predicate NoAppend(calls: seq<Call>) {
    forall c :: c in calls ==> !c.cmd.AppendRule?
  }

  lemma IssuedMute(a: World, b: World)
    requires P.Proceeds(a, b, false)
    ensures NoTearDown(Issued(a, b)) && NoAppend(Issued(a, b))
  {
    forall i | 0 <= i < |Issued(a, b)|
      ensures !IsTearDown(Issued(a, b)[i].cmd) && !Issued(a, b)[i].cmd.AppendRule?
    {
      assert Issued(a, b)[i] == b.log[|a.log| + i].call;
    }
  }

  lemma {:induction false} NothingTornDown(calls: seq<Call>)
    requires NoTearDown(calls)
    ensures Deleted(calls) == [] && Killed(calls) == []
  {
    if calls == [] {
    } else {
      assert calls[0] in calls;
      NothingTornDown(calls[1..]);
    }
  }

  lemma {:induction false} NothingBlocked(calls: seq<Call>)
    requires NoAppend(calls)
    ensures Blocked(calls) == []
  {
    if calls == [] {
    } else {
      assert calls[0] in calls;
      NothingBlocked(calls[1..]);
    }
  }

  /** An iptables Apply that succeeds issues the compiled commands after some that add no rule. */
  lemma InstallIssued(faults: Faults, w: World, last: seq<Container>, plan: seq<Partition>) returns (before: seq<Call>)
    requires Iptables.Applied(faults, w, last, plan).ok
    ensures var w1 := Iptables.Applied(faults, w, last, plan).w;
            && w.log <= w1.log && Issued(w, w1) == before + Iptables.PlanCalls(plan)
            && NoTearDown(before) && NoAppend(before)
  {
    hide Iptables.ClearTargets, Iptables.EnsureAll, Iptables.InstallAll, Targets;
    P.ClearTargetsExtends(faults, w, last);
    var c := Iptables.ClearTargets(faults, w, last).w;
    if plan == [] {
      IssuedMute(w, c);
      before := Issued(w, c);
    } else {
      P.EnsureAllExtends(faults, c, Targets(plan));
      var e := Iptables.EnsureAll(faults, c, Targets(plan)).w;
      P.ProceedsTrans(w, c, e, false);
      IssuedMute(w, e);
      before := Issued(w, e);
      var i := Iptables.InstallAll(faults, e, plan).w;
      InstallAllIsRunAll(faults, e, plan);
      RunAllLogs(faults, e, Iptables.PlanCalls(plan));
      IssuedLogged(e, i, Iptables.PlanCalls(plan));
      IssuedTrans(w, e, i);
    }
  }

  /** What a command list deletes, kills and blocks. */
  ghost predicate Amounts(calls: seq<Call>, deleted: seq<Endpoint>, killed: seq<Endpoint>, blocked: seq<Endpoint>) {
    Deleted(calls) == deleted && Killed(calls) == killed && Blocked(calls) == blocked
  }

  lemma AmountsConcat(xs: seq<Call>, ys: seq<Call>)
    ensures Amounts(xs + ys, Deleted(xs) + Deleted(ys), Killed(xs) + Killed(ys), Blocked(xs) + Blocked(ys))
  {
    BlockedConcat(xs, ys);
    DeletedConcat(xs, ys);
    KilledConcat(xs, ys);
  }

  ghost predicate IsMute(calls: seq<Call>) {
    NoTearDown(calls) && NoAppend(calls)
  }

  lemma MuteAround(mute: seq<Call>, calls: seq<Call>, deleted: seq<Endpoint>, killed: seq<Endpoint>,
                   blocked: seq<Endpoint>)
    requires IsMute(mute) && Amounts(calls, deleted, killed, blocked)
    ensures Amounts(mute + calls, deleted, killed, blocked)
    ensures Amounts(calls + mute, deleted, killed, blocked)
  {
    NothingTornDown(mute);
    NothingBlocked(mute);
    hide Deleted, Killed, Blocked, IsMute;
    AmountsConcat(mute, calls);
    AmountsConcat(calls, mute);
    assert [] + deleted == deleted + [] == deleted;
    assert [] + killed == killed + [] == killed;
    assert [] + blocked == blocked + [] == blocked;
  }

  /** A teardown and the install it agrees with. */
  lemma FlushAndInstall(flush: seq<Call>, install: seq<Call>)
    requires Agree(install, flush) && NoAppend(flush) && NoTearDown(install)
    ensures Amounts(flush, Blocked(install), OverTcp(Blocked(install)), [])
    ensures Amounts(install, [], [], Blocked(install))
  {
    NothingBlocked(flush);
    NothingTornDown(install);
  }

  lemma BothAmounts(xs: seq<Call>, ys: seq<Call>, deleted: seq<Endpoint>, killed: seq<Endpoint>, blocked: seq<Endpoint>)
    requires Amounts(xs, deleted, killed, []) && Amounts(ys, [], [], blocked)
    ensures Amounts(xs + ys, deleted, killed, blocked)
  {
    hide Deleted, Killed, Blocked;
    AmountsConcat(xs, ys);
    assert deleted + [] == deleted && killed + [] == killed && [] + blocked == blocked;
  }

  /** Mute commands, the teardown, mute commands, the install, mute commands: what agrees is what counts. */
  lemma SegmentsAgree(a: seq<Call>, flush: seq<Call>, m: seq<Call>, install: seq<Call>, z: seq<Call>)
    requires Agree(install, flush)
    requires NoTearDown(a) && NoAppend(a) && NoTearDown(m) && NoAppend(m) && NoTearDown(z) && NoAppend(z)
    requires NoAppend(flush) && NoTearDown(install)
    ensures var calls := (a + flush) + (m + install) + z;
            Amounts(calls, Blocked(install), OverTcp(Blocked(install)), Blocked(install))
  {
    var blocked, killed := Blocked(install), OverTcp(Blocked(install));
    FlushAndInstall(flush, install);
    hide *;
    assert IsMute(a) && IsMute(m) && IsMute(z) by {
      MuteParts(a);
      MuteParts(m);
      MuteParts(z);
    }
    MuteAround(a, flush, blocked, killed, []);
    MuteAround(m, install, [], [], blocked);
    BothAmounts(a + flush, m + install, blocked, killed, blocked);
    MuteAround(z, (a + flush) + (m + install), blocked, killed, blocked);
  }

  lemma MuteParts(calls: seq<Call>)
    requires NoTearDown(calls) && NoAppend(calls)
    ensures IsMute(calls)
  {
  }

  /** Every teardown comes before the first rule. */
  ghost predicate TornDownFirst(calls: seq<Call>) {
    exists k :: 0 <= k <= |calls| && NoAppend(calls[..k]) && NoTearDown(calls[k..])
  }

  lemma SegmentsOrdered(a: seq<Call>, flush: seq<Call>, m: seq<Call>, install: seq<Call>, z: seq<Call>)
    requires NoAppend(a) && NoAppend(flush) && NoTearDown(m) && NoTearDown(install) && NoTearDown(z)
    ensures TornDownFirst((a + flush) + (m + install) + z)
  {
    var calls, k := (a + flush) + (m + install) + z, |a + flush|;
    assert calls[..k] == a + flush && calls[k..] == (m + install) + z;
  }

  lemma FlushThenInstall(plan: seq<Partition>)
    ensures NoAppend(Conntrack.FlushPlan(plan)) && NoTearDown(Iptables.PlanCalls(plan))
    ensures Agree(Iptables.PlanCalls(plan), Conntrack.FlushPlan(plan))
  {
    Conntrack.FlushPlanTearsDown(plan);
    N.PlanAppendsOnly(plan);
    CompilersAgree(plan);
  }

  ghost predicate Succeeds(faults: Faults, s: Sys, plan: Plan) {
    var (s1, cleared) := ClearLocked(faults, s);
    var (s2, ruled) := InstallRulesLocked(faults, TornDown(faults, s1, plan), plan);
    cleared && ruled && InstallQdiscsLocked(faults, s2, plan).1
  }

  ghost function Final(faults: Faults, s: Sys, plan: Plan): World {
    var t := TornDown(faults, ClearLocked(faults, s).0, plan);
    InstallQdiscsLocked(faults, InstallRulesLocked(faults, t, plan).0, plan).0.w
  }

  /** The commands of a pipeline that succeeds, in five segments. */
  lemma PipelineIssued(faults: Faults, s: Sys, plan: Plan)
    returns (a: seq<Call>, m: seq<Call>, z: seq<Call>)
    requires Succeeds(faults, s, plan)
    ensures s.w.log <= Final(faults, s, plan).log
    ensures Issued(s.w, Final(faults, s, plan))
         == (a + Conntrack.FlushPlan(plan.partitions)) + (m + Iptables.PlanCalls(plan.partitions)) + z
    ensures NoTearDown(a) && NoAppend(a) && NoTearDown(m) && NoAppend(m) && NoTearDown(z) && NoAppend(z)
  {
    hide ClearLocked, Iptables.Applied, Tc.Applied, P.Extends, NoTearDown, NoAppend, Issued;
    var s1 := ClearLocked(faults, s).0;
    ClearLockedRecords(faults, s);
    PrefixOf(s.w, s1.w, false);
    IssuedMute(s.w, s1.w);
    a := Issued(s.w, s1.w);
    var t := TornDown(faults, s1, plan);
    Conntrack.FlushPlanTearsDown(plan.partitions);
    Conntrack.RunEachEffect(faults, s1.w, Conntrack.FlushPlan(plan.partitions));
    IssuedLogged(s1.w, t.w, Conntrack.FlushPlan(plan.partitions));
    IssuedTrans(s.w, s1.w, t.w);
    var s2 := InstallRulesLocked(faults, t, plan).0;
    m := InstallIssued(faults, t.w, t.ipt, plan.partitions);
    IssuedTrans(s.w, t.w, s2.w);
    var s3 := InstallQdiscsLocked(faults, s2, plan).0;
    P.TcExtends(faults, s2.w, s2.tc, plan.shaping);
    PrefixOf(s2.w, s3.w, false);
    IssuedMute(s2.w, s3.w);
    z := Issued(s2.w, s3.w);
    IssuedTrans(s.w, s2.w, s3.w);
  }

  lemma PrefixOf(a: World, b: World, adding: bool)
    requires P.Proceeds(a, b, adding)
    ensures a.log <= b.log
  {
  }

  lemma SuccessIsFinal(faults: Faults, s: Sys, desired: S.State, docker: Docker)
    requires ApplyLocked(faults, s, desired, docker).1.None?
    ensures Resolve(docker, desired).Some?
    ensures Succeeds(faults, s, Resolve(docker, desired).value)
    ensures ApplyLocked(faults, s, desired, docker).0.w == Final(faults, s, Resolve(docker, desired).value)
  {
    hide ClearLocked, TornDown, InstallRulesLocked, InstallQdiscsLocked;
  }

  /**
   * The commands of a successful apply: conntrack deletes exactly the endpoints that are then blocked, in the
   * same order and multiplicity, `ss -K` is asked for the TCP ones among them, and every teardown comes before
   * the first rule.
   */
  lemma TeardownMatchesInstall(faults: Faults, s: Sys, desired: S.State, docker: Docker)
    ensures var (s1, stage) := ApplyLocked(faults, s, desired, docker);
            stage.None? ==>
              && s.w.log <= s1.w.log && Resolve(docker, desired).Some?
              && var calls := Issued(s.w, s1.w);
                 && Deleted(calls) == Blocked(calls)
                 && Killed(calls) == OverTcp(Blocked(calls))
                 && Blocked(calls) == Blocked(Iptables.PlanCalls(Resolve(docker, desired).value.partitions))
                 && TornDownFirst(calls)
  {
    if ApplyLocked(faults, s, desired, docker).1.None? {
      SuccessIsFinal(faults, s, desired, docker);
      hide *;
      var plan := Resolve(docker, desired).value;
      var a, m, z := PipelineIssued(faults, s, plan);
      var flush, install := Conntrack.FlushPlan(plan.partitions), Iptables.PlanCalls(plan.partitions);
      FlushThenInstall(plan.partitions);
      SegmentsAgree(a, flush, m, install, z);
      SegmentsOrdered(a, flush, m, install, z);
      AmountsOf((a + flush) + (m + install) + z, Blocked(install));
    }
  }

  lemma AmountsOf(calls: seq<Call>, blocked: seq<Endpoint>)
    requires Amounts(calls, blocked, OverTcp(blocked), blocked)
    ensures Deleted(calls) == blocked && Killed(calls) == OverTcp(blocked) && Blocked(calls) == blocked
  {
  }
}
