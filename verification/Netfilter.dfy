/**
 * What every iptables operation does to one netns, whatever fails on the way.
 * The lemmas speak about an arbitrary netns `p` that exists when the operation starts.
 */
module Netfilter {
  import opened Wrappers
  import opened Discovery
  import opened Backend
  import opened Kernel
  import opened Iptables
  import opened Compilation

  /** OUTPUT without disruptoor's own jump. */
  ghost function ForeignRules(output: seq<OutEntry>): seq<OutEntry> {
    if output == [] then []
    else
      var init, last := output[..|output| - 1], output[|output| - 1];
      ForeignRules(init) + if last.Jump? then [] else [last]
  }

  ghost function Jumps(output: seq<OutEntry>): nat {
    multiset(output)[Jump]
  }

  lemma JumpAdded(output: seq<OutEntry>)
    ensures ForeignRules(output + [Jump]) == ForeignRules(output)
    ensures Jumps(output + [Jump]) == Jumps(output) + 1
  {
    assert (output + [Jump])[..|output|] == output;
  }

  /**
   * Other people's OUTPUT rules keep their contents and order, and no second jump appears unless `-C` denied the first.
   */
  ghost predicate Tame(a: Net, b: Net) {
    && ForeignRules(b.output) == ForeignRules(a.output)
    && (a.misread ==> b.misread)
    && (b.misread || Jumps(b.output) == Jumps(a.output) || (Jumps(a.output) == 0 && Jumps(b.output) == 1))
  }

  /** An iptables operation touches no qdisc, and is tame. */
  ghost predicate SparesQdiscs(a: Net, b: Net) {
    b.root == a.root && b.leaked == a.leaked && Tame(a, b)
  }

  /** The chain only loses rules, and untracked rules stay untracked. */
  ghost predicate Drained(a: Net, b: Net) {
    Rules(b) == [] || (Rules(b) == Rules(a) && (a.orphan ==> b.orphan))
  }

  /** The chain holds exactly `rules`, OUTPUT jumps into it, and somebody keeps track of it. */
  ghost predicate Loaded(n: Net, rules: seq<Rule>) {
    n.chain == Some(rules) && Jump in n.output && !n.orphan
  }

  /** No rules, but for those nobody keeps track of. */
  ghost predicate Silent(n: Net) {
    Rules(n) == [] || n.orphan
  }

  // ---- One command ----

  lemma FlushStruck(n: Net, fault: Fault)
    ensures var (m, a) := Struck(n, FlushChain, fault);
            && SparesQdiscs(n, m) && Drained(n, m) && m.output == n.output && m.misread == n.misread
            && (a.Ok? ==> m.chain == Some([]) && !m.orphan)
            && (ExitCode(a) == 1 ==> Silent(m))
            && (!LeftBehind(FlushChain, m, a) ==> Rules(m) == [] && !m.orphan)
  {
  }

  lemma NewStruck(n: Net, fault: Fault)
    ensures var (m, a) := Struck(n, NewChain, fault);
            && SparesQdiscs(n, m) && Drained(n, m) && m.output == n.output && m.misread == n.misread
            && (!n.orphan ==> !m.orphan)
  {
  }

  /** `-C` changes nothing; its answer tells whether the jump is there, or is recorded as wrong. */
  lemma CheckStruck(n: Net, fault: Fault)
    ensures var (m, a) := Struck(n, CheckJump, fault);
            && SparesQdiscs(n, m) && Drained(n, m) && m.output == n.output && m.chain == n.chain
            && (!n.orphan ==> !m.orphan)
            && (a.Ok? ==> Jump in n.output)
            && (a.Failed? && a.failure.Exit? ==> m.misread || Jump !in n.output)
  {
  }

  lemma JumpStruck(n: Net, fault: Fault)
    ensures var (m, a) := Struck(n, AppendJump, fault);
            && m.root == n.root && m.leaked == n.leaked && m.misread == n.misread && m.chain == n.chain
            && Drained(n, m) && (!n.orphan ==> !m.orphan)
            && ForeignRules(m.output) == ForeignRules(n.output)
            && (Jumps(m.output) == Jumps(n.output) || Jumps(m.output) == Jumps(n.output) + 1)
            && (a.Ok? ==> Jump in m.output)
  {
    hide ForeignRules, Jumps;
    var m := Struck(n, AppendJump, fault).0;
    assert m.output == n.output || m.output == n.output + [Jump];
    JumpAdded(n.output);
  }

  lemma AppendStruck(n: Net, rule: Rule, fault: Fault)
    ensures var (m, a) := Struck(n, AppendRule(rule), fault);
            && SparesQdiscs(n, m)
            && m.output == n.output
            && (!n.orphan ==> !m.orphan)
            && (a.Ok? ==> n.chain.Some? && m.chain == Some(n.chain.value + [rule]))
  {
  }

  // ---- Cleanup ----

  lemma FlushEffect(faults: Faults, w: World, c: Container, p: Pid)
    requires p in w.nets
    ensures var d := Flush(faults, w, c);
            && d.w.nets.Keys == w.nets.Keys && w.log <= d.w.log
            && SparesQdiscs(w.nets[p], d.w.nets[p])
            && Drained(w.nets[p], d.w.nets[p])
            && (p == c.pid && d.ok ==> Silent(d.w.nets[p]))
            && (p != c.pid ==> d.w.nets[p] == w.nets[p])
            && (p == c.pid && NoneLeft(d.w.log, |w.log|) ==> Rules(d.w.nets[p]) == [] && !d.w.nets[p].orphan)
  {
    hide Issue, Struck;
    if c.pid != 0 {
      IssueEffect(faults, w, Call(c.pid, FlushChain), p);
      FlushStruck(w.nets[p], faults(w.clock));
    }
  }

  /** clearTargetsLocked empties every listed chain whose flush worked; success means all of them. */
  lemma {:induction false} ClearTargetsEffect(faults: Faults, w: World, ts: seq<Container>, p: Pid)
    requires p in w.nets
    ensures var d := ClearTargets(faults, w, ts);
            && d.w.nets.Keys == w.nets.Keys && w.log <= d.w.log
            && SparesQdiscs(w.nets[p], d.w.nets[p])
            && Drained(w.nets[p], d.w.nets[p])
            && (p in Pids(ts) && d.ok ==> Silent(d.w.nets[p]))
            && (p !in Pids(ts) ==> d.w.nets[p] == w.nets[p])
            && (p in Pids(ts) && NoneLeft(d.w.log, |w.log|) ==> Rules(d.w.nets[p]) == [] && !d.w.nets[p].orphan)
    decreases ts
  {
    hide Issue, Flush;
    if ts == [] {
    } else {
      FlushEffect(faults, w, ts[0], p);
      var first := Flush(faults, w, ts[0]);
      ClearTargetsEffect(faults, first.w, ts[1..], p);
      var d := ClearTargets(faults, w, ts);
      if NoneLeft(d.w.log, |w.log|) {
        NoneLeftPart(first.w.log, d.w.log, |w.log|);
      }
      PidsCons(ts);
    }
  }

  // ---- Preparing a chain ----

  lemma EnsureJumpEffect(faults: Faults, w: World, pid: int, p: Pid)
    requires p in w.nets
    ensures var d := EnsureJump(faults, w, pid);
            && d.w.nets.Keys == w.nets.Keys && w.log <= d.w.log
            && SparesQdiscs(w.nets[p], d.w.nets[p])
            && Drained(w.nets[p], d.w.nets[p])
            && d.w.nets[p].chain == w.nets[p].chain
            && (!w.nets[p].orphan ==> !d.w.nets[p].orphan)
            && (d.ok ==> pid in w.nets)
            && (p != pid ==> d.w.nets[p] == w.nets[p])
            && (p == pid && d.ok ==> Jump in d.w.nets[p].output)
  {
    hide Issue, Struck, ForeignRules;
    IssueEffect(faults, w, Call(pid, CheckJump), p);
    var (w1, checked) := Issue(faults, w, Call(pid, CheckJump));
    CheckStruck(w.nets[p], faults(w.clock));
    if checked.Failed? && checked.failure.Exit? {
      IssueEffect(faults, w1, Call(pid, AppendJump), p);
      JumpStruck(w1.nets[p], faults(w1.clock));
    }
  }

  /** A successful ensureChain leaves an empty chain with a jump to it; a failed one adds no drop rule. */
  lemma EnsureChainEffect(faults: Faults, w: World, c: Container, p: Pid)
    requires p in w.nets
    ensures var d := EnsureChain(faults, w, c);
            && d.w.nets.Keys == w.nets.Keys && w.log <= d.w.log
            && SparesQdiscs(w.nets[p], d.w.nets[p])
            && Drained(w.nets[p], d.w.nets[p])
            && (d.ok ==> c.pid in w.nets)
            && (p != c.pid ==> d.w.nets[p] == w.nets[p])
            && (p == c.pid && d.ok ==> Loaded(d.w.nets[p], []))
            && (NoneLeft(d.w.log, |w.log|) && !w.nets[p].orphan ==> !d.w.nets[p].orphan)
  {
    hide Issue, Struck, ForeignRules, EnsureJump;
    IssueEffect(faults, w, Call(c.pid, NewChain), p);
    var w1 := Issue(faults, w, Call(c.pid, NewChain)).0;
    NewStruck(w.nets[p], faults(w.clock));
    IssueEffect(faults, w1, Call(c.pid, FlushChain), p);
    var w2 := Issue(faults, w1, Call(c.pid, FlushChain)).0;
    FlushStruck(w1.nets[p], faults(w1.clock));
    EnsureJumpEffect(faults, w2, c.pid, p);
    var d := EnsureChain(faults, w, c);
    if NoneLeft(d.w.log, |w.log|) && w2.log <= d.w.log {
      assert !d.w.log[|w1.log|].left;
    }
  }

  /** `-N` may exit 1, and must leave a chain behind, its own or an old one. */
  ghost predicate Creates(n: Net, fault: Fault) {
    fault.Obey? || (fault.failure == Exit(1) && (fault.took || n.chain.Some?))
  }

  /** `-C` finds the jump, or exits, whatever it found, and then `-A` works. */
  ghost predicate FindsJump(n: Net, check: Fault, add: Fault) {
    if check.Obey? && Jump in n.output then true else (check.Obey? || check.failure.Exit?) && add.Obey?
  }

  /** What `-N` and `-F` leave and answer, under any fault. */
  lemma CreateAnswers(n: Net, fault: Fault)
    ensures var (m, a) := Struck(n, NewChain, fault);
            && m.output == n.output
            && (a.Ok? || ExitCode(a) == 1 <==> fault.Obey? || fault.failure == Exit(1))
            && (m.chain.Some? <==> n.chain.Some? || fault.Obey? || fault.took)
    ensures var (m, a) := Struck(n, FlushChain, fault);
            && m.output == n.output && m.chain.Some? == n.chain.Some?
            && (a.Ok? <==> fault.Obey? && n.chain.Some?)
  {
  }

  lemma EnsureJumpIff(faults: Faults, w: World, pid: int)
    requires pid in w.nets && w.nets[pid].chain.Some?
    ensures EnsureJump(faults, w, pid).ok <==> FindsJump(w.nets[pid], faults(w.clock), faults(w.clock + 1))
  {
  }

  lemma Ticking(faults: Faults, w: World, call: Call)
    requires call.pid in w.nets
    ensures Issue(faults, w, call).0.clock == w.clock + 1
  {
  }

  /** In a netns, ensureChain succeeds exactly if `-N` creates or finds the chain, `-F` works, and the jump is there. */
  lemma EnsureChainIff(faults: Faults, w: World, c: Container)
    requires c.pid in w.nets
    ensures var n, t := w.nets[c.pid], w.clock;
            EnsureChain(faults, w, c).ok
            <==> Creates(n, faults(t)) && faults(t + 1).Obey? && FindsJump(n, faults(t + 2), faults(t + 3))
  {
    hide Issue, Struck, EnsureJump;
    var create, flush := Call(c.pid, NewChain), Call(c.pid, FlushChain);
    Ticking(faults, w, create);
    IssueEffect(faults, w, create, c.pid);
    CreateAnswers(w.nets[c.pid], faults(w.clock));
    var w1 := Issue(faults, w, create).0;
    Ticking(faults, w1, flush);
    IssueEffect(faults, w1, flush, c.pid);
    CreateAnswers(w1.nets[c.pid], faults(w1.clock));
    var w2 := Issue(faults, w1, flush).0;
    if w2.nets[c.pid].chain.Some? {
      EnsureJumpIff(faults, w2, c.pid);
    }
  }

  lemma {:induction false} EnsureAllEffect(faults: Faults, w: World, ts: seq<Container>, p: Pid)
    requires p in w.nets
    ensures var d := EnsureAll(faults, w, ts);
            && d.w.nets.Keys == w.nets.Keys && w.log <= d.w.log
            && SparesQdiscs(w.nets[p], d.w.nets[p])
            && Drained(w.nets[p], d.w.nets[p])
            && (p !in Pids(ts) ==> d.w.nets[p] == w.nets[p])
            && (d.ok && (p in Pids(ts) || Loaded(w.nets[p], [])) ==> Loaded(d.w.nets[p], []))
            && (NoneLeft(d.w.log, |w.log|) && !w.nets[p].orphan ==> !d.w.nets[p].orphan)
    decreases ts
  {
    hide EnsureChain, ForeignRules;
    if ts == [] {
    } else {
      EnsureChainEffect(faults, w, ts[0], p);
      var first := EnsureChain(faults, w, ts[0]);
      EnsureAllEffect(faults, first.w, ts[1..], p);
      var d := EnsureAll(faults, w, ts);
      if NoneLeft(d.w.log, |w.log|) {
        NoneLeftPart(first.w.log, d.w.log, |w.log|);
      }
      PidsCons(ts);
    }
  }

  // ---- Installing rules ----

  ghost predicate AppendsOnly(calls: seq<Call>) {
    forall c :: c in calls ==> c.cmd.AppendRule?
  }

  ghost function CallPids(calls: seq<Call>): set<int> {
    set c | c in calls :: c.pid
  }

  lemma {:induction false} RunAllEffect(faults: Faults, w: World, calls: seq<Call>, p: Pid, rules: seq<Rule>)
    requires p in w.nets && AppendsOnly(calls)
    ensures var d := RunAll(faults, w, calls);
            && d.w.nets.Keys == w.nets.Keys && w.log <= d.w.log
            && SparesQdiscs(w.nets[p], d.w.nets[p])
            && (p !in CallPids(calls) ==> d.w.nets[p] == w.nets[p])
            && (!w.nets[p].orphan ==> !d.w.nets[p].orphan)
            && (d.ok && Loaded(w.nets[p], rules) ==> Loaded(d.w.nets[p], rules + RulesOf(calls, p)))
    decreases calls
  {
    hide Issue, Struck, ForeignRules;
    if calls == [] {
      assert rules + RulesOf(calls, p) == rules;
    } else {
      var call := calls[0];
      assert calls == [call] + calls[1..];
      IssueEffect(faults, w, call, p);
      var w1 := Issue(faults, w, call).0;
      AppendStruck(w.nets[p], call.cmd.rule, faults(w.clock));
      var more := if call.pid == p then rules + [call.cmd.rule] else rules;
      RunAllEffect(faults, w1, calls[1..], p, more);
      assert more + RulesOf(calls[1..], p) == rules + RulesOf(calls, p);
    }
  }

  lemma PlanAppendsOnly(plan: seq<Partition>)
    ensures AppendsOnly(PlanCalls(plan))
    ensures CallPids(PlanCalls(plan)) <= Pids(Members(plan))
  {
    forall call | call in PlanCalls(plan)
      ensures call.cmd.AppendRule? && call.pid in Pids(Members(plan))
    {
      PlanCallsIff(call, plan);
      var part :| part in plan && call in GroupCalls(part, 0);
      GroupCallsIff(call, part, 0);
      var g :| 0 <= g < |part.groups| && Crosses(part, g, call);
      var m :| m in part.groups[g] && m.pid == call.pid;
      MembersIff(plan, m);
    }
  }

  /** Installing partition by partition appends the compiled rules, and touches no netns the plan leaves out. */
  lemma {:induction false} InstallAllEffect(faults: Faults, w: World, plan: seq<Partition>, p: Pid, rules: seq<Rule>)
    requires p in w.nets && AppendsOnly(PlanCalls(plan))
    ensures var d := InstallAll(faults, w, plan);
            && d.w.nets.Keys == w.nets.Keys && w.log <= d.w.log
            && SparesQdiscs(w.nets[p], d.w.nets[p])
            && (p !in CallPids(PlanCalls(plan)) ==> d.w.nets[p] == w.nets[p])
            && (!w.nets[p].orphan ==> !d.w.nets[p].orphan)
            && (d.ok && Loaded(w.nets[p], rules) ==> Loaded(d.w.nets[p], rules + Compiled(plan, p)))
    decreases plan
  {
    hide RunAll, Loaded, SparesQdiscs;
    SparesQdiscsRefl(w.nets[p]);
    if plan == [] {
      assert rules + Compiled(plan, p) == rules;
    } else if plan[0].symmetric {
      var calls := GroupCalls(plan[0], 0);
      assert PlanCalls(plan) == calls + PlanCalls(plan[1..]);
      RulesOfConcat(calls, PlanCalls(plan[1..]), p);
      RunAllEffect(faults, w, calls, p, rules);
      var first := RunAll(faults, w, calls);
      InstallAllEffect(faults, first.w, plan[1..], p, rules + RulesOf(calls, p));
      assert rules + RulesOf(calls, p) + Compiled(plan[1..], p) == rules + Compiled(plan, p);
      SparesQdiscsTrans(w.nets[p], first.w.nets[p], InstallAll(faults, w, plan).w.nets[p]);
    }
  }

  lemma SparesQdiscsRefl(a: Net)
    ensures SparesQdiscs(a, a)
  {
  }

  lemma SparesQdiscsTrans(a: Net, b: Net, c: Net)
    requires SparesQdiscs(a, b) && SparesQdiscs(b, c)
    ensures SparesQdiscs(a, c)
  {
  }

  // ---- The two operations of the backend ----

  /** Every standing drop rule is in the netns of a recorded container, unless nobody keeps track of it. */
  ghost predicate ChainCovered(n: Net, p: Pid, last: seq<Container>) {
    Silent(n) || p in Pids(last)
  }

  /** Clear: a netns that was covered stays covered, and a nil return means it is silent. */
  lemma ClearEffect(faults: Faults, w: World, last: seq<Container>, p: Pid)
    requires p in w.nets
    ensures var r := Cleared(faults, w, last);
            && r.w.nets.Keys == w.nets.Keys && w.log <= r.w.log
            && SparesQdiscs(w.nets[p], r.w.nets[p])
            && Drained(w.nets[p], r.w.nets[p])
            && (ChainCovered(w.nets[p], p, last) ==> ChainCovered(r.w.nets[p], p, r.last))
            && (ChainCovered(w.nets[p], p, last) && r.ok ==> Silent(r.w.nets[p]))
            && (NoneLeft(r.w.log, |w.log|) && ChainCovered(w.nets[p], p, last) && !w.nets[p].orphan ==>
                  Rules(r.w.nets[p]) == [] && !r.w.nets[p].orphan)
            && (p !in Pids(last) ==> r.w.nets[p] == w.nets[p])
            && r.last == if r.ok then [] else last
  {
    hide ClearTargets;
    ClearTargetsEffect(faults, w, last, p);
  }

  /**
   * Apply: a covered netns stays covered whatever fails; success means every target holds exactly the
   * compiled chain, and every other covered netns is silent.
   */
  lemma ApplyEffect(faults: Faults, w: World, last: seq<Container>, plan: seq<Partition>, p: Pid)
    requires p in w.nets && OnePidPerId(Members(plan))
    ensures var r := Applied(faults, w, last, plan);
            && r.w.nets.Keys == w.nets.Keys && w.log <= r.w.log
            && SparesQdiscs(w.nets[p], r.w.nets[p])
            && (ChainCovered(w.nets[p], p, last) ==> ChainCovered(r.w.nets[p], p, r.last))
            && (r.ok ==> r.last == Targets(plan))
            && (r.ok && p in Pids(Targets(plan)) ==> Loaded(r.w.nets[p], Compiled(plan, p)))
            && (r.ok && p !in Pids(Targets(plan)) && ChainCovered(w.nets[p], p, last) ==> Silent(r.w.nets[p]))
            && (NoneLeft(r.w.log, |w.log|) && ChainCovered(w.nets[p], p, last) && !w.nets[p].orphan ==>
                  !r.w.nets[p].orphan)
  {
    assert Targets([]) == [];
    hide EnsureAll, InstallAll, Cleared, SparesQdiscs, Loaded, Compiled, NoneLeft, Targets, OnePidPerId, Members;
    hide Drained, PlanCalls;
    ClearEffect(faults, w, last, p);
    var c := Cleared(faults, w, last);
    var r := Applied(faults, w, last, plan);
    if c.ok && plan != [] {
      var ts := Targets(plan);
      TargetsCoverMembers(plan);
      PlanAppendsOnly(plan);
      EnsureAllEffect(faults, c.w, ts, p);
      SparesQdiscsTrans(w.nets[p], c.w.nets[p], EnsureAll(faults, c.w, ts).w.nets[p]);
      var e := EnsureAll(faults, c.w, ts);
      if e.ok {
        InstallAllEffect(faults, e.w, plan, p, []);
        SparesQdiscsTrans(w.nets[p], e.w.nets[p], InstallAll(faults, e.w, plan).w.nets[p]);
        assert [] + Compiled(plan, p) == Compiled(plan, p);
      }
      if NoneLeft(r.w.log, |w.log|) {
        NoneLeftPart(c.w.log, r.w.log, |w.log|);
        NoneLeftPart(e.w.log, r.w.log, |c.w.log|);
      }
    }
  }
}
