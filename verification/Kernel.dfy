/**
 * The kernel as disruptoor sees it: one network namespace per PID, reached by commands that may fail
 * (internal/netns/netns.go, internal/runner/runner.go).
 */
module Kernel {
  import opened Wrappers
  import opened Discovery

  datatype Rule = Drop(protocol: Protocol, dst: Addr, dport: nat, comment: string)

  /** An entry of the OUTPUT chain: somebody else's rule, or the jump into the DISRUPTOOR chain. */
  datatype OutEntry = Foreign(rule: string) | Jump

  /** The root qdisc of eth0. `under` holds the netem qdisc at 1:1 below a tbf root. */
  datatype Qdisc = Tbf(args: seq<string>, under: Option<seq<string>>) | Netem(args: seq<string>)

  /**
   * One network namespace. The last three fields are history, not kernel state:
   * `orphan`: the chain holds rules that no service instance keeps track of;
   * `leaked`: the root qdisc outlived a delete, or the service instance that knew about it;
   * `misread`: `iptables -C` once reported an existing jump as absent.
   */
  datatype Net = Net(
    chain: Option<seq<Rule>>,
    output: seq<OutEntry>,
    root: Option<Qdisc>,
    orphan: bool,
    leaked: bool,
    misread: bool)

  datatype Command =
    | NewChain
    | FlushChain
    | CheckJump
    | AppendJump
    | AppendRule(rule: Rule)
    | DelRoot
    | AddRootTbf(args: seq<string>)
    | AddChildNetem(args: seq<string>)
    | AddRootNetem(args: seq<string>)
    | KillSockets(dst: Addr, dport: nat)
    | DeleteConntrack(dst: Addr, protocol: Protocol, dport: nat)

  datatype Call = Call(pid: int, cmd: Command)

  datatype Failure = Exit(code: int) | Other

  datatype Answer = Ok | Failed(failure: Failure)

  /** runner.ExitCode */
  function ExitCode(a: Answer): int {
    match a
    case Ok => 0
    case Failed(Exit(code)) => code
    case Failed(Other) => -1
  }

  /** What befalls a command: nothing, or a failure that may or may not strike after the command took effect. */
  datatype Fault = Obey | Break(failure: Failure, took: bool)

  /** An arbitrary failure pattern: the fault that strikes the n-th command. */
  type Faults = nat -> Fault

  function Rules(n: Net): seq<Rule> {
    if n.chain.Some? then n.chain.value else []
  }

  /** What a working kernel does with a command. */
  datatype Verdict = Accept(net: Net) | Refuse(code: int)

  function Effect(n: Net, cmd: Command): Verdict {
    match cmd
    case NewChain => if n.chain.None? then Accept(n.(chain := Some([]))) else Refuse(1)
    case FlushChain => if n.chain.Some? then Accept(n.(chain := Some([]))) else Refuse(1)
    case CheckJump => if Jump in n.output then Accept(n) else Refuse(1)
    case AppendJump => if n.chain.Some? then Accept(n.(output := n.output + [Jump])) else Refuse(2)
    case AppendRule(r) => if n.chain.Some? then Accept(n.(chain := Some(n.chain.value + [r]))) else Refuse(1)
    case DelRoot => if n.root.Some? then Accept(n.(root := None)) else Refuse(2)
    case AddRootTbf(args) => if n.root.None? then Accept(n.(root := Some(Tbf(args, None)))) else Refuse(2)
    case AddRootNetem(args) => if n.root.None? then Accept(n.(root := Some(Netem(args)))) else Refuse(2)
    case AddChildNetem(args) =>
      if n.root.Some? && n.root.value.Tbf? && n.root.value.under.None? then
        Accept(n.(root := Some(n.root.value.(under := Some(args)))))
      else
        Refuse(2)
    case KillSockets(_, _) => Accept(n)
    case DeleteConntrack(_, _, _) => Accept(n)
  }

  function Strike(n: Net, cmd: Command, fault: Fault): (Net, Answer) {
    match fault
    case Obey =>
      (match Effect(n, cmd)
       case Accept(m) => (m, Ok)
       case Refuse(code) => (n, Failed(Exit(code))))
    case Break(failure, took) =>
      (if took && Effect(n, cmd).Accept? then Effect(n, cmd).net else n, Failed(failure))
  }

  /** A cleanup command failed and what it should have removed is still there. */
  predicate LeftBehind(cmd: Command, after: Net, a: Answer) {
    || (cmd == FlushChain && a.Failed? && Rules(after) != [])
    || (cmd == DelRoot && a.Failed? && after.root.Some?)
  }

  /** `-F` exits 1 only when there is no chain, and `-C` exits only when there is no jump: broken by this answer. */
  predicate Lies(before: Net, cmd: Command, a: Answer) {
    || (cmd == FlushChain && a == Failed(Exit(1)) && before.chain.Some?)
    || (cmd == CheckJump && a.Failed? && a.failure.Exit? && Jump in before.output)
  }

  predicate IsTc(cmd: Command) {
    cmd.DelRoot? || cmd.AddRootTbf? || cmd.AddChildNetem? || cmd.AddRootNetem?
  }

  predicate IsTearDown(cmd: Command) {
    cmd.KillSockets? || cmd.DeleteConntrack?
  }

  predicate IsIptables(cmd: Command) {
    cmd.NewChain? || cmd.FlushChain? || cmd.CheckJump? || cmd.AppendJump? || cmd.AppendRule?
  }

  /**
   * Brings the history fields up to date: answers that the backends misunderstand, and cleanups that failed.
   */
  function Remember(before: Net, cmd: Command, after: Net, a: Answer): Net {
    if IsIptables(cmd) then
      after.(
      orphan := Rules(after) != [] && (before.orphan || (cmd == FlushChain && Lies(before, cmd, a))),
      misread := before.misread || (cmd == CheckJump && Lies(before, cmd, a)))
    else if IsTc(cmd) then
      after.(leaked := after.root.Some? && (before.leaked || (cmd == DelRoot && a.Failed?)))
    else
      after
  }

  /** A command meeting its fault inside one netns: the netns it leaves, and the answer it gives. */
  function Struck(n: Net, cmd: Command, fault: Fault): (Net, Answer) {
    var (after, a) := Strike(n, cmd, fault);
    (Remember(n, cmd, after, a), a)
  }

  /**
   * One logged command; `quiet`: when it was issued no tracked drop rule stood anywhere;
   * `left`: it was a cleanup that failed, and what it should have removed stayed;
   * `lied`: its exit code broke one of the two rules the iptables backend relies on; `ok`: it was answered as done.
   */
  datatype Entry = Entry(call: Call, quiet: bool, left: bool, lied: bool, ok: bool)

  /** netns.Run accepts positive PIDs only. */
  type Pid = p: int | 0 < p witness 1

  datatype World = World(nets: map<Pid, Net>, clock: nat, log: seq<Entry>)

  /** Where a backend operation leaves the world, and whether it reported success. */
  datatype Done = Done(w: World, ok: bool)

  /** The same for a whole backend, with its record of the containers it has touched. */
  datatype Outcome = Outcome(w: World, last: seq<Container>, ok: bool)

  /** No cleanup logged from position k on left anything behind. */
  ghost predicate NoneLeft(log: seq<Entry>, k: nat) {
    forall i :: k <= i < |log| ==> !log[i].left
  }

  /** From position k on, every exit code meant what the iptables backend takes it to mean. */
  ghost predicate TrueExits(log: seq<Entry>, k: nat) {
    forall i :: k <= i < |log| ==> !log[i].lied
  }

  lemma NoneLeftPart(log: seq<Entry>, longer: seq<Entry>, k: nat)
    requires log <= longer && k <= |log| && NoneLeft(longer, k)
    ensures NoneLeft(log, k) && NoneLeft(longer, |log|)
  {
  }

  /** No chain holds rules, but for those nobody keeps track of. */
  predicate Quiet(nets: map<Pid, Net>) {
    forall p :: p in nets ==> Rules(nets[p]) == [] || nets[p].orphan
  }

  /** enterer.Run: PIDs below 1 are rejected, and no command reaches a netns that is gone. */
  function Issue(faults: Faults, w: World, call: Call): (World, Answer) {
    var quiet := Quiet(w.nets);
    if call.pid <= 0 then
      (w.(log := w.log + [Entry(call, quiet, false, false, false)]), Failed(Other))
    else if call.pid !in w.nets then
      (World(w.nets, w.clock + 1, w.log + [Entry(call, quiet, false, false, false)]),
       if faults(w.clock).Break? then Failed(faults(w.clock).failure) else Failed(Exit(1)))
    else
      var before := w.nets[call.pid];
      var (after, a) := Struck(before, call.cmd, faults(w.clock));
      var entry := Entry(call, quiet, LeftBehind(call.cmd, after, a), Lies(before, call.cmd, a), a.Ok?);
      (World(w.nets[call.pid := after], w.clock + 1, w.log + [entry]), a)
  }

  /**
   * A command reaches one netns only, and is logged whatever becomes of it; under a PID below 1 none is run at all.
   */
  lemma IssueEffect(faults: Faults, w: World, call: Call, p: Pid)
    requires p in w.nets
    ensures var (w1, a) := Issue(faults, w, call);
            && w1.nets.Keys == w.nets.Keys
            && w.log <= w1.log && |w1.log| == |w.log| + 1
            && w1.log[|w.log|].call == call && w1.log[|w.log|].quiet == Quiet(w.nets)
            && w1.log[|w.log|].ok == a.Ok?
            && (call.pid !in w.nets ==> a.Failed?)
            && (call.pid <= 0 ==> w1.clock == w.clock && a == Failed(Other))
            && (p != call.pid ==> w1.nets[p] == w.nets[p])
            && (p == call.pid ==>
                  && (w1.nets[p], a) == Struck(w.nets[p], call.cmd, faults(w.clock))
                  && w1.log[|w.log|].left == LeftBehind(call.cmd, w1.nets[p], a))
  {
  }

  /** Runs commands inside network namespaces. */
  class Enterer {
    const faults: Faults
    var world: World

    constructor (faults: Faults, world: World)
      ensures this.faults == faults && this.world == world
    {
      this.faults := faults;
      this.world := world;
    }

    method Run(call: Call) returns (a: Answer)
      modifies this
      ensures (world, a) == Issue(faults, old(world), call)
    {
      var result := Issue(faults, world, call);
      world := result.0;
      a := result.1;
    }
  }
}
