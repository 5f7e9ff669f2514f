/** Reconciliation of desired state against the kernel (internal/api/api.go). */
module Api {
  import opened Wrappers
  import opened Discovery
  import opened Kernel
  import B = Backend
  import S = State
  import T = ETag
  import Iptables
  import Tc
  import Conntrack
  import EventLog

  // ---- Resolution ----

  datatype Plan = Plan(partitions: seq<B.Partition>, shaping: seq<B.Shaping>)

  /** The first k partitions, resolved; None when a query fails, groups overlap, or a group is empty. */
  ghost function ResolvePartitions(docker: Docker, ps: seq<S.Partition>, k: nat): Option<seq<B.Partition>>
    requires k <= |ps|
  {
    if k == 0 then Some([])
    else
      var init := ResolvePartitions(docker, ps, k - 1);
      var p := ps[k - 1];
      var groups := Grouped(docker, k - 1, |p.groups|);
      if init.None? || groups.None? || [] in groups.value then None
      else Some(init.value + [B.Partition(p.name, groups.value, S.EffectiveScope(p), S.IsSymmetric(p))])
  }

  /** The first k shaping rules, resolved; None when a query fails. */
  ghost function ResolveShaping(docker: Docker, rules: seq<S.Shaping>, k: nat): Option<seq<B.Shaping>>
    requires k <= |rules|
  {
    if k == 0 then Some([])
    else
      var init := ResolveShaping(docker, rules, k - 1);
      var sh := rules[k - 1];
      var matched := docker.target(k - 1);
      if init.None? || matched.None? then None
      else
        Some(init.value
             + [B.Shaping(sh.name, matched.value, sh.direction, sh.delay, sh.jitter, sh.loss, sh.bandwidth)])
  }

  ghost function Resolve(docker: Docker, s: S.State): Option<Plan> {
    var ps := ResolvePartitions(docker, s.partitions, |s.partitions|);
    var rules := ResolveShaping(docker, s.shaping, |s.shaping|);
    if ps.None? || rules.None? then None else Some(Plan(ps.value, rules.value))
  }

  /** Every group of partition k is answered and matches something, and no container lies in two of them. */
  ghost predicate Separable(docker: Docker, k: nat, p: S.Partition) {
    var n := |p.groups|;
    Answered(docker, k, n) && Disjoint(Groups(docker, k, n)) && [] !in Groups(docker, k, n)
  }

  lemma {:induction false} ResolvePartitionsIff(docker: Docker, ps: seq<S.Partition>, k: nat)
    requires k <= |ps|
    ensures var r := ResolvePartitions(docker, ps, k);
            && (r.Some? <==> forall i: nat :: i < k ==> Separable(docker, i, ps[i]))
            && (r.Some? ==> |r.value| == k && forall i: nat :: i < k ==>
                  && r.value[i].name == ps[i].name
                  && |r.value[i].groups| == |ps[i].groups|
                  && (forall g: nat :: g < |ps[i].groups| ==> Some(r.value[i].groups[g]) == docker.group(i, g))
                  && r.value[i].scope == S.EffectiveScope(ps[i])
                  && r.value[i].symmetric == S.IsSymmetric(ps[i]))
  {
    hide Disjoint, S.EffectiveScope, S.IsSymmetric;
    if k == 0 {
    } else {
      ResolvePartitionsIff(docker, ps, k - 1);
    }
  }

  lemma {:induction false} ResolveShapingIff(docker: Docker, rules: seq<S.Shaping>, k: nat)
    requires k <= |rules|
    ensures var r := ResolveShaping(docker, rules, k);
            && (r.Some? <==> forall i: nat :: i < k ==> docker.target(i).Some?)
            && (r.Some? ==> |r.value| == k && forall i: nat :: i < k ==>
                  && Some(r.value[i].target) == docker.target(i)
                  && (r.value[i].name, r.value[i].direction) == (rules[i].name, rules[i].direction)
                  && (r.value[i].delay, r.value[i].jitter) == (rules[i].delay, rules[i].jitter)
                  && (r.value[i].loss, r.value[i].bandwidth) == (rules[i].loss, rules[i].bandwidth))
  {
    if k == 0 {
    } else {
      ResolveShapingIff(docker, rules, k - 1);
    }
  }

  /** A state resolves exactly when all its partitions are separable and all its targets are answered. */
  lemma ResolveIff(docker: Docker, s: S.State)
    ensures Resolve(docker, s).Some? <==>
              && (forall i: nat :: i < |s.partitions| ==> Separable(docker, i, s.partitions[i]))
              && forall i: nat :: i < |s.shaping| ==> docker.target(i).Some?
  {
    ResolvePartitionsIff(docker, s.partitions, |s.partitions|);
    ResolveShapingIff(docker, s.shaping, |s.shaping|);
  }

  // ---- The system ----

  /** Where a request failed. */
  datatype Stage = Partitions | Shaping | ClearPrevious | InstallRules | InstallQdiscs

  datatype Source = Http | Config

  datatype Event =
    | Applied(source: Source, state: S.State)
    | Cleared
    | ApplyFailed(source: Source, stage: Stage)

  datatype Response =
    | Success(etag: string, state: S.State)
    | Healed
    | BadRequest
    | PreconditionFailed(etag: string)
    | ServerError

  /**
   * The service and the kernel under it. `docker` is history: the answers that the applied state was resolved with.
   * `events` is what OnEvent received since the process started.
   */
  datatype Sys = Sys(
    w: World,
    ipt: seq<Container>,
    tc: seq<Container>,
    applied: S.State,
    docker: Docker,
    events: seq<Event>)

  ghost function ClearLocked(faults: Faults, s: Sys): (Sys, bool) {
    var t := Tc.Cleared(faults, s.w, s.tc);
    var i := Iptables.Cleared(faults, t.w, s.ipt);
    (s.(w := i.w, tc := t.last, ipt := i.last), i.ok)
  }

  /** The world in which conntrack teardown runs: after a clear that reported success. */
  ghost function TornDown(faults: Faults, s: Sys, plan: Plan): Sys {
    s.(w := Conntrack.RunEach(faults, s.w, Conntrack.FlushPlan(plan.partitions)))
  }

  ghost function InstallRulesLocked(faults: Faults, s: Sys, plan: Plan): (Sys, bool) {
    var i := Iptables.Applied(faults, s.w, s.ipt, plan.partitions);
    (s.(w := i.w, ipt := i.last), i.ok)
  }

  ghost function InstallQdiscsLocked(faults: Faults, s: Sys, plan: Plan): (Sys, bool) {
    var t := Tc.Applied(faults, s.w, s.tc, plan.shaping);
    (s.(w := t.w, tc := t.last), t.ok)
  }

  /** applyLocked: resolve, clear, tear down, install rules, install qdiscs; any failure clears once more. */
  ghost function ApplyLocked(faults: Faults, s: Sys, desired: S.State, docker: Docker): (Sys, Option<Stage>) {
    if ResolvePartitions(docker, desired.partitions, |desired.partitions|).None? then
      (ClearLocked(faults, s).0, Some(Partitions))
    else if Resolve(docker, desired).None? then
      (ClearLocked(faults, s).0, Some(Shaping))
    else
      var plan := Resolve(docker, desired).value;
      var (s1, cleared) := ClearLocked(faults, s);
      if !cleared then (s1, Some(ClearPrevious))
      else
        var (s2, ruled) := InstallRulesLocked(faults, TornDown(faults, s1, plan), plan);
        if !ruled then (ClearLocked(faults, s2).0, Some(InstallRules))
        else
          var (s3, shaped) := InstallQdiscsLocked(faults, s2, plan);
          if !shaped then (ClearLocked(faults, s3).0, Some(InstallQdiscs)) else (s3, None)
  }

  /** What applyLocked's outcome does to the advertised state and the event log. */
  ghost function Settle(s: Sys, stage: Option<Stage>, source: Source, desired: S.State, docker: Docker): Sys {
    if stage.Some? then s.(applied := S.EMPTY, events := s.events + [ApplyFailed(source, stage.value)])
    else
      s.(applied := S.Clone(desired), docker := docker, events := s.events + [Applied(source, S.Clone(desired))])
  }

  // ---- The handlers ----

  /** PUT /v1/state; `body` is None when it does not decode. */
  ghost function PutState(faults: Faults, hash: T.Hash, s: Sys, body: Option<S.State>, ifMatch: string, docker: Docker)
    : (Sys, Response)
  {
    if body.None? || !S.Valid(body.value) then (s, BadRequest)
    else if !T.Encodable(s.applied) then (s, ServerError)
    else if !T.Allows(ifMatch, T.Tag(hash, s.applied)) then (s, PreconditionFailed(T.Tag(hash, s.applied)))
    else if !T.Encodable(S.Clone(body.value)) then (s, ServerError)
    else
      var (s1, stage) := ApplyLocked(faults, s, body.value, docker);
      (Settle(s1, stage, Http, body.value, docker),
       if stage.Some? then ServerError else Success(T.Tag(hash, S.Clone(body.value)), S.Clone(body.value)))
  }

  /** The --config path: no precondition, no tag. */
  ghost function ApplyConfig(faults: Faults, s: Sys, desired: S.State, docker: Docker): Sys {
    if !S.Valid(desired) then s
    else
      var (s1, stage) := ApplyLocked(faults, s, desired, docker);
      Settle(s1, stage, Config, desired, docker)
  }

  /** POST /v1/state/clear */
  ghost function PostClear(faults: Faults, s: Sys): (Sys, Response) {
    var (s1, ok) := ClearLocked(faults, s);
    if ok then (s1.(applied := S.EMPTY, events := s1.events + [Cleared]), Healed)
    else (s1.(applied := S.EMPTY, events := s1.events + [ApplyFailed(Http, ClearPrevious)]), ServerError)
  }

  class Service {
    const enterer: Enterer
    const hash: T.Hash
    const iptables: Iptables.Service
    const tc: Tc.Service
    const conntrack: Conntrack.Service
    const ring: EventLog.Ring<Event>
    var applied: S.State
    ghost var docker: Docker

    constructor (enterer: Enterer, hash: T.Hash, iptables: Iptables.Service, tc: Tc.Service,
                 conntrack: Conntrack.Service,
                 ring: EventLog.Ring<Event>, ghost docker: Docker)
      requires iptables.enterer == tc.enterer == conntrack.enterer == enterer && ring.Valid()
      ensures this.enterer == enterer && this.hash == hash && this.iptables == iptables
      ensures this.tc == tc && this.ring == ring
      ensures Wired()
      ensures View() == Sys(enterer.world, iptables.lastTargets, tc.lastTargets, S.EMPTY, docker, ring.history)
    {
      this.enterer := enterer;
      this.hash := hash;
      this.iptables := iptables;
      this.tc := tc;
      this.conntrack := conntrack;
      this.ring := ring;
      applied := S.EMPTY;
      this.docker := docker;
    }

    /** All backends run their commands through the same enterer, and the event ring is in order. */
    ghost predicate Wired()
      reads this, ring, ring.buf
    {
      iptables.enterer == enterer && tc.enterer == enterer && conntrack.enterer == enterer && ring.Valid()
    }

    ghost function View(): Sys
      reads this, enterer, iptables, tc, ring
    {
      Sys(enterer.world, iptables.lastTargets, tc.lastTargets, applied, docker, ring.history)
    }

    method Emit(ev: Event)
      requires Wired()
      modifies ring, ring.buf
      ensures Wired() && ring.history == old(ring.history) + [ev]
    {
      ring.Append(ev);
    }

    method GetState() returns (s: S.State)
      ensures s == S.Clone(applied)
    {
      s := S.CloneState(applied);
    }

    method ResolveAllPartitions(ps: seq<S.Partition>, answers: Docker) returns (r: Option<seq<B.Partition>>)
      ensures r == ResolvePartitions(answers, ps, |ps|)
    {
      var out: seq<B.Partition> := [];
      for k := 0 to |ps|
        invariant ResolvePartitions(answers, ps, k) == Some(out)
      {
        var p := ps[k];
        var groups := ResolveGroups(answers, k, |p.groups|);
        if groups.None? {
          UnresolvedPrefix(answers, ps, k + 1);
          return None;
        }
        for i := 0 to |groups.value|
          invariant [] !in groups.value[..i]
        {
          if |groups.value[i]| == 0 {
            assert groups.value[i] in groups.value;
            UnresolvedPrefix(answers, ps, k + 1);
            return None;
          }
        }
        assert groups.value[..|groups.value|] == groups.value;
        out := out + [B.Partition(p.name, groups.value, S.EffectiveScope(p), S.IsSymmetric(p))];
      }
      r := Some(out);
    }

    method ResolveAllShaping(rules: seq<S.Shaping>, answers: Docker) returns (r: Option<seq<B.Shaping>>)
      ensures r == ResolveShaping(answers, rules, |rules|)
    {
      var out: seq<B.Shaping> := [];
      for k := 0 to |rules|
        invariant ResolveShaping(answers, rules, k) == Some(out)
      {
        var sh := rules[k];
        var matched := answers.target(k);
        if matched.None? {
          UnshapedPrefix(answers, rules, k + 1);
          return None;
        }
        out := out + [B.Shaping(sh.name, matched.value, sh.direction, sh.delay, sh.jitter, sh.loss, sh.bandwidth)];
      }
      r := Some(out);
    }

    method ClearBackends() returns (ok: bool)
      requires Wired()
      modifies enterer, iptables, tc
      ensures (View(), ok) == ClearLocked(enterer.faults, old(View()))
    {
      tc.Clear();
      ok := iptables.Clear();
    }

    method ApplyPipeline(desired: S.State, answers: Docker) returns (stage: Option<Stage>)
      requires Wired()
      modifies enterer, iptables, tc
      ensures (View(), stage) == ApplyLocked(enterer.faults, old(View()), desired, answers)
    {
      hide ClearLocked, TornDown, InstallRulesLocked, InstallQdiscsLocked;
      var partitions := ResolveAllPartitions(desired.partitions, answers);
      if partitions.None? {
        var _ := ClearBackends();
        return Some(Partitions);
      }
      var shaping := ResolveAllShaping(desired.shaping, answers);
      if shaping.None? {
        var _ := ClearBackends();
        return Some(Shaping);
      }
      ghost var plan := Plan(partitions.value, shaping.value);
      var cleared := ClearBackends();
      if !cleared {
        return Some(ClearPrevious);
      }
      FlushSessions(plan, partitions.value);
      var ruled := InstallPartitions(plan, partitions.value);
      if !ruled {
        var _ := ClearBackends();
        return Some(InstallRules);
      }
      var shaped := InstallShaping(plan, shaping.value);
      if !shaped {
        var _ := ClearBackends();
        return Some(InstallQdiscs);
      }
      stage := None;
    }

    method FlushSessions(ghost plan: Plan, partitions: seq<B.Partition>)
      requires Wired() && plan.partitions == partitions
      modifies enterer
      ensures View() == TornDown(enterer.faults, old(View()), plan)
    {
      var _ := conntrack.Flush(partitions);
    }

    method InstallPartitions(ghost plan: Plan, partitions: seq<B.Partition>) returns (ok: bool)
      requires Wired() && plan.partitions == partitions
      modifies enterer, iptables
      ensures (View(), ok) == InstallRulesLocked(enterer.faults, old(View()), plan)
    {
      ok := iptables.Apply(partitions);
    }

    method InstallShaping(ghost plan: Plan, shaping: seq<B.Shaping>) returns (ok: bool)
      requires Wired() && plan.shaping == shaping
      modifies enterer, tc
      ensures (View(), ok) == InstallQdiscsLocked(enterer.faults, old(View()), plan)
    {
      ok := tc.Apply(shaping);
    }

    method HandlePutState(body: Option<S.State>, ifMatch: string, answers: Docker) returns (r: Response)
      requires Wired()
      modifies this, enterer, iptables, tc, ring, ring.buf
      ensures Wired()
      ensures (View(), r) == PutState(enterer.faults, hash, old(View()), body, ifMatch, answers)
    {
      hide ApplyLocked;
      if body.None? {
        return BadRequest;
      }
      var valid := S.Validate(body.value);
      if !valid {
        return BadRequest;
      }
      if !T.Encodable(applied) {
        return ServerError;
      }
      var current := T.Tag(hash, applied);
      var allowed := T.IfMatchAllows(ifMatch, current);
      if !allowed {
        return PreconditionFailed(current);
      }
      var next := S.CloneState(body.value);
      if !T.Encodable(next) {
        return ServerError;
      }
      var tag := T.Tag(hash, next);
      var stage := ApplyPipeline(body.value, answers);
      if stage.Some? {
        applied := S.EMPTY;
        Emit(ApplyFailed(Http, stage.value));
        return ServerError;
      }
      applied := next;
      docker := answers;
      Emit(Applied(Http, next));
      r := Success(tag, applied);
    }

    method Apply(desired: S.State, answers: Docker) returns (ok: bool)
      requires Wired()
      modifies this, enterer, iptables, tc, ring, ring.buf
      ensures Wired()
      ensures View() == ApplyConfig(enterer.faults, old(View()), desired, answers)
      ensures ok <==> S.Valid(desired) && ApplyLocked(enterer.faults, old(View()), desired, answers).1.None?
    {
      hide ApplyLocked;
      var valid := S.Validate(desired);
      if !valid {
        return false;
      }
      var stage := ApplyPipeline(desired, answers);
      if stage.Some? {
        applied := S.EMPTY;
        Emit(ApplyFailed(Config, stage.value));
        return false;
      }
      applied := S.CloneState(desired);
      docker := answers;
      Emit(Applied(Config, applied));
      ok := true;
    }

    method HandleClear() returns (r: Response)
      requires Wired()
      modifies this, enterer, iptables, tc, ring, ring.buf
      ensures Wired()
      ensures (View(), r) == PostClear(enterer.faults, old(View()))
    {
      hide ClearLocked;
      var ok := ClearBackends();
      applied := S.EMPTY;
      if !ok {
        Emit(ApplyFailed(Http, ClearPrevious));
        return ServerError;
      }
      Emit(Cleared);
      r := Healed;
    }
  }

  lemma {:induction false} UnresolvedPrefix(docker: Docker, ps: seq<S.Partition>, k: nat)
    requires k <= |ps| && ResolvePartitions(docker, ps, k).None?
    ensures ResolvePartitions(docker, ps, |ps|).None?
    decreases |ps| - k
  {
    if k == |ps| {
    } else {
      UnresolvedPrefix(docker, ps, k + 1);
    }
  }

  lemma {:induction false} UnshapedPrefix(docker: Docker, rules: seq<S.Shaping>, k: nat)
    requires k <= |rules| && ResolveShaping(docker, rules, k).None?
    ensures ResolveShaping(docker, rules, |rules|).None?
    decreases |rules| - k
  {
    if k == |rules| {
    } else {
      UnshapedPrefix(docker, rules, k + 1);
    }
  }
}
