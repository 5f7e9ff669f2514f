/** What is read with GET and written back with PUT, over whole runs of decoded requests. */
module WriteBack {
  import opened Wrappers
  import opened Discovery
  import opened Backend
  import opened Kernel
  import opened Api
  import opened Runs
  import opened Wire
  import S = State
  import T = ETag
  import G = Guarantees
  import L = Liveness
  import M = Matching
  import Scope
  import Tc

  /** Request bodies and config files arrive decoded. */
  ghost predicate Delivered(step: Step) {
    match step
    case Put(body, _, _) => body.Some? ==> FromJson(body.value)
    case Config(desired, _) => FromJson(desired)
    case _ => true
  }

  ghost predicate AllDelivered(steps: seq<Step>) {
    forall step :: step in steps ==> Delivered(step)
  }

  /** A state as the service stores it: a copy that marshals. */
  ghost predicate Stored(s: S.State) {
    S.Clone(s) == s && T.PlainState(s) && T.Encodable(s)
  }

  lemma CloneShapingPlain(sh: S.Shaping)
    requires DecodedShaping(sh)
    ensures PlainShaping(S.CloneShaping(sh))
  {
    var c := S.CloneShaping(sh);
    forall sel | sel in c.between
      ensures T.Plain(sel)
    {
      var i :| 0 <= i < |c.between| && c.between[i] == sel;
      assert sh.between[i] in sh.between;
    }
  }

  lemma ClonePartitionPlain(p: S.Partition)
    requires DecodedSelectors(p.groups)
    ensures forall sel :: sel in S.ClonePartition(p).groups ==> T.Plain(sel)
  {
    var c := S.ClonePartition(p);
    forall sel | sel in c.groups
      ensures T.Plain(sel)
    {
      var i :| 0 <= i < |c.groups| && c.groups[i] == sel;
      assert p.groups[i] in p.groups;
    }
  }

  lemma CloneIsStored(s: S.State)
    requires FromJson(s) && T.Encodable(S.Clone(s))
    ensures Stored(S.Clone(s))
  {
    hide DecodedSelectors, DecodedShaping, S.ClonePartition, S.CloneShaping, T.EncodableShaping, T.EncodableSelectors;
    hide T.Plain;
    var c := S.Clone(s);
    S.CloneIdempotent(s);
    forall p | p in c.partitions
      ensures forall sel :: sel in p.groups ==> T.Plain(sel)
    {
      var i :| 0 <= i < |c.partitions| && c.partitions[i] == p;
      assert s.partitions[i] in s.partitions;
      ClonePartitionPlain(s.partitions[i]);
    }
    forall sh | sh in c.shaping
      ensures PlainShaping(sh)
    {
      var i :| 0 <= i < |c.shaping| && c.shaping[i] == sh;
      assert s.shaping[i] in s.shaping;
      CloneShapingPlain(s.shaping[i]);
    }
  }

  lemma EmptyIsStored()
    ensures Stored(S.EMPTY)
  {
  }

  lemma StoredEncodable(s: S.State)
    requires Stored(s)
    ensures T.Encodable(s)
  {
  }

  lemma NextStored(faults: Faults, hash: T.Hash, s: Sys, step: Step)
    requires Stored(s.applied) && Delivered(step)
    ensures Stored(Next(faults, hash, s, step).applied)
  {
    EmptyIsStored();
    hide Stored, FromJson, ApplyLocked, ClearLocked, Recovered, T.Encodable, S.Clone, S.Valid, T.Allows, T.Tag;
    match step
    case Put(body, _, docker) =>
      if body.Some? {
        ApplyLockedRecords(faults, s, body.value, docker);
        if T.Encodable(S.Clone(body.value)) {
          CloneIsStored(body.value);
        }
      }
    case Config(desired, docker) =>
      ApplyLockedRecords(faults, s, desired, docker);
      if S.Valid(desired) {
        G.DecodedTargetsSomething(desired);
        G.EncodableIff(desired);
        CloneIsStored(desired);
      }
    case Clear =>
      ClearLockedRecords(faults, s);
    case Restart(_, _) =>
    case Die(_) =>
    case Spawn(_, _) =>
  }

  lemma {:induction false} RunStored(faults: Faults, hash: T.Hash, start: Sys, steps: seq<Step>)
    requires Stored(start.applied) && AllDelivered(steps)
    ensures Stored(Run(faults, hash, start, steps).applied)
  {
    hide Stored, Next, Delivered;
    if steps == [] {
    } else {
      var init, last := steps[..|steps| - 1], steps[|steps| - 1];
      RunStored(faults, hash, start, init);
      NextStored(faults, hash, Run(faults, hash, start, init), last);
    }
  }

  /** After any run, the only PUT that is answered with a server error is one whose apply failed. */
  lemma OnlyAppliesFail(faults: Faults, hash: T.Hash, start: Sys, steps: seq<Step>,
                        body: Option<S.State>, ifMatch: string, docker: Docker)
    requires Stored(start.applied) && AllDelivered(steps) && (body.Some? ==> FromJson(body.value))
    ensures var s := Run(faults, hash, start, steps);
            var (s1, response) := PutState(faults, hash, s, body, ifMatch, docker);
            response.ServerError? ==> |s1.events| == |s.events| + 1 && s1.events[|s.events|].ApplyFailed?
  {
    RunStored(faults, hash, start, steps);
    var s := Run(faults, hash, start, steps);
    StoredEncodable(s.applied);
    hide Run, Stored, FromJson, ApplyLocked, T.Encodable, S.Clone, S.Valid, T.Allows, T.Tag;
    if body.Some? {
      ApplyLockedRecords(faults, s, body.value, docker);
      if S.Valid(body.value) {
        G.DecodedTargetsSomething(body.value);
        G.EncodableIff(body.value);
      }
    }
  }

  /**
   * Over whole runs: what GET returns decodes, and written back under its own tag it is not refused as stale; if
   * the write succeeds, the state is as it was exactly when none of its value lists is empty.
   */
  lemma WriteBackIff(faults: Faults, hash: T.Hash, start: Sys, steps: seq<Step>, docker: Docker)
    requires T.Digest(hash) && Stored(start.applied) && AllDelivered(steps)
    ensures var s := Run(faults, hash, start, steps);
            && T.Encodable(s.applied)
            && DecodeState(T.Encode(s.applied)) == Some(Reread(s.applied))
            && var (s1, response) := PutState(faults, hash, s, Some(Reread(s.applied)), T.Tag(hash, s.applied), docker);
               && !response.PreconditionFailed?
               && (response.Success? ==> (s1.applied == s.applied <==> NoNilValues(s.applied)))
  {
    RunStored(faults, hash, start, steps);
    hide Run;
    WriteBackOf(faults, hash, Run(faults, hash, start, steps), docker);
  }

  lemma WriteBackOf(faults: Faults, hash: T.Hash, s: Sys, docker: Docker)
    requires T.Digest(hash) && Stored(s.applied)
    ensures T.Encodable(s.applied) && DecodeState(T.Encode(s.applied)) == Some(Reread(s.applied))
    ensures var (s1, response) := PutState(faults, hash, s, Some(Reread(s.applied)), T.Tag(hash, s.applied), docker);
            && !response.PreconditionFailed?
            && (response.Success? ==> (s1.applied == s.applied <==> NoNilValues(s.applied)))
  {
    ReadBack(s.applied);
    StoredIff(s.applied);
    var json := T.Encode(s.applied);
    T.OwnTagAllowsIff(hash, json, json);
    hide ApplyLocked, T.Encode, T.Allows, S.Clone, S.Valid, Reread, NoNilValues, T.Encodable, T.PlainState, DecodeState;
    ApplyLockedRecords(faults, s, Reread(s.applied), docker);
  }

  // ---- A state that changes when it is written back ----

  /** A label spelled twice, once with an empty list of values. */
  function TwiceSpelled(short: S.Values): S.Selector {
    S.Selector(false, map[M.SHORT_KEY := short, M.FULL_KEY := Some(["beacon"])])
  }

  function SlowBeacons(short: S.Values): S.State {
    S.State([], [S.Shaping("slow", Some(TwiceSpelled(short)), [], [Scope.CONTROL], "", "10ms", "", "", "")])
  }

  const BEACON := Container("b1", "beacon", 1, map[M.FULL_KEY := "beacon"], [], [])

  /** Docker lists the beacon node for the rule's target. */
  function BeaconAnswers(): Docker {
    Docker((p, i) => Some([]), r => Some([BEACON]))
  }

  /** A fresh service beside one beacon node. */
  function Beside(): Sys {
    Sys(World(map[1 := NewNet([])], 0, []), [], [], S.EMPTY, BeaconAnswers(), [])
  }

  function AllObey(): Faults {
    t => Obey
  }

  lemma SlowBeaconsValid(short: S.Values)
    ensures S.Valid(SlowBeacons(short)) && T.Encodable(SlowBeacons(short)) && T.PlainState(SlowBeacons(short))
    ensures S.Clone(SlowBeacons(short)) == SlowBeacons(S.CloneValues(short))
  {
    M.SpellingsClash();
    hide M.SHORT_KEY, M.FULL_KEY;
    var rule := SlowBeacons(short).shaping[0];
    assert forall sh :: sh in SlowBeacons(short).shaping ==> sh == rule;
    assert S.ValidShaping(rule) && !S.EmptySelector(TwiceSpelled(short)) by {
      assert M.SHORT_KEY in TwiceSpelled(short).labels;
    }
    assert S.CloneSelector(TwiceSpelled(short)).labels == TwiceSpelled(S.CloneValues(short)).labels;
    assert S.CloneShaping(rule) == SlowBeacons(S.CloneValues(short)).shaping[0];
  }

  /** Some visiting order lets the target match the beacon node, so Docker's answer is one that can be had. */
  lemma BeaconMayAnswer(short: S.Values)
    ensures M.MayAnswer(M.DEFAULT_PREFIX, TwiceSpelled(short), BEACON.labels, true)
  {
    var values := if short.None? then [] else short.value;
    M.SpellingsClash();
    M.LastSpelling(values, ["beacon"]);
    BeaconWanted(short);
    hide M.SHORT_KEY, M.FULL_KEY, M.Qualify, M.Qualified, M.Enumerates, M.DEFAULT_PREFIX, M.Want, TwiceSpelled;
    hide M.TwoSpellings;
    assert M.Matches(M.DEFAULT_PREFIX, [M.SHORT_KEY, M.FULL_KEY], M.TwoSpellings(values, ["beacon"]), BEACON.labels);
  }

  lemma BeaconWanted(short: S.Values)
    ensures !TwiceSpelled(short).all
    ensures M.Want(TwiceSpelled(short)) == M.TwoSpellings(if short.None? then [] else short.value, ["beacon"])
  {
    M.SpellingsClash();
    hide M.SHORT_KEY, M.FULL_KEY;
  }

  /** Beside a beacon node, on a kernel where nothing fails, the rule is applied. */
  lemma SlowBeaconsApply(s: Sys, short: S.Values)
    requires s.ipt == [] && 1 in s.w.nets
    ensures ApplyLocked(AllObey(), s, SlowBeacons(short), BeaconAnswers()).1.None?
  {
    hide ApplyLocked;
    SlowBeaconsValid(short);
    SlowBeaconsResolve(short);
    hide SlowBeacons, Resolve;
    L.CalmApplyIff(AllObey(), s, SlowBeacons(short), BeaconAnswers());
    var plan := Resolve(BeaconAnswers(), SlowBeacons(short)).value;
    assert Members([]) == [] && Targets([]) == [];
  }

  lemma SlowBeaconsResolve(short: S.Values)
    ensures var plan := Resolve(BeaconAnswers(), SlowBeacons(short));
            && plan.Some? && plan.value.partitions == []
            && Tc.Consistent(plan.value.shaping) && Tc.Shaped(plan.value.shaping) == [BEACON]
  {
    var docker, state := BeaconAnswers(), SlowBeacons(short);
    ResolveIff(docker, state);
    ResolveShapingIff(docker, state.shaping, 1);
    hide Tc.Consistent, Tc.Shaped, BEACON, TwiceSpelled, ResolveShaping;
    var rules := ResolveShaping(docker, state.shaping, 1).value;
    assert Some(rules[0].target) == docker.target(0);
    OneTarget(rules, BEACON);
  }

  lemma {:induction false} OneTarget(rules: seq<Shaping>, c: Container)
    requires |rules| == 1 && rules[0].target == [c]
    ensures Tc.Consistent(rules) && Tc.Shaped(rules) == [c]
  {
    assert rules[..0] == [] && Tc.Shaped([]) == [];
    assert Tc.Shaped(rules) == [] + [c];
  }

  /** A PUT that is let through and whose apply succeeds. */
  lemma PutSucceeds(hash: T.Hash, s: Sys, body: S.State, ifMatch: string, docker: Docker)
    requires S.Valid(body) && T.Encodable(s.applied) && T.Encodable(S.Clone(body))
    requires T.Allows(ifMatch, T.Tag(hash, s.applied)) && ApplyLocked(AllObey(), s, body, docker).1.None?
    ensures var (s1, response) := PutState(AllObey(), hash, s, Some(body), ifMatch, docker);
            && response.Success? && s1.applied == S.Clone(body) && s1.w.nets.Keys == s.w.nets.Keys
            && Resolve(docker, body).Some? && s1.ipt == Targets(Resolve(docker, body).value.partitions)
  {
    hide ApplyLocked, S.Valid, S.Clone, T.Encodable, T.Allows, T.Tag, Resolve;
    ApplyLockedRecords(AllObey(), s, body, docker);
  }

  lemma PutSlowBeacons(hash: T.Hash, s: Sys, short: S.Values, ifMatch: string)
    requires s.ipt == [] && 1 in s.w.nets && T.Encodable(s.applied) && T.Allows(ifMatch, T.Tag(hash, s.applied))
    ensures var (s1, response) := PutState(AllObey(), hash, s, Some(SlowBeacons(short)), ifMatch, BeaconAnswers());
            && response.Success? && s1.applied == SlowBeacons(S.CloneValues(short)) && s1.ipt == [] && 1 in s1.w.nets
  {
    hide SlowBeacons, BeaconAnswers, S.Valid, T.Encodable, T.PlainState, T.Allows, T.Tag;
    SlowBeaconsValid(short);
    SlowBeaconsValid(S.CloneValues(short));
    SlowBeaconsApply(s, short);
    SlowBeaconsResolve(short);
    PutSucceeds(hash, s, SlowBeacons(short), ifMatch, BeaconAnswers());
    assert Members([]) == [] && Targets([]) == [];
  }

  lemma SlowBeaconsReread()
    ensures Reread(SlowBeacons(None)) == SlowBeacons(Some([""]))
    ensures SlowBeacons(None) != SlowBeacons(Some([""]))
  {
    M.SpellingsClash();
    hide M.SHORT_KEY, M.FULL_KEY;
    var a, b := SlowBeacons(None), SlowBeacons(Some([""]));
    assert RereadSelector(TwiceSpelled(None)).labels == TwiceSpelled(Some([""])).labels;
    assert RereadShaping(a.shaping[0]) == b.shaping[0];
    assert a.shaping[0].target.value.labels[M.SHORT_KEY] != b.shaping[0].target.value.labels[M.SHORT_KEY];
  }

  lemma SlowBeaconsDecoded()
    ensures FromJson(SlowBeacons(Some([])))
  {
    M.SpellingsClash();
    hide M.SHORT_KEY, M.FULL_KEY;
    assert M.SHORT_KEY in TwiceSpelled(Some([])).labels;
  }

  lemma FirstPut(hash: T.Hash)
    ensures var (s1, response) := PutState(AllObey(), hash, Beside(), Some(SlowBeacons(Some([]))), "", BeaconAnswers());
            && response.Success? && s1.applied == SlowBeacons(None) && s1.ipt == [] && 1 in s1.w.nets
  {
    EmptyIsStored();
    StoredEncodable(S.EMPTY);
    AbsentAllows(T.Tag(hash, S.EMPTY));
    hide SlowBeacons, BeaconAnswers, T.Encodable, T.Allows, T.Tag, PutState, AllObey, Stored;
    PutSlowBeacons(hash, Beside(), Some([]), "");
  }

  lemma SecondPut(hash: T.Hash, s: Sys)
    requires T.Digest(hash) && s.applied == SlowBeacons(None) && s.ipt == [] && 1 in s.w.nets
    ensures T.Encodable(s.applied)
    ensures var (s1, response) := PutState(AllObey(), hash, s, DecodeState(T.Encode(s.applied)), T.Tag(hash, s.applied),
                                           BeaconAnswers());
            response.Success? && s1.applied != s.applied
  {
    SlowBeaconsValid(None);
    ReadBack(s.applied);
    SlowBeaconsReread();
    var json := T.Encode(s.applied);
    T.OwnTagAllowsIff(hash, json, json);
    hide SlowBeacons, BeaconAnswers, T.Encodable, T.PlainState, T.Allows, T.Encode, PutState, DecodeState, Reread;
    hide T.Digest;
    hide AllObey, S.Valid, S.Clone;
    PutSlowBeacons(hash, s, Some([""]), T.Tag(hash, s.applied));
  }

  /**
   * An empty value list comes back changed: a decoded, valid state is applied, read with GET and written back
   * under its own tag, both requests succeed with nothing failing, and the state is no longer what it was.
   */
  lemma WrittenBackChanged(hash: T.Hash)
    requires T.Digest(hash)
    ensures Fresh(Beside()) && FromJson(SlowBeacons(Some([])))
    ensures var (s1, first) := PutState(AllObey(), hash, Beside(), Some(SlowBeacons(Some([]))), "", BeaconAnswers());
            && first.Success? && T.Encodable(s1.applied)
            && var (s2, second) := PutState(AllObey(), hash, s1, DecodeState(T.Encode(s1.applied)),
                                            T.Tag(hash, s1.applied),
                                            BeaconAnswers());
               second.Success? && s2.applied != s1.applied
  {
    SlowBeaconsDecoded();
    FirstPut(hash);
    var s1 := PutState(AllObey(), hash, Beside(), Some(SlowBeacons(Some([]))), "", BeaconAnswers()).0;
    SecondPut(hash, s1);
    hide SlowBeacons, BeaconAnswers, T.Encodable, T.Encode, T.Digest, T.Tag, PutState, FromJson, DecodeState, AllObey;
  }

  lemma AbsentAllows(tag: string)
    ensures T.Allows("", tag)
  {
  }
}
