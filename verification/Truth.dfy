/**
 * Whether GET tells the truth, over whole runs and without any hypothesis on what fails: of each netns it does
 * exactly when the last request that set out to change what is advertised cleaned up there what it had to.
 */
module Truth {
  import opened Wrappers
  import opened Backend
  import opened Kernel
  import opened Api
  import opened Runs
  import opened Cleanup
  import S = State
  import T = ETag
  import Compilation
  import G = Guarantees

  /** The step gets as far as changing the kernel or what is advertised. */
  ghost predicate Acts(hash: T.Hash, s: Sys, step: Step) {
    match step
    case Put(body, ifMatch, _) => Accepted(hash, s, body, ifMatch)
    case Config(desired, _) => S.Valid(desired)
    case Clear => true
    case Restart(_, _) => true
    case Die(_) => false
    case Spawn(_, _) => false
  }

  /** What it has to remove from netns p meets a command that works. */
  ghost predicate CleansUp(faults: Faults, hash: T.Hash, s: Sys, step: Step, p: Pid)
    requires p in s.w.nets && Acts(hash, s, step)
  {
    match step
    case Put(body, _, docker) => ReachesIn(faults, s, body.value, docker, p)
    case Config(desired, docker) => ReachesIn(faults, s, desired, docker, p)
    case Clear => RootGoes(faults, s, p) && RulesGo(faults, s, p)
    case Restart(chains, qdiscs) => Recoverable(faults, s.w, chains, qdiscs, p)
  }

  /** The last step that acted while netns p existed, if there is one, cleaned up there. */
  ghost predicate LastCleansUp(faults: Faults, hash: T.Hash, start: Sys, steps: seq<Step>, p: Pid) {
    if steps == [] then true
    else
      var init, step := steps[..|steps| - 1], steps[|steps| - 1];
      var s := Run(faults, hash, start, init);
      if p !in s.w.nets then true
      else if Acts(hash, s, step) then CleansUp(faults, hash, s, step, p)
      else LastCleansUp(faults, hash, start, init, p)
  }

  lemma SpawnTruthIn(faults: Faults, hash: T.Hash, s: Sys, step: Step, p: Pid)
    requires Sound(s) && step.Spawn?
    ensures var s1 := Next(faults, hash, s, step);
            p in s1.w.nets ==> (TruthIn(s1, p) <==> p !in s.w.nets || TruthIn(s, p))
  {
    hide Resolve, Targets, Members, Compilation.Compiled, G.WantedRoot, Sound;
    if !InUse(s, p) {
      NothingWantedAt(s, p);
    }
  }

  /** Nothing is advertised for a PID that is on no record. */
  lemma NothingWantedAt(s: Sys, p: Pid)
    requires Sound(s) && !InUse(s, p)
    ensures Resolve(s.docker, s.applied).Some?
    ensures var plan := Resolve(s.docker, s.applied).value;
            Compilation.Compiled(plan.partitions, p) == [] && G.WantedRoot(plan.shaping, p) == None
  {
    hide Resolve, Targets, Members, G.WantedRoot, NetSound;
    var plan := Resolve(s.docker, s.applied).value;
    OutsidePlan(plan, p);
    if plan.partitions == [] {
      NothingWanted(p);
    }
  }

  lemma NextTruthIn(faults: Faults, hash: T.Hash, s: Sys, step: Step, p: Pid)
    requires Sound(s) && Steady(step)
    ensures var s1 := Next(faults, hash, s, step);
            p in s1.w.nets ==>
              (TruthIn(s1, p) <==>
               if p !in s.w.nets then true
               else if Acts(hash, s, step) then CleansUp(faults, hash, s, step, p)
               else TruthIn(s, p))
  {
    hide ApplyLocked, ClearLocked, Restarted, Conforms, ReachesIn, Recoverable, RootGoes, RulesGo, OnePid, Resolve;
    hide S.Valid, S.Clone, T.Encodable, T.Allows, T.Tag;
    if !step.Spawn? {
      StepKeys(faults, hash, s, step);
    }
    match step
    case Put(body, _, docker) =>
      if body.Some? && p in s.w.nets {
        ApplyTruthIn(faults, s, Http, body.value, docker, p);
      }
    case Config(desired, docker) =>
      if p in s.w.nets {
        ApplyTruthIn(faults, s, Source.Config, desired, docker, p);
      }
    case Clear =>
      if p in s.w.nets {
        ClearTruthIn(faults, s, p);
      }
    case Restart(chains, qdiscs) =>
      if p in s.w.nets {
        RestartTruthIn(faults, s, chains, qdiscs, p);
      }
    case Die(_) =>
    case Spawn(_, _) =>
      SpawnTruthIn(faults, hash, s, step, p);
  }

  /** Only a spawned container brings a new netns. */
  lemma StepKeys(faults: Faults, hash: T.Hash, s: Sys, step: Step)
    requires !step.Spawn?
    ensures Next(faults, hash, s, step).w.nets.Keys <= s.w.nets.Keys
  {
    hide ApplyLocked, ClearLocked, Recovered;
    match step
    case Put(body, _, docker) =>
      if body.Some? {
        ApplyLockedRecords(faults, s, body.value, docker);
      }
    case Config(desired, docker) =>
      ApplyLockedRecords(faults, s, desired, docker);
    case Clear =>
      ClearLockedRecords(faults, s);
    case Restart(chains, qdiscs) =>
      G.RecoveredExtends(faults, s.w, chains, qdiscs);
    case Die(_) =>
  }

  /**
   * Netns by netns, after every run and whatever failed: it holds exactly the compiled form of the advertised state
   * exactly when the last step that acted while it existed cleaned up there.
   */
  lemma {:induction false} TruthInIff(faults: Faults, hash: T.Hash, start: Sys, steps: seq<Step>, p: Pid)
    requires Fresh(start) && G.AllSteady(steps)
    ensures var s := Run(faults, hash, start, steps);
            p in s.w.nets ==> (TruthIn(s, p) <==> LastCleansUp(faults, hash, start, steps, p))
  {
    FreshIsSound(start);
    if steps == [] {
      if p in start.w.nets {
        TruthOfNothing(start, p);
      }
    } else {
      var init, last := steps[..|steps| - 1], steps[|steps| - 1];
      var s := Run(faults, hash, start, init);
      RunSound(faults, hash, start, init);
      NextTruthIn(faults, hash, s, last, p);
      hide Next, Sound, TruthIn, Acts, CleansUp;
      TruthInIff(faults, hash, start, init, p);
    }
  }

  /** GET tells the truth after a run exactly when that holds in every netns. */
  lemma TruthIff(faults: Faults, hash: T.Hash, start: Sys, steps: seq<Step>)
    requires Fresh(start) && G.AllSteady(steps)
    ensures var s := Run(faults, hash, start, steps);
            TellsTruth(s) <==> forall p :: p in s.w.nets ==> LastCleansUp(faults, hash, start, steps, p)
  {
    FreshIsSound(start);
    RunSound(faults, hash, start, steps);
    var s := Run(faults, hash, start, steps);
    hide Run, NetSound, LastCleansUp, Conforms;
    forall p | p in s.w.nets
      ensures TruthIn(s, p) <==> LastCleansUp(faults, hash, start, steps, p)
    {
      TruthInIff(faults, hash, start, steps, p);
    }
  }
}
