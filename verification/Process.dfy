/** The process around the service: how it starts, and what its event page tells (cmd/disruptoor/main.go). */
module Process {
  import opened Wrappers
  import opened Discovery
  import opened Kernel
  import opened Api
  import opened Runs
  import S = State
  import T = ETag
  import Iptables
  import Tc
  import Conntrack
  import EventLog
  import G = Guarantees

  /** A process that starts: a restart, and after it the config file, if there is one. */
  ghost function Started(faults: Faults, s: Sys, chains: Listing, qdiscs: Listing, config: Option<S.State>,
                         answers: Docker)
    : Sys
  {
    var s1 := Restarted(faults, s, chains, qdiscs);
    if config.None? then s1 else ApplyConfig(faults, s1, config.value, answers)
  }

  /**
   * Fresh backends clean up whatever they can list, then the service is built and the config applied; if that
   * fails, the process gives up. What the previous process knew is history.
   */
  method Start(enterer: Enterer, hash: T.Hash, events: int, chains: Listing, qdiscs: Listing,
               config: Option<S.State>, answers: Docker, ghost before: Sys)
    returns (service: Service, ok: bool)
    requires before.w == enterer.world
    modifies enterer
    ensures fresh(service) && service.Wired() && service.enterer == enterer && service.hash == hash
    ensures service.View() == Started(enterer.faults, before, chains, qdiscs, config, answers)
    ensures service.ring.buf.Length == if events <= 0 then 200 else events
    ensures var s1 := Restarted(enterer.faults, before, chains, qdiscs);
            ok <==> config.None?
                    || (S.Valid(config.value) && ApplyLocked(enterer.faults, s1, config.value, answers).1.None?)
  {
    var iptables := new Iptables.Service(enterer);
    var _ := iptables.Start(chains);
    var tc := new Tc.Service(enterer);
    tc.Start(qdiscs);
    enterer.world := enterer.world.(nets := ForgetAll(enterer.world.nets));
    var conntrack := new Conntrack.Service(enterer);
    var ring := new EventLog.Ring<Event>(events);
    service := new Service(enterer, hash, iptables, tc, conntrack, ring, before.docker);
    ok := true;
    if config.Some? {
      ok := service.Apply(config.value, answers);
    }
  }

  /**
   * The newest entry alone tells what GET returns: after any run, with any failures, the head of a snapshot of
   * the log, or its absence, determines the applied state.
   */
  lemma NewestTellsState(faults: Faults, hash: T.Hash, start: Sys, steps: seq<Step>, cap: nat)
    requires start.applied == G.Replay(start.events) && cap >= 1
    ensures var s := Run(faults, hash, start, steps);
            var snapshot := EventLog.Newest(s.events, EventLog.Min(|s.events|, cap));
            s.applied == if snapshot == [] then S.EMPTY else G.Told(snapshot[0])
  {
    G.EventsReplay(faults, hash, start, steps);
    hide Run;
  }

  /** The event page of a running service: its first entry, or its absence, tells the applied state. */
  method EventPage(service: Service, ghost start: Sys, ghost steps: seq<Step>) returns (page: seq<Event>)
    requires service.Wired() && service.View() == Run(service.enterer.faults, service.hash, start, steps)
    requires start.applied == G.Replay(start.events)
    ensures |page| <= service.ring.buf.Length
    ensures service.applied == if page == [] then S.EMPTY else G.Told(page[0])
  {
    page := service.ring.Snapshot();
    NewestTellsState(service.enterer.faults, service.hash, start, steps, service.ring.buf.Length);
  }
}
