# disruptoor, modelled and proved in Dafny

disruptoor injects network faults into an Ethereum test network. A client PUTs a desired state, a list of
partitions and shaping rules; the service resolves its selectors to containers and then runs `iptables`, `tc`,
`ss` and `conntrack` inside their network namespaces. Any of these commands can fail at any moment. This project
models that reconciler over an explicit kernel with failing commands, and proves what holds after every run.

Verify everything with `dafny verify dfyconfig.toml`.

## How the model is built

* **The kernel** (`Kernel.dfy`) is a map from PID to network namespace: the `DISRUPTOOR` chain, the `OUTPUT` chain,
  the root qdisc. A *fault pattern* assigns to each command, by its position in the run, either nothing or a failure
  (an exit code, or something that is no exit) that may or may not strike after the command took effect. All
  theorems hold for every fault pattern.
* **History, not kernel state.** Each namespace carries three flags that the service cannot see. `orphan`: the chain
  holds rules no service keeps track of, because `-F` exited 1 on an existing chain, or because a restart did not
  reach it. `leaked`: the root qdisc outlived a delete or the service that installed it. `misread`: `-C` exited
  although the jump was there. They make the exit-code hypotheses of the backends explicit: statements name the flag,
  and `Guarantees.NothingEscapes` removes the first and the last under the hypothesis that no answer lied.
* **The backends, the API service, the enterer and the event ring** are classes whose methods mirror the Go methods,
  loops included. Each is proved equal to a specification function on values; the theorems are about those functions,
  and those contracts connect the two. `Process.Start` wires them together as the program does.
* **Runs** (`Runs.dfy`) are arbitrary sequences of PUT, clear, config apply, restart with recovery, and containers that
  die or are spawned. One mutex makes requests atomic, so requests are steps. A crash inside a request is that request with all
  its remaining commands failing without effect, followed by a restart.
* **Docker** is a function from each selector of a request to an answer or an error; answers may differ from request
  to request and within one. The only hypothesis is that within one request a container ID has one PID. `Enclave` ties the answers
  to what Docker lists and to how selectors match.
* **SHA-256** is an injective function to hex strings. JSON values are trees.

## Where code and documentation differ

* *"On any apply error, all backends are cleared so the system ends up in a known-empty state"* (`internal/api/api.go:16-17`).
  Not when the cleanup itself fails: `Liveness.DeadClearKeepsEverything` keeps everything in place while the empty
  state is advertised. `Cleanup.ClearEmptiesIff` and `Cleanup.ApplyEmptiesIff` say exactly when the promise holds, in
  terms of what stands, what is recorded and which of the coming commands work; `Cleanup.RollbackHeals` is the case
  the promise has in mind. iptables keeps its targets for a retry, tc forgets them even when a delete fails
  (`internal/backend/tc/tc.go:83-89`).
* *"Multiple keys AND together"* (`internal/state/state.go:68-69`). Not when two keys qualify to the same label: the map
  iteration decides which one counts (`Matching.SpellingDecides`). `Matching.MatchingIff` gives the exact condition.
* A state that was read with GET and written back unchanged can change: an empty value list is stored as nil, sent as
  null and decoded as one empty string. `WriteBack.WrittenBackChanged` is a run of the service in which it happens,
  `WriteBack.WriteBackIff` says exactly when.

Three facts about functions that their callers never run into:

* A negative PID on record would make every later clear fail (`Liveness.RetrySucceedsIff`); Docker reports none.
* *"The zero value matches nothing"* (`internal/state/state.go:66-67`) is false of resolution: the empty selector picks
  everything that is listed (`Matching.EmptyPicksAll`, and `Matching.PromiseIff` for all selectors). It never arrives:
  decoding a body or a config yields none (`Wire.NoEmptySelector`), validation rejects one in a group
  (`State.Validate`), and a state with one as a target cannot be tagged (`Guarantees.EncodableIff`).
* `itoa` prints the smallest 64-bit integer as a bare minus sign; its one caller passes a port number.

## Model

| member | source | states |
|---|---|---|
| Guarantees.CleanupCoverage | internal/api/api.go:395-443 | After every run of puts, clears, config applies, crashes with recovery, dying and new containers, with any command failing at any moment, a netns whose chain or root qdisc is not empty belongs to a recorded target, or carries the flag of the one event that put it out of reach. |
| Guarantees.NothingEscapes | internal/backend/iptables/iptables.go:81-141 | While exit codes mean what the backend takes them to mean (and restarts clean up), the exceptions vanish: every non-empty chain is on record, a nil return of clear means every chain is empty, and so it stays while conntrack teardown runs, whatever else failed before. |
| Guarantees.ClearHeals | internal/api/api.go:251-266 | From any reachable state, a clear that answers success leaves no tracked rule and no tracked qdisc in any netns. |
| Pipeline.TeardownEscapes | internal/api/api.go:407-419 | Whenever a session is torn down, in any run with any failures, no tracked drop rule stands in any netns, so the packets this provokes can escape. |
| Pipeline.TeardownMatchesInstall | internal/api/api.go:395-429 | The commands of a successful apply: conntrack deletes exactly the endpoints that are then blocked, in order and multiplicity, `ss -K` is asked for exactly the TCP ones among them, and every teardown comes before the first rule. |
| Guarantees.SuccessEnacts | internal/api/api.go:395-429 | A successful apply leaves every netns with exactly the compiled chain and the wanted qdisc of the new plan, whatever happened before; only rules and qdiscs already out of reach, on containers outside the plan, may remain. |
| Guarantees.SuccessShapes | internal/backend/tc/tc.go:79-130 | After a successful apply each container of a shaping rule carries exactly the one tree that rule describes. |
| Guarantees.HistoryIndependence | internal/api/api.go:395-429 | Two services with any pasts, failures and kernels that both succeed in applying the same state to the same containers leave each netns with the same drop rules and the same qdisc, up to what neither could reach outside the plan. |
| Enclave.SameEnclaveSameKernel | internal/api/api.go:395-429 | From the enclave to the kernel: two services with any pasts, failures and kernels apply the same valid, well-spelled state where Docker lists the same containers for the same selectors, each resolving in visiting orders of its own; they resolve to the same plan, and if both succeed, to the same chains and qdiscs, up to what neither could reach outside the plan. |
| Enclave.SameListingsAgree | internal/discovery/discovery.go:182-234 | Same listings, same answers, for every selector of a well-spelled state. |
| ScopeMeaning.AppliedDropsIff | internal/api/api.go:202-249 | From the request to the packet: after a successful apply, from any reachable state, the chain of a target drops what goes to an endpoint exactly when some partition of the request has its container in one group and, in another, one that owns the address and has a port there whose name and whose owner's client type the scope names cover, the p2p scopes where none is given. |
| ScopeMeaning.DroppedIff | internal/scope/scope.go:10-61 | The same of every compiled chain, of any netns. |
| ScopeMeaning.ClP2PMeans | internal/scope/scope.go:45-49 | Where all partitions ask for `cl_p2p` and an address has one owner, a p2p port of a container in another group is cut off exactly if its container is labelled a beacon node. |
| ScopeMeaning.ElP2PMeans | internal/scope/scope.go:50-53 | The same for `el_p2p`: exactly if it is labelled an execution client. |
| ScopeMeaning.DefaultScopeMeans | internal/api/api.go:446-463 | The same without a scope: exactly if it is either. |
| ScopeMeaning.ControlMeans | internal/scope/scope.go:54-57 | The ports rpc, engine-rpc, ws, http and metrics are cut off exactly by `include_control`, whatever the container, unless a p2p port of it has the same number and protocol. |
| Enumeration.AppliedInOrder | internal/backend/iptables/iptables.go:81-116 | After a successful apply the chain of every target is, rule by rule, in order and multiplicity, what the request lists there: partition by partition, group by group, member by member, and for each peer of the other groups port by port, address by address, under the comment that names the partition. |
| Enumeration.CompiledInOrder | internal/backend/iptables/iptables.go:196-251 | The nested loops emit exactly that list. |
| ShapingMeaning.AppliedTree | internal/backend/tc/tc.go:145-209 | From the request to the qdisc: after a successful apply, from any reachable state, each container listed for a rule carries tbf at the rule's rate, with a burst of 32kbit and a latency of 400ms, over netem, or one of the two alone, netem with the rule's delay, jitter after it, and loss as a percentage. |
| ShapingMeaning.SameTreeIff | internal/state/state.go:187-212 | Rules of two accepted requests get the same tree exactly when they ask for the same, a loss with or without its percent sign being the same. |
| ShapingMeaning.ClashesRefused | internal/backend/tc/tc.go:97-118 | From any state and whatever fails, an apply in which a rule matched no container, or one container is in two places of the rules, fails and installs no qdisc anywhere. |
| ShapingMeaning.ClashingPutFails | internal/api/api.go:226-243 | And the PUT that asked for it is not answered with success and not advertised. |
| FailStop.FailStops | internal/api/api.go:395-443 | Fail-stop, over whole runs: whenever a command that installs a jump, a rule or a qdisc fails, wherever and for whatever reason, the very next command is a flush or a delete. |
| Guarantees.Truthful | internal/api/api.go:234-266 | Over whole runs: if since the last restart no cleanup left anything behind, each netns holds exactly the compiled form of the state GET advertises; so after a failed apply or clear, which advertises nothing, nothing is left. The next row does without the hypothesis. |
| Truth.TruthIff | internal/api/api.go:163-266 | Over whole runs, with no hypothesis on what fails: GET tells the truth exactly when, in every netns, the last accepted PUT or config, clear or restart that met it cleaned up what it had to there: all that it found outside its plan, or, where it failed, all that stood at its failure point, met a command that worked. Refused requests, dying and new containers change nothing about it. |
| Truth.TruthInIff | internal/api/api.go:163-266 | The same, netns by netns: a cleanup that misses one netns leaves GET truthful about the others. |
| Cleanup.PutTruthIff | internal/api/api.go:202-249 | From any state, with any failures: after a PUT that is accepted, whether it succeeds or fails, GET tells the truth exactly when everything outside the new plan (at a failure: everything at the failure point) meets a cleanup command that works; a PUT that is not accepted changes nothing. |
| Cleanup.ConfigTruthIff | internal/api/api.go:163-177 | The same for the config path. |
| Cleanup.ClearTruthIff | internal/api/api.go:251-266 | The same for a clear, whatever it answers. |
| Cleanup.RestartTruthIff | internal/backend/iptables/iptables.go:57-77 | The same for a restart: exactly when each netns with rules meets a recovery flush that works, and each with a qdisc a recovery delete that works. |
| Cleanup.ClearEmptiesIff | internal/api/api.go:434-443 | From any state, a clear empties the kernel exactly when each netns with a qdisc meets a delete, and each with rules a flush, whose own fault, at its own place in the sequence of commands, spares it or strikes after the effect. |
| Cleanup.ClearAnswersIff | internal/backend/iptables/iptables.go:118-141 | From any state, a clear answers success exactly when the flush of every recorded container passes: its own fault, at its own place in the sequence of commands, spares it or exits 1, or the PID is 0. |
| Cleanup.ApplyEmptiesIff | internal/api/api.go:395-429 | An apply that fails, wherever it fails, leaves the kernel empty exactly when that condition holds at its failure point. |
| Cleanup.RollbackHeals | internal/api/api.go:16-17 | The known-empty promise, kept: if the first clear reaches everything and commands work again from the failure point on, an apply that fails leaves nothing, wherever and however it failed. |
| Cleanup.DropRootsIff | internal/backend/tc/tc.go:132-143 | A root qdisc goes exactly when a delete that works reaches it. |
| Cleanup.ClearTargetsIff | internal/backend/iptables/iptables.go:128-141 | A chain is emptied exactly when a flush that works reaches it. |
| Cleanup.FailedApply | internal/api/api.go:395-429 | Every failing apply ends with one cleanup from its failure point. |
| Provenance.RulesWereAsked | internal/backend/iptables/iptables.go:208-240 | Every drop rule that stands in any netns after any run, whatever failed, was asked for in that netns by some request of the run. |
| Provenance.ControlStaysReachable | internal/scope/scope.go:21-72 | Where every request of a run keeps to p2p scopes, no rule that ever stands in any netns drops a packet to an endpoint without a p2p port, whatever fails. |
| Provenance.TogetherStaysReachable | internal/backend/iptables/iptables.go:196-251 | Where no plan of a run sets a container apart from the owner of an address, no rule that ever stands in its netns names that address. |
| Provenance.SameGroupTogether | internal/discovery/discovery.go:217-234 | Two containers in one group of a partition are not set apart by it. |
| Guarantees.ForeignRulesSurvive | internal/backend/iptables/iptables.go:143-173 | Over whole runs from any sound state other people's OUTPUT rules keep contents and order in every netns, counted from the start or from its creation on the way, and a netns that came with at most one jump never gets a second, unless `-C` once denied the first. |
| Guarantees.ExactlyOneJump | internal/backend/iptables/iptables.go:143-173 | While a partition is advertised, OUTPUT of every target, old or new, holds exactly one jump into the chain, given at most one when it came and no denial by `-C`. |
| Guarantees.EventsReplay | internal/api/api.go:163-185 | After every run, replaying the emitted events (applied sets its state, cleared and failed reset it) yields the applied state. |
| Guarantees.PutEmits | internal/api/api.go:202-249 | A refused PUT changes nothing and emits nothing; one that changes anything emits exactly one event, which tells the state it left; and it answers success exactly when that event is an applied one. |
| Notices.PutNotice | internal/api/api.go:202-249 | Exactly when a PUT is a bad request; and which event each other outcome emits: an applied one with the state that is then applied, or a failed one with the stage that failed, both as coming over HTTP. |
| Notices.ConfigNotice | internal/api/api.go:163-177 | The same for the config path, under its own source. |
| Notices.ClearNotice | internal/api/api.go:251-266 | A clear emits exactly one event: cleared exactly when it answers success, failed otherwise. |
| Notices.ClearedMeansClean | internal/api/api.go:259-265 | Whenever the log of a run says cleared, the step that said so was a clear, and at that moment no tracked rule and no tracked qdisc stood in any netns. |
| Notices.UnreachedClearTold | internal/api/api.go:254-261 | A clear that did not reach a recorded chain answers and announces failure, unless the flush that failed exited 1. |
| Notices.EventOrigin | internal/api/api.go:268-273 | Every event of the log is what one step of the run emitted, after those before it. |
| Notices.StageIff | internal/api/api.go:395-429 | Which stage a failed apply reports: unresolvable partitions before unanswered targets before a clear that did not pass before rules that did not install. |
| Notices.InvalidIff | internal/state/state.go:95-214 | A state is refused exactly when an entry is flawed, each flaw spelled out, or two entries of either kind share a name. |
| Guarantees.EncodableIff | internal/api/api.go:356-363 | The stored copy of a validated state can be tagged exactly when no shaping rule targets the empty selector. |
| Guarantees.AlwaysTagged | internal/config/config.go:65-107 | GET and PUT never want for a tag: configs are decoded like request bodies, so after every run the applied state marshals. |
| WriteBack.OnlyAppliesFail | internal/api/api.go:202-249 | After any run of decoded requests, the only PUT answered with a server error is one whose apply failed. |
| WriteBack.RunStored | internal/api/api.go:276-306 | After any run of decoded requests, what is applied is a copy that marshals and has no labels beside 'all'. |
| WriteBack.WriteBackIff | internal/api/api.go:338-345 | Over whole runs: what GET returns decodes, and written back under its own tag it is never refused as stale; if the write succeeds, the state is as it was exactly when none of its value lists is empty. |
| WriteBack.WrittenBackChanged | internal/api/api.go:338-345 | An empty value list comes back changed: from a fresh start, with nothing failing, a decoded state is applied, read, written back under its own tag with success, and is another. |
| WriteBack.BeaconMayAnswer | internal/discovery/discovery.go:272-293 | The selector of that state can match a beacon node, before and after. |
| Wire.DecodedFromJson | internal/state/state.go:121-149 | Whatever is decoded, from a body or a config file, has selectors that are 'all' without labels, or labels with value lists. |
| Wire.NoEmptySelector | internal/state/state.go:121-149 | So the empty selector never arrives, in a group or as a target. |
| Wire.DecodeStateIff | internal/api/api.go:378-393 | A body decodes exactly when it follows the schema: known fields only, at every level, each absent, null or of its type. |
| Wire.SpelledStateAlike | internal/state/state.go:121-149 | Numbers in the selectors of a request decode like the strings of their digits. |
| Wire.ReadBack | internal/state/state.go:34-69 | The wire form of a state decodes to that state, except that a nil value list becomes one empty string. |
| Wire.StoredIff | internal/api/api.go:276-345 | A stored state that is read and written back is stored as it was exactly when none of its value lists is empty. |
| Runs.RunSound | internal/api/api.go:395-443 | The invariant of every run: the advertised state, resolved with the answers it was applied with, is what its targets carry; everything else is empty, recorded for cleanup or flagged. |
| Runs.NextSound | internal/api/api.go:163-266 | Each kind of step keeps that invariant, whatever fails inside it. |
| Runs.ApplyLockedEffect | internal/api/api.go:395-429 | What the pipeline does to an arbitrary netns at each of its failure points and on success. |
| Runs.ApplyLockedRecords | internal/api/api.go:395-429 | What the pipeline does to the backends' records: on success exactly the plan's targets, after any failure no shaping target. |
| Runs.ClearLockedEffect | internal/api/api.go:434-443 | Both backends are cleaned even when one fails; the netns stays accounted for, and is empty if no cleanup of it failed. |
| Runs.ResolveClone | internal/api/api.go:276-306 | Given the same answers, the stored copy of a state resolves to the same plan: names, scopes, symmetry and parameters survive the copy. That a copied selector is answered alike is Matching.CloneAnswers. |
| Liveness.CalmApplyIff | internal/api/api.go:395-429 | On a kernel where nothing fails, a valid state is applied exactly when it resolves, every rule targets something, no container ID stands in two places of the rules, every container it names has a netns, and no recorded PID is negative. |
| Liveness.RetrySucceedsIff | internal/api/api.go:251-266 | A clear can be retried: where nothing fails any more it succeeds exactly when no recorded PID is negative. |
| Liveness.DeadClearKeepsEverything | internal/api/api.go:251-266 | The promised known-empty state is false when cleanup itself fails: from any state, on a kernel where every command fails, a clear advertises the empty state while every rule and qdisc stands. |
| Clients.NoLostUpdates | internal/api/api.go:202-249 | In any interleaving of clients doing GET, edit and PUT with the tag as If-Match, with configs, clears, restarts and other people's PUTs among them, under any command failures, the applied state is the fold of the acknowledged edits, each made on the result of those before it, over the state that the last reset left. |
| Clients.RefusedIffStale | internal/api/api.go:221-225 | A client's valid write is refused with 412 exactly when the state is no longer the one it read. |
| Clients.MayWriteAgain | internal/api/api.go:226-248 | A client that goes on from the response of its own successful PUT holds the applied state under its tag, and its next write is not refused as stale. |
| Clients.RefusalAdmitsRetry | internal/api/api.go:213-224 | A refusal changes nothing and names the tag of the applied state: the next GET gives the same tag, and neither a body sent under it nor an edit of what was read is refused again. |
| Clients.PutOutcome | internal/api/api.go:202-249 | What response and events of a PUT tell about the state it left: a success carries that state under its tag, a refusal the tag of the state that it would have replaced. |
| Clients.ConfigOutcome | internal/api/api.go:163-177 | A config that is refused changes nothing; any other leaves its copy or the empty state, and an event. |
| ETag.TagIdentifiesState | internal/api/api.go:355-363 | Two states carry the same entity tag exactly when they are equal (a strong validator, section 8.8.3 of RFC 9110). |
| ETag.EncodeInjective | internal/state/state.go:34-69 | The canonical JSON form determines the state, through omitted fields, absent pointers and nil value lists. |
| ETag.OwnTagAllowsIff | internal/api/api.go:365-376 | Sent back as If-Match, a tag admits the write exactly when it is the current one (section 13.1.1 of RFC 9110). |
| ETag.ListAllowsIff | internal/api/api.go:365-376 | A list of tags and stars, with blanks around the commas, lets a write through exactly when it holds a star or the current tag. |
| ETag.WeakTagRefused | internal/api/api.go:365-376 | Tags are compared strongly: the weak form of the current tag lets nothing through. |
| ETag.TagSyntax | internal/api/api.go:355-363 | A tag is lower-case hex between double quotes. |
| ETag.IfMatchAllows | internal/api/api.go:365-376 | The comma-separated header admits a write if it is absent or some trimmed token is `*` or the current tag. |
| Compilation.CompiledDropsIff | internal/backend/iptables/iptables.go:196-240 | A packet leaving a netns meets a drop rule of the compiled chain exactly when some partition has a member with that PID in one group and a peer of another group that owns the address and serves the port in scope. |
| Compilation.CompiledIff | internal/backend/iptables/iptables.go:208-240 | Each single rule of the chain, with `disruptoor:` and the name of the partition as its comment, traced to the partition that asked for it, and back. |
| Agreement.CompilersAgree | internal/backend/conntrack/conntrack.go:54-92 | For every plan conntrack deletes exactly the endpoints iptables blocks, in order and multiplicity, and asks `ss -K` for exactly the TCP ones, each right before its entry is deleted. |
| Agreement.InstallAllIsRunAll | internal/backend/iptables/iptables.go:100-113 | A complete install runs exactly the compiled commands of all partitions in order; no later partition disturbs an earlier one. |
| Safety.ScopeMonotone | internal/scope/scope.go:42-72 | Widening scopes never spares a packet that was dropped. |
| Safety.UnionOfPartitions | internal/backend/iptables/iptables.go:106-113 | A plan drops exactly what one of its parts drops. |
| Safety.DefaultScopeSparesControl | internal/api/api.go:445-466 | With scopes omitted or p2p only, the compiled plan of a state drops no packet to a port that none of its owner's p2p ports shares number and protocol with; Provenance carries this to every rule that ever stands. |
| Safety.IntraGroupSafe | internal/discovery/discovery.go:217-234 | No partition drops traffic between two members of one group, in whatever scope. |
| Safety.OrderIrrelevant | internal/backend/iptables/iptables.go:196-206 | Reordering the groups, or the members of a group, changes nothing about what a partition drops. |
| Netfilter.ApplyEffect | internal/backend/iptables/iptables.go:81-116 | Apply, on any netns: what was recorded or empty stays so at every failure point; success means each target holds exactly the compiled chain with a jump to it. |
| Netfilter.ClearEffect | internal/backend/iptables/iptables.go:118-141 | Clear, on any netns: coverage is kept, a nil return means no tracked rule is left, and only then are the targets forgotten. |
| Netfilter.ClearTargetsEffect | internal/backend/iptables/iptables.go:128-141 | Every target is flushed even after a failure, and only listed netnses are touched. |
| Netfilter.EnsureChainEffect | internal/backend/iptables/iptables.go:147-173 | A successful ensureChain leaves an empty chain and a jump to it; a failed one adds no drop rule. |
| Netfilter.EnsureChainIff | internal/backend/iptables/iptables.go:147-173 | ensureChain succeeds in a netns exactly if `-N` creates a chain or exits 1 on one, `-F` works, and `-C` finds the jump or exits and `-A` works. |
| Netfilter.InstallAllEffect | internal/backend/iptables/iptables.go:106-113 | Installing appends exactly the compiled rules of each partition after those already there. |
| Iptables.Service.Apply | internal/backend/iptables/iptables.go:81-116 | Record before mutating, ensure every chain, then install every partition; the resulting world, record and outcome, for every failure pattern. |
| Iptables.Service.Clear | internal/backend/iptables/iptables.go:118-126 | Targets are forgotten only when every flush succeeded. |
| Iptables.Service.ClearTargetsLocked | internal/backend/iptables/iptables.go:128-141 | All targets are flushed in order; one failure is reported at the end. |
| Iptables.Service.EnsureChainIn | internal/backend/iptables/iptables.go:147-173 | The four commands of ensureChain, with exit code 1 of `-N` and any exit of `-C` tolerated. |
| Iptables.Service.FlushChainBestEffort | internal/backend/iptables/iptables.go:178-190 | PID 0 and exit code 1 count as success. |
| Iptables.Service.InstallMemberRules | internal/backend/iptables/iptables.go:208-240 | The loops over peers, ports and addresses issue exactly the member's compiled commands, up to the first failure. |
| Iptables.Service.ApplyPartition | internal/backend/iptables/iptables.go:196-206 | The loops over groups and members issue exactly the partition's compiled commands, up to the first failure. |
| Iptables.Service.Start | internal/backend/iptables/iptables.go:57-77 | Recovery flushes every listed container and never fails the start. |
| Qdiscs.ApplyEffect | internal/backend/tc/tc.go:79-130 | Apply, on any netns: success means exactly the rule's tree; an inconsistent plan installs nothing; at every failure point each tree is on a recorded target or outlived a failed delete. |
| Qdiscs.ClearEffect | internal/backend/tc/tc.go:132-143 | Clear forgets its targets whatever happens, so only qdiscs whose delete failed can remain. |
| Qdiscs.ConsistentIff | internal/backend/tc/tc.go:97-118 | The pre-flight check passes exactly where every rule matched something and no container ID stands in two places. |
| Qdiscs.GoneIff | internal/backend/tc/tc.go:217-235 | A delete reports the qdisc gone exactly when it works in a netns, exits 2, or the PID is 0. |
| Qdiscs.ApplyToEffect | internal/backend/tc/tc.go:152-195 | A successful installation leaves exactly the rule's tree, even where an earlier delete had failed. |
| Qdiscs.UniqueRule | internal/backend/tc/tc.go:97-118 | In a plan that passes the pre-flight check a container is shaped by the one rule that targets it. |
| Tc.TreeIff | internal/backend/tc/tc.go:152-209 | Rules that pass validation install equal trees exactly when they ask for the same bandwidth, delay, jitter and loss. |
| Tc.Service.PreFlight | internal/backend/tc/tc.go:97-118 | Accepts exactly the plans in which every rule matched something and no container ID is targeted twice, and returns their targets. |
| Tc.Service.Apply | internal/backend/tc/tc.go:79-130 | Delete and forget the old targets, check, record, then install rule by rule up to the first failure. |
| Tc.Service.ApplyToContainer | internal/backend/tc/tc.go:152-195 | tbf with netem at 1:1, tbf alone, or netem at the root, after a delete whose failure is ignored. |
| Tc.Service.DelRootBestEffort | internal/backend/tc/tc.go:217-235 | PID 0 and exit code 2 count as gone. |
| Tc.Service.Clear | internal/backend/tc/tc.go:132-143 | Deletes in order and forgets. |
| Tc.Service.Start | internal/backend/tc/tc.go:59-75 | Recovery deletes the root qdisc of every listed container. |
| Conntrack.Service.Flush | internal/backend/conntrack/conntrack.go:54-75 | The six nested loops issue exactly the plan's teardown commands, in order, whatever fails, and report success. |
| Conntrack.RunEachEffect | internal/backend/conntrack/conntrack.go:54-110 | Teardown changes no netns, tries every command, and finds the kernel as quiet as it was. |
| Api.Service.HandlePutState | internal/api/api.go:202-249 | The order of checks, the pipeline, the new applied state, the event and the response, for every failure pattern. |
| Api.Service.Apply | internal/api/api.go:163-177 | The config path: no precondition, no tag, same pipeline. |
| Api.Service.HandleClear | internal/api/api.go:251-266 | Clear advertises the empty state whether or not it worked, and tells which in event and response. |
| Api.Service.GetState | internal/api/api.go:181-185 | GET returns a copy of the applied state. |
| Api.Service.ApplyPipeline | internal/api/api.go:395-429 | Resolve, clear, tear down, install rules, install qdiscs; each failure but that of the clear itself clears once more. |
| Api.Service.ClearBackends | internal/api/api.go:434-443 | tc first, then iptables; the outcome is that of iptables, as tc never reports one. |
| Api.ResolveIff | internal/api/api.go:445-487 | A state resolves exactly when every group query is answered and matches something, the groups of each partition are disjoint, and every target query is answered. |
| Api.ResolvePartitionsIff | internal/api/api.go:445-466 | And then each resolved partition carries its name, exactly the answers of its groups, the effective scope and its symmetry. |
| Api.ResolveShapingIff | internal/api/api.go:468-487 | Each resolved rule carries the answer of its target and its own parameters. |
| Api.Service.ResolveAllPartitions | internal/api/api.go:445-466 | Every group must resolve, be disjoint from its siblings and match something. |
| Api.Service.ResolveAllShaping | internal/api/api.go:468-487 | Every target must resolve; an empty one is left to the backend's pre-flight check. |
| Discovery.ResolveGroups | internal/discovery/discovery.go:217-234 | Answers exactly when every query is answered and no container ID lies in two groups, and then with the groups as queried. |
| Discovery.GroupedIff | internal/discovery/discovery.go:217-234 | Groups resolve exactly when every query is answered and no container ID lies in an earlier and a later group. |
| Matching.MatchingIff | internal/discovery/discovery.go:265-293 | "Multiple keys AND together" holds for every map iteration order and every container exactly when keys that qualify to the same label allow the same values, or nothing can match at all. |
| Matching.SpellingDecides | internal/discovery/discovery.go:265-293 | It does fail: with `client-type` and its prefixed form allowing different values, a beacon node is hit or missed as the visiting order has it, and the documentation says missed. |
| Matching.PromiseIff | internal/discovery/discovery.go:182-215 | For a selector, resolution picks exactly the containers that the schema promises (all for 'all', none for the empty selector, else alternatives within and conjunction across keys), from every listing and in every visiting order, exactly when the selector is not empty and its clashing keys agree, or nothing can match. |
| Matching.ResolvesAsPromised | internal/discovery/discovery.go:182-215 | One listing, one selector that is well spelled: a resolution that succeeds has exactly the promised containers of the enclave. |
| Matching.PicksIff | internal/discovery/discovery.go:182-293 | What a well-spelled selector picks, said in labels: of the containers listed, those of the enclave that carry for each key, completed by the prefix where it has no dot, one of its values; for 'all', those of the enclave. |
| Matching.SelectionConcat | internal/discovery/discovery.go:202-215 | A listing is answered from left to right, and a failed inspection of a hit fails it all. |
| Matching.SelectionOne | internal/discovery/discovery.go:202-215 | One listed container: skipped if it is no hit or of another enclave, an error if it is a hit that cannot be inspected. |
| Matching.EmptyPicksAll | internal/discovery/discovery.go:282-293 | The empty selector, which promises nothing, picks whatever is listed. |
| Matching.OneAnswer | internal/discovery/discovery.go:182-215 | A well-spelled selector has one answer per listing, failure included, whatever the visiting orders. |
| Matching.CloneAnswers | internal/api/api.go:327-345 | A stored copy of a selector wants what the original wants, and may be answered alike. |
| Matching.SelectionIff | internal/discovery/discovery.go:182-215 | Resolving fails exactly when inspecting a hit fails, and otherwise lists exactly the hits of the enclave. |
| Matching.Resolve | internal/discovery/discovery.go:182-215 | The loop over the listing answers as some visiting orders have it, and ends at the first failed inspection. |
| Matching.QualifyMatch | internal/discovery/discovery.go:272-278 | Visiting the keys in some order, the last of several clashing keys wins. |
| Matching.MatchLabels | internal/discovery/discovery.go:282-293 | Every wanted key must be there with one of its values. |
| Matching.ContainsString | internal/discovery/discovery.go:295-302 | Membership. |
| PortCatalog.ParseOfPrint | internal/discovery/discovery.go:359-393 | Printing any catalog, with or without application protocols, and parsing it gives back its ports in order. |
| PortCatalog.AcceptedRoundTrip | internal/discovery/discovery.go:359-393 | Whatever the parser accepts is printable and parses to itself again. |
| PortCatalog.ParseIff | internal/discovery/discovery.go:359-393 | A catalog is accepted, as these ports, exactly when its entries but for blank ones spell them in order: name, colon, digits of value 1 to 65535, slash, TCP or UDP in any case, and anything after a further slash. One malformed entry spoils it. |
| PortCatalog.ParsePorts | internal/discovery/discovery.go:359-393 | The loop over comma-separated entries: blanks are skipped, one bad entry spoils the list. |
| Decimals.ParsePortNumber | internal/discovery/discovery.go:395-410 | Accepts exactly digit strings of value 1 to 65535; the 32-bit accumulator never overflows, thanks to the early exit. |
| Decimals.PortNumberOfDecimal | internal/discovery/discovery.go:395-410 | Parsing the printed form of a port number gives the number back. |
| Decimals.Itoa | internal/webui/handlers/containers.go:107-127 | The 20-byte buffer never underflows; prints the decimal form of every 64-bit integer but the smallest, which prints as a bare minus sign. |
| Decimals.DecimalValue | internal/webui/handlers/containers.go:107-127 | The decimal form is a digit string of that value, without leading zeros. |
| State.Validate | internal/state/state.go:95-116 | Accepts exactly the states whose entries are well formed and whose names are unique across partitions and shaping. |
| State.CloneState | internal/api/api.go:276-353 | The copying loops compute the copy. |
| State.CloneIdempotent | internal/api/api.go:276-353 | A copy of a copy is that copy: what GET returns is what is applied. |
| State.CloneIff | internal/api/api.go:276-353 | A copy differs from the original in empty value lists only: without any, it is the original. |
| Json.DecodeValuesIff | internal/state/state.go:216-238 | A selector value decodes exactly when no boolean and no object occurs in it, at any depth. |
| Json.DecodeConcat | internal/state/state.go:216-238 | Arrays decode left to right, and where they nest makes no difference. |
| Json.DecodedLeaves | internal/state/state.go:216-238 | What decodes has one entry per leaf, in order: the text of a string or number, and the empty string for null. |
| Json.SpelledAlike | internal/state/state.go:216-238 | A number decodes like the string of its digits, at any depth of nested arrays. |
| Json.DecodeSelectorIff | internal/state/state.go:121-149 | What decodes as a selector, and to what: exactly the string 'all', or an object with at least one key and no boolean or object in any value. |
| Json.DecodeSelectorValues | internal/state/state.go:216-238 | The recursive decoder with its accumulator. |
| Json.RoundTripIff | internal/state/state.go:121-162 | Decoding undoes encoding exactly on selectors of the shape decoding produces. |
| Json.DecodeIsStable | internal/state/state.go:121-162 | Whatever decodes re-encodes and decodes to itself: the wire form is canonical after one pass. |
| Json.ReadBackIff | internal/api/api.go:338-345 | A stored selector reads back as itself exactly when none of its value lists is empty. |
| Backend.AllTargets | internal/backend/backend.go:35-50 | The three nested loops list every member once, in order of first appearance. |
| Backend.OtherGroupContainers | internal/backend/iptables/iptables.go:242-251 | Everybody outside one group, in plan order; conntrack carries the same function again and uses this one. |
| Backend.FirstByIdSound | internal/backend/backend.go:35-50 | The list keeps every ID, invents no container and repeats no ID. |
| Backend.TargetsCoverMembers | internal/backend/backend.go:32-50 | The targets reach the netns of every member, as long as an ID stands for one PID. |
| Scope.FilterPorts | internal/scope/scope.go:64-72 | The ports in scope, in catalog order. |
| Scope.MatchLoop | internal/scope/scope.go:42-61 | A port is hit exactly when one of the scopes hits it. |
| Scope.InScopeIff | internal/scope/scope.go:64-72 | A port is in scope exactly when it is in the catalog and some scope hits it. |
| EventLog.Ring.constructor | internal/webui/eventlog/eventlog.go:33-39 | A size below 1 becomes 200. |
| EventLog.Ring.Append | internal/webui/eventlog/eventlog.go:43-51 | Appends to the history; slot i keeps the youngest event whose number is i modulo the capacity. |
| EventLog.Ring.Snapshot | internal/webui/eventlog/eventlog.go:55-76 | Through wrap-around index and full flag: exactly the last min(n, capacity) events, newest first. |
| Process.Start | cmd/disruptoor/main.go:136-215 | A process that starts: both recoveries, a service with an empty ring, then the config; the state it leaves is that of a restart followed by a config apply, and it carries on exactly when there is no config or the config is valid and its apply succeeds. |
| Process.EventPage | internal/webui/eventlog/eventlog.go:55-76 | The event page of a running service tells by its first entry, or by having none, what GET returns. |
| Process.NewestTellsState | internal/webui/eventlog/eventlog.go:55-76 | After any run the newest entry alone, or its absence, determines the applied state. |
| Kernel.IssueEffect | internal/netns/netns.go:31-39 | A command reaches one netns only, fails where there is none, and is not even run under a PID below 1. |

## Left out

- The Docker client, inspection details (address collection, name fallback), `/proc/self/mountinfo` and enclave self-discovery: a listing and its inspections are inputs.
- Process execution, nsenter and context cancellation: only the outcome of a command and the PID check remain. Standard error is ignored, as the code ignores it.
- HTTP plumbing, timestamps, remote addresses, error texts and log lines. An event keeps its kind, source, state and, for a failure, the stage.
- An absent event callback: the model always records events.
- JSON byte syntax, duplicate keys, and field names that differ in case. `Clients` quantifies over every decoder of request bodies; the decoder itself is in `Wire`, on trees. YAML is taken as the JSON it is converted to.
- The rest of the web UI (templates, static files, `portLabel`, `shortID`), command-line flags, file reading, shutdown (two clears that nothing follows). Of the browser script only GET, edit and PUT with If-Match is modelled; the raw editor's page-load tag is the same step.
- Real netem and tbf behaviour, and IPv6: qdiscs are trees of arguments, addresses are opaque strings, and a rule never mentions an address family. Arguments that never vary (device, handles) are folded into the commands.
- Mutex internals and data races: requests are serialised by assumption, as the service's mutex does.
- PID reuse. A container that restarts dies and is spawned again under a PID that is neither alive nor on record.
- Protocols other than TCP and UDP, which the port parser rejects; and upper-casing beyond ASCII in protocol names.
- Nil and empty slices are told apart only in selector value lists, where the wire form depends on it. Maps are copied by comprehension.
- Matching.Resolve: the enclave and container-type filters that Docker itself applies are part of the listing, not checked again.
- Guarantees.Truthful: speaks of runs whose cleanups worked since the last restart, because the code forgets leaked qdiscs; `Truth.TruthIff` is exact for all runs.
- Safety.IntraGroupSafe: concerns one partition, as a second partition may well separate the same two containers; `Safety.UnionOfPartitions` adds up the rest.
