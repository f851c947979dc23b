# A verified model of vibe's daemon

vibe gives local dev servers names under a private TLD. Its daemon answers DNS for the TLD, keeps a table of
routes, starts and stops the processes behind them, bridges OAuth callbacks to git worktrees, shares routes
with paired machines, hands out ports and, on macOS, patches `pf.conf`. This project models the parts of it
where correctness needs a whole loop, a whole protocol or a whole run, and proves what they promise.
`dafny verify dfyconfig.toml` checks everything.

The model follows the source's own shape. Loops and in-place updates are methods and classes, each proved equal
to a function of the old state or to the property its code promises. Goroutines, timers, handlers and the
network are state machines (`Runs.Machine`): an event is one critical section, one atomic access or one message,
and a main result is about the state after every legal sequence of events.

| file | what it models |
|---|---|
| `Processes.dfy`, `ProcessRuns.dfy` | `ProcessManager`: spawn, adopt, stop, reap, the one-second startup window; its runs |
| `Timers.dfy`, `TimerRuns.dfy` | TTL and idle timers armed and cancelled by the route table's hooks; their runs |
| `StopExit.dfy`, `StopExitRuns.dfy` | stop paths, starts, registration, exit reports and handlers and the readiness poll of one route name, one atomic access or critical section at a time |
| `StopStarts.dfy` | that their starts, stops and reports are the process manager's |
| `StopBlame.dfy`, `StopBlameRuns.dfy` | which starts let the exit handler take a stop for a crash |
| `StopFailure.dfy` | exactly when a stopped route can still be given a failure |
| `StopLate.dfy`, `StopPoll.dfy` | threads that act for an older pid; the poll's turns alone, and runs that blame a stop |
| `OwnerProbe.dfy` | the port-ownership probe shared by concurrent requests |
| `Pairing.dfy`, `PairingRuns.dfy` | pairing with one-time codes, and its runs over a hostile network |
| `PeerName.dfy`, `PeerListener.dfy`, `PeerRows.dfy`, `PeerSync.dfy`, `PeerSyncRuns.dfy` | peer names, the list a peer serves, its readers, its cache and the runs that fill it |
| `DnsWire.dfy`, `DnsFormat.dfy`, `DnsServer.dfy`, `DnsReplies.dfy` | a decoder for messages and that it reads the format, the server's parser and builders, what connects them |
| `Urls.dfy`, `RouteNames.dfy`, `OAuthState.dfy`, `OAuthBridge.dfy`, `JsonTag.dfy`, `BridgeListeners.dfy` | the OAuth bridge |
| `PfConf.dfy` | the `pf.conf` patcher and its inverse |
| `Ports.dfy`, `ReservePorts.dfy` | port claims, port assignment, validation of reserve ports |
| `Text.dfy`, `Runs.dfy` | string and sequence facts; runs and invariants |

## What came out false

Where the code does not keep a natural promise, the code is modelled as it is, a lemma gives a run or an input
that shows it, and the exact condition is proved beside it.

- A child can be lost: `Adopt` while a dead predecessor is not yet reaped, then `Stop`, which signals the dead pid
  and forgets the live one (`UnreapedPredecessorLosesAdopted`; the condition is `LosesExactlyWhenHarmful`).
- An intentional stop can leave a failure behind through the readiness poll: by a tick between the kill and the
  clearing of the pid (`PollBlamesAStop`), by a tick that loads the pid before a stop begins and probes it when the
  stop is long over (`StraddlingTickBlamesAStop`), by a deadline that comes after the stop, since it does not look
  whether the route still runs (`DeadlineBlamesAStop`), or by one that dials before the stop and records after it
  (`StraddlingDeadlineBlamesAStop`). For every reachable state it is proved exactly when what is under way can still
  do so: `TickBlamesExactly`, `DeadlineBlamesExactly`, and `StoppedRouteFailsExactly` for any failure at all.
- The exit handler can take a stop for a crash, but only after a careless start, one whose events leave the route
  marked running while a stopped child's exit can still be handled (`StopNeverBlamed`). An ordinary quick restart,
  a stop during a start, and a registration made while the exit of the stopped child is still to be reported are
  careless (`CarelessRestart`, `StopDuringStart`, `CarelessRegistration`), and every careless start can end in a
  recorded failure (`CarelessExactly`, `CarelessStartIsBlamed`). Starts that overlap nothing are not careless
  (`QuietStartsAreCareful`).
- An adoption that loses the race with its child's exit brings a second notification of that exit
  (`LateAdoptionReportsAgain`; the bound is `EachReporterOnce`).
- A late exit handler, or a late tick, changes a route that has a newer pid if and only if it was past its check, or
  had loaded its pid, when the start published the newer one (`LateExitExactly`, `LateTickExactly`).
- A DNS reply to a query with two or more questions is never a well-formed message: one question is echoed and the
  count is kept (`LocalReplyDecodesExactly`, `ServfailDecodesExactly`).
- A single DNS label that contains a dot passes as a name under the TLD (`DottedLabelPasses`).
- An app whose own OAuth state begins with vibe's tag prefix, that sends two states, or whose redirect URI has a
  state of its own, does not get its callback back unchanged (`CallbackReturnsToTheWorktree` is an equivalence).
- Peers are paired by fingerprint but cached by name. Two hosts can have one name (`HostsCollide`); then refreshing
  one replaces the other's routes and requests go to the wrong machine (`SharedNameMixesPeers`).
- Two overlapping refreshes of one peer can leave a stale list that the peer believes current
  (`OverlapLeavesStaleCache`): exactly when a 304 answers a tag that is no longer the cached one
  (`ReceiptAgreesExactly`).
- A certificate reload that is overtaken by another leaves a cached name off the certificate, with every reload
  successful and none left to come (`OvertakenReload`; the condition is `ProvidedExactly`).
- The dashboard shows a shadowed route as reachable if the peer that wins its name has no name itself, which pairing
  allows (`NamelessPeerHidesShadowing`; the condition is `ListingsAgreeExactly`).
- Both listings show a peer's route called `local` as reachable, while the dashboard answers that name
  (`UnshadowedIsServed` and `ShownIsServed` are equivalences).
- Uninstalling does not restore a `pf.conf` whose last line is only spaces, if it has any rule (`SpacesAreLost`,
  `StripUndoesPatch`).
- When ports 3000-3999 are exhausted the operating system may hand out a port that a stopped route claims
  (`FallbackCollides`, `AssignedPortsAreExclusive`).

## Assumptions

- A pid is never reused, so it also stands for its `*exec.Cmd`. A live process answers the liveness probe.
  In `StopExitRuns.dfy` and what builds on it a child exits when the probe stops answering, that is, when it has been waited for.
- In `StopExitRuns.dfy` a route has one start at a time. It begins with the child past its startup window, spawned, found
  running or adopted, and stores pid, running, ready and failure; a registration first puts a new Route, marked
  running, into the table, and whatever still holds the old Route goes on with that one. A spawned child is reported
  once, by its waiter; an adopted one by a watcher, as long as it is still adopted.
- A table write and its hooks are one step, and so are each timer or exit callback and `handlePeerPair`.
  Callbacks of stopped timers may still run, arbitrarily late. A timer the server still points at fires and runs
  on time; only the upper bounds on expiry and idling rest on that.
- HMAC is a free constructor, ETags are collision-free, and TLS tells each end the true fingerprint of the other.
- URL parsing and rendering are parameters, faithful on web URLs (`Urls.Faithful`); a URL is its scheme, host, path
  and query multimap.
- Certificate reloads run concurrently and share their two files. Writing both is one step and loading both another;
  a reload that would load the certificate of one run and the key of another fails, and failing reloads are left out.
- DNS names are lower-cased as ASCII. Clocks, liveness, bindable ports, persistence failures and a peer's answers are inputs.

## Model

| member | source | states |
|---|---|---|
| `Processes.ProcessManager.Start` | internal/daemon/process.go:124-190 | the locked part of Start: the pid it answers without starting anything is exactly that of the spawned entry if it is alive, else that of the adopted one if that is; otherwise a missing command is an error, and a child that can be started is the answer and takes the place of both entries |
| `Processes.ProcessManager.Adopt` | internal/daemon/process.go:93-120 | re-adopting the tracked pid changes nothing and starts no watcher; any other pid replaces the entry |
| `Processes.ProcessManager.Stop` | internal/daemon/process.go:291-313 | both entries of the name go and nothing else does; the spawned pid is signalled if there is one, else the adopted one |
| `Processes.ProcessManager.Reap` | internal/daemon/process.go:209-227 | the waiter drops its own entry and no other, and notifies only if Start had committed |
| `Processes.ProcessManager.Commit` | internal/daemon/process.go:244-254 | Start commits exactly when the waiter has not recorded an early exit |
| `Processes.ProcessManager.WatchedExit` | internal/daemon/process.go:107-119 | the watcher of an adopted pid drops and reports it only while it is still the adopted one |
| `ProcessRuns.LosesExactlyWhenHarmful` | internal/daemon/process.go:93-313 | from any sound state, an event loses a live unstopped child or tracks two live pids if and only if it is a Stop behind another pid or an Adopt over or beside another live pid |
| `ProcessRuns.KeptExactly` | internal/daemon/process.go:93-313 | over every run: each live child not stopped is tracked throughout, and no name ever tracks two live pids, if and only if none of the run's events is harmful when it comes |
| `ProcessRuns.NoLostChild` | internal/daemon/process.go:93-313 | so it is in every run in which each Adopt finds nothing tracked for its name but that pid itself, or an adopted pid that has exited |
| `ProcessRuns.UnreapedPredecessorLosesAdopted` | internal/daemon/process.go:295-301 | a run of three harmless events and one Stop after which a live adopted child is in neither table |
| `ProcessRuns.StartAnswersTheServingChild` | internal/daemon/process.go:124-190 | after every run of that kind, starting a name with a live unstopped child answers that child and changes nothing, any pid answered is tracked for the name, and a Start that meets no live entry makes its new child the answer and the only one serving |
| `ProcessRuns.StopReachesTheServingChild` | internal/daemon/process.go:291-313 | after every run of that kind, stopping a name leaves no child of it serving or tracked, signals nothing that was not tracked for it, and leaves other names alone |
| `ProcessRuns.ExitedChildIsReplaced` | internal/daemon/process.go:124-190 | a run in which a spawned child that has exited is replaced by a Start |
| `ProcessRuns.ExitedAdoptedIsReplaced` | internal/daemon/process.go:142-149 | a run in which an adopted one is |
| `ProcessRuns.ExitReportedOnce` | internal/daemon/process.go:192-257 | in every interleaving of timer, exit, waiter and Start, the waiter brings an exit to Start's error or to one notification of its own, never both, and never before the commit |
| `ProcessRuns.EarlyExitIsTheError` | internal/daemon/process.go:207-256 | a run in which an exit inside the first second reaches Start as its error and nobody is notified |
| `ProcessRuns.EachReporterOnce` | internal/daemon/process.go:93-119 | in every run the waiter notifies of an exit at most once, and the watchers of a name at most once more often than adoptions of the pid came after its exit; never while the process lives |
| `ProcessRuns.LateAdoptionReportsAgain` | internal/daemon/process.go:93-119 | a run in which such an adoption brings a second notification |
| `ProcessRuns.BothReport` | internal/daemon/process.go:107-119 | a run in which both do |
| `ProcessRuns.ReportIsNeverStuck` | internal/daemon/process.go:207-256 | a dead child whose exit is not settled always has a step to take that brings the report nearer |
| `ProcessRuns.PendingNeverGrows` | internal/daemon/process.go:207-256 | and no event of any other goroutine sets it back |
| `Timers.Server.ArmTtlTimer` | internal/daemon/managed_timers.go:40-70 | one countdown in place of the old one, due at the deadline but not in the past |
| `Timers.Server.ArmIdleTimer` | internal/daemon/managed_timers.go:78-90 | only an idle-timeout route in the table is armed, for its timeout, and its old countdown ends |
| `Timers.Server.RouteAdded` | internal/daemon/managed_timers.go:11-22 | a TTL route gets the countdown to its deadline, an idle route its own, any other none |
| `Timers.Server.RouteRemoved` | internal/daemon/managed_timers.go:25-36 | both entries and both countdowns of the name end, and no others |
| `Timers.Server.AddRoute` | internal/daemon/routes.go:164-182 | an overwrite runs the remove hook before the add hook, so that the entries left are those of the new route's kind |
| `Timers.Server.RemoveRoute` | internal/daemon/routes.go:184-196 | removing runs the hook once, and only if the name was there |
| `Timers.Server.TtlCallback` | internal/daemon/managed_timers.go:49-68 | the callback removes only a TTL route past its own deadline |
| `Timers.Server.IdleCallback` | internal/daemon/managed_timers.go:92-116 | stops the route exactly if it has been idle for its timeout, touches no other, and looks again after a second at the earliest |
| `Timers.Server.Rearm` | internal/daemon/managed_timers.go:120-129 | re-arms after at least a second, only while the route has an entry |
| `TimerRuns.TtlRoutesExpireOnTime` | internal/daemon/managed_timers.go:11-70 | after every run, with stale callbacks delayed at will, `ttlTimers` holds exactly the TTL routes of the table, as last written, each due at its current deadline; none outlives that, its own callback removes it, and a callback removes a route if and only if it is that name's TTL callback and the route is a TTL route past its own deadline |
| `TimerRuns.IdleRoutesStopInTime` | internal/daemon/managed_timers.go:72-129 | measured against a record of the events alone: a callback stops a running route if and only if it is that name's idle check, the route has a timeout T, and T has passed since the last activity recorded for it, or since its registration if there was none; and no running idle route is left running more than T + 1s after the latest of its activity, its start and its table write |
| `TimerRuns.TtlRouteExpires` | internal/daemon/managed_timers.go:38-70 | a run for every TTL route: in the table until its deadline, and out of it then |
| `TimerRuns.UsedRouteStopsLater` | internal/daemon/managed_timers.go:72-129 | a run for every idle route used while its countdown runs: still running when that ends, and stopped T after the use |
| `StopExit.Route.HandleManagedExit` | internal/daemon/managed_exit.go:13-32 | exactly which exits are ignored, what the others leave, and that a failure is recorded only for a route that was marked running and had none |
| `StopExit.Route.PollTick` | internal/daemon/api.go:1361-1386 | one tick of the readiness poll, all of what it leaves: a dead tracked pid is a failure, an answering port is ready, and the poll goes on exactly while neither holds and the route runs |
| `StopExit.Route.PollDeadline` | internal/daemon/api.go:1332-1360 | at the deadline a silent port is a failure, whether the route still runs or not |
| `StopExitRuns.HandlerAlone` | internal/daemon/managed_exit.go:13-32 | the handler's atomic steps, uninterrupted, are its whole body |
| `StopPoll.TickAlone` | internal/daemon/api.go:1361-1386 | and so are a tick's |
| `StopPoll.DeadlineAlone` | internal/daemon/api.go:1332-1360 | and the deadline's |
| `StopExitRuns.StopAlone` | internal/daemon/api.go:1162-1184 | a stop request or an idle check, uninterrupted, signals the spawned child or else the adopted one, forgets both and leaves the route stopped and without a pid |
| `StopExitRuns.RemovalAlone` | internal/daemon/api.go:764-785 | the two stop paths that remove the route signal the same child and take the route out |
| `StopExitRuns.StopsStoreBeforeTheySignal` | internal/daemon/api.go:1168-1176 | every stop path marks the route stopped before it signals and clears the pid only afterwards |
| `StopExitRuns.StartAlone` | internal/daemon/api.go:1137-1152 | a start, uninterrupted, leaves the route running with its child's pid and no failure, and which entry holds the child |
| `StopStarts.StartsAreStart` | internal/daemon/process.go:124-190 | such a start spawns, or finds the child running, exactly when Start of the process manager does, and leaves the same entries |
| `StopStarts.StopsAreStop` | internal/daemon/process.go:93-313 | a stop signals whom Stop of the process manager signals, and an adoption leaves what Adopt leaves |
| `StopStarts.WatchedIsWatched` | internal/daemon/process.go:107-119 | the watcher of an adopted child reports an exit when the process manager's does, and leaves the same entries |
| `StopStarts.ReapIsReap` | internal/daemon/process.go:207-227 | and so does the waiter of a child whose start has committed |
| `StopExitRuns.RegisterReplaces` | internal/daemon/api.go:628-737 | a registration puts a new Route, marked running, into the table; threads of the old one are out of sight, and stops go on with it |
| `StopExitRuns.StaleStopsTouchNoCell` | internal/daemon/api.go:1162-1176 | and such a stop changes nothing in the new Route, but still signals, and removes, by name |
| `StopBlame.StopNeverBlamed` | internal/daemon/managed_exit.go:13-32 | in every interleaving of the four stop paths' steps with starts, registrations, exits, their reports and handlers, and polls, as long as no start is careless, the handler records a failure only for a child that crashed, none for one a stop had signalled |
| `StopBlame.QuietStartsAreCareful` | internal/daemon/api.go:1137-1152 | starts that meet no stop, handler or tick, of children no stop has signalled, are never careless; nor are registrations once the exits of stopped children have been reported |
| `StopBlameRuns.CarelessExactly` | internal/daemon/managed_exit.go:18-31 | a start's event is careless if and only if the events of others alone can then lead the handler to take a stop for a crash |
| `StopBlameRuns.CarelessStartIsBlamed` | internal/daemon/managed_exit.go:18-31 | after every careless start, the threads under way, the exit and the reports still due can end in a failure recorded for a child that was stopped |
| `StopPoll.CarelessRestart` | internal/daemon/api.go:1137-1152 | a quick restart is careless: the old child's handler is past its check when the new start marks the route running |
| `StopPoll.StopDuringStart` | internal/daemon/api.go:1162-1184 | so is a start that stores its running flag after a stop has stored its own and before that stop signals |
| `StopPoll.CarelessRegistration` | internal/daemon/api.go:628-737 | so is a registration over a stopped route whose child's exit is still to be reported |
| `StopLate.LateExitChangesNothing` | internal/daemon/managed_exit.go:18-31 | while no start publishes its pid past a handler of another pid that has passed its check, a late handler changes nothing of a route with a newer pid |
| `StopLate.LateExitExactly` | internal/daemon/managed_exit.go:18-31 | and publishing it past such a handler is exactly what can let one change the route |
| `StopLate.LateTickChangesNothing` | internal/daemon/api.go:1361-1373 | the same for a tick that has loaded another pid |
| `StopLate.LateTickExactly` | internal/daemon/api.go:1361-1373 | in both directions |
| `StopFailure.TickBlamesExactly` | internal/daemon/api.go:1361-1373 | in every reachable state, for a child that a stop has signalled: what is under way can record it as exited before ready if and only if some tick has loaded its pid, or is about to |
| `StopPoll.ProbeDecides` | internal/daemon/api.go:1361-1373 | in every interleaving, a probe sends the tick to record an early exit if and only if the child is dead then, and whether that blames a stop is settled from then on |
| `StopFailure.DeadlineBlamesExactly` | internal/daemon/api.go:1332-1360 | in every reachable state of a route marked stopped: what is under way can leave it with the failure of a port never bound if and only if some poll stands at its deadline |
| `StopFailure.StoppedRouteFailsExactly` | internal/daemon/managed_exit.go:18-31 | in every reachable state of a route marked stopped, without a failure: what is under way can give it one if and only if a handler has found it running before, a poll stands at its deadline, or a tick has loaded a pid or is about to |
| `StopPoll.PollBlamesAStop` | internal/daemon/api.go:1162-1184 | a run in which a tick between kill and clearing blames a stopped child |
| `StopPoll.StraddlingTickBlamesAStop` | internal/daemon/api.go:1361-1373 | a run in which a tick does so with no stop under way |
| `StopPoll.DeadlineBlamesAStop` | internal/daemon/api.go:1332-1360 | a run in which the deadline does |
| `StopPoll.StraddlingDeadlineBlamesAStop` | internal/daemon/api.go:1332-1358 | a run in which the deadline dials before the stop begins and records after it has ended |
| `OwnerProbe.OneProbeInFlight` | internal/daemon/daemon.go:552-577 | however callers interleave, at most one probe of a route runs |
| `OwnerProbe.HealthyVerdictHolds` | internal/daemon/daemon.go:552-577 | after a healthy verdict stored at T no caller that read its clock before T + 3s starts a probe |
| `OwnerProbe.TrueOnlyWhenForeign` | internal/daemon/daemon.go:552-577 | true is answered only while the last stored verdict is foreign |
| `OwnerProbe.AnswersExactly` | internal/daemon/daemon.go:552-577 | in every run a call answers the verdict of its own probe; if it made none, the stored verdict it loaded after losing the swap; otherwise false, and then it had met a healthy verdict less than three seconds old |
| `OwnerProbe.CallAlone` | internal/daemon/daemon.go:552-577 | from any state, an uninterrupted call ends within ten steps, with exactly the answer and stored verdict its case asks for |
| `OwnerProbe.ProbedAgain` | internal/daemon/daemon.go:552-577 | three seconds after a healthy verdict the next call probes again |
| `Pairing.ProofBindsRoles` | internal/peer/pairing.go:29-38 | a proof determines the code, the sender and the receiver |
| `Pairing.StoredKeepsOrder` | internal/daemon/peer_pair.go:214-230 | storing keeps every listed fingerprint and its place, and adds the new one |
| `Pairing.StoredReplacesTheFirst` | internal/daemon/peer_pair.go:214-230 | a re-pair refreshes name, host and port of the entry in its place, keeps when it was added, and leaves every other entry as it is |
| `Pairing.StoredAppends` | internal/daemon/peer_pair.go:214-230 | an unknown fingerprint is appended as it came |
| `Pairing.Server.OpenPeerInvite` | internal/daemon/peer_pair.go:45-62 | one open code, for five minutes, in place of any other |
| `Pairing.Server.StorePeer` | internal/daemon/peer_pair.go:214-230 | the loop replaces the entry with this fingerprint, keeping when it was added, or appends |
| `Pairing.Server.HandlePeerPair` | internal/daemon/peer_pair.go:69-121 | a request is accepted exactly if a code is open, its time is not over and the proof is the code's for sender and receiver; what is stored then, when the code is cleared and the proof sent back; any other request changes nothing |
| `PairingRuns.PairingAgreement` | internal/daemon/peer_pair.go:69-209 | whatever the network relays, replays or forges: if only A and B know the code, a success pins B's real fingerprint at A and B had stored A; B stores nobody else under the code; and one code saves at most one pairing |
| `PairingRuns.ProofsCannotBeReflected` | internal/peer/pairing.go:24-33 | no proof the network can produce under the code is accepted in the other role |
| `PairingRuns.CodesAreAcceptedExactlyInTime` | internal/daemon/peer_pair.go:45-121 | in every adversarial run each pairing comes less than five minutes after its code was opened, and a request to B is accepted if and only if B opened its last code less than five minutes ago, nothing was saved under it, and the proof is the one code, sender and B determine; any other leaves B as it was, unanswered |
| `PairingRuns.HonestPairingSucceeds` | internal/daemon/peer_pair.go:45-209 | a run, for any two daemons and any wait below five minutes, that ends with both paired |
| `PairingRuns.FinishExactly` | internal/daemon/peer_pair.go:185-209 | the initiator ends paired exactly if the answer is the proof its code and both ends determine and the peer could be saved; a wrong answer changes no list |
| `PairingRuns.NetworkKeepsEverything` | internal/daemon/peer_pair.go:69-209 | in every run the network has every proof that was sent or answered and every code that leaked, so the agreement is against all of them |
| `PairingRuns.LeakedCodePairsAnyone` | internal/daemon/peer_pair.go:69-121 | a run that shows the secrecy of the code is needed |
| `PeerName.SanitizeName` | internal/peer/pairing.go:43-64 | the loop with its pending-dash flag computes the collapsed, trimmed name |
| `PeerName.NameJoinsTheRuns` | internal/peer/pairing.go:43-64 | the name is the runs of letters and digits of the lower-cased host, less a final ".local", joined by single dashes, or "peer" if there are none |
| `PeerName.PeerNamesAreTheFixedPoints` | internal/peer/pairing.go:40-64 | results are non-empty, of letters, digits and single inner dashes, and these are exactly the hosts left unchanged |
| `PeerName.HostsCollide` | internal/peer/pairing.go:43-64 | two hosts with one name |
| `PeerListener.HandlePeerRoutes` | internal/daemon/peer_listener.go:169-223 | the body is every route but bookmarks, with liveness probed for unmanaged ones in any order of completion, ascending by name; 304 exactly when the client has the body's tag |
| `PeerListener.Probe` | internal/daemon/peer_listener.go:195-207 | the probes, completing in any order, each change only their own element |
| `PeerListener.SortByName` | internal/daemon/peer_listener.go:208 | an ascending permutation |
| `PeerListener.LessIsLexicographic` | internal/daemon/peer_listener.go:208 | the order of names is that of the first place where they differ, a proper prefix first |
| `PeerListener.BodyIgnoresOrder` | internal/daemon/peer_listener.go:166-223 | however the table lists its routes, body and so tag are the same: strictly ascending, no name twice, no bookmark |
| `PeerRows.PeerRouteFromCache` | internal/daemon/peer_sync.go:224-239 | the first cached route of that name in peers.json order, none if and only if no peer lists it |
| `PeerRows.LookupIsTheFirst` | internal/daemon/peer_sync.go:224-241 | the answer is settled: the first row of the name, and none exactly if no row has it |
| `PeerRows.RowsInOrder` | internal/daemon/peer_sync.go:222-241 | the cached routes are read peer by peer in the order of the list, each under its peer |
| `PeerRows.ServeDashboardPeers` | internal/daemon/dashboard.go:244-275 | each row says who has its name: this machine, the first peer that lists it, or, if it is that first row itself, nobody |
| `PeerRows.WriteRouteTablePeers` | cmd/list.go:98-124 | the same for the command line's loop, which keeps its own bookkeeping |
| `PeerRows.RowsAreShownAsCached` | internal/daemon/dashboard.go:244-275 | both listings show every row under its own name and peer, and a name of this machine as shadowed |
| `PeerRows.FindPeerRoute` | internal/daemon/peer_sync.go:195-206 | the first cached row of the name, or after a total miss the first one the sweep has brought |
| `PeerRows.RouteRequest` | internal/daemon/daemon.go:338-515 | who answers a name: dashboard, local route, with peers enabled the first peer before or after the sweep, the app of a worktree host if it is known, else the dashboard |
| `PeerRows.ServedExactly` | internal/daemon/daemon.go:338-515 | when each of the four answers is given: dashboard, local route, the first row of the name in the cache or after the sweep if peers are enabled, the app of a worktree's host |
| `RouteNames.WorktreeHosts` | internal/daemon/worktree.go:46-55 | a host has the parent found if and only if it is one label, a dot and that label |
| `PeerRows.OneUnshadowedRow` | internal/daemon/dashboard.go:244-275 | a non-local listed name has exactly one unshadowed row, any other name none |
| `PeerRows.UnshadowedIsServed` | cmd/list.go:98-124 | the command line shows a row unshadowed exactly when a request for its name is served by that row, for all rows if and only if none is named `local` |
| `PeerRows.ListingsAgreeExactly` | internal/daemon/dashboard.go:244-275 | the dashboard agrees with the command line on every row if and only if no nameless peer is the first of a non-local name that occurs again |
| `PeerRows.ShownIsServed` | internal/daemon/dashboard.go:222-275 | and with what is served if and only if both conditions hold |
| `PeerRows.NamelessPeerHidesShadowing` | internal/daemon/peer_pair.go:195-201 | two peers, the first without a name, and the row shown wrongly |
| `PeerRows.PeerRouteNames` | internal/daemon/peer_sync.go:243-261 | every cached name once |
| `PeerRows.TlsHostnames` | internal/daemon/daemon.go:262-282 | the certificate names the dashboard, every local route and every cached peer route, and nothing else |
| `PeerSync.SameRouteNames` | internal/daemon/peer_sync.go:179-193 | equal lengths and every name of the second among the first |
| `PeerSync.SameNamesOfDistinct` | internal/daemon/peer_sync.go:179-193 | for lists without repeated names, exactly equality of the name sets |
| `PeerSync.RepeatedNameHidesOne` | internal/daemon/peer_sync.go:179-193 | with a repeated name it is not |
| `PeerSync.Server.RefreshPeerRoutes` | internal/daemon/peer_sync.go:102-171 | one refresh run without interruption: nothing happens if it is not forced and less than three seconds have passed since the last one began, or one is under way; otherwise 304, 200 and failure, the times and the failure mark kept, and when the certificate is rebuilt |
| `PeerSync.Server.PeerCacheCold` | internal/daemon/peer_sync.go:212-222 | cold exactly while some peer has neither answered nor failed |
| `PeerSync.Server.ReloadTLSCert` | internal/daemon/daemon.go:286-307 | run without interruption, it covers exactly the cached names, as far as peers go; a failure leaves the old certificate |
| `PeerSyncRuns.OneRefreshInFlight` | internal/daemon/peer_sync.go:102-171 | in every interleaving at most one refresh of a name is between taking its guard and giving it back, and the guard is set exactly while there is one |
| `PeerSyncRuns.CacheAgreesWithItsSource` | internal/daemon/peer_sync.go:102-171 | with distinct peer names and refreshes of one peer not overlapping, after every run each peer's cache is the list it had when it last answered, with 200 or 304; failures change nothing |
| `PeerSyncRuns.ReceiptAgreesExactly` | internal/daemon/peer_sync.go:102-171 | in every interleaving, overlaps included, an answer makes the cache agree with the peer unless it is a 304 to a tag no longer cached, and then it never does; no other event changes agreement |
| `PeerSyncRuns.CacheAgreesUnlessStale` | internal/daemon/peer_sync.go:102-171 | so overlapping refreshes too keep the agreement while no such 304 is received |
| `PeerSyncRuns.CertificateCoversTheCache` | internal/daemon/daemon.go:286-307 | in every interleaving of refreshes and of the steps of reloads in which no reload is overtaken, the certificate covers every cached name whenever no reload is under way |
| `PeerSyncRuns.ProvidedExactly` | internal/daemon/daemon.go:286-307 | while each cached name is covered or on its way, an event ends that if and only if it is a reload's write or store that is overtaken |
| `PeerSyncRuns.OvertakenLeavesUncovered` | internal/daemon/daemon.go:286-307 | and then, however the reloads under way finish, a cached name stays uncovered |
| `PeerSyncRuns.OvertakenReload` | internal/daemon/daemon.go:286-307 | a run with refreshes of two peers that ends so |
| `PeerSyncRuns.SharedNameMixesPeers` | internal/daemon/peer_sync.go:69-78 | two peers with one name: the first one's list is lost and the second one's routes are looked for at the first |
| `PeerSyncRuns.OverlapLeavesStaleCache` | internal/daemon/peer_sync.go:104-114 | overlapping refreshes: a 304 against a tag read too early leaves the wrong list |
| `DnsServer.ParseQuestion` | internal/dns/server.go:198-234 | accepts exactly the messages with a first question, and returns its dot-joined name, type and class |
| `DnsServer.QuestionEnd` | internal/dns/server.go:324-354 | the second walker ends where the first question ends, 12 if none is claimed, -1 exactly if parseQuestion fails on a claimed one |
| `DnsServer.Servfail` | internal/dns/server.go:291-318 | the bytes written in place are the reply specified, the query itself below 12 bytes |
| `DnsServer.BuildLocalResponse` | internal/dns/server.go:246-282 | likewise, with the answer appended for type A |
| `DnsServer.Handle` | internal/dns/server.go:142-164 | which queries are dropped, answered here, relayed, or failed |
| `DnsReplies.ParsesExactlyTheEncodings` | internal/dns/server.go:195-234 | a question is found, ending at an offset, if and only if the bytes there are its encoding under section 4.1.2 of RFC 1035 with labels of 1 to 63 bytes, whatever follows |
| `DnsReplies.SameQuestion` | internal/dns/server.go:198-234 | only the bytes of the question matter to the parser |
| `DnsReplies.LocalReplyIsWellFormed` | internal/dns/server.go:236-282 | for one question the reply decodes completely to: ID, opcode, AA, TC, RD and Z of the query, QR and RA set, RCODE 0, that question, and for A one record 127.0.0.1 with TTL 60 under the question's name |
| `DnsReplies.ServfailIsWellFormed` | internal/dns/server.go:284-318 | the same for RCODE 2, with the question if it is well formed and none otherwise |
| `DnsReplies.LocalReplyDecodesExactly` | internal/dns/server.go:246-282 | for every input, whether the reply is a complete message |
| `DnsReplies.ServfailDecodesExactly` | internal/dns/server.go:291-318 | for every input, whether the failure is a complete message |
| `DnsReplies.ManyQuestionsNeverDecode` | internal/dns/server.go:253-259 | with two or more questions claimed nothing either builder returns decodes |
| `DnsReplies.RepliesIgnoreTheRest` | internal/dns/server.go:240-245 | replies depend on ID, flags, count and question alone |
| `DnsReplies.AnsweredHereExactly` | internal/dns/server.go:140-164 | which queries get no reply, which are relayed, and which are answered or failed here, for every message |
| `DnsReplies.OwnRepliesAnswerTheQuestion` | internal/dns/server.go:140-164 | of a query with one question: type 1 or 28 in class 1 under the TLD is answered here, loopback for type 1 and nothing for type 28; any other is relayed, or failed with RCODE 2 if upstream gives nothing; what the server makes itself decodes to that question under the query's ID |
| `DnsReplies.TldIsTheLastPiece` | internal/dns/server.go:186-193 | the TLD test compares the piece after the last dot, for every name and dot-free TLD |
| `DnsReplies.TldIsTheLastLabel` | internal/dns/server.go:184-193 | for dot-free labels it holds exactly when the last label is the TLD ignoring case |
| `DnsReplies.TrailingDotIsDropped` | internal/dns/server.go:186-193 | one dot at the end of a name makes no difference to that |
| `DnsReplies.DottedLabelPasses` | internal/dns/server.go:225-233 | a single dotted label passes |
| `RouteNames.LegalNames` | internal/daemon/worktree.go:23-44 | a legal name has no '!', and a worktree's name is its own label, a dot and its app's name |
| `RouteNames.LegalExactly` | internal/daemon/worktree.go:23-44 | the legal names are exactly the labels, and two labels other than "local" with a dot between them, the second being the parent |
| `OAuthState.TagRoundTrip` | internal/daemon/oauth_worktree.go:44-61 | a state unwraps to a route and an original if and only if it is their wrapping |
| `OAuthState.TagAuthorizeURL` | internal/daemon/oauth_worktree.go:109-123 | which URLs are tagged, and that only the state changes |
| `OAuthState.TaggedOnce` | internal/daemon/oauth_worktree.go:103-123 | a tagged URL differs, parses to the tagged URL and is not taggable again |
| `OAuthState.RewritesExactlyBridgeUrls` | internal/daemon/oauth_worktree.go:98-123 | a string is rewritten if and only if it is a web URL whose redirect URI is on one of the bridge's two hosts and whose state has no tag; then only its state changes, and any other string is left as it is |
| `Urls.DecimalReadsBack` | internal/daemon/oauth_worktree.go:98-101 | the port in those host names is written as digits that read back as the port |
| `OAuthState.Response.TagOAuthAuthorizeRedirect` | internal/daemon/oauth_worktree.go:81-96 | only a 3xx Location that qualifies changes |
| `OAuthBridge.HandleOAuthCallbackBridge` | internal/daemon/oauth_bridge.go:100-134 | the loop and the rewriting amount to: first owner of the port, tag read, worktree of that owner or the owner itself |
| `OAuthBridge.StrangersGoToTheOwner` | internal/daemon/oauth_bridge.go:100-134 | a callback whose state is not the tag of a worktree of the owner, one without a state included, goes to the owner with only scheme and host changed |
| `OAuthBridge.TagsGoToTheirWorktree` | internal/daemon/oauth_bridge.go:117-130 | one whose state is such a tag goes to the worktree, with the state it wraps, or none |
| `OAuthBridge.OnlyUnownedIsNotFound` | internal/daemon/oauth_bridge.go:100-111 | not found exactly for a port no route owns |
| `OAuthBridge.OthersAreNotTagged` | internal/daemon/oauth_worktree.go:63-74 | the responses of a route with a bridge of its own, or whose parent has none, are left alone |
| `OAuthBridge.CallbackReturnsToTheWorktree` | internal/daemon/oauth_bridge.go:100-134 | for every URL string the app writes that is bound to the bridge: through proxy, provider (sections 3.1.2 and 4.1.2 of RFC 6749) and bridge, the callback reaches the worktree's host with its original state, none if absent or empty, and every other parameter unchanged, if and only if at most one state was sent, it lacks the prefix, and the redirect URI has no state of its own |
| `JsonTag.TagJSONValue` | internal/daemon/oauth_worktree.go:189-220 | the recursive walk maps the leaves, and reports a change exactly if some string qualifies |
| `JsonTag.TagItems` | internal/daemon/oauth_worktree.go:209-217 | its loop over a slice |
| `JsonTag.TagFields` | internal/daemon/oauth_worktree.go:200-208 | its loop over a map, in any order |
| `JsonTag.TaggingIsLeafwise` | internal/daemon/oauth_worktree.go:186-220 | at every path the document is as before but for its strings; it differs exactly when a string qualifies; a second pass changes nothing |
| `BridgeListeners.ValidateOAuthBridgeConfig` | internal/daemon/oauth_bridge.go:12-32 | accepts exactly: in range, not the route's port, not the daemon's, not another route's bridge |
| `BridgeListeners.BridgeServer.WantedPorts` | internal/daemon/oauth_bridge.go:35-43 | succeeds exactly if every declared bridge is acceptable |
| `BridgeListeners.BridgeServer.Reconcile` | internal/daemon/oauth_bridge.go:34-83 | succeeds exactly if all bridges are acceptable and each new port can be bound; then both maps have the wanted ports as keys, running bridges untouched; on any error the maps still match |
| `BridgeListeners.BridgeServer.StopAll` | internal/daemon/oauth_bridge.go:85-98 | both maps end empty |
| `BridgeListeners.AcceptedBridgesAreExclusive` | internal/daemon/oauth_bridge.go:12-43 | all bridges are acceptable if and only if each wanted port has one owning route and is neither that route's port nor the daemon's |
| `PfConf.ContainsLine` | cmd/pf_darwin.go:84-91 | whether some line, trimmed, is the wanted one |
| `PfConf.FindInsertPoint` | cmd/pf_darwin.go:145-161 | after the last translation line, else before the first filter line, else at the end |
| `PfConf.InsertAnchor` | cmd/pf_darwin.go:162-170 | the loop inserts one line there |
| `PfConf.Patch` | cmd/pf_darwin.go:134-183 | the whole patch, as a relation on contents |
| `PfConf.Strip` | cmd/pf_darwin.go:186-199 | removes exactly vibe's lines, and reports whether there were any |
| `PfConf.RealRulesAreSane` | cmd/pf_darwin.go:93-116 | the real literals meet what the proofs need |
| `PfConf.RealFilterWords` | cmd/pf_darwin.go:96-104 | a line is of the filter section exactly if it is, or begins with, one of five words |
| `PfConf.RealTranslationWords` | cmd/pf_darwin.go:108-116 | and of the translation section exactly for one of eight |
| `PfConf.PatchKeepsOrder` | cmd/pf_darwin.go:118-183 | a translation line follows a filter line after the patch if and only if one did before |
| `PfConf.PatchTwice` | cmd/pf_darwin.go:134-183 | a second patch is a no-op |
| `PfConf.PatchReportsItsChange` | cmd/pf_darwin.go:134-183 | a change is reported if and only if the contents differ |
| `PfConf.StripUndoesPatch` | cmd/pf_darwin.go:185-199 | stripping restores the file byte for byte if and only if it had none of vibe's lines and its last line is empty or not blank, or it has no rules |
| `PfConf.SpacesAreLost` | cmd/pf_darwin.go:174-181 | a file that is not restored |
| `Ports.VibePortClaim` | internal/daemon/api.go:160-187 | finds a claim exactly if the port is the daemon's or another route's in any role |
| `Ports.ReservePortsClaim` | internal/daemon/api.go:137-148 | the same over all reserve ports, placeholders skipped |
| `Ports.CheckVibePortCollisions` | internal/daemon/api.go:192-197 | no message exactly when no port of the route collides |
| `Ports.FindFreePort` | internal/daemon/daemon.go:734-768 | the least bindable unclaimed port of 3000-3999, else whatever the operating system says |
| `Ports.ClaimsOf` | internal/daemon/daemon.go:737-747 | a route claims its port, its bridge port and its reserve ports, zeros excepted |
| `Ports.PicksLandInTheirSlots` | internal/daemon/api.go:682-709 | after an assignment each slot has its own pick, and no other slot, bridge port or route has changed |
| `Ports.PortTable.AssignReserves` | internal/daemon/api.go:1025-1033 | each reserve port comes from a scan over the table as it stands at that turn |
| `Ports.PortTable.RegisterWorktreePorts` | internal/daemon/api.go:682-709 | primary port, then reserve ports, each from a scan over the table as it then stands; on failure the route is gone |
| `Ports.PortTable.AdoptWorktreePorts` | internal/daemon/api.go:1022-1038 | reserve ports, then the primary one |
| `Ports.AssignedPortsAreExclusive` | internal/daemon/api.go:682-709 | in any order of assignment, the ports end pairwise distinct, unclaimed by others and accepted by the collision check if and only if no exhausted scan fell back to a claimed port |
| `Ports.FallbackCollides` | internal/daemon/daemon.go:760-767 | a fallback that is not accepted |
| `ReservePorts.ValidateReservePorts` | internal/daemon/api.go:65-101 | for every order of the keys, accepts exactly the maps acceptable without mention of an order, and returns their normalized form |
| `ReservePorts.CheckEntry` | internal/daemon/api.go:71-90 | the checks one entry must pass on its own |
| `ReservePorts.NamesAreAcceptedExactly` | internal/daemon/api.go:71-90 | an entry whose key is a name, in any case and with any spaces around it, passes exactly if the name is not "port" and the port is in range, not the primary one and not the bridge |
| `ReservePorts.AcceptedIsInjective` | internal/daemon/api.go:56-101 | the result is one map, injective, as large as its input, with legal lower-case names and ports that avoid the primary and the bridge |

## Left out

- Ports.PortTable.AdoptWorktreePorts: a primary-port failure or collision inside startManagedNow is reported by its caller; the model stops at the assignment.
- Processes.ProcessManager.Start: the environment, the log file and the text of a start error are not modelled.
- TimerRuns.IdleRoutesStopInTime: the stop's own steps after the running flag are the subject of `StopExitRuns.dfy`.
- StopBlame.StopNeverBlamed: holds for the exit handler; what the readiness poll records is the subject of `StopFailure.dfy`. A start that fails in its startup window, recovery's lowering of the flags before it adopts, and the rollback of a registration whose bridge port cannot be bound, which signals the child and then removes the route, are left out.
- PeerRows.RouteRequest: what is done with a local route, pruning a gone worktree included, is left out.
- PeerSync.Server.RefreshPeerRoutes: the texts of errors are left out.
- PeerSyncRuns.CertificateCoversTheCache: local route names, which every reload also covers, are not tracked.
- PeerSyncRuns.CacheAgreesWithItsSource: the list of peers is fixed during a run; pairing and removing peers between refreshes is not part of it.
- Pairing.Server.HandlePeerPair: the responder's own name and port in the answer are left out.
- JsonTag.TagJSONValue: works on document values; that Go writes into the same maps and slices is not captured.
- OAuthBridge.CallbackReturnsToTheWorktree: URL fragments and user info, query pairs that url.ParseQuery drops, and rewriteBridgeHostRedirect are left out.
- DnsReplies.LocalReplyIsWellFormed: the 255-octet limit on names in section 2.3.4 of RFC 1035 is not part of the decoder, and the parser does not check it.
- DnsReplies.TldIsTheLastLabel: lower-casing is ASCII.
- OwnsPID, killPort, process groups, Job Objects, lsof and pfctl: answers of the operating system, not rules of vibe.
- The `autoStarting` single-flight map and recoverManagedRoute's choice of page: each is one branch, decided in the function that takes it.
- watchTrackedPID and the PID-tracked route kind: one watcher, one removal.
- handleUpdate's rollback: it does not restore every field it changes, so no restore claim is made.
- One round trip per throttle window: the throttle is not read again after the guard is taken, so only single flight holds.
- Sockets, TLS handshakes, certificates, file and JSON encoding, the reverse proxy, HTML pages, printing, installation.
