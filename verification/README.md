# AbstractumVPN: a verified model

AbstractumVPN is a desktop VPN client with a privileged daemon and service. This
project models the parts of it that are hardest to get right by reading, in
Dafny 4.11, and proves what they promise. `dafny verify dfyconfig.toml` checks
everything.

## What is modelled

* **The tunnel daemon** (`Daemon`, `TunnelDaemon`): activation, switching servers
  in place, deactivation, the handshake poll and the liveness watchdog, as one
  state machine. `Daemon` holds the step functions and the runs; `TunnelDaemon`
  is the object with its maps, timers, loops and early returns, each method
  proved against its step function. Every call into a platform backend is an
  oracle whose outcome is a parameter, and is written to a log together with the
  emitted signals. What the kernel holds is a fold over that log, so the theorems
  speak about the kernel's routes and not only about the daemon's tables.
  * `ExclusionLedger`: the reference counts of exclusion routes are conserved
    over every run, up to an explicitly computed list of orphaned entries.
  * `ExclusionFailures`: what failing calls do to those counts, and exactly when
    the table still covers what the live configurations list.
  * `MakeBeforeBreak`, `LiveRoutes`: what both configurations of a switch want
    stays installed at every intermediate point of the switch, and what every
    live configuration lists is installed over whole runs.
  * `Watchdog`, `WatchCoverage`: how fast a dead tunnel is noticed, that a
    healthy one is left alone, that no live tunnel goes unwatched, and when a
    pending handshake is polled for.
  * `TunnelInterface`: what the calls make of the one interface behind the
    connections, its peers and its private key, when a switch happens in place,
    and what the client is told.
  * `Samples`: the date and the byte counters of every connection over whole runs.
  * `FailingRuns`: runs from the initial state that end where a promise fails.
* **The reconnect machine of the client** (`Reconnect`, `Retries`,
  `VpnConnection`): retry timer, back-off, user disconnect, the states reported
  from inside a start or a stop, and when the machine goes on by itself.
* **The kill switch on Linux** (`KillSwitch`): the service's state machine over
  the firewall's anchors, with the verdict the resulting rule chain gives a
  packet, and the four-field policy that the anchors amount to.
* **Split tunnelling** (`IpAddresses`, `Prefixes`, `SplitTunnel`): from the user's
  site list to prefixes, and from prefixes to what longest-prefix matching does
  with an address; and the subtraction of address ranges.
* **The settings store** (`Settings`): a cache over a partly encrypted file, with
  its migration.
* **The channel between client and daemon** (`Framing`), **the argument whitelist
  of the privileged service** (`Arguments`), **JSON path access** (`JsonPath`),
  **the ping ring** (`PingRing`) and **the internet checksum** (`Checksum`).

A class models an object that the program updates in place, a method with a loop
a function of the program that loops; functions are the specifications that both
are proved against.

## Where the code and its promises part

The model follows the code. Each of these is proved as an if-and-only-if, so that
the condition under which the promise does hold is exact.

* `Daemon::switchServer` adds exclusions under one key and removes them under
  another (client/daemon/daemon.cpp:575 and 592). The two agree for plain hosts
  only, so a subnet stays counted after its configuration is gone
  (`SwitchKeepsBalanceExactlyForHosts`, `SubnetOutlivesItsConfiguration`).
* When the old peer cannot be deleted, the switch has already replaced the
  exclusions but keeps the old configuration
  (`FailedDeletePeerKeepsBalanceExactlyForEqualDemand`,
  `UndeletedPeerUnbalancesTheTable`).
* An exclusion whose first addition fails is not counted, but is counted down when
  its configuration goes, so another hop that added it with success can lose it
  (`StepCoversExactly`, `FailedAddCostsAnotherHop`).
* Tunnel routes are not reference-counted, so one hop's switch can take a prefix
  away from another hop (`OtherHopKeepsRouteExactly`,
  `SwitchKeepsLiveRoutesExactly`, `RouteIsTakenFromAnotherHop`).
* The same holds for the peers of the interface: two hops may have the same server
  key, and a switch of one of them deletes the peer of both (`PeerIsTakenExactly`,
  `PeerIsTakenFromAnotherHop`).
* The private key is set only when the interface is created
  (client/daemon/daemon.cpp:142-148). A second hop with another key, or a bring-up
  that finds the interface of a failed one, runs on a key that is not its own
  (`KeyIsKeptExactly`, `SecondHopRunsOnAnotherKey`, `FailedBringUpLeavesItsKey`).
* `Daemon::activate` starts the handshake poll only after the platform hook has
  agreed, when `switchServer` has already installed the connection, and
  `Daemon::deactivate` stops both timers before it asks the hook. A configuration
  that the hook refuses both times stays up, first unpolled and then unwatched
  (`PollIsLostExactly`, `WatchIsLostExactly`,
  `RefusedHookLeavesTheTunnelUnwatched`).
* A comment in client/vpnConnection.h:100 says that attempts are never given up
  on. A wanted tunnel goes on by itself if and only if its timer runs and it is
  neither Reconnecting nor Disconnecting (`RetriesItselfExactly`, and for every
  restart and every connect as a condition on the reported states
  `RestartRetriesItselfExactly`, `ConnectRetriesItselfExactly`). It fails in two
  ways.
  * A Disconnected is rescheduled only after Connected
    (client/vpnConnection.cpp:711). One that comes while Connecting, as after a
    first connect that has reported nothing, leaves the tunnel down with the timer
    off (`ReportLosesRetryExactly`, `RunsRetryWhatIsDown`,
    `DropWhileConnectingIsGivenUp`, `FirstConnectCanBeGivenUp`). A network change
    or a wake-up can still start it (`TriggersCanStartExactly`).
  * In Reconnecting every trigger is turned away and a reported Disconnected is
    swallowed, so after a restart that ends there not even those can, whether its
    start failed or succeeded (`RestartCanBeTriggeredAgainExactly`). The WireGuard
    protocol always starts successfully and reports Connected and Disconnected
    only (client/core/protocols/wireGuardProtocol.cpp:12-43, 56-79), so a server
    that does not answer ends there (`SuccessfulStartCanBeTheLast`).
* The anchor that blocks the sites of split type 1 is switched by the flag of the
  other types (service/server/killswitch.cpp:332), so it blocks nothing
  (`OrdinaryTrafficOutsideTheTunnel`).
* Disabling all traffic leaves every allowing anchor but one as it is, so after
  the kill switch was enabled the tunnel and the local networks stay open
  (`DisableAllTrafficShutsExactly`, `DisableAllTrafficLeavesTheTunnel`).
* AllowedIPs that hold the two defaults in another order, or more than them, allow
  splitting by site and then take precedence over the sites, so that the
  forwarding mode tunnels everything (`ForwardingIsHonouredExactly`), and the
  exclusion mode bypasses a listed address only if its site is longer than every
  range that holds it (`ExclusionAgainstOwnListExactly`,
  `ListedAddressCanBeTunnelled`).
* Migration of the settings sets its flag even if the key was missing and nothing
  was encrypted; it is then never made up for (`MigrationEncryptsExactlyWithKey`).
* An unencrypted byte array that starts with the encryption mark does not survive
  a restart (`WriteReadsBackExactlyIfStorable`).
* The path-based JSON writer erases the document if the first key does not fit the
  root (`RootKindDecides`).
* A stray reply numbered 0 before the first ping is taken for an answer, and its
  latency is reported until that ping is sent (`EarlyReplyIsIgnoredExactly`,
  `StatisticsAreOfRecentPings`).
* The packet loss divides by the size of the ring, not by the number of pings that
  are due (`LossIsTheShareExactly`).
* Nothing clears address bits beyond a prefix length. Such a bit in an entry of the
  source list, or in an exclusion, can keep the halving in `excludeAddresses` from
  ever ending, and one in the source list can make it end with the exclusion still
  covered (`HalvingMeetsExactly`, `LeftIsDifferenceExactly`, `StrayBitIsNeverMet`,
  `StrayBitSpoilsTheDifference`). The repository declares and defines
  `excludeAddresses` but does not call it.
* The signed accumulator of the checksum is safe for all contents up to an exact
  buffer length (`AccumulatorIsSafeExactly`).

## Model

| member | source | states |
|---|---|---|
| `IpAddresses.KeysAgreeExactlyForHosts` | client/daemon/daemon.cpp:573-594 | an exclusion is removed under the key it was added under exactly if it is a plain host; every other entry is removed under a key nothing is ever added under |
| `ExclusionLedger.RunsConserveExclusions` | client/daemon/daemon.cpp:238-258 | after every run in which the exclusion calls and deletePeer succeed, the table lists exactly the kernel's exclusion routes, and every count is the number of live listings plus the orphaned ones |
| `ExclusionLedger.CountsAreExactWithoutOrphans` | client/daemon/daemon.cpp:160-163 | counts never fall below live demand, and equal it exactly if nothing is orphaned |
| `ExclusionLedger.SwitchKeepsBalanceExactlyForHosts` | client/daemon/daemon.cpp:591-594 | a switch keeps an exact table exact if and only if the replaced configuration excluded plain hosts only |
| `ExclusionLedger.FailedDeletePeerKeepsBalanceExactlyForEqualDemand` | client/daemon/daemon.cpp:600-609 | after a failed deletePeer the table matches the map if and only if the new demand equals the plain-host part of the old one |
| `ExclusionLedger.SubnetOutlivesItsConfiguration` | client/daemon/daemon.cpp:564-609 | a run in which nothing fails and the table still counts a subnet no live configuration lists |
| `ExclusionLedger.DeactivateEmptiesEverything` | client/daemon/daemon.cpp:497-542 | a deactivation past its hook leaves no connection, no count and no exclusion route in the kernel |
| `ExclusionLedger.CountedPrefixesAreInstalled` | client/daemon/daemon.cpp:238-258 | after every run, with any backend call failing at any time, every counted prefix is installed |
| `ExclusionFailures.CountAfterSwitch` | client/daemon/daemon.cpp:573-594 | every count after a switch past its peer update, whatever fails: up by the entries counted, down by the removals, never below zero |
| `ExclusionFailures.AllCountedExactly` | client/daemon/daemon.cpp:238-248 | every entry of a prefix is counted if and only if it was in the table or the first call for it succeeds |
| `ExclusionFailures.StepCoversExactly` | client/daemon/daemon.cpp:160-163 | a step leaves every count at least at the live demand if and only if the first call for each prefix new to the table succeeds where a configuration is installed, and a switch that keeps the old one removes no more than the counts allow |
| `ExclusionFailures.RunsKeepLiveExclusions` | client/daemon/daemon.cpp:238-258 | in every run whose steps meet that condition, whatever else fails, every exclusion a live configuration lists is counted and installed |
| `FailingRuns.FailedAddCostsAnotherHop` | client/daemon/daemon.cpp:238-258 | a run whose only failure is one addition, after which a live hop lists an exclusion that it added with success and that is gone |
| `MakeBeforeBreak.SwitchHoldsExclusion` | client/daemon/daemon.cpp:573-594 | a prefix counted for the old configuration and listed by the new one is installed at every point of the switch, whatever fails |
| `MakeBeforeBreak.SharedExclusionNeverGoes` | client/daemon/daemon.cpp:573-594 | the same in every reachable state, for any duplicates and order in the two lists |
| `MakeBeforeBreak.SharedRouteNeverGoes` | client/daemon/daemon.cpp:583-598 | an installed tunnel route that the new configuration wants stays installed throughout, whatever fails and whatever the old one lists |
| `MakeBeforeBreak.SwitchRoutesExactly` | client/daemon/daemon.cpp:583-598 | a switch without route failures adds the new prefixes and removes exactly those only the old list has |
| `MakeBeforeBreak.OtherHopKeepsRouteExactly` | client/daemon/daemon.cpp:595-599 | another hop keeps its installed prefix if and only if the switched hop does not give it up |
| `LiveRoutes.SwitchKeepsLiveRoutesExactly` | client/daemon/daemon.cpp:583-609 | with no route failure, a switch keeps the routes of all live configurations installed if and only if it takes nothing from other hops and, should it stop before installing, gives nothing up |
| `LiveRoutes.RunsKeepLiveRoutes` | client/daemon/daemon.cpp:178-190 | in every run whose switches meet that condition, whatever else fails, every prefix a live configuration lists is installed |
| `LiveRoutes.ReachableSharedRouteNeverGoes` | client/daemon/daemon.cpp:583-599 | in every state such a run reaches, a route both configurations list stays installed at every point of the switch |
| `LiveRoutes.DeactivatedRoutesExactly` | client/daemon/daemon.cpp:522-531 | a deactivation past its hook takes down exactly the tunnel routes that a live configuration lists and whose deletion succeeds |
| `FailingRuns.RouteIsTakenFromAnotherHop` | client/daemon/daemon.cpp:595-599 | a run in which every call succeeds and a live hop lists a prefix that is not installed |
| `FailingRuns.UndeletedPeerUnbalancesTheTable` | client/daemon/daemon.cpp:600-609 | a run whose only failure is the deletion of the old peer and whose table counts the wrong configuration |
| `TunnelInterface.SwitchPeersExactly` | client/daemon/daemon.cpp:578-606 | the peers of the interface after a switch, whatever fails: the new one once its update is accepted, without the old one if it is another and could be deleted; nothing else of the interface changes |
| `TunnelInterface.SuccessfulSwitchReplacesThePeer` | client/daemon/daemon.cpp:578-609 | a switch that returns true leaves the new peer, not the old one if it is another, and every other peer as it was |
| `TunnelInterface.DeactivatedInterfaceExactly` | client/daemon/daemon.cpp:497-542 | after a deactivation the interface is gone, or has lost exactly the peers of the live connections whose deletion succeeded; the hook is asked exactly for a live tunnel, and disconnected is emitted if and only if that was asked for and the hook agreed |
| `TunnelInterface.PeerIsTakenExactly` | client/daemon/daemon.cpp:600-606 | a step leaves a live connection without its peer if and only if it switches another hop away from the same peer |
| `TunnelInterface.RunsKeepPeers` | client/daemon/daemon.cpp:165-169 | in every run without such a step, whatever fails, the peer of every live connection is on the interface |
| `FailingRuns.PeerIsTakenFromAnotherHop` | client/daemon/daemon.cpp:600-606 | a run in which every call succeeds and a live hop has lost its peer |
| `TunnelInterface.KeyIsKeptExactly` | client/daemon/daemon.cpp:141-148 | a step leaves every live connection on its own private key if and only if it makes no interface anew while another key is live, and installs its connection only on an interface with its key |
| `TunnelInterface.RunsKeepKey` | client/daemon/daemon.cpp:141-148 | in every run of such steps the interface runs on the private key of every live connection |
| `FailingRuns.SecondHopRunsOnAnotherKey` | client/daemon/daemon.cpp:141-148 | a run in which every call succeeds and the second hop is live on the key of the first |
| `FailingRuns.FailedBringUpLeavesItsKey` | client/daemon/daemon.cpp:141-169 | a bring-up that fails after making the interface leaves its key to the next one |
| `TunnelInterface.SwitchInPlaceExactly` | client/daemon/daemon.cpp:98-134 | an activation of a live hop asks for the tunnel to be taken down if and only if the private key, an address or a gateway differs, and never emits disconnected |
| `TunnelInterface.RunsStayAsBroughtUp` | client/daemon/daemon.cpp:549-562 | in every run every live connection has the private key, addresses and gateways that its hop was last brought up with |
| `TunnelInterface.ActivationSucceedsExactly` | client/daemon/daemon.cpp:98-190 | an activation succeeds if and only if every call it depends on does, for a bring-up, a switch in place and a rebuild; then the connection is new, in place and polled for, and otherwise activationFailure is emitted, twice if a rebuild had taken the tunnel down |
| `TunnelInterface.DisconnectedIsEmittedExactly` | client/daemon/daemon.cpp:513-515 | which steps emit disconnected, and that they emit it once |
| `Watchdog.SilentSampleDescends` | client/daemon/daemon.cpp:707-770 | every sample that sends and hears nothing calls the client or goes strictly down the ladder |
| `Watchdog.StaleSampleDescends` | client/daemon/daemon.cpp:707-770 | with no handshake of the last 150 seconds every unanswered sample uses up an attempt |
| `Watchdog.VerdictExactly` | client/daemon/daemon.cpp:707-770 | the verdict on every sample: acted on if nothing came back and it is the third silent one or its handshake is missing or older than 150 seconds, with three attempts before the client is called |
| `Watchdog.IdleSampleExactly` | client/daemon/daemon.cpp:728-745 | a tunnel with no traffic at all is left alone if and only if its handshake is at most 150 seconds old |
| `Watchdog.AnswerStartsOver` | client/daemon/daemon.cpp:713-717 | an answer puts the connection back to twelve silent samples away from the client |
| `Watchdog.NewConnectionStartsOver` | client/daemon/daemon.h:97-112 | so does a new connection start |
| `Watchdog.HopsJudgeEach` | client/daemon/daemon.cpp:699-771 | a tick that is not cut short gives each connection the verdict on its own listed status and touches nothing else of it |
| `Watchdog.HandOverStopsAndSignals` | client/daemon/daemon.cpp:756-765 | handing over stops the timer and ends with the disconnected signal |
| `Watchdog.TicksFollowObservations` | client/daemon/daemon.cpp:688-771 | the ticks of the daemon judge each connection as if it were alone |
| `Watchdog.SilentPeerIsHandedOver` | client/daemon/daemon.cpp:688-771 | a peer that only sends is handed over within the rungs left, at most twelve ticks |
| `Watchdog.StalePeerIsHandedOver` | client/daemon/daemon.cpp:688-771 | with handshakes missing or older than 150 seconds within four ticks |
| `Watchdog.LadderIsClimbedExactly` | client/daemon/daemon.cpp:707-798 | with handshakes of the last 150 seconds and accepted recoveries the peer is sent again at the third, sixth and ninth silent sample, and the client is called at the twelfth |
| `Watchdog.HealthyTunnelIsLeftAlone` | client/daemon/daemon.cpp:688-771 | on every trace with handshakes of the last 150 seconds and something received in any three samples, the watchdog makes no call, emits nothing and keeps running |
| `WatchCoverage.PendingHopIsAnnouncedOnce` | client/daemon/daemon.cpp:649-676 | a pending connection is dated by the reported handshake, its counters are seeded from the same status, and it is announced once; without a handshake it is left alone |
| `WatchCoverage.RunsAnnounceOnce` | client/daemon/daemon.cpp:642-686 | in every run whose backend lists each key once, each live connection has announced connected once if its date is valid and not at all otherwise |
| `Samples.RunsRememberTheLastStatus` | client/daemon/daemon.cpp:649-711 | in every run that lists each key once, the date of a live connection is that of the first handshake reported for its key, and its counters are those of the last status it was shown |
| `Samples.HandsOverExactly` | client/daemon/daemon.cpp:699-765 | a tick calls the client if and only if the interface is there and some live connection has a sample to act on and no attempt left or a failing one |
| `Samples.TickEventsExactly` | client/daemon/daemon.cpp:688-798 | the calls and signals of a liveness tick, exactly and in order: each connection in turn has its own peer sent again or the client called, and nothing follows a call of the client |
| `WatchCoverage.RunsKeepCounters` | client/daemon/daemon.cpp:650-669 | in every run the counters of every live connection stay in the range the ladder starts from |
| `WatchCoverage.RunsKeepTheTunnelWatched` | client/daemon/daemon.cpp:677-694 | in every run with the base-class hook and the interface present, a live tunnel has an armed timer or was handed over |
| `WatchCoverage.DeactivateKeepsWatchExactly` | client/daemon/daemon.cpp:497-511 | a deactivation of a live tunnel leaves it watched if and only if the hook succeeds or it was handed over before |
| `WatchCoverage.WatchIsLostExactly` | client/daemon/daemon.cpp:126-130 | a step loses the watch of a watched tunnel if and only if the hook refuses a deactivation or a rebuild, or a tick misses the interface while no handshake is polled for, and it was not handed over before |
| `WatchCoverage.RunsLoseNoWatch` | client/daemon/daemon.cpp:497-511 | in every run without such a step, whatever else fails, every live tunnel is watched or was handed over |
| `WatchCoverage.MissingInterfaceStopsWatchExactly` | client/daemon/daemon.cpp:688-694 | a tick without the interface keeps the watch if and only if something else does |
| `WatchCoverage.StepPollsExactly` | client/daemon/daemon.cpp:82-192 | for every state and step, whether pending connections are polled afterwards, decided beforehand |
| `WatchCoverage.PollIsLostExactly` | client/daemon/daemon.cpp:97-127 | a step loses the poll if and only if a switch installs a connection and stops short with no poll running, or the hook refuses while one is pending |
| `WatchCoverage.RunsPollPendingConnections` | client/daemon/daemon.cpp:642-686 | in every run without such a step, whatever else fails, a pending connection is polled |
| `FailingRuns.RefusedHookLeavesTheTunnelUnwatched` | client/daemon/daemon.cpp:497-511 | a run in which the hook refuses a configuration that is already installed, which is then polled by nobody and in the end watched by nobody |
| `WatchCoverage.ReachableSilenceIsHandedOver` | client/daemon/daemon.cpp:688-771 | from every reachable state a peer that only sends is handed over within twelve ticks |
| `TunnelDaemon.TunnelDaemon.AddExclusionRoute` | client/daemon/daemon.cpp:238-248 | the counting insertion, its kernel call and its result |
| `TunnelDaemon.TunnelDaemon.DelExclusionRoute` | client/daemon/daemon.cpp:250-258 | the counting removal and its result, with the release-build behaviour for an absent prefix |
| `TunnelDaemon.TunnelDaemon.SwitchServer` | client/daemon/daemon.cpp:564-609 | loops and early returns compute the switch step and its result |
| `TunnelDaemon.TunnelDaemon.Deactivate` | client/daemon/daemon.cpp:497-542 | the same for the deactivation step |
| `TunnelDaemon.TunnelDaemon.BringUp` | client/daemon/daemon.cpp:139-192 | the same for the activation of a new hop |
| `TunnelDaemon.TunnelDaemon.Activate` | client/daemon/daemon.cpp:82-192 | the same for the three scenarios of activate, failure signals included |
| `TunnelDaemon.TunnelDaemon.CheckHandshake` | client/daemon/daemon.cpp:642-686 | the nested loops and the counter of pending handshakes compute the handshake step |
| `TunnelDaemon.TunnelDaemon.TryQuickRecovery` | client/daemon/daemon.cpp:773-798 | recovers exactly if attempts are left and the peer could be re-sent |
| `TunnelDaemon.TunnelDaemon.TakeSample` | client/daemon/daemon.cpp:707-734 | the counters after one sample, and whether it calls for a recovery |
| `TunnelDaemon.TunnelDaemon.CheckLiveness` | client/daemon/daemon.cpp:688-771 | the nested loops with their early return compute the liveness step |
| `Reconnect.DisconnectSwitchesOff` | client/vpnConnection.cpp:642-681 | a disconnect from any state ends with timer off, no attempts and no protocol, scheduling and starting nothing |
| `Reconnect.DisconnectIsFinal` | client/vpnConnection.cpp:581-640 | whatever happens until the next connect, nothing is scheduled and no protocol is started |
| `Reconnect.RunsAreDisciplined` | client/vpnConnection.cpp:683-716 | in every reachable state an error on a wanted protocol has its retry armed; Connected means no retry pending as long as no failing start ended in Connected |
| `Reconnect.RestartEndsExactly` | client/vpnConnection.cpp:683-692 | where a restart ends, as a condition on the states reported to it: Connected and Disconnecting if reported last, Reconnecting if nothing but swallowed Disconnected follows the entry or a later Reconnecting |
| `Reconnect.RestartSettlesExactly` | client/vpnConnection.cpp:603-640 | a restart leaves Connected settled if and only if its start did not fail after Connected was reported last |
| `Reconnect.DelayGrows` | client/vpnConnection.cpp:569-579 | the delay never shrinks with the attempt and is one of the five constants |
| `Reconnect.DelayOfEachAttempt` | client/vpnConnection.cpp:569-579 | one, two, five and fifteen seconds, and thirty from the fifth attempt on |
| `Reconnect.AttemptsCountExactly` | client/vpnConnection.cpp:603-640 | every restart counts one attempt; Connected, a connect and a disconnect start over |
| `Reconnect.FailedRestartWaits` | client/vpnConnection.cpp:632-639 | how long the retry after a failed start waits |
| `Reconnect.DelaysGrowBetweenResets` | client/vpnConnection.cpp:569-601 | in every run the delays between two resets are non-decreasing |
| `Retries.TriggerStartsExactly` | client/vpnConnection.cpp:603-640 | a trigger starts the protocol exactly once if the guards let it and changes nothing otherwise |
| `Retries.TriggersCanStartExactly` | client/vpnConnection.cpp:603-623 | some sequence of network changes, wake-ups and timeouts starts a wanted tunnel again if and only if it is neither Reconnecting nor Disconnecting; whether the timer alone does is `RetriesItselfExactly` |
| `Retries.DropsFreeExactly` | client/vpnConnection.cpp:683-692 | with Disconnected reports in between, if and only if it is not Reconnecting |
| `Retries.RestartCanBeTriggeredAgainExactly` | client/vpnConnection.cpp:603-640 | the same after every restart, failed or not, as a condition on the states reported to it |
| `Retries.SuccessfulStartCanBeTheLast` | client/core/protocols/wireGuardProtocol.cpp:12-79 | a run in which a start succeeds, a Disconnected follows, and the wanted tunnel is never started again |
| `Retries.FailedRestartIsRetriedExactly` | client/vpnConnection.cpp:632-639 | after a failed restart the timer is armed, and its retry takes place if and only if the reported states do not end in Reconnecting or Disconnecting |
| `Retries.StalledRestartIsNeverRetried` | client/vpnConnection.cpp:603-640 | after any restart that ends in Reconnecting, no sequence of triggers and Disconnected reports changes more than the timer |
| `Retries.RetriesItselfExactly` | client/vpnConnection.cpp:603-623 | timeouts alone start the protocol again if and only if the timer runs and the guards of a restart hold; for a wanted tunnel, if and only if the timer runs and it is neither Reconnecting nor Disconnecting |
| `Retries.RestartRetriesItselfExactly` | client/vpnConnection.cpp:603-640 | the same after every restart, as a condition on its outcome and the states reported to it |
| `Retries.ConnectRetriesItselfExactly` | client/vpnConnection.cpp:312-372 | the same after every connect |
| `Retries.ReportLosesRetryExactly` | client/vpnConnection.cpp:683-716 | a report leaves a wanted tunnel down without a retry if and only if it is Disconnected, the timer is off and the tunnel was neither up, nor restarting, nor already down |
| `Retries.RunsRetryWhatIsDown` | client/vpnConnection.cpp:683-716 | in every run without such a report, a wanted tunnel in Disconnected or Error has its timer armed and goes on by itself |
| `Retries.DropWhileConnectingIsGivenUp` | client/vpnConnection.cpp:709-715 | a run in which a restarted tunnel drops while Connecting and no timeout or Disconnected changes that it is down |
| `Retries.FirstConnectCanBeGivenUp` | client/vpnConnection.cpp:709-715 | a first connect that drops before it reports anything ends the same way |
| `VpnConnection.VpnConnection.DelayMsec` | client/vpnConnection.cpp:569-579 | the clamped table lookup |
| `VpnConnection.VpnConnection.ScheduleReconnect` | client/vpnConnection.cpp:581-595 | the object's update is the schedule step |
| `VpnConnection.VpnConnection.CancelReconnect` | client/vpnConnection.cpp:597-601 | the object's update is the cancel step |
| `VpnConnection.VpnConnection.SetConnectionState` | client/vpnConnection.cpp:683-716 | the object's update is the state step |
| `VpnConnection.VpnConnection.ConnectToVpn` | client/vpnConnection.cpp:312-372 | the object's update is the connect step |
| `VpnConnection.VpnConnection.ReconnectToVpn` | client/vpnConnection.cpp:603-640 | the object's update is the reconnect step |
| `VpnConnection.VpnConnection.OnReconnectTimer` | client/vpnConnection.cpp:48-49 | the single-shot timer is off when its slot runs the reconnect step |
| `VpnConnection.VpnConnection.DisconnectFromVpn` | client/vpnConnection.cpp:642-681 | the object's update is the disconnect step |
| `KillSwitch.EnableGuardsExactly` | service/server/killswitch.cpp:292-330 | enabling guards the machine if and only if the split type is 0 or 2 |
| `KillSwitch.DisableAllTrafficGuards` | service/server/killswitch.cpp:144-169 | blocking all traffic guards the machine whatever the firewall held |
| `KillSwitch.StrictRunsAreGuardedExactly` | service/server/killswitch.cpp:37-169 | in every run from the start of the service, a strict setting has an installed firewall that is guarded if and only if the last deciding call did not enable another split type |
| `KillSwitch.StrictRejectsWhatIsNotAllowed` | client/platforms/linux/daemon/linuxfirewall.cpp:227-336 | after such a run a packet that no enabled rule allows is rejected |
| `KillSwitch.StrictDisableShutsTheMachine` | service/server/killswitch.cpp:85-98 | after a strict disable of an installed firewall a packet leaves if and only if it goes to the loopback |
| `KillSwitch.StrictRunsCanBeShut` | service/server/killswitch.cpp:80-98 | that holds after every strict run |
| `KillSwitch.DisableAllTrafficShutsExactly` | service/server/killswitch.cpp:144-169 | blocking all traffic shuts the machine if and only if no anchor ahead of the block was letting anything out |
| `KillSwitch.DisableAllTrafficLeavesTheTunnel` | service/server/killswitch.cpp:144-169 | so it does not after the kill switch was enabled, with whatever settings |
| `KillSwitch.RunsCarryThePlan` | service/server/killswitch.cpp:37-362 | over every run the anchors and lists carry out a plan computed from the calls alone: from the start if no firewall was installed, and over one left installed from the first call on that enables or disables |
| `KillSwitch.StrictRunsFollowThePolicy` | client/platforms/linux/daemon/linuxfirewall.cpp:227-336 | after every strict run that is not left open, over no firewall or over one left installed that a call has set since, the verdict on every packet is that of the policy the calls add up to |
| `KillSwitch.RunsStayRegular` | service/server/killswitch.cpp:80-362 | no run switches the IPv6 anchors of the tunnel and the DNS block on |
| `KillSwitch.EnabledVerdictExactly` | service/server/killswitch.cpp:276-362 | the verdict on every packet once the kill switch is enabled, in terms of the server, the sites and the DNS servers of the configuration |
| `KillSwitch.OrdinaryTrafficOutsideTheTunnel` | service/server/killswitch.cpp:292-338 | ordinary traffic outside the tunnel is rejected with split type 0 or 2 unless it goes to the server or, with type 2, to a site, and left alone with every other type |
| `KillSwitch.MergeAdds` | service/server/killswitch.cpp:195-203 | merging ranges keeps what is there, adds every non-empty entry and nothing else, and makes no duplicates |
| `KillSwitch.KillSwitch.constructor` | service/server/killswitch.cpp:37-48 | the service starts blocked in strict mode |
| `KillSwitch.KillSwitch.RefreshSetting` | service/server/killswitch.cpp:50-68 | the object's update is the refresh step |
| `KillSwitch.KillSwitch.Disable` | service/server/killswitch.cpp:80-142 | the object's update is the disable step, strict and not |
| `KillSwitch.KillSwitch.BlockAllTraffic` | service/server/killswitch.cpp:144-169 | the object's update is the block step |
| `KillSwitch.KillSwitch.ResetRange` | service/server/killswitch.cpp:171-193 | the object's update is the reset step |
| `KillSwitch.KillSwitch.AddRange` | service/server/killswitch.cpp:195-203 | the loop computes the merged list |
| `KillSwitch.KillSwitch.SplitLists` | service/server/killswitch.cpp:292-319 | the flags and lists of each split type |
| `KillSwitch.KillSwitch.DnsList` | service/server/killswitch.cpp:340-357 | the servers DNS is allowed to, in order |
| `KillSwitch.KillSwitch.Enable` | service/server/killswitch.cpp:276-362 | the object's update is the enable step |
| `Prefixes.HalvesPartitionExactly` | client/mozilla/shared/ipaddress.cpp:201-234 | the two halves of a prefix partition it if and only if the bit after the prefix is clear |
| `Prefixes.NestedOrApart` | client/mozilla/shared/ipaddress.cpp:141-199 | prefixes are nested or apart, and the overlap and subnet tests tell which |
| `Prefixes.TheLoopFollows` | client/mozilla/shared/ipaddress.cpp:263-273 | as long as halving can still meet the subnet, the loop goes to a half from which it can, and never to its last branch |
| `Prefixes.ExcludeFrom` | client/mozilla/shared/ipaddress.cpp:258-284 | wherever the loop can end, it ends with one piece per bit, and the pieces are the prefix without the subnet if and only if the prefix fits the subnet |
| `Prefixes.HalvingMeetsExactly` | client/mozilla/shared/ipaddress.cpp:258-274 | halving one prefix can end at another if and only if their bits agree outside the two lengths and the second has the bits of the first between them |
| `Prefixes.LeftIsDifferenceExactly` | client/mozilla/shared/ipaddress.cpp:258-284 | the halves left aside are the difference if and only if the prefix has no bit set between the two lengths |
| `Prefixes.StrayBitIsNeverMet` | client/mozilla/shared/ipaddress.cpp:258-274 | an aligned subnet of an unaligned prefix that halving never meets |
| `Prefixes.StrayBitSpoilsTheDifference` | client/mozilla/shared/ipaddress.cpp:258-284 | a subnet that halving meets and that stays covered |
| `Prefixes.ExcludeOne` | client/mozilla/shared/ipaddress.cpp:243-250 | wherever the loop ends for one entry, its piece is the difference with the exclusion if and only if the entry fits it |
| `Prefixes.ExcludeFromAll` | client/mozilla/shared/ipaddress.cpp:240-254 | wherever the loop ends, one round leaves pieces of the entries, and the difference with one exclusion if the entries fit it |
| `Prefixes.ExcludeAddresses` | client/mozilla/shared/ipaddress.cpp:236-256 | wherever the loops end, the result lies within the source, and if the source entries fit the exclusions that lie in them, it covers an address if and only if the source does and the exclusions do not |
| `SplitTunnel.BuildLists` | client/mozilla/localsocketcontroller.cpp:178-249 | the lists sent to the daemon in each mode, the server's own AllowedIPs included |
| `SplitTunnel.FirstMatchAfterSortingIsLongest` | client/daemon/daemon.cpp:401-406 | however the sort treats equal lengths, the first match in its result is a longest match of the input |
| `SplitTunnel.TranslationPreservesMeaning` | client/mozilla/localsocketcontroller.cpp:178-249 | unless the server has a list of its own, every IPv4 address is routed as the mode intends, except exactly where two routes of equal length compete |
| `SplitTunnel.DefaultsHoldEverything` | client/mozilla/localsocketcontroller.cpp:180-181 | the first default holds exactly the IPv4 addresses, the second exactly the IPv6 addresses |
| `SplitTunnel.Ipv6IsNotSplit` | client/mozilla/localsocketcontroller.cpp:203-216 | IPv6 is tunnelled in the modes 0 and 2 and not in the forwarding mode, whatever the IPv4 sites |
| `SplitTunnel.SettingsKeepTheList` | client/vpnConnection.cpp:474-510 | the sites passed on hold exactly the listed addresses, plus the DNS servers in the forwarding mode |
| `SplitTunnel.SettingsReachTheRoutes` | client/vpnConnection.cpp:474-510 | end to end, for the default AllowedIPs: an IPv4 address is tunnelled exactly if the settings ask for it and it is not the server, up to the same ties |
| `SplitTunnel.EmptyListReachesTheRoutes` | client/mozilla/localsocketcontroller.cpp:178-249 | without AllowedIPs nothing is tunnelled in the forwarding mode and everything but the server in the others |
| `SplitTunnel.OwnListReachesTheRoutes` | client/mozilla/localsocketcontroller.cpp:182-200 | AllowedIPs without the defaults decide alone, whatever the mode and the sites |
| `SplitTunnel.ForwardingIsHonouredExactly` | client/vpnConnection.cpp:468-472 | when AllowedIPs hold both defaults, the forwarding mode is honoured if and only if they are the default list |
| `SplitTunnel.ExclusionAgainstOwnListExactly` | client/mozilla/localsocketcontroller.cpp:178-249 | when AllowedIPs hold both defaults and are not the default list, the exclusion mode bypasses an address if and only if one of its sites is longer than every range that holds it, and tunnels it if and only if it is the other way round |
| `SplitTunnel.ListedAddressCanBeTunnelled` | client/vpnConnection.cpp:468-472 | a listed address that is tunnelled |
| `SplitTunnel.DistinctKeepsMembers` | client/vpnConnection.cpp:494-497 | removing duplicates keeps the members and repeats none |
| `SplitTunnel.CollectSites` | client/vpnConnection.cpp:480-493 | the loop over the site list computes the collected texts |
| `SplitTunnel.AppendSplitTunnelingConfig` | client/vpnConnection.cpp:418-510 | the mode and sites passed on for given settings, where sites are allowed and where they are not |
| `Settings.ApplyRefines` | client/secureQSettings.cpp:45-121 | each operation on a coherent store is that operation on a plain map, with the key or without |
| `Settings.CacheIsInvisible` | client/secureQSettings.cpp:45-121 | every run with the cache dropped at any points answers as a plain map does |
| `Settings.WriteReadsBackExactlyIfStorable` | client/secureQSettings.cpp:58-113 | a write reads back from the file if and only if it is encrypted or does not start with the mark |
| `Settings.WrittenExactly` | client/secureQSettings.cpp:89-113 | what a write leaves in the file for the server list, with the key and without, and for every other entry |
| `Settings.ServerListStaysSealed` | client/secureQSettings.cpp:89-121 | no run of operations puts the server list into the file in the clear |
| `Settings.MigrationIsDueExactly` | client/secureQSettings.cpp:28-33 | a file is migrated if and only if encryption is required and its flag is missing or does not convert to true |
| `Settings.MigrationChangesNoValue` | client/secureQSettings.cpp:28-43 | opening an old file changes no value but the flag |
| `Settings.MigrationEncryptsExactlyWithKey` | client/secureQSettings.cpp:28-43 | the server list ends up encrypted if and only if the key was at hand or it already was, and no later opening changes the file |
| `Settings.SecureQSettings.constructor` | client/secureQSettings.cpp:28-43 | the migration loop computes the opened store |
| `Settings.SecureQSettings.GetValue` | client/secureQSettings.cpp:45-87 | result and cache of a read |
| `Settings.SecureQSettings.PutValue` | client/secureQSettings.cpp:89-113 | file and cache after a write, a dropped one included |
| `Settings.SecureQSettings.RemoveKey` | client/secureQSettings.cpp:115-121 | file and cache after a removal |
| `Settings.SecureQSettings.ClearSettings` | client/secureQSettings.cpp:178-183 | file and cache after clearing |
| `Framing.SplitRead` | client/mozilla/localsocketcontroller.cpp:386-412 | a stream read in two parts dispatches the same commands and keeps the same rest |
| `Framing.ChunkingDoesNotMatter` | client/mozilla/localsocketcontroller.cpp:386-412 | however a stream is cut, its non-blank trimmed complete lines are dispatched and the unterminated rest is kept |
| `Framing.PullAndPushAgree` | client/daemon/daemonlocalserverconnection.cpp:48-76 | the server's pull loop and the client's loop agree on every list of reads |
| `Framing.MessagesArriveExactly` | client/daemon/daemonlocalserverconnection.cpp:169-172 | any sequence of sendable messages arrives as sent, whatever the chunks |
| `Framing.SendableExactly` | client/mozilla/localsocketcontroller.cpp:571-576 | a message arrives as sent if and only if it is sendable: no newline, not blank, no space at its ends |
| `Framing.PaddingIsDropped` | client/mozilla/localsocketcontroller.cpp:395-408 | white space around a message is dropped, and a line of white space is no message |
| `Framing.Reader.ClientReadData` | client/mozilla/localsocketcontroller.cpp:386-412 | the loop dispatches exactly the commands of the buffer with the read appended |
| `Framing.Reader.ServerReadData` | client/daemon/daemonlocalserverconnection.cpp:48-76 | the loop dispatches exactly the commands of the buffer with all reads appended |
| `Arguments.SanitizeArguments` | ipc/ipc.h:132-171 | the scanning loop returns the line or nothing, as the recursive reading decides |
| `Arguments.GrammarIsAccepted` | ipc/ipc.h:132-171 | every line of the grammar is accepted |
| `Arguments.AcceptedIsGrammar` | ipc/ipc.h:132-171 | everything accepted has a reading in the grammar |
| `Arguments.OneReading` | ipc/ipc.h:103-130 | the grammar is unambiguous |
| `Arguments.SanitizerDecidesGrammar` | ipc/ipc.h:64-172 | the line comes back unchanged if and only if it is in the grammar, and sanitizing twice is sanitizing once |
| `Arguments.SanitizerPermitsExactly` | ipc/ipc.h:80-172 | the line comes back if and only if it is made of what the program may be given, said option by option: for OpenVPN an existing configuration file, a loopback management port from 1 to 65535 and its flag; for Tun2Socks a tun device and a SOCKS5 proxy; for certutil two flags, a password and a file followed by NoExport |
| `Arguments.OnlyVettedProcessesStart` | ipc/ipcserverprocess.cpp:30-89 | under every sequence of calls, only the three programs with the numbers 1, 3 and 4 start, at their own paths, with a line some call handed over and the program could be given at that call |
| `Arguments.PermittedLineStartsExactly` | ipc/ipcserverprocess.cpp:30-89 | a program chosen by its number and given a line starts with it if and only if it is installed and may be given that line |
| `Arguments.IpcServerProcess.SetProgramId` | ipc/ipcserverprocess.cpp:84-89 | choosing a program clears the arguments |
| `Arguments.IpcServerProcess.SetArgumentList` | ipc/ipcserverprocess.cpp:69-72 | the arguments kept are the sanitized ones |
| `Arguments.IpcServerProcess.StartProcess` | ipc/ipcserverprocess.cpp:30-54 | nothing starts without a program and accepted arguments |
| `JsonPath.WritersAgree` | client/3rd/QJsonStruct/QJsonIO.hpp:107-189 | the recursive and the path-based writer compute the same document on every path whose first key fits the root |
| `JsonPath.RootKindDecides` | client/3rd/QJsonStruct/QJsonIO.hpp:183-188 | the path-based writer stores what it built if and only if the first key fits the root, and erases the document otherwise |
| `JsonPath.PutGet` | client/3rd/QJsonStruct/QJsonIO.hpp:107-146 | what was written is read, on every document and path |
| `JsonPath.PutPut` | client/3rd/QJsonStruct/QJsonIO.hpp:107-133 | the second write to a path is the one that counts |
| `JsonPath.GetPut` | client/3rd/QJsonStruct/QJsonIO.hpp:107-146 | writing back what is there changes nothing |
| `JsonPath.WriteLeavesOthersAlone` | client/3rd/QJsonStruct/QJsonIO.hpp:107-133 | a write leaves every existing entry alone that parts from its path |
| `JsonPath.WriterIsALens` | client/3rd/QJsonStruct/QJsonIO.hpp:149-189 | the three laws for the path-based writer itself |
| `JsonPath.GetValue` | client/3rd/QJsonStruct/QJsonIO.hpp:135-146 | the descending loop computes the value at a path |
| `JsonPath.GrowArray` | client/3rd/QJsonStruct/QJsonIO.hpp:170-171 | nulls are added until the index fits, and no more |
| `JsonPath.SetValue` | client/3rd/QJsonStruct/QJsonIO.hpp:149-189 | the descending and the ascending loop compute the path-based write |
| `PingRing.NextPingRefines` | client/mozilla/pinghelper.cpp:84-99 | sending keeps the ring the window of the log, across the wrap of the sequence |
| `PingRing.MatchIsAnswer` | client/mozilla/pinghelper.cpp:101-114 | a slot matches a reply exactly if a ping of the window carries its number |
| `PingRing.ReplyRefines` | client/mozilla/pinghelper.cpp:101-114 | a reply is credited to that ping and to no other |
| `PingRing.EarlyReplyIsIgnoredExactly` | client/mozilla/pinghelper.cpp:62-68 | before the first ping a reply is ignored if and only if its number is not 0 |
| `PingRing.RingRefinesLog` | client/mozilla/pinghelper.cpp:84-114 | over every run each slot holds the newest ping that falls on it from the first ping on, and before it the ring is reset but for the last stray reply 0 |
| `PingRing.RingSumIsLogSum` | client/mozilla/pinghelper.cpp:116-192 | any statistic that ignores reset slots is that of the last pings |
| `PingRing.StatisticsAreOfRecentPings` | client/mozilla/pinghelper.cpp:116-192 | latency and loss are those of the last 32 pings from the first ping on; before it there is no loss and the latency is the last stray one |
| `PingRing.LossIsTheShareExactly` | client/mozilla/pinghelper.cpp:172-192 | the loss is the share of due pings without a reply if and only if all 32 are due or none is lost |
| `PingRing.LossCountsTheLost` | client/mozilla/pinghelper.cpp:172-192 | the loss is the number of pings sent before the time given and not answered, over 32 |
| `PingRing.LatencyIsNearest` | client/mozilla/pinghelper.cpp:116-135 | the latency is a nearest integer to the average of the answers |
| `PingRing.AverageIsBetween` | client/mozilla/pinghelper.cpp:116-135 | the latency lies between any bounds of the received latencies |
| `PingRing.PingHelper.Start` | client/mozilla/pinghelper.cpp:62-68 | the ring after a start |
| `PingRing.PingHelper.SendNext` | client/mozilla/pinghelper.cpp:84-99 | the array update is the sending step |
| `PingRing.PingHelper.Receive` | client/mozilla/pinghelper.cpp:101-114 | the array update is the reply step |
| `PingRing.PingHelper.Latency` | client/mozilla/pinghelper.cpp:116-135 | the loop computes the rounded average |
| `PingRing.PingHelper.Maximum` | client/mozilla/pinghelper.cpp:157-170 | the result bounds every latency that fits and is one of them, and bounds the average |
| `PingRing.PingHelper.Loss` | client/mozilla/pinghelper.cpp:172-192 | the loop computes the number of due pings without a reply, divided by 32 |
| `Checksum.OnesSumIsNorm` | client/mozilla/pingsender.cpp:13-48 | the one's complement sum of section 1 of RFC 1071 is the plain sum reduced modulo 65535 |
| `Checksum.TwoFoldsSuffice` | client/mozilla/pingsender.cpp:43-47 | two folds are enough for everything the accumulator can hold |
| `Checksum.InetChecksum` | client/mozilla/pingsender.cpp:13-48 | the loop computes the checksum of section 1 of RFC 1071 for every buffer whose sum fits the accumulator |
| `Checksum.AccumulatorIsSafeExactly` | client/mozilla/pingsender.cpp:14-41 | no contents of a buffer of n bytes overflow the accumulator if and only if n is at most 65536 (65537 on a little-endian machine) |
| `Checksum.ByteOrderSwapsChecksum` | client/mozilla/pingsender.cpp:13-48 | section 2(B) of RFC 1071: the other byte order swaps the bytes of the result |
| `Checksum.StoredChecksumIgnoresByteOrder` | client/mozilla/pingsender.cpp:13-48 | the bytes stored in the packet are the same on either machine |
| `Checksum.SwappedBufferSwapsChecksum` | client/mozilla/pingsender.cpp:13-48 | swapping the bytes of every word of the buffer swaps those of the result |
| `Checksum.FilledChecksumVerifies` | client/mozilla/pingsender.cpp:13-48 | writing the checksum into its zeroed, aligned field makes a recomputation give 0 |

## Left out

* What the platform backends do: adding routes, peers and interfaces, resolvers and hooks are outcomes given from outside; that a successful call changes the kernel as its name says is the one thing assumed of them. A created interface runs on the private key it was created with, and a deleted one takes its key and its peers along; of a peer only its key is modelled, not its endpoint or allowed addresses.
* Failed assertions: the daemon is modelled as a release build, in which they do nothing.
* Re-entrancy and threads: each slot runs to its end; states reported from inside a start or a stop of the protocol are modelled, a second slot entered meanwhile is not.
* Integer widths of byte counters, attempt counters and reference counts.
* Parsing and printing of the daemon's JSON messages and configuration fields, except for the order of the allowed ranges. That a printed message holds no newline and has no space at its ends is the hypothesis `Sendable`.
* Encryption, serialisation and the keychain: the store assumes that decrypting and reading back undoes encrypting and writing, and, for one direction of `WriteReadsBackExactlyIfStorable`, that no cipher text is its own plain text. Failing encryption, group keys in removals, backup and restore are not modelled.
* The file system and the conversion of text to a port number, as the argument validators see them, are parameters of `Arguments`.
* The text of firewall rules: a packet is described by which rules concern it, and iptables calls on an installed firewall succeed. The NAT, mangle and raw tables, the macOS and Windows branches, and entries after the first non-string in the list of allowed DNS servers are not modelled. `RunsCarryThePlan` and `StrictRunsFollowThePolicy` say nothing about a firewall left installed before the first call that enables or disables, since what it held then is not known from the calls.
* IPv6 sites and IPv6 entries in the server's own AllowedIPs, splitting per application, and the text of old configurations from which AllowedIPs are read.
* Storing an undefined JSON value, reading past the end of an array (an assertion in Qt), and indices beyond the range of `int`.
* The standard deviation of the ping helper, and its choice of addresses and timers.
* Retries of a process that fails to start, its channels and its output.
* The service's router, the route helper, Xray and OpenVPN protocols, mobile platforms, the user interface, logging and updates.
