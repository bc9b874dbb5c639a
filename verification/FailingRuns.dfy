/**
 Runs of the daemon from its initial state that end where a promise fails, one
 for each condition that the other modules show to be exact.
 */
module FailingRuns {
  import opened IpAddresses
  import opened Daemon
  import opened ExclusionLedger
  import opened MakeBeforeBreak
  import opened LiveRoutes
  import opened TunnelInterface
  import opened Basics
  import opened WatchCoverage

  function Always(): nat -> bool { (i: nat) => true }

  /** Every call of a deactivation succeeds; `order` is the order of the hash table. */
  function DownSucceeding(order: seq<IpAddress>): DownEnv {
    DownEnv(true, (hop: HopType) => Always(), (hop: HopType) => true, order, Always(), true)
  }

  /** Every call of an activation succeeds. */
  function Succeeding(order: seq<IpAddress>): ActivateEnv {
    ActivateEnv(SwitchEnv(Always(), true, Always(), Always(), Always(), true), true, true, true, DownSucceeding(order),
                UpEnv(true, true, false, true, true, Always(), true, true, Always(), true))
  }

  /** Every call of an activation succeeds but the deletion of the old peer. */
  function DeletePeerFails(order: seq<IpAddress>): ActivateEnv {
    Succeeding(order).(switching := Succeeding(order).switching.(deletePeer := false))
  }

  /** A configuration without identity. */
  function Config(hop: HopType, key: string, excluded: seq<AddressText>, allowed: seq<IpAddress>): InterfaceConfig {
    InterfaceConfig(hop, "", "", "", "", "", key, excluded, allowed)
  }

  lemma SafeExtend(steps: seq<Step>, step: Step)
    ensures SafeRun([])
    ensures SafeRun(steps + [step]) == (SafeRun(steps) && StepIsSafe(Exec(steps), step))
  {
    assert (steps + [step])[..|steps|] == steps;
  }

  /** A bring-up in which everything succeeds, of a configuration without exclusions. */
  lemma PlainBringUp(s: DaemonState, config: InterfaceConfig)
    requires config.excludedAddresses == [] && config.hopType !in s.connections
    ensures var t := Next(s, ActivateStep(config, Succeeding([])));
            && t.connections == s.connections[config.hopType := FreshConnection(config)] && t.excluded == s.excluded
            && t.handshakeTimer && t.livenessTimer == s.livenessTimer
  {
    var env := Succeeding([]).up;
    var ranges := config.allowedIPAddressRanges;
    var raised := RaiseInterface(s, config, env);
    var peered := raised.Logged(UpdatePeer(config.serverPublicKey, true));
    assert AddExclusions(raised, [], env.addExclusion, 0) == raised;
    RoutesKeepRest(peered, ranges, env.updateRoute, |ranges|);
    assert BringUp(s, config, env).0
           == UpdateRoutes(peered, ranges, env.updateRoute, |ranges|).Install(config).StartHandshakeTimer();
  }

  lemma {:induction false} RoutesKeepRest(s: DaemonState, list: seq<IpAddress>, ok: nat -> bool, n: nat)
    requires n <= |list|
    ensures var t := UpdateRoutes(s, list, ok, n);
            t.connections == s.connections && t.excluded == s.excluded
            && t.handshakeTimer == s.handshakeTimer && t.livenessTimer == s.livenessTimer
  {
    if n > 0 { RoutesKeepRest(s, list, ok, n-1); }
  }

  // ---------------------------------------------------------------- a route taken from another hop

  /**
   Every call of the run succeeds, and in the end a live hop lists a prefix that
   is not installed: another hop gave it up.
   */
  lemma RouteIsTakenFromAnotherHop(p: IpAddress) returns (steps: seq<Step>)
    ensures Legal(steps) && forall i :: 0 <= i < |steps| ==> steps[i].ActivateStep? && steps[i].env == Succeeding([])
    ensures MultiHopEntry in Exec(steps).connections
         && p in Exec(steps).connections[MultiHopEntry].config.allowedIPAddressRanges
         && p !in InstalledRoutes(Exec(steps).log)
  {
    hide Exec, Legal, SafeRun, InstalledRoutes, Activate, ExclusionCallsAlwaysSucceed, Orphans;
    var one, two := Config(SingleHop, "", [], [p]), Config(MultiHopEntry, "", [], [p]);
    var three := Config(SingleHop, "", [], []);
    var env := Succeeding([]);
    var step1, step2, step3 := ActivateStep(one, env), ActivateStep(two, env), ActivateStep(three, env);
    StartOfRun();
    OneMoreStep([], step1);
    SafeExtend([], step1);
    PlainBringUp(INITIAL, one);
    OneMoreStep([] + [step1], step2);
    SafeExtend([] + [step1], step2);
    PlainBringUp(Exec([] + [step1]), two);
    OneMoreStep([] + [step1] + [step2], step3);
    steps := [] + [step1] + [step2] + [step3];
    var s := Exec([] + [step1] + [step2]);
    RunsKeepLiveRoutes([] + [step1] + [step2]);
    GivenUpRouteGoes(s, three, p);
  }

  lemma GivenUpRouteGoes(s: DaemonState, config: InterfaceConfig, p: IpAddress)
    requires SupportsSwitching(s, config) && config.hopType == SingleHop && MultiHopEntry in s.connections
    requires p in s.connections[SingleHop].config.allowedIPAddressRanges && p !in config.allowedIPAddressRanges
    requires p in s.connections[MultiHopEntry].config.allowedIPAddressRanges && p in InstalledRoutes(s.log)
    ensures var t := Next(s, ActivateStep(config, Succeeding([])));
            && t.connections.Keys == s.connections.Keys && t.connections[MultiHopEntry] == s.connections[MultiHopEntry]
            && p !in InstalledRoutes(t.log)
  {
    hide InstalledRoutes, SwitchServer;
    var env := Succeeding([]).switching;
    SwitchConnections(s, config, env);
    OtherHopKeepsRouteExactly(s, config, env, MultiHopEntry, p);
    var switched := SwitchServer(s, config, env).0;
    LoggedRoutes(switched.log, Installed(SingleHop));
    LoggedRoutes(switched.log + [Installed(SingleHop)], WatchStarted);
    LoggedRoutes(switched.log, ActivationFailure);
  }

  // ---------------------------------------------------------------- a peer that cannot be deleted

  /**
   The one call that fails is the deletion of the old peer, and in the end the
   table counts the new configuration while the map keeps the old one.
   */
  lemma UndeletedPeerUnbalancesTheTable(h1: Bits, h2: Bits) returns (steps: seq<Step>)
    requires h1 != h2
    ensures Legal(steps) && !Balanced(Exec(steps))
    ensures |steps| == 2 && steps[0].ActivateStep? && steps[0].env == Succeeding([])
    ensures steps[1].ActivateStep? && steps[1].env == DeletePeerFails([AddKey(HostText(h1))])
    ensures SingleHop in Exec(steps).connections
         && Exec(steps).connections[SingleHop].config.excludedAddresses == [HostText(h1)]
  {
    hide Exec, Legal, ExclusionCallsAlwaysSucceed, Balanced, Orphans, Activate, Faithful, FromText;
    var first, second := Config(SingleHop, "a", [HostText(h1)], []), Config(SingleHop, "b", [HostText(h2)], []);
    var step1 := ActivateStep(first, Succeeding([]));
    var step2 := ActivateStep(second, DeletePeerFails([AddKey(HostText(h1))]));
    StartOfRun();
    OneMoreStep([], step1);
    var s := FirstStep(first, h1);
    steps := [] + [step1] + [step2];
    OneMoreStep([] + [step1], step2);
    RunsConserveExclusions([] + [step1]);
    CountsAreExactWithoutOrphans([] + [step1]);
    NothingOrphanedYet();
    KeptConfiguration(s, second, step2.env);
    DifferentDemand(h1, h2);
  }

  lemma FirstStep(config: InterfaceConfig, h: Bits) returns (s: DaemonState)
    requires config.excludedAddresses == [HostText(h)]
    ensures s == Next(INITIAL, ActivateStep(config, Succeeding([])))
    ensures s.excluded == map[AddKey(HostText(h)) := 1]
         && s.connections == map[config.hopType := FreshConnection(config)]
    ensures OrphansAfter([], INITIAL, ActivateStep(config, Succeeding([]))) == []
  {
    BringUpWithOne(INITIAL, config, HostText(h), Succeeding([]).up);
    s := Next(INITIAL, ActivateStep(config, Succeeding([])));
  }

  lemma NothingOrphanedYet()
    ensures Orphans([]) == []
  {
  }

  lemma DifferentDemand(h1: Bits, h2: Bits)
    requires h1 != h2
    ensures !EqualDemand([HostText(h2)] + NonHosts([HostText(h1)]), [HostText(h1)])
  {
    var olds, k := [HostText(h1)], AddKey(HostText(h2));
    NoNonHosts(olds);
    assert olds[..0] == [] && [HostText(h2)][..0] == [];
    assert [HostText(h2)] + NonHosts(olds) == [HostText(h2)];
    assert Occurrences([HostText(h2)], k) == 1;
    assert AddKey(olds[0]) == IpAddress(Inet(h1), |h1|) != k;
    assert Occurrences(olds, k) == Occurrences(olds[..0], k) == 0;
  }

  /** A switch whose old peer cannot be deleted keeps the old configuration and counts the new one. */
  lemma KeptConfiguration(s: DaemonState, config: InterfaceConfig, env: ActivateEnv)
    requires Faithful(s) && Balanced(s) && SupportsSwitching(s, config)
    requires env.switching.updatePeer && !env.switching.deletePeer
    requires config.serverPublicKey != s.connections[config.hopType].config.serverPublicKey
    requires env.switching.addExclusion == env.switching.delExclusion == Always()
    ensures var t := Next(s, ActivateStep(config, env));
            var olds := s.connections[config.hopType].config.excludedAddresses;
            && t.connections == s.connections
            && (Balanced(t) <==> EqualDemand(config.excludedAddresses + NonHosts(olds), olds))
  {
    hide SwitchServer, EqualDemand, NonHosts;
    FailedDeletePeerKeepsBalanceExactlyForEqualDemand(s, config, env.switching);
    SwitchConnections(s, config, env.switching);
    var switched := SwitchServer(s, config, env.switching).0;
    var t := Next(s, ActivateStep(config, env));
    assert t.excluded == switched.excluded && t.connections == switched.connections;
    assert forall k :: Count(t, k) == Count(switched, k) && Live(t, k) == Live(switched, k);
  }

  // ---------------------------------------------------------------- an exclusion that could not be added

  /**
   The one call that fails is the first addition of an exclusion. Another hop
   adds it with success, and loses it when the first hop, which was never counted
   for it, stops listing it.
   */
  lemma FailedAddCostsAnotherHop(h: Bits) returns (steps: seq<Step>)
    ensures Legal(steps) && |steps| == 3 && forall i :: 0 <= i < 3 ==> steps[i].ActivateStep?
    ensures steps[0].env == AddExclusionFails() && steps[1].env == Succeeding([])
         && steps[2].env == Succeeding([AddKey(HostText(h))])
    ensures MultiHopEntry in Exec(steps).connections
         && Exec(steps).connections[MultiHopEntry].config.excludedAddresses == [HostText(h)]
    ensures AddKey(HostText(h)) !in Exec(steps).excluded && AddKey(HostText(h)) !in InstalledExclusions(Exec(steps).log)
  {
    hide Exec, Legal, Activate, ExclusionCallsAlwaysSucceed, Orphans, AddKey, InstalledExclusions;
    var t := HostText(h);
    var one, two, three := Config(SingleHop, "", [t], []), Config(MultiHopEntry, "", [t], []),
                           Config(SingleHop, "", [], []);
    var step1, step2 := ActivateStep(one, AddExclusionFails()), ActivateStep(two, Succeeding([]));
    var step3 := ActivateStep(three, Succeeding([AddKey(t)]));
    StartOfRun();
    OneMoreStep([], step1);
    BringUpStep(INITIAL, one, t, step1.env);
    OneMoreStep([] + [step1], step2);
    BringUpStep(Exec([] + [step1]), two, t, step2.env);
    OneMoreStep([] + [step1] + [step2], step3);
    RemovedExclusionGoes(Exec([] + [step1] + [step2]), three, h);
    steps := [] + [step1] + [step2] + [step3];
  }

  /** Every call of an activation succeeds but the additions of exclusion routes. */
  function AddExclusionFails(): ActivateEnv {
    Succeeding([]).(up := Succeeding([]).up.(addExclusion := (i: nat) => false))
  }

  lemma BringUpStep(s: DaemonState, config: InterfaceConfig, t: AddressText, env: ActivateEnv)
    requires s.excluded == map[] && config.excludedAddresses == [t] && config.hopType !in s.connections
    requires InterfaceReady(env.up) && PeerReady(config, env.up)
    ensures var up := Next(s, ActivateStep(config, env));
            && up.excluded == (if env.up.addExclusion(0) then map[AddKey(t) := 1] else map[])
            && up.connections == s.connections[config.hopType := FreshConnection(config)]
  {
    hide BringUp, AddKey, InterfaceReady, PeerReady;
    BringUpWithOne(s, config, t, env.up);
  }

  lemma RemovedExclusionGoes(s: DaemonState, config: InterfaceConfig, h: Bits)
    requires SupportsSwitching(s, config) && config.hopType == SingleHop && config.excludedAddresses == []
    requires s.connections[SingleHop].config.excludedAddresses == [HostText(h)]
    requires s.excluded == map[AddKey(HostText(h)) := 1]
    requires SwitchInstalls(s, config, Succeeding([]).switching)
    ensures var t, k := Next(s, ActivateStep(config, Succeeding([AddKey(HostText(h))]))), AddKey(HostText(h));
            && t.connections == s.connections[SingleHop := FreshConnection(config)]
            && k !in t.excluded && k !in InstalledExclusions(t.log)
  {
    hide SwitchServer, SwitchMake, SwitchBreak, InstalledExclusions, AddKey, RemoveKey;
    var env, t, k := Succeeding([AddKey(HostText(h))]), HostText(h), AddKey(HostText(h));
    var made := SwitchMake(s, config, env.switching);
    SwitchMakeTable(s, config, env.switching);
    KeysAgreeExactlyForHosts(t);
    var removed := DelExclusions(made, [t], env.switching.delExclusion, 1);
    assert DelExclusions(made, [t], env.switching.delExclusion, 0) == made && env.switching.delExclusion(0);
    assert removed == DelExclusion(made, k, true);
    InstalledAfter(made.log, DeleteExclusionRoute(k, true));
    SwitchBreakTable(made, s.connections[SingleHop].config, config, env.switching);
    SwitchTail(s, config, env.switching);
    ActivateAfterSwitch(s, config, env);
  }

  // ---------------------------------------------------------------- a peer and a key that two hops share

  /**
   Every call of the run succeeds, and in the end a live hop has no peer: another
   hop with the same peer was switched away from it.
   */
  lemma PeerIsTakenFromAnotherHop(k: string, l: string) returns (steps: seq<Step>)
    requires k != l
    ensures Legal(steps) && forall i :: 0 <= i < |steps| ==> steps[i].ActivateStep? && steps[i].env == Succeeding([])
    ensures MultiHopEntry in Exec(steps).connections && KeyOf(Exec(steps), MultiHopEntry) == k
         && k !in Behind(Exec(steps).log).peers
  {
    hide Exec, Legal, Behind, Activate, ActivateBySwitch, SwitchServer, ExclusionCallsAlwaysSucceed, Orphans;
    var one, two, three := Config(SingleHop, k, [], []), Config(MultiHopEntry, k, [], []), Config(SingleHop, l, [], []);
    var env := Succeeding([]);
    var step1, step2, step3 := ActivateStep(one, env), ActivateStep(two, env), ActivateStep(three, env);
    StartOfRun();
    OneMoreStep([], step1);
    PlainBringUp(INITIAL, one);
    OneMoreStep([] + [step1], step2);
    PlainBringUp(Exec([] + [step1]), two);
    OneMoreStep([] + [step1] + [step2], step3);
    steps := [] + [step1] + [step2] + [step3];
    var s := Exec([] + [step1] + [step2]);
    SwitchedInterface(s, three, env);
    SwitchPeersExactly(s, three, env.switching);
    SwitchesInPlace(s, three, env);
  }

  lemma SwitchesInPlace(s: DaemonState, config: InterfaceConfig, env: ActivateEnv)
    requires SupportsSwitching(s, config)
    ensures Activate(s, config, env) == ActivateBySwitch(s, config, env)
  {
  }

  /** Every call of an activation succeeds, on an interface that is there or has yet to be made. */
  function SucceedingOn(interfaceExists: bool): ActivateEnv {
    Succeeding([]).(up := Succeeding([]).up.(interfaceExists := interfaceExists))
  }

  /**
   Every call succeeds and the interface is there exactly when it was made, and
   the second hop is live on the private key of the first.
   */
  lemma SecondHopRunsOnAnotherKey(k: string, l: string) returns (steps: seq<Step>)
    requires k != l
    ensures Legal(steps) && |steps| == 2 && steps[0].ActivateStep? && steps[1].ActivateStep?
    ensures steps[0].env == SucceedingOn(false) && steps[1].env == SucceedingOn(true)
    ensures MultiHopEntry in Exec(steps).connections && Exec(steps).connections[MultiHopEntry].config.privateKey == l
         && Behind(Exec(steps).log).privateKey == Some(k)
  {
    hide Exec, Legal, Behind, BringUp, ExclusionCallsAlwaysSucceed, Orphans;
    var one := Config(SingleHop, "", [], []).(privateKey := k);
    var two := Config(MultiHopEntry, "", [], []).(privateKey := l);
    steps := TwoBringUps(one, SucceedingOn(false), two, SucceedingOn(true));
  }

  /**
   A bring-up fails after it has made the interface; the next one, with another
   private key, finds it there and succeeds on the key of the first.
   */
  lemma FailedBringUpLeavesItsKey(k: string, l: string) returns (steps: seq<Step>)
    requires k != l
    ensures Legal(steps) && |steps| == 2 && steps[0].ActivateStep? && steps[1].ActivateStep?
    ensures steps[0].env == SucceedingOn(false).(up := SucceedingOn(false).up.(updatePeer := false))
    ensures steps[1].env == SucceedingOn(true)
    ensures SingleHop in Exec(steps).connections && Exec(steps).connections[SingleHop].config.privateKey == l
         && Behind(Exec(steps).log).privateKey == Some(k)
  {
    hide Exec, Legal, Behind, BringUp, ExclusionCallsAlwaysSucceed, Orphans;
    var one := Config(SingleHop, "", [], []).(privateKey := k);
    steps := TwoBringUps(one, SucceedingOn(false).(up := SucceedingOn(false).up.(updatePeer := false)),
                         one.(privateKey := l), SucceedingOn(true));
  }

  lemma TwoBringUps(one: InterfaceConfig, first: ActivateEnv, two: InterfaceConfig, second: ActivateEnv)
    returns (steps: seq<Step>)
    requires one.excludedAddresses == [] && first.down.order == [] && second.down.order == []
    requires InterfaceReady(first.up) && PeerReady(one, first.up) ==> one.hopType != two.hopType
    ensures Legal(steps) && steps == [ActivateStep(one, first), ActivateStep(two, second)]
    ensures var s := BringUp(INITIAL, one, first.up).0; Exec(steps) == BringUp(s, two, second.up).0
    ensures var s := BringUp(INITIAL, one, first.up).0;
            && Behind(s.log).privateKey == KeyAfter(ABSENT, one, first.up)
            && Behind(BringUp(s, two, second.up).0.log).privateKey == KeyAfter(Behind(s.log), two, second.up)
            && (InterfaceReady(second.up) && PeerReady(two, second.up) ==>
                  two.hopType in Exec(steps).connections && Exec(steps).connections[two.hopType].config == two)
  {
    hide Exec, Legal, Behind, BringUp, InterfaceReady, PeerReady, ExclusionCallsAlwaysSucceed, Orphans;
    var step1, step2 := ActivateStep(one, first), ActivateStep(two, second);
    StartOfRun();
    OneMoreStep([], step1);
    BroughtUpInterface(INITIAL, one, first.up);
    NothingBehind();
    NoExclusions(INITIAL, one, first.up);
    OneMoreStep([] + [step1], step2);
    BroughtUpInterface(Exec([] + [step1]), two, second.up);
    steps := [] + [step1] + [step2];
  }

  lemma NothingBehind()
    ensures Behind(INITIAL.log) == ABSENT
  {
  }

  lemma NoExclusions(s: DaemonState, config: InterfaceConfig, env: UpEnv)
    requires config.excludedAddresses == []
    ensures BringUp(s, config, env).0.excluded == s.excluded
  {
    if InterfaceReady(env) {
      BringUpAfterExclusions(s, config, env);
    } else {
      UnreadyBringUp(s, config, env);
    }
  }

  // ---------------------------------------------------------------- a hook that refuses

  /**
   A configuration that the platform hook refuses: switchServer has installed it
   by then, so after the third step its handshake is polled by nobody, and after
   the hook has refused to take it down as well the tunnel is up and unwatched.
   */
  lemma RefusedHookLeavesTheTunnelUnwatched() returns (steps: seq<Step>)
    ensures |steps| == 4 && Legal(steps)
    ensures !Polled(Exec(steps[..3]))
    ensures Exec(steps).connections != map[] && !Watched(Exec(steps))
  {
    hide Exec, Legal, Activate, CheckHandshake, Deactivate, Polled, Watched, ExclusionCallsAlwaysSucceed, Orphans;
    var config := Config(SingleHop, "", [], []);
    var env := Succeeding([]);
    var peers := [PeerStatus("", 1, 0, 0)];
    var step1, step2 := ActivateStep(config, env), HandshakeStep(peers);
    var step3, step4 := ActivateStep(config, env.(runSwitch := false)),
                        DeactivateStep(true, DownSucceeding([]).(run := false));
    var run1 := [] + [step1];
    var run2 := run1 + [step2];
    var run3 := run2 + [step3];
    StartOfRun();
    OneMoreStep([], step1);
    PlainBringUp(INITIAL, config);
    OneMoreStep(run1, step2);
    HandshakeSettles(Exec(run1), config);
    OneMoreStep(run2, step3);
    RefusedSwitch(Exec(run2), config, env.(runSwitch := false));
    OneMoreStep(run3, step4);
    DeactivateKeepsWatchExactly(Exec(run3), true, step4.down);
    RefusedDeactivation(Exec(run3), true, step4.down);
    steps := run3 + [step4];
    assert steps[..3] == run3;
  }

  lemma HandshakeSettles(s: DaemonState, config: InterfaceConfig)
    requires s.connections == map[SingleHop := FreshConnection(config)] && config.serverPublicKey == ""
    ensures var t := CheckHandshake(s, [PeerStatus("", 1, 0, 0)]);
            && t.connections.Keys == {SingleHop} && t.connections[SingleHop].config == config
            && t.excluded == s.excluded
            && !t.handshakeTimer && t.livenessTimer && !GaveUp(t.log)
  {
    hide GaveUp;
    var peers := [PeerStatus("", 1, 0, 0)];
    var s0 := s.(handshakeTimer := false);
    var seen := HandshakePeers(s0, SingleHop, peers, 1);
    assert HandshakePeers(s0, SingleHop, peers, 0) == s0;
    assert seen == HandshakePeer(s0, SingleHop, peers[0]);
    assert HandshakeHops(s0, peers, 0) == s0;
    assert HandshakeHops(s0, peers, 1) == HandshakeHop(s0, SingleHop, peers) == seen;
    assert HandshakeHops(s0, peers, 2) == HandshakeHop(seen, MultiHopEntry, peers) == seen;
    assert HandshakeHops(s0, peers, 3) == HandshakeHop(seen, MultiHopExit, peers) == seen;
    assert SingleHop in seen.connections && !Pending(seen);
    LoggedAnnouncements(seen.log, WatchStarted, SingleHop);
  }

  lemma RefusedSwitch(s: DaemonState, config: InterfaceConfig, env: ActivateEnv)
    requires SupportsSwitching(s, config) && s.connections[config.hopType].config == config
    requires config.excludedAddresses == []
    requires env.switching.updatePeer && !env.runSwitch && !s.handshakeTimer && !GaveUp(s.log)
    ensures var t := Next(s, ActivateStep(config, env));
            !Polled(t) && config.hopType in t.connections && !GaveUp(t.log) && t.excluded == s.excluded
  {
    hide SwitchServer, GaveUp;
    StepPollsExactly(s, ActivateStep(config, env));
    var t := SwitchEndsUnmarkedOrInstalled(s, config, env.switching);
    SwitchConnections(s, config, env.switching);
    InstallCarries(t, config);
    LoggedAnnouncements(t.Install(config).log, ActivationFailure, SingleHop);
    SameTableWithoutExclusions(s, config, env.switching);
  }

  lemma SameTableWithoutExclusions(s: DaemonState, config: InterfaceConfig, env: SwitchEnv)
    requires config.hopType in s.connections && config.excludedAddresses == []
    requires s.connections[config.hopType].config.excludedAddresses == []
    ensures SwitchServer(s, config, env).0.excluded == s.excluded
  {
    var last := s.connections[config.hopType].config;
    var peered := s.Logged(UpdatePeer(config.serverPublicKey, env.updatePeer));
    RoutesKeepRest(peered, config.allowedIPAddressRanges, env.updateRoute, |config.allowedIPAddressRanges|);
    var made := SwitchMake(s, config, env);
    assert made.excluded == s.excluded;
    DeletionsKeepTable(made, last.allowedIPAddressRanges, config.allowedIPAddressRanges, env.delRoute,
                       |last.allowedIPAddressRanges|);
  }

  lemma {:induction false} DeletionsKeepTable(s: DaemonState, list: seq<IpAddress>, keep: seq<IpAddress>,
                                              ok: nat -> bool, n: nat)
    requires n <= |list|
    ensures DeleteRoutes(s, list, keep, ok, n).excluded == s.excluded
  {
    if n > 0 { DeletionsKeepTable(s, list, keep, ok, n-1); }
  }
}
