/**
 The daemon object itself: fields updated in place, loops over lists, and
 early returns, each method proved against its step function.
 */
module TunnelDaemon {
  import opened Basics
  import opened IpAddresses
  import opened Daemon
  import opened Watchdog

  lemma {:induction false} CutPeersStay(s: DaemonState, hop: HopType, peers: seq<PeerStatus>, now: int,
                                        ok: nat -> bool, m: nat, n: nat)
    requires m <= n <= |peers| && hop in s.connections && LivenessPeers(s, hop, peers, now, ok, m).1
    ensures LivenessPeers(s, hop, peers, now, ok, n) == LivenessPeers(s, hop, peers, now, ok, m)
  {
    hide LivenessPeer;
    if m < n { CutPeersStay(s, hop, peers, now, ok, m, n-1); }
  }

  lemma {:induction false} CutHopsStay(s: DaemonState, r: Reading, m: nat, n: nat)
    requires m <= n <= |HOPS| && LivenessHops(s, r.peers, r.now, r.updatePeer, m).1
    ensures LivenessHops(s, r.peers, r.now, r.updatePeer, n) == LivenessHops(s, r.peers, r.now, r.updatePeer, m)
  {
    hide LivenessPeers;
    if m < n { CutHopsStay(s, r, m, n-1); }
  }

  /** Some hop among the first n in iteration order still awaits its handshake. */
  predicate PendingAmong(connections: map<HopType, ConnectionState>, n: nat)
    requires n <= |HOPS|
  {
    exists m :: 0 <= m < n && HOPS[m] in connections && connections[HOPS[m]].date.None?
  }

  lemma PendingAmongAll(s: DaemonState)
    ensures PendingAmong(s.connections, |HOPS|) <==> Pending(s)
  {
    if Pending(s) {
      var hop :| hop in s.connections && s.connections[hop].date.None?;
      assert HOPS[0] == SingleHop && HOPS[1] == MultiHopEntry && HOPS[2] == MultiHopExit;
      match hop
      case SingleHop =>
      case MultiHopEntry =>
      case MultiHopExit =>
    }
  }

  class TunnelDaemon {
    var connections: map<HopType, ConnectionState>
    var excludedAddrSet: map<IpAddress, int>
    var handshakeTimer: bool
    var livenessTimer: bool
    ghost var log: seq<Event>

    ghost function State(): DaemonState
      reads this
    {
      DaemonState(connections, excludedAddrSet, handshakeTimer, livenessTimer, log)
    }

    constructor ()
      ensures State() == INITIAL
    {
      connections, excludedAddrSet := map[], map[];
      handshakeTimer, livenessTimer := false, false;
      log := [];
    }

    method AddExclusionRoute(prefix: IpAddress, ok: bool) returns (added: bool)
      modifies this
      ensures State() == AddExclusion(old(State()), prefix, ok)
      ensures added <==> prefix in excludedAddrSet
    {
      if prefix in excludedAddrSet {
        excludedAddrSet := excludedAddrSet[prefix := excludedAddrSet[prefix] + 1];
        return true;
      }
      log := log + [Event.AddExclusionRoute(prefix, ok)];
      if !ok {
        return false;
      }
      excludedAddrSet := excludedAddrSet[prefix := 1];
      return true;
    }

    method DelExclusionRoute(prefix: IpAddress, ok: bool) returns (deleted: bool)
      modifies this
      ensures State() == DelExclusion(old(State()), prefix, ok)
      ensures deleted <==> prefix in excludedAddrSet || ok
    {
      if prefix in excludedAddrSet && excludedAddrSet[prefix] > 1 {
        excludedAddrSet := excludedAddrSet[prefix := excludedAddrSet[prefix] - 1];
        return true;
      }
      excludedAddrSet := excludedAddrSet - {prefix};
      log := log + [DeleteExclusionRoute(prefix, ok)];
      return ok;
    }

    method ExcludeAll(list: seq<AddressText>, ok: nat -> bool)
      modifies this
      ensures State() == AddExclusions(old(State()), list, ok, |list|)
    {
      for i := 0 to |list|
        invariant State() == AddExclusions(old(State()), list, ok, i)
      {
        var _ := AddExclusionRoute(AddKey(list[i]), ok(i));
      }
    }

    /** Routes the prefixes up to the first failure. */
    method RouteAll(list: seq<IpAddress>, ok: nat -> bool) returns (all: bool)
      modifies this
      ensures State() == UpdateRoutes(old(State()), list, ok, |list|)
      ensures all <==> AllOk(ok, |list|)
    {
      for i := 0 to |list|
        invariant AllOk(ok, i) && State() == UpdateRoutes(old(State()), list, ok, i)
      {
        log := log + [UpdateRoutePrefix(list[i], ok(i))];
        if !ok(i) {
          StoppedRoutesStay(old(State()), list, ok, i+1, |list|);
          return false;
        }
      }
      return true;
    }

    static lemma {:induction false} StoppedRoutesStay(s: DaemonState, list: seq<IpAddress>, ok: nat -> bool, m: nat,
                                                      n: nat)
      requires 0 < m <= n <= |list| && !ok(m-1)
      ensures UpdateRoutes(s, list, ok, n) == UpdateRoutes(s, list, ok, m)
    {
      if m < n { StoppedRoutesStay(s, list, ok, m, n-1); }
    }

    method UnexcludeAll(list: seq<AddressText>, ok: nat -> bool)
      modifies this
      ensures State() == DelExclusions(old(State()), list, ok, |list|)
    {
      for i := 0 to |list|
        invariant State() == DelExclusions(old(State()), list, ok, i)
      {
        var _ := DelExclusionRoute(RemoveKey(list[i]), ok(i));
      }
    }

    /** Removes the prefixes that are not to be kept. */
    method UnrouteAll(list: seq<IpAddress>, keep: seq<IpAddress>, ok: nat -> bool)
      modifies this`log
      ensures State() == DeleteRoutes(old(State()), list, keep, ok, |list|)
    {
      for i := 0 to |list|
        invariant State() == DeleteRoutes(old(State()), list, keep, ok, i)
      {
        if list[i] !in keep {
          log := log + [DeleteRoutePrefix(list[i], ok(i))];
        }
      }
    }

    method SwitchServer(config: InterfaceConfig, env: SwitchEnv) returns (ok: bool)
      requires config.hopType in connections
      modifies this
      ensures (State(), ok) == Daemon.SwitchServer(old(State()), config, env)
    {
      var lastConfig := connections[config.hopType].config;
      ExcludeAll(config.excludedAddresses, env.addExclusion);

      log := log + [UpdatePeer(config.serverPublicKey, env.updatePeer)];
      if !env.updatePeer {
        return false;
      }
      var _ := RouteAll(config.allowedIPAddressRanges, env.updateRoute);
      ghost var made := State();
      assert made == SwitchMake(old(State()), config, env);

      UnexcludeAll(lastConfig.excludedAddresses, env.delExclusion);
      UnrouteAll(lastConfig.allowedIPAddressRanges, config.allowedIPAddressRanges, env.delRoute);
      assert State() == SwitchBreak(made, lastConfig, config, env);

      if config.serverPublicKey != lastConfig.serverPublicKey {
        log := log + [DeletePeer(lastConfig.serverPublicKey, env.deletePeer)];
        if !env.deletePeer {
          return false;
        }
      }
      Install(config);
      return true;
    }

    method Install(config: InterfaceConfig)
      modifies this
      ensures State() == old(State()).Install(config)
    {
      connections := connections[config.hopType := FreshConnection(config)];
      log := log + [Installed(config.hopType)];
    }

    /** Takes the routes and the peer of every live connection down. */
    method DropAllHops(env: DownEnv)
      modifies this
      ensures State() == DropHops(old(State()), env, |HOPS|)
    {
      ghost var start := State();
      for n := 0 to |HOPS|
        invariant State() == DropHops(start, env, n) && connections == start.connections
      {
        var hop := HOPS[n];
        if hop in connections {
          var config := connections[hop].config;
          UnrouteAll(config.allowedIPAddressRanges, [], env.delRoute(hop));
          log := log + [DeletePeer(config.serverPublicKey, env.deletePeer(hop))];
        }
      }
    }

    /** Takes the exclusion routes down, in the order of the hash table. */
    method DropAllExclusions(env: DownEnv)
      modifies this`log
      ensures State() == DropExclusions(old(State()), env.order, env.delExclusion, |env.order|)
    {
      for i := 0 to |env.order|
        invariant State() == DropExclusions(old(State()), env.order, env.delExclusion, i)
      {
        log := log + [DeleteExclusionRoute(env.order[i], env.delExclusion(i))];
      }
    }

    method Deactivate(emitSignals: bool, env: DownEnv) returns (ok: bool)
      requires IsOrderOf(env.order, excludedAddrSet.Keys)
      modifies this
      ensures (State(), ok) == Daemon.Deactivate(old(State()), emitSignals, env)
    {
      hide DropHops, DropExclusions;
      livenessTimer := false;
      handshakeTimer := false;
      if connections != map[] {
        log := log + [TakenDown(env.run)];
        if !env.run {
          return false;
        }
      }
      if emitSignals {
        log := log + [Disconnected];
      }
      DropAllHops(env);
      DropAllExclusions(env);
      excludedAddrSet := map[];
      connections := map[];
      log := log + [DeleteInterface(env.deleteInterface)];
      return env.deleteInterface;
    }

    /** The interface created, unless it is there, and brought up. */
    method RaiseInterface(config: InterfaceConfig, env: UpEnv) returns (ready: bool)
      modifies this`log
      ensures ready == InterfaceReady(env)
      ensures State() == var raised := Daemon.RaiseInterface(old(State()), config, env);
                         if ready then raised else raised.Logged(ActivationFailure)
    {
      log := log + [Prepared(config)];
      if !env.interfaceExists {
        log := log + [AddInterface(config.privateKey, env.addInterface)];
        if !env.addInterface {
          log := log + [ActivationFailure];
          return false;
        }
      }
      if env.supportIPUtils && !(env.addInterfaceIPs && env.setMTUAndUp) {
        log := log + [ActivationFailure];
        return false;
      }
      return true;
    }

    /** The part of activate that follows the test for an existing connection. */
    method BringUp(config: InterfaceConfig, env: UpEnv) returns (ok: bool)
      modifies this
      ensures (State(), ok) == Daemon.BringUp(old(State()), config, env)
    {
      hide Daemon.RaiseInterface, InterfaceReady;
      var ready := RaiseInterface(config, env);
      if !ready {
        return false;
      }
      ExcludeAll(config.excludedAddresses, env.addExclusion);
      log := log + [UpdatePeer(config.serverPublicKey, env.updatePeer)];
      if !env.updatePeer || !ResolversOk(config, env.updateResolvers) {
        log := log + [ActivationFailure];
        return false;
      }
      var routed := RouteAll(config.allowedIPAddressRanges, env.updateRoute);
      if !routed || !env.run {
        log := log + [ActivationFailure];
        return false;
      }
      Install(config);
      handshakeTimer := true;
      log := log + [WatchStarted];
      return true;
    }

    method Activate(config: InterfaceConfig, env: ActivateEnv) returns (ok: bool)
      requires IsOrderOf(env.down.order, excludedAddrSet.Keys)
      modifies this
      ensures (State(), ok) == Daemon.Activate(old(State()), config, env)
    {
      hide Daemon.SwitchServer, Daemon.Deactivate, Daemon.BringUp;
      if config.hopType in connections {
        var current := connections[config.hopType].config;
        if && current.privateKey == config.privateKey
           && current.deviceIpv4Address == config.deviceIpv4Address
           && current.deviceIpv6Address == config.deviceIpv6Address
           && current.serverIpv4Gateway == config.serverIpv4Gateway
           && current.serverIpv6Gateway == config.serverIpv6Gateway
        {
          var switched := SwitchServer(config, env.switching);
          if switched && env.restoreResolvers && ResolversOk(config, env.updateResolvers) && env.runSwitch {
            Install(config);
            handshakeTimer := true;
            log := log + [WatchStarted];
            return true;
          }
          log := log + [ActivationFailure];
          return false;
        }
        var down := Deactivate(false, env.down);
        if !down {
          log := log + [ActivationFailure];
          return false;
        }
        ok := BringUp(config, env.up);
        if !ok {
          log := log + [ActivationFailure];
        }
        return;
      }
      ok := BringUp(config, env.up);
    }

    /** Shows every reported peer to the connection of a hop. */
    method ObservePeers(hop: HopType, peers: seq<PeerStatus>)
      requires hop in connections
      modifies this
      ensures hop in connections && State() == HandshakePeers(old(State()), hop, peers, |peers|)
    {
      for i := 0 to |peers|
        invariant hop in connections && State() == HandshakePeers(old(State()), hop, peers, i)
      {
        var connection, status := connections[hop], peers[i];
        if connection.config.serverPublicKey == status.pubkey {
          if status.handshake != 0 {
            connections := connections[hop := connection.(date := Some(status.handshake),
              lastTxBytes := status.txBytes, lastRxBytes := status.rxBytes,
              stalledSamples := 0, quickRecoveryAttempts := 0)];
            log := log + [Connected(hop, status.pubkey)];
          }
        }
      }
    }

    method CheckHandshake(peers: seq<PeerStatus>)
      modifies this
      ensures State() == Daemon.CheckHandshake(old(State()), peers)
    {
      hide HandshakePeers;
      handshakeTimer := false;
      ghost var fired := State();
      var pendingHandshakes := 0;
      for n := 0 to |HOPS|
        invariant State() == HandshakeHops(fired, peers, n)
        invariant 0 <= pendingHandshakes && (pendingHandshakes > 0 <==> PendingAmong(connections, n))
      {
        var hop := HOPS[n];
        if hop in connections && connections[hop].date.None? {
          ghost var before := State();
          ObservePeers(hop, peers);
          OtherHopsStay(before, hop, peers);
          if connections[hop].date.None? {
            pendingHandshakes := pendingHandshakes + 1;
          }
        }
      }
      PendingAmongAll(State());
      if pendingHandshakes > 0 {
        handshakeTimer := true;
        log := log + [WatchStarted];
      } else if connections != map[] {
        livenessTimer := true;
        log := log + [WatchStarted];
      }
    }

    static lemma OtherHopsStay(s: DaemonState, hop: HopType, peers: seq<PeerStatus>)
      requires hop in s.connections
      ensures forall other :: other in s.connections && other != hop ==>
                HandshakePeers(s, hop, peers, |peers|).connections[other] == s.connections[other]
    {
      forall other | other in s.connections && other != hop
        ensures HandshakePeers(s, hop, peers, |peers|).connections[other] == s.connections[other]
      {
        HandshakePeersLeaveOtherHops(s, hop, peers, |peers|, other);
      }
    }

    /** Re-sends the peer unless the attempts are used up. */
    method TryQuickRecovery(config: InterfaceConfig, attempt: int, ok: bool) returns (recovered: bool)
      modifies this`log
      ensures recovered <==> attempt < QUICK_RECOVERY_ATTEMPTS && ok
      ensures log == old(log) +
                if attempt < QUICK_RECOVERY_ATTEMPTS then [UpdatePeer(config.serverPublicKey, ok)] else []
    {
      if attempt >= QUICK_RECOVERY_ATTEMPTS {
        return false;
      }
      log := log + [UpdatePeer(config.serverPublicKey, ok)];
      return ok;
    }

    /** The counters after one sample, and whether it calls for a recovery. */
    static method TakeSample(c: ConnectionState, status: PeerStatus, now: int) returns (connection: ConnectionState,
                                                                                        dead: bool)
      ensures connection == Sample(c, status) && connection.config == c.config
      ensures dead <==> NeedsRecovery(c, status, now)
    {
      var txDelta := status.txBytes - c.lastTxBytes;
      var rxDelta := status.rxBytes - c.lastRxBytes;
      connection := c.(lastTxBytes := status.txBytes, lastRxBytes := status.rxBytes);
      if rxDelta > 0 {
        return connection.(stalledSamples := 0, quickRecoveryAttempts := 0), false;
      }
      if txDelta > 0 {
        connection := connection.(stalledSamples := connection.stalledSamples + 1);
      }
      var handshakeAge := if status.handshake > 0 then now - status.handshake else -1;
      var handshakeStale := handshakeAge > HANDSHAKE_STALE_MSEC || status.handshake == 0;
      var blackHole := connection.stalledSamples >= BLACKHOLE_SAMPLES;
      dead := handshakeStale || blackHole;
    }

    /** A dead sample: one more attempt, or the client is called and the watch stops. */
    method Recover(connection: ConnectionState, ok: bool) returns (after: ConnectionState, cut: bool)
      modifies this`log, this`livenessTimer
      ensures var v := if connection.quickRecoveryAttempts >= QUICK_RECOVERY_ATTEMPTS then OutOfAttempts
                       else if !ok then ResendFailed else Resent;
              && cut == v.HandsOver() && livenessTimer == (old(livenessTimer) && !cut)
              && log == old(log) + VerdictEvents(connection.config.serverPublicKey, v)
      ensures after == if cut then connection
                       else connection.(quickRecoveryAttempts := connection.quickRecoveryAttempts + 1,
                                        stalledSamples := 0)
    {
      var recovered := TryQuickRecovery(connection.config, connection.quickRecoveryAttempts, ok);
      if recovered {
        return connection.(quickRecoveryAttempts := connection.quickRecoveryAttempts + 1, stalledSamples := 0), false;
      }
      livenessTimer := false;
      log := log + [HandedOver];
      return connection, true;
    }

    /** One status against one connection; cut says the client was called. */
    method CheckPeer(hop: HopType, status: PeerStatus, now: int, ok: bool) returns (cut: bool)
      requires hop in connections
      modifies this
      ensures (State(), cut) == LivenessPeer(old(State()), hop, status, now, ok)
    {
      hide Sample, NeedsRecovery;
      var c := connections[hop];
      if status.pubkey != c.config.serverPublicKey {
        assert connections == connections[hop := c] && log == log + [];
        return false;
      }
      var connection, dead := TakeSample(c, status, now);
      cut := false;
      if !dead {
        connections := connections[hop := connection];
        assert log == log + [];
        return;
      }
      connection, cut := Recover(connection, ok);
      connections := connections[hop := connection];
    }

    /** All statuses against one connection, up to the one that calls the client. */
    method CheckPeers(hop: HopType, peers: seq<PeerStatus>, now: int, ok: nat -> bool) returns (cut: bool)
      requires hop in connections
      modifies this
      ensures (State(), cut) == LivenessPeers(old(State()), hop, peers, now, ok, |peers|)
    {
      hide LivenessPeer;
      ghost var s := State();
      for i := 0 to |peers|
        invariant hop in connections && (State(), false) == LivenessPeers(s, hop, peers, now, ok, i)
      {
        cut := CheckPeer(hop, peers[i], now, ok(i));
        if cut {
          CutPeersStay(s, hop, peers, now, ok, i+1, |peers|);
          return;
        }
      }
      return false;
    }

    method CheckLiveness(r: Reading)
      modifies this
      ensures State() == Daemon.CheckLiveness(old(State()), r)
    {
      hide LivenessPeers;
      if connections == map[] || !r.interfaceExists {
        livenessTimer := false;
        return;
      }
      ghost var s := State();
      for n := 0 to |HOPS|
        invariant (State(), false) == LivenessHops(s, r.peers, r.now, r.updatePeer, n)
      {
        var hop := HOPS[n];
        if hop in connections {
          var cut := CheckPeers(hop, r.peers, r.now, r.updatePeer(hop));
          if cut {
            CutHopsStay(s, r, n+1, |HOPS|);
            return;
          }
        }
      }
    }
  }
}
