/**
 The tunnel routes of the live configurations over whole runs
 (client/daemon/daemon.cpp:178-182, 583-599). Unlike exclusions they are not
 counted, so what a switch takes away is gone for every hop.
 */
module LiveRoutes {
  import opened IpAddresses
  import opened Daemon
  import opened ExclusionLedger
  import opened MakeBeforeBreak

  /** Every prefix that a live configuration lists is installed. */
  ghost predicate LiveRoutesInstalled(s: DaemonState) {
    forall hop, p :: hop in s.connections && p in s.connections[hop].config.allowedIPAddressRanges
      ==> p in InstalledRoutes(s.log)
  }

  /** The prefix is one that only the old configuration lists. */
  predicate GivesUp(last: InterfaceConfig, config: InterfaceConfig, p: IpAddress) {
    p in last.allowedIPAddressRanges && p !in config.allowedIPAddressRanges
  }

  /** Another live hop lists a prefix that the switch gives up. */
  predicate TakesFromOthers(s: DaemonState, config: InterfaceConfig)
    requires config.hopType in s.connections
  {
    exists other, p :: other in s.connections && other != config.hopType
                    && p in s.connections[other].config.allowedIPAddressRanges
                    && GivesUp(s.connections[config.hopType].config, config, p)
  }

  /**
   The switch takes nothing from the other hops, and either puts the new
   configuration in place with all its routes, or keeps the old one, which then
   must not have given anything up.
   */
  predicate SwitchIsSafe(s: DaemonState, config: InterfaceConfig, env: SwitchEnv)
    requires config.hopType in s.connections
  {
    env.updatePeer ==>
      && !TakesFromOthers(s, config)
      && (if SwitchInstalls(s, config, env) then AllOk(env.updateRoute, |config.allowedIPAddressRanges|)
          else forall p :: p in s.connections[config.hopType].config.allowedIPAddressRanges
                        ==> p in config.allowedIPAddressRanges)
  }

  // ---------------------------------------------------------------- the pieces of a switch

  lemma {:induction false} UpdateRoutesAdds(s: DaemonState, list: seq<IpAddress>, ok: nat -> bool, n: nat)
    requires n <= |list|
    ensures InstalledRoutes(s.log) <= InstalledRoutes(UpdateRoutes(s, list, ok, n).log)
  {
    hide InstalledRoutes;
    if n > 0 {
      UpdateRoutesAdds(s, list, ok, n-1);
      LoggedRoutes(UpdateRoutes(s, list, ok, n-1).log, UpdateRoutePrefix(list[n-1], ok(n-1)));
    }
  }

  lemma {:induction false} DeleteRoutesSpares(s: DaemonState, list: seq<IpAddress>, keep: seq<IpAddress>,
                                              ok: nat -> bool, n: nat, p: IpAddress)
    requires n <= |list| && p in InstalledRoutes(s.log) && (p in list ==> p in keep)
    ensures p in InstalledRoutes(DeleteRoutes(s, list, keep, ok, n).log)
  {
    hide InstalledRoutes;
    if n > 0 {
      DeleteRoutesSpares(s, list, keep, ok, n-1, p);
      LoggedRoutes(DeleteRoutes(s, list, keep, ok, n-1).log, DeleteRoutePrefix(list[n-1], ok(n-1)));
    }
  }

  lemma MakeAdds(s: DaemonState, config: InterfaceConfig, env: SwitchEnv)
    ensures InstalledRoutes(s.log) <= InstalledRoutes(SwitchMake(s, config, env).log)
    ensures env.updatePeer && AllOk(env.updateRoute, |config.allowedIPAddressRanges|) ==>
              forall p :: p in config.allowedIPAddressRanges ==> p in InstalledRoutes(SwitchMake(s, config, env).log)
  {
    hide InstalledRoutes;
    var list, ranges := config.excludedAddresses, config.allowedIPAddressRanges;
    var added := AddExclusions(s, list, env.addExclusion, |list|);
    ExclusionsKeepRoutes(s, list, env.addExclusion, |list|);
    var peered := added.Logged(UpdatePeer(config.serverPublicKey, env.updatePeer));
    LoggedRoutes(added.log, UpdatePeer(config.serverPublicKey, env.updatePeer));
    UpdateRoutesAdds(peered, ranges, env.updateRoute, |ranges|);
    if AllOk(env.updateRoute, |ranges|) {
      UpdateRoutesInstalls(peered, ranges, env.updateRoute, |ranges|);
      assert ranges[..|ranges|] == ranges;
    }
  }

  /** A switch keeps every installed or newly routed prefix that it does not give up. */
  lemma SwitchSpares(s: DaemonState, config: InterfaceConfig, env: SwitchEnv, p: IpAddress)
    requires config.hopType in s.connections && p in InstalledRoutes(SwitchMake(s, config, env).log)
    requires env.updatePeer ==> !GivesUp(s.connections[config.hopType].config, config, p)
    ensures p in InstalledRoutes(SwitchServer(s, config, env).0.log)
  {
    hide InstalledRoutes, SwitchMake;
    if env.updatePeer {
      var last := s.connections[config.hopType].config;
      var made := SwitchMake(s, config, env);
      var olds := last.excludedAddresses;
      ExclusionsKeepRoutes(made, olds, env.delExclusion, |olds|);
      DeleteRoutesSpares(DelExclusions(made, olds, env.delExclusion, |olds|), last.allowedIPAddressRanges,
                         config.allowedIPAddressRanges, env.delRoute, |last.allowedIPAddressRanges|, p);
      var broken := SwitchBreak(made, last, config, env);
      LoggedRoutes(broken.log, Installed(config.hopType));
      LoggedRoutes(broken.log, DeletePeer(last.serverPublicKey, env.deletePeer));
      LoggedRoutes(broken.log + [DeletePeer(last.serverPublicKey, env.deletePeer)], Installed(config.hopType));
    }
  }

  lemma SafeSwitchKeepsLiveRoutes(s: DaemonState, config: InterfaceConfig, env: SwitchEnv)
    requires LiveRoutesInstalled(s) && config.hopType in s.connections && SwitchIsSafe(s, config, env)
    ensures LiveRoutesInstalled(SwitchServer(s, config, env).0)
  {
    hide InstalledRoutes, SwitchMake, SwitchServer;
    SwitchConnections(s, config, env);
    MakeAdds(s, config, env);
    var t := SwitchServer(s, config, env).0;
    forall hop, p | hop in t.connections && p in t.connections[hop].config.allowedIPAddressRanges
      ensures p in InstalledRoutes(t.log)
    {
      if hop != config.hopType || !SwitchInstalls(s, config, env) {
        assert p in s.connections[hop].config.allowedIPAddressRanges && p in InstalledRoutes(s.log);
      }
      SwitchSpares(s, config, env, p);
    }
  }

  /**
   With no route failure, a switch keeps the routes of all live configurations
   installed if and only if it takes nothing from the other hops and, should it
   stop before installing the new configuration, gives nothing up.
   */
  lemma SwitchKeepsLiveRoutesExactly(s: DaemonState, config: InterfaceConfig, env: SwitchEnv)
    requires LiveRoutesInstalled(s) && config.hopType in s.connections
    requires AllOk(env.updateRoute, |config.allowedIPAddressRanges|)
    requires AllOk(env.delRoute, |s.connections[config.hopType].config.allowedIPAddressRanges|)
    ensures LiveRoutesInstalled(SwitchServer(s, config, env).0) <==> SwitchIsSafe(s, config, env)
  {
    hide InstalledRoutes, SwitchServer;
    if SwitchIsSafe(s, config, env) {
      SafeSwitchKeepsLiveRoutes(s, config, env);
    } else {
      SwitchConnections(s, config, env);
      SwitchRoutesExactly(s, config, env);
      var t := SwitchServer(s, config, env).0;
      var last := s.connections[config.hopType].config;
      if TakesFromOthers(s, config) {
        var other, p :| other in s.connections && other != config.hopType
                     && p in s.connections[other].config.allowedIPAddressRanges && GivesUp(last, config, p);
        assert other in t.connections && p in t.connections[other].config.allowedIPAddressRanges;
        assert p !in InstalledRoutes(t.log);
      } else {
        var p :| p in last.allowedIPAddressRanges && p !in config.allowedIPAddressRanges;
        assert p in t.connections[config.hopType].config.allowedIPAddressRanges && p !in InstalledRoutes(t.log);
      }
    }
  }

  // ---------------------------------------------------------------- the other steps

  /** The same routes in the kernel and the same configurations in the map. */
  ghost predicate SameRoutes(s: DaemonState, t: DaemonState) {
    && InstalledRoutes(t.log) == InstalledRoutes(s.log) && t.connections.Keys == s.connections.Keys
    && forall hop :: hop in s.connections ==> t.connections[hop].config == s.connections[hop].config
  }

  lemma SameRoutesTransitive(s: DaemonState, t: DaemonState, u: DaemonState)
    requires SameRoutes(s, t) && SameRoutes(t, u)
    ensures SameRoutes(s, u)
  {
    hide InstalledRoutes;
  }

  lemma SameRoutesKeepLive(s: DaemonState, t: DaemonState)
    requires SameRoutes(s, t) && LiveRoutesInstalled(s)
    ensures LiveRoutesInstalled(t)
  {
    hide InstalledRoutes;
  }

  lemma LoggedSameRoutes(s: DaemonState, e: Event)
    requires !e.UpdateRoutePrefix? && !e.DeleteRoutePrefix?
    ensures SameRoutes(s, s.Logged(e))
  {
    hide InstalledRoutes;
    LoggedRoutes(s.log, e);
  }

  lemma HandshakePeerSameRoutes(s: DaemonState, hop: HopType, status: PeerStatus)
    requires hop in s.connections
    ensures SameRoutes(s, HandshakePeer(s, hop, status))
  {
    hide InstalledRoutes;
    LoggedRoutes(s.log, Connected(hop, status.pubkey));
  }

  lemma {:induction false} HandshakePeersSameRoutes(s: DaemonState, hop: HopType, peers: seq<PeerStatus>, n: nat)
    requires n <= |peers| && hop in s.connections
    ensures SameRoutes(s, HandshakePeers(s, hop, peers, n))
  {
    hide InstalledRoutes, HandshakePeer;
    if n > 0 {
      HandshakePeersSameRoutes(s, hop, peers, n-1);
      var before := HandshakePeers(s, hop, peers, n-1);
      HandshakePeerSameRoutes(before, hop, peers[n-1]);
      SameRoutesTransitive(s, before, HandshakePeers(s, hop, peers, n));
    }
  }

  lemma {:induction false} HandshakeHopsSameRoutes(s: DaemonState, peers: seq<PeerStatus>, n: nat)
    requires n <= |HOPS|
    ensures SameRoutes(s, HandshakeHops(s, peers, n))
  {
    hide InstalledRoutes, HandshakePeers;
    if n > 0 {
      HandshakeHopsSameRoutes(s, peers, n-1);
      var before := HandshakeHops(s, peers, n-1);
      if HOPS[n-1] in before.connections { HandshakePeersSameRoutes(before, HOPS[n-1], peers, |peers|); }
      SameRoutesTransitive(s, before, HandshakeHops(s, peers, n));
    }
  }

  lemma HandshakeSameRoutes(s: DaemonState, peers: seq<PeerStatus>)
    ensures SameRoutes(s, CheckHandshake(s, peers))
  {
    hide InstalledRoutes, HandshakeHops;
    var seen := HandshakeHops(s.(handshakeTimer := false), peers, |HOPS|);
    HandshakeHopsSameRoutes(s.(handshakeTimer := false), peers, |HOPS|);
    LoggedRoutes(seen.log, WatchStarted);
  }

  lemma VerdictRoutes(log: seq<Event>, key: string, v: Verdict)
    ensures InstalledRoutes(log + VerdictEvents(key, v)) == InstalledRoutes(log)
  {
    hide InstalledRoutes;
    match v
    case Fine => assert log + [] == log;
    case Resent => LoggedRoutes(log, UpdatePeer(key, true));
    case ResendFailed =>
      LoggedRoutes(log, UpdatePeer(key, false));
      LoggedRoutes(log + [UpdatePeer(key, false)], HandedOver);
      assert log + [UpdatePeer(key, false), HandedOver] == log + [UpdatePeer(key, false)] + [HandedOver];
    case OutOfAttempts => LoggedRoutes(log, HandedOver);
  }

  lemma LivenessPeerSameRoutes(s: DaemonState, hop: HopType, status: PeerStatus, now: int, ok: bool)
    requires hop in s.connections
    ensures SameRoutes(s, LivenessPeer(s, hop, status, now, ok).0)
  {
    hide InstalledRoutes, VerdictEvents;
    var (c, v) := Judge(s.connections[hop], status, now, ok);
    VerdictRoutes(s.log, c.config.serverPublicKey, v);
  }

  lemma {:induction false} LivenessPeersSameRoutes(s: DaemonState, hop: HopType, peers: seq<PeerStatus>, now: int,
                                                   ok: nat -> bool, n: nat)
    requires n <= |peers| && hop in s.connections
    ensures SameRoutes(s, LivenessPeers(s, hop, peers, now, ok, n).0)
  {
    hide InstalledRoutes, LivenessPeer;
    if n > 0 {
      LivenessPeersSameRoutes(s, hop, peers, now, ok, n-1);
      var before := LivenessPeers(s, hop, peers, now, ok, n-1).0;
      LivenessPeerSameRoutes(before, hop, peers[n-1], now, ok(n-1));
      SameRoutesTransitive(s, before, LivenessPeers(s, hop, peers, now, ok, n).0);
    }
  }

  lemma {:induction false} LivenessHopsSameRoutes(s: DaemonState, r: Reading, n: nat)
    requires n <= |HOPS|
    ensures SameRoutes(s, LivenessHops(s, r.peers, r.now, r.updatePeer, n).0)
  {
    hide InstalledRoutes, LivenessPeers;
    if n > 0 {
      LivenessHopsSameRoutes(s, r, n-1);
      var before := LivenessHops(s, r.peers, r.now, r.updatePeer, n-1).0;
      if HOPS[n-1] in before.connections {
        LivenessPeersSameRoutes(before, HOPS[n-1], r.peers, r.now, r.updatePeer(HOPS[n-1]), |r.peers|);
      }
      SameRoutesTransitive(s, before, LivenessHops(s, r.peers, r.now, r.updatePeer, n).0);
    }
  }

  /** Nothing installed goes, no connection changes. */
  ghost predicate OnlyAdds(s: DaemonState, t: DaemonState) {
    InstalledRoutes(s.log) <= InstalledRoutes(t.log) && t.connections == s.connections
  }

  lemma OnlyAddsKeepsLive(s: DaemonState, t: DaemonState)
    requires OnlyAdds(s, t) && LiveRoutesInstalled(s)
    ensures LiveRoutesInstalled(t)
  {
    hide InstalledRoutes;
  }

  lemma OnlyAddsLogged(s: DaemonState, t: DaemonState, e: Event)
    requires OnlyAdds(s, t) && !e.DeleteRoutePrefix?
    ensures OnlyAdds(s, t.Logged(e))
  {
    hide InstalledRoutes;
    LoggedRoutes(t.log, e);
  }

  lemma PeeredOnlyAdds(s: DaemonState, config: InterfaceConfig, env: UpEnv)
    ensures var added := AddExclusions(s, config.excludedAddresses, env.addExclusion, |config.excludedAddresses|);
            OnlyAdds(s, added.Logged(UpdatePeer(config.serverPublicKey, env.updatePeer)))
  {
    hide InstalledRoutes;
    var list := config.excludedAddresses;
    ExclusionsKeepRoutes(s, list, env.addExclusion, |list|);
    AddExclusionsKeepsConnections(s, list, env.addExclusion, |list|);
    OnlyAddsLogged(s, AddExclusions(s, list, env.addExclusion, |list|),
                   UpdatePeer(config.serverPublicKey, env.updatePeer));
  }

  lemma RoutedOnlyAdds(s: DaemonState, peered: DaemonState, list: seq<IpAddress>, ok: nat -> bool)
    requires OnlyAdds(s, peered)
    ensures var routed := UpdateRoutes(peered, list, ok, |list|);
            OnlyAdds(s, routed) && (AllOk(ok, |list|) ==> forall p :: p in list ==> p in InstalledRoutes(routed.log))
  {
    hide InstalledRoutes;
    UpdateRoutesAdds(peered, list, ok, |list|);
    UpdateRoutesKeepsTable(peered, list, ok, |list|);
    if AllOk(ok, |list|) {
      UpdateRoutesInstalls(peered, list, ok, |list|);
      assert list[..|list|] == list;
    }
  }

  lemma InstallKeepsLiveRoutes(s: DaemonState, config: InterfaceConfig)
    requires LiveRoutesInstalled(s) && forall p :: p in config.allowedIPAddressRanges ==> p in InstalledRoutes(s.log)
    ensures LiveRoutesInstalled(s.Install(config).StartHandshakeTimer())
  {
    hide InstalledRoutes;
    LoggedRoutes(s.log, Installed(config.hopType));
    LoggedRoutes(s.log + [Installed(config.hopType)], WatchStarted);
  }

  lemma BringUpKeepsLiveRoutes(s: DaemonState, config: InterfaceConfig, env: UpEnv)
    requires LiveRoutesInstalled(s)
    ensures LiveRoutesInstalled(BringUp(s, config, env).0)
  {
    hide InstalledRoutes, LiveRoutesInstalled, OnlyAdds, ConnectPeer;
    NothingAdds(s);
    OnlyAddsLogged(s, s, Prepared(config));
    OnlyAddsLogged(s, s.Logged(Prepared(config)), AddInterface(config.privateKey, env.addInterface));
    var raised := RaiseInterface(s, config, env);
    OnlyAddsLogged(s, raised, ActivationFailure);
    OnlyAddsKeepsLive(s, raised);
    OnlyAddsKeepsLive(s, raised.Logged(ActivationFailure));
    ConnectKeepsLiveRoutes(raised, config, env);
  }

  lemma ConnectKeepsLiveRoutes(s: DaemonState, config: InterfaceConfig, env: UpEnv)
    requires LiveRoutesInstalled(s)
    ensures LiveRoutesInstalled(ConnectPeer(s, config, env).0)
  {
    hide InstalledRoutes, LiveRoutesInstalled, OnlyAdds, AddExclusions, UpdateRoutes;
    var t := ConnectPeer(s, config, env).0;
    var list, ranges := config.excludedAddresses, config.allowedIPAddressRanges;
    var peered := AddExclusions(s, list, env.addExclusion, |list|)
                  .Logged(UpdatePeer(config.serverPublicKey, env.updatePeer));
    PeeredOnlyAdds(s, config, env);
    var routed := UpdateRoutes(peered, ranges, env.updateRoute, |ranges|);
    RoutedOnlyAdds(s, peered, ranges, env.updateRoute);
    if ConnectPeer(s, config, env).1 {
      OnlyAddsKeepsLive(s, routed);
      InstallKeepsLiveRoutes(routed, config);
    } else {
      OnlyAddsLogged(s, peered, ActivationFailure);
      OnlyAddsLogged(s, routed, ActivationFailure);
      OnlyAddsKeepsLive(s, t);
    }
  }

  lemma NothingAdds(s: DaemonState)
    ensures OnlyAdds(s, s)
  {
  }

  lemma ActivateBySwitchKeepsLiveRoutes(s: DaemonState, config: InterfaceConfig, env: ActivateEnv)
    requires LiveRoutesInstalled(s) && config.hopType in s.connections && SwitchIsSafe(s, config, env.switching)
    ensures LiveRoutesInstalled(ActivateBySwitch(s, config, env).0)
  {
    hide InstalledRoutes, SwitchServer;
    SafeSwitchKeepsLiveRoutes(s, config, env.switching);
    SwitchConnections(s, config, env.switching);
    var switched := SwitchServer(s, config, env.switching).0;
    LoggedSameRoutes(switched, ActivationFailure);
    SameRoutesKeepLive(switched, switched.Logged(ActivationFailure));
    if ActivateBySwitch(s, config, env).1 {
      LoggedRoutes(switched.log, Installed(config.hopType));
      LoggedRoutes(switched.log + [Installed(config.hopType)], WatchStarted);
      SameRoutesKeepLive(switched, switched.Install(config).StartHandshakeTimer());
    }
  }

  lemma DeactivateKeepsLiveRoutes(s: DaemonState, emitSignals: bool, env: DownEnv)
    requires LiveRoutesInstalled(s)
    ensures LiveRoutesInstalled(Deactivate(s, emitSignals, env).0)
  {
    hide InstalledRoutes, DropHops, DropExclusions;
    LoggedRoutes(s.log, TakenDown(env.run));
  }

  // ---------------------------------------------------------------- taking the routes down

  /** The call that deletes a prefix of the list succeeds at some position below n. */
  predicate DeletedBy(list: seq<IpAddress>, ok: nat -> bool, n: nat, p: IpAddress)
    requires n <= |list|
  {
    exists i: nat :: i < n && list[i] == p && ok(i)
  }

  lemma {:induction false} DeleteAllRoutesExactly(s: DaemonState, list: seq<IpAddress>, ok: nat -> bool, n: nat,
                                                  p: IpAddress)
    requires n <= |list|
    ensures p in InstalledRoutes(DeleteRoutes(s, list, [], ok, n).log) <==>
            p in InstalledRoutes(s.log) && !DeletedBy(list, ok, n, p)
  {
    hide InstalledRoutes;
    if n > 0 {
      DeleteAllRoutesExactly(s, list, ok, n-1, p);
      LoggedRoutes(DeleteRoutes(s, list, [], ok, n-1).log, DeleteRoutePrefix(list[n-1], ok(n-1)));
      assert DeletedBy(list, ok, n, p) <==> DeletedBy(list, ok, n-1, p) || (list[n-1] == p && ok(n-1));
    }
  }

  /** A live hop lists the prefix, and a call that deletes it succeeds. */
  predicate HopDeletes(s: DaemonState, env: DownEnv, hop: HopType, p: IpAddress) {
    hop in s.connections &&
    var list := s.connections[hop].config.allowedIPAddressRanges;
    DeletedBy(list, env.delRoute(hop), |list|, p)
  }

  lemma {:induction false} DropHopsRoutesExactly(s: DaemonState, env: DownEnv, n: nat, p: IpAddress)
    requires n <= |HOPS|
    ensures p in InstalledRoutes(DropHops(s, env, n).log) <==>
            p in InstalledRoutes(s.log) && forall i :: 0 <= i < n ==> !HopDeletes(s, env, HOPS[i], p)
  {
    hide InstalledRoutes, DeleteRoutes;
    if n > 0 {
      DropHopsRoutesExactly(s, env, n-1, p);
      var before, hop := DropHops(s, env, n-1), HOPS[n-1];
      if hop in s.connections {
        var config := s.connections[hop].config;
        var list := config.allowedIPAddressRanges;
        DeleteAllRoutesExactly(before, list, env.delRoute(hop), |list|, p);
        LoggedRoutes(DeleteRoutes(before, list, [], env.delRoute(hop), |list|).log,
                     DeletePeer(config.serverPublicKey, env.deletePeer(hop)));
      }
    }
  }

  /**
   A deactivation past its hook takes down exactly the tunnel routes that a live
   configuration lists and whose deletion succeeds.
   */
  lemma DeactivatedRoutesExactly(s: DaemonState, emitSignals: bool, env: DownEnv, p: IpAddress)
    requires s.connections == map[] || env.run
    ensures p in InstalledRoutes(Deactivate(s, emitSignals, env).0.log) <==>
            p in InstalledRoutes(s.log) && forall hop :: !HopDeletes(s, env, hop, p)
  {
    hide InstalledRoutes, DropHops, DropExclusions;
    LoggedRoutes(s.log, TakenDown(env.run));
    var asked := AskDown(s, env);
    LoggedRoutes(asked.log, Disconnected);
    var announced := if emitSignals then asked.Logged(Disconnected) else asked;
    DropHopsRoutesExactly(announced, env, |HOPS|, p);
    EveryHop(announced, env, p);
    assert forall hop :: HopDeletes(announced, env, hop, p) == HopDeletes(s, env, hop, p);
    var dropped := DropHops(announced, env, |HOPS|);
    DropExclusionsKeepRoutes(dropped, env.order, env.delExclusion, |env.order|);
    LoggedRoutes(DropExclusions(dropped, env.order, env.delExclusion, |env.order|).log,
                 DeleteInterface(env.deleteInterface));
  }

  lemma EveryHop(s: DaemonState, env: DownEnv, p: IpAddress)
    ensures (forall i :: 0 <= i < |HOPS| ==> !HopDeletes(s, env, HOPS[i], p)) <==>
            (forall hop :: !HopDeletes(s, env, hop, p))
  {
    hide HopDeletes;
    if forall i :: 0 <= i < |HOPS| ==> !HopDeletes(s, env, HOPS[i], p) {
      assert !HopDeletes(s, env, HOPS[0], p) && !HopDeletes(s, env, HOPS[1], p) && !HopDeletes(s, env, HOPS[2], p);
      forall hop: HopType ensures !HopDeletes(s, env, hop, p) {
        match hop
        case SingleHop =>
        case MultiHopEntry =>
        case MultiHopExit =>
      }
    }
  }

  lemma {:induction false} DropExclusionsKeepRoutes(s: DaemonState, order: seq<IpAddress>, ok: nat -> bool, n: nat)
    requires n <= |order|
    ensures InstalledRoutes(DropExclusions(s, order, ok, n).log) == InstalledRoutes(s.log)
  {
    hide InstalledRoutes;
    if n > 0 {
      DropExclusionsKeepRoutes(s, order, ok, n-1);
      LoggedRoutes(DropExclusions(s, order, ok, n-1).log, DeleteExclusionRoute(order[n-1], ok(n-1)));
    }
  }

  lemma RebuildKeepsLiveRoutes(s: DaemonState, config: InterfaceConfig, env: ActivateEnv)
    requires LiveRoutesInstalled(s) && config.hopType in s.connections && !SupportsSwitching(s, config)
    ensures LiveRoutesInstalled(Activate(s, config, env).0)
  {
    hide InstalledRoutes, LiveRoutesInstalled, Deactivate, BringUp;
    DeactivateKeepsLiveRoutes(s, false, env.down);
    var down := Deactivate(s, false, env.down).0;
    LoggedSameRoutes(down, ActivationFailure);
    SameRoutesKeepLive(down, down.Logged(ActivationFailure));
    BringUpKeepsLiveRoutes(down, config, env.up);
    var up := BringUp(down, config, env.up).0;
    LoggedSameRoutes(up, ActivationFailure);
    SameRoutesKeepLive(up, up.Logged(ActivationFailure));
  }

  // ---------------------------------------------------------------- whole runs

  /** Only a switch can endanger the routes of a live configuration. */
  predicate StepIsSafe(s: DaemonState, step: Step) {
    step.ActivateStep? && SupportsSwitching(s, step.config) ==> SwitchIsSafe(s, step.config, step.env.switching)
  }

  predicate SafeRun(steps: seq<Step>) {
    steps == [] || (SafeRun(steps[..|steps|-1]) && StepIsSafe(Exec(steps[..|steps|-1]), steps[|steps|-1]))
  }

  lemma SafeStepKeepsLiveRoutes(s: DaemonState, step: Step)
    requires LiveRoutesInstalled(s) && StepIsSafe(s, step)
    ensures LiveRoutesInstalled(Next(s, step))
  {
    hide LiveRoutesInstalled, BringUp, ActivateBySwitch, Deactivate, CheckHandshake, LivenessHops, SwitchIsSafe;
    match step
    case ActivateStep(config, env) =>
      if config.hopType !in s.connections {
        BringUpKeepsLiveRoutes(s, config, env.up);
      } else if SupportsSwitching(s, config) {
        ActivateBySwitchKeepsLiveRoutes(s, config, env);
      } else {
        RebuildKeepsLiveRoutes(s, config, env);
      }
    case DeactivateStep(emitSignals, env) => DeactivateKeepsLiveRoutes(s, emitSignals, env);
    case HandshakeStep(peers) =>
      HandshakeSameRoutes(s, peers);
      SameRoutesKeepLive(s, CheckHandshake(s, peers));
    case LivenessStep(r) =>
      LivenessHopsSameRoutes(s, r, |HOPS|);
      SameRoutesKeepLive(s, CheckLiveness(s, r));
  }

  /**
   In every run whose switches are safe, whatever else fails at any time, every
   prefix that a live configuration lists is installed.
   */
  lemma {:induction false} RunsKeepLiveRoutes(steps: seq<Step>)
    requires SafeRun(steps)
    ensures LiveRoutesInstalled(Exec(steps))
  {
    hide Next, StepIsSafe;
    if steps != [] {
      RunsKeepLiveRoutes(steps[..|steps|-1]);
      SafeStepKeepsLiveRoutes(Exec(steps[..|steps|-1]), steps[|steps|-1]);
    }
  }

  /**
   In every state such a run can reach, a tunnel route that both the old and
   the new configuration list stays installed at every point of a switch,
   whatever fails on the way.
   */
  lemma ReachableSharedRouteNeverGoes(steps: seq<Step>, config: InterfaceConfig, env: SwitchEnv, p: IpAddress)
    requires SafeRun(steps) && config.hopType in Exec(steps).connections
    requires p in Exec(steps).connections[config.hopType].config.allowedIPAddressRanges
    requires p in config.allowedIPAddressRanges
    ensures RouteHeld(SwitchServer(Exec(steps), config, env).0.log, |Exec(steps).log|, p)
  {
    hide Exec, SwitchServer;
    RunsKeepLiveRoutes(steps);
    SharedRouteNeverGoes(Exec(steps), config, env, p);
  }
}
