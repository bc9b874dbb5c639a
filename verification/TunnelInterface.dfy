/**
 What the daemon's calls make of the one interface behind its connections: the
 peers it holds, the private key it runs on, the configuration each hop was
 brought up with, and what the client is told
 (client/daemon/daemon.cpp:98-190, 497-542, 544-609).
 */
module TunnelInterface {
  import opened Basics
  import opened IpAddresses
  import opened Daemon
  import opened ExclusionLedger
  import opened Watchdog

  /**
   `brought` holds the configuration of the last bring-up of each hop, `asked`
   counts the requests to take the tunnel down, `signals` and `failures` the
   emitted `disconnected` and `activationFailure`.
   */
  datatype Interface = Interface(
    peers: set<string>,
    privateKey: Option<string>,
    brought: map<HopType, InterfaceConfig>,
    asked: nat,
    signals: nat,
    failures: nat)

  const ABSENT := Interface({}, None, map[], 0, 0, 0)

  /** One event; a deleted interface takes its peers and its key along. */
  function After(i: Interface, e: Event): Interface {
    match e
    case UpdatePeer(k, true) => i.(peers := i.peers + {k})
    case DeletePeer(k, true) => i.(peers := i.peers - {k})
    case Prepared(config) => i.(brought := i.brought[config.hopType := config])
    case AddInterface(k, true) => i.(privateKey := Some(k))
    case DeleteInterface(true) => i.(peers := {}, privateKey := None)
    case TakenDown(_) => i.(asked := i.asked + 1)
    case Disconnected => i.(signals := i.signals + 1)
    case HandedOver => i.(signals := i.signals + 1)
    case ActivationFailure => i.(failures := i.failures + 1)
    case _ => i
  }

  function Behind(log: seq<Event>): Interface {
    if log == [] then ABSENT else After(Behind(log[..|log|-1]), log[|log|-1])
  }

  lemma OneMoreEvent(log: seq<Event>, e: Event)
    ensures Behind(log + [e]) == After(Behind(log), e)
  {
    assert (log + [e])[..|log|] == log;
  }

  // ---------------------------------------------------------------- routes leave the interface alone

  lemma {:induction false} AddExclusionsLeaveIt(s: DaemonState, list: seq<AddressText>, ok: nat -> bool, n: nat)
    requires n <= |list|
    ensures Behind(AddExclusions(s, list, ok, n).log) == Behind(s.log)
  {
    hide Behind;
    if n > 0 {
      AddExclusionsLeaveIt(s, list, ok, n-1);
      OneMoreEvent(AddExclusions(s, list, ok, n-1).log, AddExclusionRoute(AddKey(list[n-1]), ok(n-1)));
    }
  }

  lemma {:induction false} DelExclusionsLeaveIt(s: DaemonState, list: seq<AddressText>, ok: nat -> bool, n: nat)
    requires n <= |list|
    ensures Behind(DelExclusions(s, list, ok, n).log) == Behind(s.log)
  {
    hide Behind;
    if n > 0 {
      DelExclusionsLeaveIt(s, list, ok, n-1);
      OneMoreEvent(DelExclusions(s, list, ok, n-1).log, DeleteExclusionRoute(RemoveKey(list[n-1]), ok(n-1)));
    }
  }

  lemma {:induction false} UpdateRoutesLeaveIt(s: DaemonState, list: seq<IpAddress>, ok: nat -> bool, n: nat)
    requires n <= |list|
    ensures Behind(UpdateRoutes(s, list, ok, n).log) == Behind(s.log)
  {
    hide Behind;
    if n > 0 {
      UpdateRoutesLeaveIt(s, list, ok, n-1);
      OneMoreEvent(UpdateRoutes(s, list, ok, n-1).log, UpdateRoutePrefix(list[n-1], ok(n-1)));
    }
  }

  lemma {:induction false} DeleteRoutesLeaveIt(s: DaemonState, list: seq<IpAddress>, keep: seq<IpAddress>,
                                               ok: nat -> bool, n: nat)
    requires n <= |list|
    ensures Behind(DeleteRoutes(s, list, keep, ok, n).log) == Behind(s.log)
  {
    hide Behind;
    if n > 0 {
      DeleteRoutesLeaveIt(s, list, keep, ok, n-1);
      OneMoreEvent(DeleteRoutes(s, list, keep, ok, n-1).log, DeleteRoutePrefix(list[n-1], ok(n-1)));
    }
  }

  lemma {:induction false} DropExclusionsLeaveIt(s: DaemonState, order: seq<IpAddress>, ok: nat -> bool, n: nat)
    requires n <= |order|
    ensures Behind(DropExclusions(s, order, ok, n).log) == Behind(s.log)
  {
    hide Behind;
    if n > 0 {
      DropExclusionsLeaveIt(s, order, ok, n-1);
      OneMoreEvent(DropExclusions(s, order, ok, n-1).log, DeleteExclusionRoute(order[n-1], ok(n-1)));
    }
  }

  // ---------------------------------------------------------------- switching

  lemma SwitchMakePeers(s: DaemonState, config: InterfaceConfig, env: SwitchEnv)
    ensures Behind(SwitchMake(s, config, env).log)
         == After(Behind(s.log), UpdatePeer(config.serverPublicKey, env.updatePeer))
  {
    hide Behind, AddExclusions, UpdateRoutes;
    var list, ranges := config.excludedAddresses, config.allowedIPAddressRanges;
    AddExclusionsLeaveIt(s, list, env.addExclusion, |list|);
    var added := AddExclusions(s, list, env.addExclusion, |list|);
    OneMoreEvent(added.log, UpdatePeer(config.serverPublicKey, env.updatePeer));
    UpdateRoutesLeaveIt(added.Logged(UpdatePeer(config.serverPublicKey, env.updatePeer)), ranges,
                        env.updateRoute, |ranges|);
  }

  lemma SwitchBreakLeavesIt(s: DaemonState, last: InterfaceConfig, config: InterfaceConfig, env: SwitchEnv)
    ensures Behind(SwitchBreak(s, last, config, env).log) == Behind(s.log)
  {
    hide Behind, DelExclusions, DeleteRoutes;
    var list, ranges := last.excludedAddresses, last.allowedIPAddressRanges;
    DelExclusionsLeaveIt(s, list, env.delExclusion, |list|);
    DeleteRoutesLeaveIt(DelExclusions(s, list, env.delExclusion, |list|), ranges, config.allowedIPAddressRanges,
                        env.delRoute, |ranges|);
  }

  /**
   The peers after a switch, whatever fails: the new one once its update is
   accepted, and the old one gone if it is another and could be deleted. Nothing
   else about the interface changes.
   */
  lemma SwitchPeersExactly(s: DaemonState, config: InterfaceConfig, env: SwitchEnv)
    requires config.hopType in s.connections
    ensures var i, last, next := Behind(s.log), KeyOf(s, config.hopType), config.serverPublicKey;
            Behind(SwitchServer(s, config, env).0.log)
            == i.(peers := if !env.updatePeer then i.peers
                           else if next == last || !env.deletePeer then i.peers + {next}
                           else i.peers + {next} - {last})
  {
    hide Behind, SwitchMake, SwitchBreak;
    var last := s.connections[config.hopType].config;
    SwitchMakePeers(s, config, env);
    var made := SwitchMake(s, config, env);
    SwitchBreakLeavesIt(made, last, config, env);
    var broken := SwitchBreak(made, last, config, env);
    var unpeered := broken.Logged(DeletePeer(last.serverPublicKey, env.deletePeer));
    OneMoreEvent(broken.log, DeletePeer(last.serverPublicKey, env.deletePeer));
    OneMoreEvent(broken.log, Installed(config.hopType));
    OneMoreEvent(unpeered.log, Installed(config.hopType));
  }

  function KeyOf(s: DaemonState, hop: HopType): string
    requires hop in s.connections
  {
    s.connections[hop].config.serverPublicKey
  }

  /** A switch that reports success leaves the new peer, and not the old one if it is another. */
  lemma SuccessfulSwitchReplacesThePeer(s: DaemonState, config: InterfaceConfig, env: SwitchEnv)
    requires config.hopType in s.connections && SwitchServer(s, config, env).1
    ensures var peers, last := Behind(SwitchServer(s, config, env).0.log).peers, KeyOf(s, config.hopType);
            && config.serverPublicKey in peers && (last != config.serverPublicKey ==> last !in peers)
            && forall k :: k != last && k != config.serverPublicKey ==> (k in peers <==> k in Behind(s.log).peers)
  {
    hide Behind, SwitchMake, SwitchBreak;
    SwitchPeersExactly(s, config, env);
  }

  /** What activate does after switchServer: it may fail, but changes neither the interface nor the configurations. */
  lemma SwitchedInterface(s: DaemonState, config: InterfaceConfig, env: ActivateEnv)
    requires config.hopType in s.connections
    ensures var t := ActivateBySwitch(s, config, env).0;
            && Behind(t.log) == Reported(Behind(SwitchServer(s, config, env.switching).0.log),
                                         ActivateBySwitch(s, config, env).1)
            && t.connections.Keys == s.connections.Keys
            && (forall hop :: hop in s.connections ==>
                  t.connections[hop].config == if hop == config.hopType && SwitchInstalls(s, config, env.switching)
                                               then config else s.connections[hop].config)
  {
    hide Behind, SwitchServer;
    SwitchConnections(s, config, env.switching);
    var t := SwitchServer(s, config, env.switching).0;
    OneMoreEvent(t.log, ActivationFailure);
    OneMoreEvent(t.log, Installed(config.hopType));
    OneMoreEvent(t.Install(config).log, WatchStarted);
  }

  /** One more failure is emitted unless the activation succeeded. */
  function Reported(i: Interface, ok: bool): Interface { if ok then i else i.(failures := i.failures + 1) }

  // ---------------------------------------------------------------- taking the tunnel down

  /** The keys whose peers are deleted with success among the first n hops. */
  function DroppedKeys(s: DaemonState, env: DownEnv, n: nat): set<string>
    requires n <= |HOPS|
  {
    if n == 0 then {} else
    var before, hop := DroppedKeys(s, env, n-1), HOPS[n-1];
    if hop in s.connections && env.deletePeer(hop) then before + {KeyOf(s, hop)} else before
  }

  lemma {:induction false} DropHopsPeers(s: DaemonState, env: DownEnv, n: nat)
    requires n <= |HOPS|
    ensures var i := Behind(s.log);
            Behind(DropHops(s, env, n).log) == i.(peers := i.peers - DroppedKeys(s, env, n))
  {
    hide Behind, DeleteRoutes;
    if n > 0 {
      DropHopsPeers(s, env, n-1);
      var before, hop := DropHops(s, env, n-1), HOPS[n-1];
      if hop in s.connections {
        var ranges := s.connections[hop].config.allowedIPAddressRanges;
        DeleteRoutesLeaveIt(before, ranges, [], env.delRoute(hop), |ranges|);
        OneMoreEvent(DeleteRoutes(before, ranges, [], env.delRoute(hop), |ranges|).log,
                     DeletePeer(KeyOf(s, hop), env.deletePeer(hop)));
      }
    }
  }

  lemma {:induction false} DroppedKeysExactly(s: DaemonState, env: DownEnv, n: nat, k: string)
    requires n <= |HOPS|
    ensures k in DroppedKeys(s, env, n) <==>
            exists hop :: HopIndex(hop) < n && hop in s.connections && KeyOf(s, hop) == k && env.deletePeer(hop)
  {
    if n > 0 {
      DroppedKeysExactly(s, env, n-1, k);
      assert HopIndex(HOPS[n-1]) == n-1;
      assert forall hop :: HopIndex(hop) < n <==> HopIndex(hop) < n-1 || hop == HOPS[n-1];
    }
  }

  /**
   The interface after a deactivation: gone if it could be deleted; otherwise it
   has lost exactly the peers of the live connections whose deletion succeeded.
   `disconnected` is emitted if and only if that was asked for.
   */
  lemma DeactivatedInterfaceExactly(s: DaemonState, emitSignals: bool, env: DownEnv)
    ensures var i, j := Behind(s.log), Behind(Deactivate(s, emitSignals, env).0.log);
            && j.brought == i.brought && j.failures == i.failures
            && j.asked == (if s.connections == map[] then i.asked else i.asked + 1)
            && (if s.connections != map[] && !env.run
                then j.signals == i.signals && j.peers == i.peers && j.privateKey == i.privateKey
                else && j.signals == (if emitSignals then i.signals + 1 else i.signals)
                     && j.privateKey == (if env.deleteInterface then None else i.privateKey)
                     && forall k :: k in j.peers <==>
                          && !env.deleteInterface && k in i.peers
                          && !exists hop :: hop in s.connections && KeyOf(s, hop) == k && env.deletePeer(hop))
  {
    hide Behind, DropHops, DropExclusions, DroppedKeys;
    var stopped := s.(livenessTimer := false, handshakeTimer := false);
    OneMoreEvent(stopped.log, TakenDown(env.run));
    var asked := AskDown(s, env);
    OneMoreEvent(asked.log, Disconnected);
    var announced := if emitSignals then asked.Logged(Disconnected) else asked;
    DropHopsPeers(announced, env, |HOPS|);
    SameDroppedKeys(s, announced, env, |HOPS|);
    forall k ensures k in DroppedKeys(s, env, |HOPS|) <==>
        exists hop :: hop in s.connections && KeyOf(s, hop) == k && env.deletePeer(hop)
    {
      DroppedKeysExactly(s, env, |HOPS|, k);
    }
    var dropped := DropHops(announced, env, |HOPS|);
    DropExclusionsLeaveIt(dropped, env.order, env.delExclusion, |env.order|);
    OneMoreEvent(DropExclusions(dropped, env.order, env.delExclusion, |env.order|).log,
                 DeleteInterface(env.deleteInterface));
  }

  lemma {:induction false} SameDroppedKeys(s: DaemonState, t: DaemonState, env: DownEnv, n: nat)
    requires n <= |HOPS| && s.connections == t.connections
    ensures DroppedKeys(s, env, n) == DroppedKeys(t, env, n)
  {
    if n > 0 { SameDroppedKeys(s, t, env, n-1); }
  }

  // ---------------------------------------------------------------- bringing a hop up

  /** The interface after a bring-up, and whether the connection is in place. */
  lemma BroughtUpInterface(s: DaemonState, config: InterfaceConfig, env: UpEnv)
    ensures var t, i := BringUp(s, config, env).0, Behind(s.log);
            && Behind(t.log) == Reported(i.(
                 peers := if InterfaceReady(env) && env.updatePeer then i.peers + {config.serverPublicKey} else i.peers,
                 privateKey := KeyAfter(i, config, env),
                 brought := i.brought[config.hopType := config]), BringUp(s, config, env).1)
            && t.connections == (if InterfaceReady(env) && PeerReady(config, env)
                                 then s.connections[config.hopType := FreshConnection(config)] else s.connections)
  {
    hide Behind, ConnectPeer;
    var prepared := s.Logged(Prepared(config));
    OneMoreEvent(s.log, Prepared(config));
    OneMoreEvent(prepared.log, AddInterface(config.privateKey, env.addInterface));
    var raised := RaiseInterface(s, config, env);
    OneMoreEvent(raised.log, ActivationFailure);
    ConnectedPeer(raised, config, env);
    if InterfaceReady(env) { BringUpAfterExclusions(s, config, env); }
  }

  /** The key after a bring-up: that of the configuration only if the interface had to be made. */
  function KeyAfter(i: Interface, config: InterfaceConfig, env: UpEnv): Option<string> {
    if !env.interfaceExists && env.addInterface then Some(config.privateKey) else i.privateKey
  }

  lemma ConnectedPeer(s: DaemonState, config: InterfaceConfig, env: UpEnv)
    ensures Behind(ConnectPeer(s, config, env).0.log)
         == Reported(After(Behind(s.log), UpdatePeer(config.serverPublicKey, env.updatePeer)),
                     ConnectPeer(s, config, env).1)
  {
    hide Behind, AddExclusions, UpdateRoutes, ResolversOk, AllOk;
    var list, ranges := config.excludedAddresses, config.allowedIPAddressRanges;
    AddExclusionsLeaveIt(s, list, env.addExclusion, |list|);
    var added := AddExclusions(s, list, env.addExclusion, |list|);
    var peered := added.Logged(UpdatePeer(config.serverPublicKey, env.updatePeer));
    OneMoreEvent(added.log, UpdatePeer(config.serverPublicKey, env.updatePeer));
    if !env.updatePeer || !ResolversOk(config, env.updateResolvers) {
      OneMoreEvent(peered.log, ActivationFailure);
    } else {
      UpdateRoutesLeaveIt(peered, ranges, env.updateRoute, |ranges|);
      var routed := UpdateRoutes(peered, ranges, env.updateRoute, |ranges|);
      if PeerReady(config, env) {
        OneMoreEvent(routed.log, Installed(config.hopType));
        OneMoreEvent(routed.Install(config).log, WatchStarted);
      } else {
        OneMoreEvent(routed.log, ActivationFailure);
      }
    }
  }

  // ---------------------------------------------------------------- ticks

  ghost predicate SameConfigs(s: DaemonState, t: DaemonState) {
    && t.connections.Keys == s.connections.Keys
    && forall hop :: hop in s.connections ==> t.connections[hop].config == s.connections[hop].config
  }

  lemma {:induction false} HandshakePeersLeaveIt(s: DaemonState, hop: HopType, peers: seq<PeerStatus>, n: nat)
    requires n <= |peers| && hop in s.connections
    ensures Behind(HandshakePeers(s, hop, peers, n).log) == Behind(s.log)
  {
    hide Behind;
    if n > 0 {
      HandshakePeersLeaveIt(s, hop, peers, n-1);
      OneMoreEvent(HandshakePeers(s, hop, peers, n-1).log, Connected(hop, peers[n-1].pubkey));
    }
  }

  lemma {:induction false} HandshakeHopsLeaveIt(s: DaemonState, peers: seq<PeerStatus>, n: nat)
    requires n <= |HOPS|
    ensures Behind(HandshakeHops(s, peers, n).log) == Behind(s.log)
  {
    hide Behind, HandshakePeers;
    if n > 0 {
      HandshakeHopsLeaveIt(s, peers, n-1);
      var before, hop := HandshakeHops(s, peers, n-1), HOPS[n-1];
      if hop in before.connections { HandshakePeersLeaveIt(before, hop, peers, |peers|); }
    }
  }

  lemma HandshakeLeavesIt(s: DaemonState, peers: seq<PeerStatus>)
    ensures var t := CheckHandshake(s, peers); Behind(t.log) == Behind(s.log) && SameConfigs(s, t)
  {
    hide Behind, HandshakeHops;
    var fired := s.(handshakeTimer := false);
    HandshakeHopsLeaveIt(fired, peers, |HOPS|);
    HandshakeKeepsDemand(s, peers);
    OneMoreEvent(HandshakeHops(fired, peers, |HOPS|).log, WatchStarted);
  }

  /** Peers of live connections may have been sent again, and `extra` signals were emitted. */
  ghost predicate Resends(s: DaemonState, t: DaemonState, extra: nat) {
    && SameConfigs(s, t)
    && Behind(t.log) == Behind(s.log).(peers := Behind(t.log).peers, signals := Behind(s.log).signals + extra)
    && Behind(s.log).peers <= Behind(t.log).peers
    && forall k :: k in Behind(t.log).peers ==>
         k in Behind(s.log).peers || exists hop :: hop in s.connections && KeyOf(s, hop) == k
  }

  lemma VerdictShows(log: seq<Event>, key: string, v: Verdict)
    ensures var i := Behind(log);
            Behind(log + VerdictEvents(key, v)) == i.(peers := if v.Resent? then i.peers + {key} else i.peers,
                                                      signals := if v.HandsOver() then i.signals + 1 else i.signals)
  {
    hide Behind;
    match v
    case Fine => assert log + [] == log;
    case Resent => OneMoreEvent(log, UpdatePeer(key, true));
    case ResendFailed =>
      OneMoreEvent(log, UpdatePeer(key, false));
      OneMoreEvent(log + [UpdatePeer(key, false)], HandedOver);
      assert log + [UpdatePeer(key, false), HandedOver] == log + [UpdatePeer(key, false)] + [HandedOver];
    case OutOfAttempts => OneMoreEvent(log, HandedOver);
  }

  lemma LivenessPeerResends(s: DaemonState, hop: HopType, status: PeerStatus, now: int, ok: bool)
    requires hop in s.connections
    ensures var (t, cut) := LivenessPeer(s, hop, status, now, ok);
            Resends(s, t, if cut then 1 else 0)
  {
    hide Behind, VerdictEvents;
    var (c, v) := Judge(s.connections[hop], status, now, ok);
    VerdictShows(s.log, c.config.serverPublicKey, v);
    assert c.config.serverPublicKey == KeyOf(s, hop);
  }

  lemma ResendsOnward(s: DaemonState, t: DaemonState, u: DaemonState, m: nat, n: nat)
    requires Resends(s, t, m) && Resends(t, u, n)
    ensures Resends(s, u, m + n)
  {
    hide Behind;
    forall k | k in Behind(u.log).peers
      ensures k in Behind(s.log).peers || exists hop :: hop in s.connections && KeyOf(s, hop) == k
    {
      if k !in Behind(t.log).peers {
        var hop :| hop in t.connections && KeyOf(t, hop) == k;
        assert KeyOf(s, hop) == k;
      }
    }
  }

  lemma NothingResent(s: DaemonState)
    ensures Resends(s, s, 0)
  {
  }

  lemma {:induction false} LivenessPeersResend(s: DaemonState, hop: HopType, peers: seq<PeerStatus>, now: int,
                                               ok: nat -> bool, n: nat)
    requires n <= |peers| && hop in s.connections
    ensures var (t, cut) := LivenessPeers(s, hop, peers, now, ok, n); Resends(s, t, if cut then 1 else 0)
  {
    hide Resends, LivenessPeer;
    if n == 0 {
      NothingResent(s);
    } else {
      LivenessPeersResend(s, hop, peers, now, ok, n-1);
      var (before, cut) := LivenessPeers(s, hop, peers, now, ok, n-1);
      if !cut {
        LivenessPeerResends(before, hop, peers[n-1], now, ok(n-1));
        var (t, stop) := LivenessPeer(before, hop, peers[n-1], now, ok(n-1));
        ResendsOnward(s, before, t, 0, if stop then 1 else 0);
      }
    }
  }

  lemma {:induction false} LivenessHopsResend(s: DaemonState, r: Reading, n: nat)
    requires n <= |HOPS|
    ensures var (t, cut) := LivenessHops(s, r.peers, r.now, r.updatePeer, n); Resends(s, t, if cut then 1 else 0)
  {
    hide Resends, LivenessPeers;
    if n == 0 {
      NothingResent(s);
    } else {
      LivenessHopsResend(s, r, n-1);
      var (before, cut) := LivenessHops(s, r.peers, r.now, r.updatePeer, n-1);
      var hop := HOPS[n-1];
      if !cut && hop in before.connections {
        LivenessPeersResend(before, hop, r.peers, r.now, r.updatePeer(hop), |r.peers|);
        var (t, stop) := LivenessPeers(before, hop, r.peers, r.now, r.updatePeer(hop), |r.peers|);
        ResendsOnward(s, before, t, 0, if stop then 1 else 0);
      }
    }
  }

  lemma LivenessResends(s: DaemonState, r: Reading)
    ensures Resends(s, CheckLiveness(s, r), if HandsOver(s, r) then 1 else 0)
  {
    hide LivenessHops;
    LivenessHopsResend(s, r, |HOPS|);
  }

  // ---------------------------------------------------------------- the peers of the live connections

  ghost predicate PeersInPlace(s: DaemonState) {
    forall hop :: hop in s.connections ==> KeyOf(s, hop) in Behind(s.log).peers
  }

  /** A switch to another peer deletes the old one although another live hop uses it. */
  predicate TakesPeer(s: DaemonState, step: Step) {
    step.ActivateStep? && SupportsSwitching(s, step.config) &&
    var hop, env := step.config.hopType, step.env.switching;
    && env.updatePeer && env.deletePeer && step.config.serverPublicKey != KeyOf(s, hop)
    && exists other :: other in s.connections && other != hop && KeyOf(s, other) == KeyOf(s, hop)
  }

  lemma ResendsKeepPeers(s: DaemonState, t: DaemonState, extra: nat)
    requires Resends(s, t, extra) && PeersInPlace(s)
    ensures PeersInPlace(t)
  {
    forall hop | hop in t.connections ensures KeyOf(t, hop) in Behind(t.log).peers {
      assert KeyOf(s, hop) in Behind(s.log).peers;
    }
  }

  lemma SwitchKeepsPeersExactly(s: DaemonState, config: InterfaceConfig, env: ActivateEnv)
    requires PeersInPlace(s) && SupportsSwitching(s, config)
    ensures PeersInPlace(ActivateBySwitch(s, config, env).0) <==> !TakesPeer(s, ActivateStep(config, env))
  {
    hide Behind, SwitchServer, ActivateBySwitch;
    SwitchedInterface(s, config, env);
    SwitchPeersExactly(s, config, env.switching);
    var t, hop := ActivateBySwitch(s, config, env).0, config.hopType;
    if TakesPeer(s, ActivateStep(config, env)) {
      var other :| other in s.connections && other != hop && KeyOf(s, other) == KeyOf(s, hop);
      assert KeyOf(t, other) == KeyOf(s, hop) && KeyOf(t, other) !in Behind(t.log).peers;
    } else {
      forall h | h in t.connections ensures KeyOf(t, h) in Behind(t.log).peers {
        assert h in s.connections && KeyOf(s, h) in Behind(s.log).peers;
      }
    }
  }

  lemma BringUpKeepsPeers(s: DaemonState, config: InterfaceConfig, env: UpEnv)
    requires PeersInPlace(s)
    ensures PeersInPlace(BringUp(s, config, env).0)
  {
    hide Behind, BringUp;
    BroughtUpInterface(s, config, env);
    var t := BringUp(s, config, env).0;
    forall hop | hop in t.connections ensures KeyOf(t, hop) in Behind(t.log).peers {
      if hop in s.connections { assert KeyOf(s, hop) in Behind(s.log).peers; }
    }
  }

  lemma DeactivateConnections(s: DaemonState, emitSignals: bool, env: DownEnv)
    ensures var (t, ok) := Deactivate(s, emitSignals, env);
            && t.connections == (if s.connections != map[] && !env.run then s.connections else map[])
            && ok == (env.deleteInterface && (s.connections == map[] || env.run))
  {
    hide DropHops, DropExclusions;
  }

  lemma DeactivateKeepsPeers(s: DaemonState, emitSignals: bool, env: DownEnv)
    requires PeersInPlace(s)
    ensures PeersInPlace(Deactivate(s, emitSignals, env).0)
  {
    hide Behind, Deactivate;
    DeactivateConnections(s, emitSignals, env);
    DeactivatedInterfaceExactly(s, emitSignals, env);
    var t := Deactivate(s, emitSignals, env).0;
    if s.connections != map[] && !env.run {
      forall hop | hop in t.connections ensures KeyOf(t, hop) in Behind(t.log).peers {
        assert KeyOf(s, hop) in Behind(s.log).peers;
      }
    }
  }

  lemma FailureKeepsPeers(s: DaemonState)
    requires PeersInPlace(s)
    ensures PeersInPlace(s.Logged(ActivationFailure))
  {
    hide Behind;
    OneMoreEvent(s.log, ActivationFailure);
    assert forall hop :: hop in s.connections ==> KeyOf(s.Logged(ActivationFailure), hop) == KeyOf(s, hop);
  }

  lemma RebuildKeepsPeers(s: DaemonState, config: InterfaceConfig, env: ActivateEnv)
    requires PeersInPlace(s) && config.hopType in s.connections && !SupportsSwitching(s, config)
    ensures PeersInPlace(Activate(s, config, env).0)
  {
    hide PeersInPlace, Deactivate, BringUp;
    var down := Deactivate(s, false, env.down).0;
    DeactivateKeepsPeers(s, false, env.down);
    FailureKeepsPeers(down);
    BringUpKeepsPeers(down, config, env.up);
    FailureKeepsPeers(BringUp(down, config, env.up).0);
  }

  /** A step leaves a live connection without its peer exactly then. */
  lemma PeerIsTakenExactly(s: DaemonState, step: Step)
    requires PeersInPlace(s)
    ensures PeersInPlace(Next(s, step)) <==> !TakesPeer(s, step)
  {
    hide PeersInPlace, BringUp, ActivateBySwitch, Deactivate, CheckHandshake, CheckLiveness, Resends;
    match step
    case ActivateStep(config, env) =>
      if config.hopType !in s.connections {
        BringUpKeepsPeers(s, config, env.up);
      } else if SupportsSwitching(s, config) {
        SwitchKeepsPeersExactly(s, config, env);
      } else {
        RebuildKeepsPeers(s, config, env);
      }
    case DeactivateStep(emitSignals, env) => DeactivateKeepsPeers(s, emitSignals, env);
    case HandshakeStep(peers) => HandshakeKeepsPeers(s, peers);
    case LivenessStep(r) =>
      LivenessResends(s, r);
      ResendsKeepPeers(s, CheckLiveness(s, r), if HandsOver(s, r) then 1 else 0);
  }

  lemma HandshakeKeepsPeers(s: DaemonState, peers: seq<PeerStatus>)
    requires PeersInPlace(s)
    ensures PeersInPlace(CheckHandshake(s, peers))
  {
    hide Behind, CheckHandshake;
    HandshakeLeavesIt(s, peers);
    var t := CheckHandshake(s, peers);
    forall hop | hop in t.connections ensures KeyOf(t, hop) in Behind(t.log).peers {
      assert KeyOf(s, hop) in Behind(s.log).peers;
    }
  }

  predicate NoPeerTaken(steps: seq<Step>) {
    steps == [] || (NoPeerTaken(steps[..|steps|-1]) && !TakesPeer(Exec(steps[..|steps|-1]), steps[|steps|-1]))
  }

  /** In every run without such a step, whatever fails, the peer of every live connection is on the interface. */
  lemma {:induction false} RunsKeepPeers(steps: seq<Step>)
    requires NoPeerTaken(steps)
    ensures PeersInPlace(Exec(steps))
  {
    hide Next, TakesPeer, PeersInPlace;
    if steps == [] {
      NothingLive();
    } else {
      RunsKeepPeers(steps[..|steps|-1]);
      PeerIsTakenExactly(Exec(steps[..|steps|-1]), steps[|steps|-1]);
    }
  }

  lemma NothingLive()
    ensures PeersInPlace(INITIAL) && KeyInPlace(INITIAL) && AsBroughtUp(INITIAL)
  {
  }

  // ---------------------------------------------------------------- the key the interface runs on

  ghost predicate KeyInPlace(s: DaemonState) {
    forall hop :: hop in s.connections ==> Behind(s.log).privateKey == Some(s.connections[hop].config.privateKey)
  }

  /**
   A bring-up leaves every live connection on its own key: it makes the interface
   anew only if nothing lives on another key, and it puts its connection in place
   only on an interface with that key. A rebuild has deleted the interface.
   */
  predicate KeepsKey(s: DaemonState, step: Step) {
    step.ActivateStep? && !SupportsSwitching(s, step.config) ==>
      var config, env := step.config, step.env;
      var installs := InterfaceReady(env.up) && PeerReady(config, env.up);
      if config.hopType in s.connections then
        env.down.run && env.down.deleteInterface && installs ==> !env.up.interfaceExists
      else
        var key := KeyAfter(Behind(s.log), config, env.up);
        && (s.connections != map[] ==> key == Behind(s.log).privateKey)
        && (installs ==> key == Some(config.privateKey))
  }

  lemma BringUpKeepsKeyExactly(s: DaemonState, config: InterfaceConfig, env: UpEnv)
    requires KeyInPlace(s) && config.hopType !in s.connections
    ensures var key := KeyAfter(Behind(s.log), config, env);
            KeyInPlace(BringUp(s, config, env).0) <==>
            && (s.connections != map[] ==> key == Behind(s.log).privateKey)
            && (InterfaceReady(env) && PeerReady(config, env) ==> key == Some(config.privateKey))
  {
    hide Behind, BringUp, InterfaceReady, PeerReady;
    BroughtUpInterface(s, config, env);
    var t := BringUp(s, config, env).0;
    if s.connections != map[] {
      var hop :| hop in s.connections;
      assert hop in t.connections && t.connections[hop] == s.connections[hop];
    }
    if InterfaceReady(env) && PeerReady(config, env) { assert t.connections[config.hopType].config == config; }
  }

  lemma SwitchKeepsKey(s: DaemonState, config: InterfaceConfig, env: ActivateEnv)
    requires KeyInPlace(s) && SupportsSwitching(s, config)
    ensures KeyInPlace(ActivateBySwitch(s, config, env).0)
  {
    hide Behind, SwitchServer, ActivateBySwitch;
    SwitchedInterface(s, config, env);
    SwitchPeersExactly(s, config, env.switching);
  }

  lemma FailureKeepsKey(s: DaemonState)
    ensures KeyInPlace(s.Logged(ActivationFailure)) <==> KeyInPlace(s)
  {
    hide Behind;
    OneMoreEvent(s.log, ActivationFailure);
  }

  lemma DeactivateKeepsKey(s: DaemonState, emitSignals: bool, env: DownEnv)
    requires KeyInPlace(s)
    ensures KeyInPlace(Deactivate(s, emitSignals, env).0)
  {
    hide Behind, Deactivate;
    DeactivateConnections(s, emitSignals, env);
    DeactivatedInterfaceExactly(s, emitSignals, env);
  }

  lemma RebuildKeepsKeyExactly(s: DaemonState, config: InterfaceConfig, env: ActivateEnv)
    requires KeyInPlace(s) && config.hopType in s.connections && !SupportsSwitching(s, config)
    ensures KeyInPlace(Activate(s, config, env).0) <==> KeepsKey(s, ActivateStep(config, env))
  {
    hide Behind, Deactivate, BringUp, InterfaceReady, PeerReady, KeyInPlace;
    DeactivateConnections(s, false, env.down);
    DeactivatedInterfaceExactly(s, false, env.down);
    DeactivateKeepsKey(s, false, env.down);
    var down := Deactivate(s, false, env.down).0;
    FailureKeepsKey(down);
    if env.down.run && env.down.deleteInterface {
      BringUpKeepsKeyExactly(down, config, env.up);
      FailureKeepsKey(BringUp(down, config, env.up).0);
      ReadyMeansMade(env.up);
    }
  }

  lemma ReadyMeansMade(env: UpEnv)
    ensures InterfaceReady(env) && !env.interfaceExists ==> env.addInterface
  {
  }

  lemma TicksKeepKey(s: DaemonState, t: DaemonState)
    requires SameConfigs(s, t) && Behind(t.log).privateKey == Behind(s.log).privateKey && KeyInPlace(s)
    ensures KeyInPlace(t)
  {
    hide Behind;
  }

  /** A step leaves every live connection on its own private key exactly then. */
  lemma KeyIsKeptExactly(s: DaemonState, step: Step)
    requires KeyInPlace(s)
    ensures KeyInPlace(Next(s, step)) <==> KeepsKey(s, step)
  {
    hide Behind, KeyInPlace, BringUp, ActivateBySwitch, Deactivate, CheckHandshake, CheckLiveness,
         InterfaceReady, PeerReady, KeyAfter;
    match step
    case ActivateStep(config, env) =>
      if config.hopType !in s.connections {
        BringUpKeepsKeyExactly(s, config, env.up);
      } else if SupportsSwitching(s, config) {
        SwitchKeepsKey(s, config, env);
      } else {
        RebuildKeepsKeyExactly(s, config, env);
      }
    case DeactivateStep(emitSignals, env) => DeactivateKeepsKey(s, emitSignals, env);
    case HandshakeStep(peers) =>
      HandshakeLeavesIt(s, peers);
      TicksKeepKey(s, CheckHandshake(s, peers));
    case LivenessStep(r) =>
      LivenessResends(s, r);
      TicksKeepKey(s, CheckLiveness(s, r));
  }

  predicate KeyAlwaysKept(steps: seq<Step>) {
    steps == [] || (KeyAlwaysKept(steps[..|steps|-1]) && KeepsKey(Exec(steps[..|steps|-1]), steps[|steps|-1]))
  }

  /** In every run of such steps the interface runs on the private key of every live connection. */
  lemma {:induction false} RunsKeepKey(steps: seq<Step>)
    requires KeyAlwaysKept(steps)
    ensures KeyInPlace(Exec(steps))
  {
    hide Next, KeepsKey, KeyInPlace;
    if steps == [] {
      NothingLive();
    } else {
      RunsKeepKey(steps[..|steps|-1]);
      KeyIsKeptExactly(Exec(steps[..|steps|-1]), steps[|steps|-1]);
    }
  }

  // ---------------------------------------------------------------- switching in place

  /** The two configurations need the same interface. */
  predicate SameInterface(a: InterfaceConfig, b: InterfaceConfig) {
    && a.privateKey == b.privateKey
    && a.deviceIpv4Address == b.deviceIpv4Address && a.deviceIpv6Address == b.deviceIpv6Address
    && a.serverIpv4Gateway == b.serverIpv4Gateway && a.serverIpv6Gateway == b.serverIpv6Gateway
  }

  /** Every live connection is one its hop's last bring-up made the interface for. */
  ghost predicate AsBroughtUp(s: DaemonState) {
    forall hop :: hop in s.connections ==>
      hop in Behind(s.log).brought && SameInterface(Behind(s.log).brought[hop], s.connections[hop].config)
  }

  /**
   An activation of a live hop leaves the tunnel up if and only if the new
   configuration has the live one's private key, addresses and gateways, and
   otherwise asks once for it to be taken down. It never emits `disconnected`.
   */
  lemma SwitchInPlaceExactly(s: DaemonState, config: InterfaceConfig, env: ActivateEnv)
    requires config.hopType in s.connections
    ensures var i, j := Behind(s.log), Behind(Activate(s, config, env).0.log);
            && j.asked == (if SameInterface(s.connections[config.hopType].config, config) then i.asked else i.asked + 1)
            && j.signals == i.signals
  {
    hide Behind, ActivateBySwitch, SwitchServer, Deactivate, BringUp;
    if SupportsSwitching(s, config) {
      SwitchedInterface(s, config, env);
      SwitchPeersExactly(s, config, env.switching);
    } else {
      DeactivatedInterfaceExactly(s, false, env.down);
      var down := Deactivate(s, false, env.down).0;
      OneMoreEvent(down.log, ActivationFailure);
      BroughtUpInterface(down, config, env.up);
      OneMoreEvent(BringUp(down, config, env.up).0.log, ActivationFailure);
    }
  }

  lemma BringUpKeepsBroughtUp(s: DaemonState, config: InterfaceConfig, env: UpEnv)
    requires AsBroughtUp(s) && config.hopType !in s.connections
    ensures AsBroughtUp(BringUp(s, config, env).0)
  {
    hide Behind, BringUp, InterfaceReady, PeerReady, KeyAfter;
    BroughtUpInterface(s, config, env);
  }

  lemma DeactivateKeepsBroughtUp(s: DaemonState, emitSignals: bool, env: DownEnv)
    requires AsBroughtUp(s)
    ensures AsBroughtUp(Deactivate(s, emitSignals, env).0)
  {
    hide Behind, Deactivate;
    DeactivateConnections(s, emitSignals, env);
    DeactivatedInterfaceExactly(s, emitSignals, env);
  }

  lemma FailureKeepsBroughtUp(s: DaemonState)
    requires AsBroughtUp(s)
    ensures AsBroughtUp(s.Logged(ActivationFailure))
  {
    hide Behind;
    OneMoreEvent(s.log, ActivationFailure);
  }

  lemma SwitchKeepsBroughtUp(s: DaemonState, config: InterfaceConfig, env: ActivateEnv)
    requires AsBroughtUp(s) && SupportsSwitching(s, config)
    ensures AsBroughtUp(ActivateBySwitch(s, config, env).0)
  {
    hide Behind, ActivateBySwitch, SwitchServer;
    SwitchedInterface(s, config, env);
    SwitchPeersExactly(s, config, env.switching);
  }

  lemma ActivateKeepsBroughtUp(s: DaemonState, config: InterfaceConfig, env: ActivateEnv)
    requires AsBroughtUp(s)
    ensures AsBroughtUp(Activate(s, config, env).0)
  {
    hide AsBroughtUp, ActivateBySwitch, Deactivate, BringUp;
    if config.hopType !in s.connections {
      BringUpKeepsBroughtUp(s, config, env.up);
    } else if SupportsSwitching(s, config) {
      SwitchKeepsBroughtUp(s, config, env);
    } else {
      DeactivateConnections(s, false, env.down);
      DeactivateKeepsBroughtUp(s, false, env.down);
      var (down, ok) := Deactivate(s, false, env.down);
      FailureKeepsBroughtUp(down);
      if ok {
        BringUpKeepsBroughtUp(down, config, env.up);
        FailureKeepsBroughtUp(BringUp(down, config, env.up).0);
      }
    }
  }

  /**
   In every run whatsoever, every live connection has the private key, addresses
   and gateways that its hop was last brought up with: what is switched in place
   never needed another interface.
   */
  lemma {:induction false} RunsStayAsBroughtUp(steps: seq<Step>)
    ensures AsBroughtUp(Exec(steps))
  {
    hide Behind, Activate, Deactivate, CheckHandshake, CheckLiveness;
    if steps == [] {
      NothingLive();
    } else {
      RunsStayAsBroughtUp(steps[..|steps|-1]);
      var s, step := Exec(steps[..|steps|-1]), steps[|steps|-1];
      match step
      case ActivateStep(config, env) => ActivateKeepsBroughtUp(s, config, env);
      case DeactivateStep(emitSignals, env) => DeactivateKeepsBroughtUp(s, emitSignals, env);
      case HandshakeStep(peers) => HandshakeLeavesIt(s, peers);
      case LivenessStep(r) => LivenessResends(s, r);
    }
  }

  // ---------------------------------------------------------------- when an activation succeeds

  /** The resolvers of the hops that face the user could be set. */
  predicate ResolversSet(config: InterfaceConfig, updated: bool) {
    config.hopType == SingleHop || config.hopType == MultiHopExit ==> updated
  }

  /** Every call of a bring-up succeeds, but for the exclusions. */
  predicate UpSucceeds(config: InterfaceConfig, env: UpEnv) {
    && (env.interfaceExists || env.addInterface)
    && (env.supportIPUtils ==> env.addInterfaceIPs) && (env.supportIPUtils ==> env.setMTUAndUp)
    && env.updatePeer && ResolversSet(config, env.updateResolvers)
    && (forall i: nat :: i < |config.allowedIPAddressRanges| ==> env.updateRoute(i))
    && env.run
  }

  /** Every call of a switch in place succeeds, but for routes and exclusions. */
  predicate SwitchSucceeds(s: DaemonState, config: InterfaceConfig, env: ActivateEnv)
    requires config.hopType in s.connections
  {
    && env.switching.updatePeer && (config.serverPublicKey != KeyOf(s, config.hopType) ==> env.switching.deletePeer)
    && env.restoreResolvers && ResolversSet(config, env.updateResolvers) && env.runSwitch
  }

  /** A live hop whose interface has to be made anew. */
  predicate Rebuilds(s: DaemonState, config: InterfaceConfig) {
    config.hopType in s.connections && !SameInterface(s.connections[config.hopType].config, config)
  }

  /** The new connection is in place and its handshake polled for. */
  predicate InPlace(s: DaemonState, config: InterfaceConfig) {
    && s.handshakeTimer && config.hopType in s.connections
    && s.connections[config.hopType] == FreshConnection(config)
  }

  lemma BringUpSucceedsExactly(s: DaemonState, config: InterfaceConfig, env: UpEnv)
    ensures var (t, ok) := BringUp(s, config, env);
            && ok == UpSucceeds(config, env) && (ok ==> InPlace(t, config))
            && Behind(t.log).failures == Reported(Behind(s.log), ok).failures
  {
    hide Behind, AddExclusions, UpdateRoutes, RaiseInterface, KeyAfter;
    BroughtUpInterface(s, config, env);
  }

  lemma SwitchSucceedsExactly(s: DaemonState, config: InterfaceConfig, env: ActivateEnv)
    requires config.hopType in s.connections
    ensures var (t, ok) := ActivateBySwitch(s, config, env);
            && ok == SwitchSucceeds(s, config, env) && (ok ==> InPlace(t, config))
            && Behind(t.log).failures == Reported(Behind(s.log), ok).failures
  {
    hide Behind, SwitchServer;
    SwitchConnections(s, config, env.switching);
    SwitchedInterface(s, config, env);
    SwitchPeersExactly(s, config, env.switching);
  }

  lemma RebuildSucceedsExactly(s: DaemonState, config: InterfaceConfig, env: ActivateEnv)
    requires Rebuilds(s, config)
    ensures var (t, ok) := Activate(s, config, env);
            var takenDown := env.down.run && env.down.deleteInterface;
            && ok == (takenDown && UpSucceeds(config, env.up)) && (ok ==> InPlace(t, config))
            && Behind(t.log).failures == Behind(s.log).failures + if ok then 0 else if takenDown then 2 else 1
  {
    hide Behind, BringUp, ActivateBySwitch, Deactivate, UpSucceeds, InPlace;
    DeactivateConnections(s, false, env.down);
    DeactivatedInterfaceExactly(s, false, env.down);
    var down := Deactivate(s, false, env.down).0;
    OneMoreEvent(down.log, ActivationFailure);
    BringUpSucceedsExactly(down, config, env.up);
    OneMoreEvent(BringUp(down, config, env.up).0.log, ActivationFailure);
  }

  /**
   An activation succeeds if and only if every call it depends on does, and then
   the connection is in place, new, and its handshake polled for. Otherwise
   `activationFailure` is emitted, once, or twice if a rebuild had already taken
   the tunnel down.
   */
  lemma ActivationSucceedsExactly(s: DaemonState, config: InterfaceConfig, env: ActivateEnv)
    ensures var (t, ok) := Activate(s, config, env);
            var takenDown := Rebuilds(s, config) && env.down.run && env.down.deleteInterface;
            && ok == (if config.hopType !in s.connections then UpSucceeds(config, env.up)
                      else if Rebuilds(s, config) then takenDown && UpSucceeds(config, env.up)
                      else SwitchSucceeds(s, config, env))
            && (ok ==> InPlace(t, config))
            && Behind(t.log).failures == Behind(s.log).failures + if ok then 0 else if takenDown then 2 else 1
  {
    hide Behind, BringUp, ActivateBySwitch, Deactivate, UpSucceeds, SwitchSucceeds, InPlace;
    if Rebuilds(s, config) {
      RebuildSucceedsExactly(s, config, env);
    } else if config.hopType in s.connections {
      SwitchSucceedsExactly(s, config, env);
    } else {
      BringUpSucceedsExactly(s, config, env.up);
    }
  }

  // ---------------------------------------------------------------- what the client is told

  /**
   A step emits `disconnected` at most once: a deactivation past its hook if that
   is asked for, a liveness tick if it hands over, and nothing else.
   */
  lemma DisconnectedIsEmittedExactly(s: DaemonState, step: Step)
    ensures var emitted := match step
                           case ActivateStep(_, _) => false
                           case DeactivateStep(emitSignals, env) => emitSignals && (s.connections == map[] || env.run)
                           case HandshakeStep(_) => false
                           case LivenessStep(r) => HandsOver(s, r);
            Behind(Next(s, step).log).signals == Behind(s.log).signals + if emitted then 1 else 0
  {
    hide Behind, BringUp, Activate, Deactivate, CheckHandshake, CheckLiveness, HandsOver;
    match step
    case ActivateStep(config, env) =>
      if config.hopType in s.connections {
        SwitchInPlaceExactly(s, config, env);
      } else {
        FirstActivation(s, config, env);
        BroughtUpInterface(s, config, env.up);
      }
    case DeactivateStep(emitSignals, env) => DeactivatedInterfaceExactly(s, emitSignals, env);
    case HandshakeStep(peers) => HandshakeLeavesIt(s, peers);
    case LivenessStep(r) => LivenessResends(s, r);
  }

  lemma FirstActivation(s: DaemonState, config: InterfaceConfig, env: ActivateEnv)
    requires config.hopType !in s.connections
    ensures Activate(s, config, env) == BringUp(s, config, env.up)
  {
  }
}
