/**
 Every live tunnel is watched, and every connection announces itself once
 (client/daemon/daemon.cpp:115-123, 183-190, 497-503, 642-694, 757-764).
 */
module WatchCoverage {
  import opened Basics
  import IpAddresses
  import opened Daemon
  import opened Watchdog

  // ---------------------------------------------------------------- what the log says

  /** How often a hop has announced `connected` since its connection was last installed. */
  function Announcements(log: seq<Event>, hop: HopType): nat {
    if log == [] then 0 else
    var before := Announcements(log[..|log|-1], hop);
    match log[|log|-1]
    case Installed(h) => if h == hop then 0 else before
    case Connected(h, _) => if h == hop then before + 1 else before
    case _ => before
  }

  /** The watchdog has handed the tunnel over and no timer was started since. */
  predicate GaveUp(log: seq<Event>) {
    log != [] &&
    match log[|log|-1]
    case HandedOver => true
    case WatchStarted => false
    case _ => GaveUp(log[..|log|-1])
  }

  predicate Watched(s: DaemonState) {
    s.connections == map[] || s.handshakeTimer || s.livenessTimer || GaveUp(s.log)
  }

  /** A connection has announced itself exactly if its date is valid, and then once. */
  ghost predicate AnnouncedOnce(s: DaemonState) {
    forall hop :: hop in s.connections ==>
      Announcements(s.log, hop) == if s.connections[hop].date.Some? then 1 else 0
  }

  ghost predicate CountersOk(s: DaemonState) {
    forall hop :: hop in s.connections ==> CountersInRange(s.connections[hop])
  }

  // ---------------------------------------------------------------- events that leave those facts alone

  predicate Marks(e: Event) { e.Installed? || e.WatchStarted? || e.Connected? || e.HandedOver? }

  /** From s to t only unmarked events were logged; connections and timers are the same. */
  ghost predicate Unmarked(s: DaemonState, t: DaemonState) {
    && t.connections == s.connections && t.handshakeTimer == s.handshakeTimer && t.livenessTimer == s.livenessTimer
    && GaveUp(t.log) == GaveUp(s.log)
    && forall hop :: Announcements(t.log, hop) == Announcements(s.log, hop)
  }

  lemma LoggedAnnouncements(log: seq<Event>, e: Event, hop: HopType)
    ensures Announcements(log + [e], hop) ==
            if e == Installed(hop) then 0
            else if e.Connected? && e.hop == hop then Announcements(log, hop) + 1
            else Announcements(log, hop)
    ensures GaveUp(log + [e]) == (e.HandedOver? || (!e.WatchStarted? && GaveUp(log)))
  {
    assert (log + [e])[..|log|] == log;
  }

  lemma UnmarkedLogged(s: DaemonState, t: DaemonState, e: Event)
    requires Unmarked(s, t) && !Marks(e)
    ensures Unmarked(s, t.Logged(e))
  {
    forall hop ensures Announcements(t.Logged(e).log, hop) == Announcements(s.log, hop) {
      LoggedAnnouncements(t.log, e, hop);
    }
    LoggedAnnouncements(t.log, e, SingleHop);
  }

  lemma {:induction false} AddExclusionsUnmarked(s: DaemonState, t: DaemonState, list: seq<IpAddresses.AddressText>,
                                                 ok: nat -> bool, n: nat)
    requires n <= |list| && Unmarked(s, t)
    ensures Unmarked(s, AddExclusions(t, list, ok, n))
  {
    if n > 0 {
      AddExclusionsUnmarked(s, t, list, ok, n-1);
      UnmarkedLogged(s, AddExclusions(t, list, ok, n-1), AddExclusionRoute(IpAddresses.AddKey(list[n-1]), ok(n-1)));
    }
  }

  lemma {:induction false} DelExclusionsUnmarked(s: DaemonState, t: DaemonState, list: seq<IpAddresses.AddressText>,
                                                 ok: nat -> bool, n: nat)
    requires n <= |list| && Unmarked(s, t)
    ensures Unmarked(s, DelExclusions(t, list, ok, n))
  {
    if n > 0 {
      DelExclusionsUnmarked(s, t, list, ok, n-1);
      UnmarkedLogged(s, DelExclusions(t, list, ok, n-1),
                     DeleteExclusionRoute(IpAddresses.RemoveKey(list[n-1]), ok(n-1)));
    }
  }

  lemma {:induction false} UpdateRoutesUnmarked(s: DaemonState, t: DaemonState, list: seq<IpAddresses.IpAddress>,
                                                ok: nat -> bool, n: nat)
    requires n <= |list| && Unmarked(s, t)
    ensures Unmarked(s, UpdateRoutes(t, list, ok, n))
  {
    if n > 0 {
      UpdateRoutesUnmarked(s, t, list, ok, n-1);
      UnmarkedLogged(s, UpdateRoutes(t, list, ok, n-1), UpdateRoutePrefix(list[n-1], ok(n-1)));
    }
  }

  lemma {:induction false} DeleteRoutesUnmarked(s: DaemonState, t: DaemonState, list: seq<IpAddresses.IpAddress>,
                                                keep: seq<IpAddresses.IpAddress>, ok: nat -> bool, n: nat)
    requires n <= |list| && Unmarked(s, t)
    ensures Unmarked(s, DeleteRoutes(t, list, keep, ok, n))
  {
    if n > 0 {
      DeleteRoutesUnmarked(s, t, list, keep, ok, n-1);
      UnmarkedLogged(s, DeleteRoutes(t, list, keep, ok, n-1), DeleteRoutePrefix(list[n-1], ok(n-1)));
    }
  }

  // ---------------------------------------------------------------- installing a connection

  /** What holds of the announcements and of the counters in s holds of them in t. */
  ghost predicate Carries(s: DaemonState, t: DaemonState) {
    (AnnouncedOnce(s) ==> AnnouncedOnce(t)) && (CountersOk(s) ==> CountersOk(t))
  }

  lemma UnmarkedCarries(s: DaemonState, t: DaemonState)
    requires Unmarked(s, t)
    ensures Carries(s, t)
    ensures Watched(s) ==> Watched(t)
  {
  }

  lemma InstallCarries(s: DaemonState, config: InterfaceConfig)
    ensures Carries(s, s.Install(config))
    ensures GaveUp(s.Install(config).log) == GaveUp(s.log)
  {
    var e := Installed(config.hopType);
    forall hop ensures Announcements(s.log + [e], hop)
                       == if hop == config.hopType then 0 else Announcements(s.log, hop) {
      LoggedAnnouncements(s.log, e, hop);
    }
    LoggedAnnouncements(s.log, e, SingleHop);
  }

  lemma StartCarries(s: DaemonState)
    ensures Carries(s, s.StartHandshakeTimer()) && Watched(s.StartHandshakeTimer())
    ensures Carries(s, s.(livenessTimer := true).Logged(WatchStarted))
         && Watched(s.(livenessTimer := true).Logged(WatchStarted))
    ensures !GaveUp(s.StartHandshakeTimer().log) && s.StartHandshakeTimer().handshakeTimer
  {
    forall hop ensures Announcements(s.log + [WatchStarted], hop) == Announcements(s.log, hop) {
      LoggedAnnouncements(s.log, WatchStarted, hop);
    }
  }

  lemma RaisedUnmarked(s: DaemonState, config: InterfaceConfig, env: UpEnv)
    ensures Unmarked(s, RaiseInterface(s, config, env))
  {
    UnmarkedLogged(s, s, Prepared(config));
    UnmarkedLogged(s, s.Logged(Prepared(config)), AddInterface(config.privateKey, env.addInterface));
  }

  lemma BringUpCarries(s: DaemonState, config: InterfaceConfig, env: UpEnv)
    ensures Carries(s, BringUp(s, config, env).0)
    ensures Watched(s) ==> Watched(BringUp(s, config, env).0)
    ensures !BringUp(s, config, env).1 ==> Unmarked(s, BringUp(s, config, env).0)
  {
    hide ConnectPeer, RaiseInterface, GaveUp;
    var raised := RaiseInterface(s, config, env);
    RaisedUnmarked(s, config, env);
    UnmarkedLogged(s, raised, ActivationFailure);
    if InterfaceReady(env) {
      ConnectCarries(s, raised, config, env);
    } else {
      UnmarkedCarries(s, raised.Logged(ActivationFailure));
    }
  }

  lemma ConnectCarries(s: DaemonState, raised: DaemonState, config: InterfaceConfig, env: UpEnv)
    requires Unmarked(s, raised)
    ensures var (t, ok) := ConnectPeer(raised, config, env);
            Carries(s, t) && (Watched(s) ==> Watched(t)) && (!ok ==> Unmarked(s, t))
  {
    hide AddExclusions, UpdateRoutes, GaveUp;
    var list, ranges := config.excludedAddresses, config.allowedIPAddressRanges;
    var added := AddExclusions(raised, list, env.addExclusion, |list|);
    AddExclusionsUnmarked(s, raised, list, env.addExclusion, |list|);
    var peered := added.Logged(UpdatePeer(config.serverPublicKey, env.updatePeer));
    UnmarkedLogged(s, added, UpdatePeer(config.serverPublicKey, env.updatePeer));
    UnmarkedLogged(s, peered, ActivationFailure);
    var routed := UpdateRoutes(peered, ranges, env.updateRoute, |ranges|);
    UpdateRoutesUnmarked(s, peered, ranges, env.updateRoute, |ranges|);
    UnmarkedLogged(s, routed, ActivationFailure);
    UnmarkedCarries(s, routed);
    if ConnectPeer(raised, config, env).1 {
      InstallCarries(routed, config);
      StartCarries(routed.Install(config));
    } else {
      UnmarkedCarries(s, ConnectPeer(raised, config, env).0);
    }
  }

  // ---------------------------------------------------------------- switching

  lemma SwitchUnmarked(s: DaemonState, config: InterfaceConfig, env: SwitchEnv)
    requires config.hopType in s.connections
    ensures Unmarked(s, SwitchMake(s, config, env))
    ensures Unmarked(s, SwitchBreak(SwitchMake(s, config, env), s.connections[config.hopType].config, config, env))
  {
    var last := s.connections[config.hopType].config;
    var news, olds := config.excludedAddresses, last.excludedAddresses;
    var added := AddExclusions(s, news, env.addExclusion, |news|);
    AddExclusionsUnmarked(s, s, news, env.addExclusion, |news|);
    var peered := added.Logged(UpdatePeer(config.serverPublicKey, env.updatePeer));
    UnmarkedLogged(s, added, UpdatePeer(config.serverPublicKey, env.updatePeer));
    UpdateRoutesUnmarked(s, peered, config.allowedIPAddressRanges, env.updateRoute, |config.allowedIPAddressRanges|);
    var made := SwitchMake(s, config, env);
    DelExclusionsUnmarked(s, made, olds, env.delExclusion, |olds|);
    DeleteRoutesUnmarked(s, DelExclusions(made, olds, env.delExclusion, |olds|), last.allowedIPAddressRanges,
                         config.allowedIPAddressRanges, env.delRoute, |last.allowedIPAddressRanges|);
  }

  /** A switch logs unmarked events only, and then installs the connection or stops. */
  lemma SwitchEndsUnmarkedOrInstalled(s: DaemonState, config: InterfaceConfig, env: SwitchEnv) returns (t: DaemonState)
    requires config.hopType in s.connections
    ensures Unmarked(s, t)
    ensures SwitchServer(s, config, env) == (t, false) || SwitchServer(s, config, env) == (t.Install(config), true)
  {
    SwitchUnmarked(s, config, env);
    var last := s.connections[config.hopType].config;
    t := SwitchMake(s, config, env);
    if env.updatePeer {
      t := SwitchBreak(t, last, config, env);
      if config.serverPublicKey != last.serverPublicKey {
        UnmarkedLogged(s, t, DeletePeer(last.serverPublicKey, env.deletePeer));
        t := t.Logged(DeletePeer(last.serverPublicKey, env.deletePeer));
      }
    }
  }

  lemma ActivateBySwitchCarries(s: DaemonState, config: InterfaceConfig, env: ActivateEnv)
    requires config.hopType in s.connections
    ensures Carries(s, ActivateBySwitch(s, config, env).0)
    ensures Watched(s) ==> Watched(ActivateBySwitch(s, config, env).0)
  {
    hide SwitchServer;
    var u := ActivateBySwitch(s, config, env).0;
    var t := SwitchEndsUnmarkedOrInstalled(s, config, env.switching);
    UnmarkedCarries(s, t);
    var (switched, ok) := SwitchServer(s, config, env.switching);
    if ok {
      InstallCarries(t, config);
      InstallCarries(switched, config);
      StartCarries(switched.Install(config));
    }
    UnmarkedLogged(switched, switched, ActivationFailure);
    UnmarkedCarries(switched, switched.Logged(ActivationFailure));
  }

  // ---------------------------------------------------------------- deactivation

  /** The hook that a platform may override lets the deactivation go on. */
  predicate HookSucceeds(step: Step) {
    match step
    case ActivateStep(_, env) => env.down.run
    case DeactivateStep(_, env) => env.run
    case LivenessStep(r) => r.interfaceExists
    case _ => true
  }

  lemma DeactivateCarries(s: DaemonState, emitSignals: bool, env: DownEnv)
    ensures Carries(s, Deactivate(s, emitSignals, env).0)
    ensures env.run ==> Watched(Deactivate(s, emitSignals, env).0)
  {
    hide DropHops, DropExclusions;
  }

  /**
   A deactivation of a live tunnel leaves it watched if and only if the hook
   succeeds or the tunnel had been handed over before: both timers are stopped
   before the hook is asked.
   */
  lemma DeactivateKeepsWatchExactly(s: DaemonState, emitSignals: bool, env: DownEnv)
    requires s.connections != map[]
    ensures Watched(Deactivate(s, emitSignals, env).0) <==> env.run || GaveUp(s.log)
  {
    hide DropHops, DropExclusions;
  }

  /** A tick that does not find the interface keeps the watch only if something else does. */
  lemma MissingInterfaceStopsWatchExactly(s: DaemonState, r: Reading)
    requires !r.interfaceExists
    ensures Watched(CheckLiveness(s, r)) <==> s.connections == map[] || s.handshakeTimer || GaveUp(s.log)
  {
  }

  lemma RebuildCarries(s: DaemonState, config: InterfaceConfig, env: ActivateEnv)
    requires config.hopType in s.connections && !SupportsSwitching(s, config)
    ensures Carries(s, Activate(s, config, env).0)
    ensures env.down.run ==> Watched(Activate(s, config, env).0)
  {
    hide Deactivate, BringUp;
    DeactivateCarries(s, false, env.down);
    var (down, ok) := Deactivate(s, false, env.down);
    if !ok {
      UnmarkedLogged(down, down, ActivationFailure);
      UnmarkedCarries(down, down.Logged(ActivationFailure));
    } else {
      BringUpCarries(down, config, env.up);
      var (up, done) := BringUp(down, config, env.up);
      UnmarkedLogged(up, up, ActivationFailure);
      UnmarkedCarries(up, up.Logged(ActivationFailure));
    }
  }

  // ---------------------------------------------------------------- handshake ticks

  /** The backend reports every peer key at most once. */
  predicate DistinctKeys(peers: seq<PeerStatus>) {
    forall i, j :: 0 <= i < j < |peers| ==> peers[i].pubkey != peers[j].pubkey
  }

  predicate Handshaked(peers: seq<PeerStatus>, n: nat, key: string)
    requires n <= |peers|
  {
    exists i :: 0 <= i < n && peers[i].pubkey == key && peers[i].handshake != 0
  }

  /** A connection as its handshake is first seen: dated by it, its counters seeded from the same status. */
  function Greeted(config: InterfaceConfig, status: PeerStatus): ConnectionState {
    ConnectionState(config, Some(status.handshake), status.txBytes, status.rxBytes, 0, 0)
  }

  /**
   With distinct keys a pending connection is left alone if no handshake of its
   key is reported, and otherwise dated, seeded and announced once.
   */
  lemma {:induction false} PendingHopIsAnnouncedOnce(s: DaemonState, hop: HopType, peers: seq<PeerStatus>, n: nat)
    requires n <= |peers| && DistinctKeys(peers) && hop in s.connections && s.connections[hop].date.None?
    ensures var t := HandshakePeers(s, hop, peers, n);
            var c := s.connections[hop];
            && (!Handshaked(peers, n, c.config.serverPublicKey) ==> t == s)
            && forall i :: 0 <= i < n && peers[i].pubkey == c.config.serverPublicKey && peers[i].handshake != 0 ==>
                 t == s.(connections := s.connections[hop := Greeted(c.config, peers[i])])
                       .Logged(Connected(hop, c.config.serverPublicKey))
  {
    if n > 0 {
      PendingHopIsAnnouncedOnce(s, hop, peers, n-1);
      var before := HandshakePeers(s, hop, peers, n-1);
      var key := s.connections[hop].config.serverPublicKey;
      assert before.connections[hop].config.serverPublicKey == key;
      if peers[n-1].pubkey == key && peers[n-1].handshake != 0 {
        assert !Handshaked(peers, n-1, key);
        assert Handshaked(peers, n, key);
      } else {
        assert Handshaked(peers, n, key) <==> Handshaked(peers, n-1, key);
      }
    }
  }

  lemma HandshakeHopAnnouncesOnce(s: DaemonState, hop: HopType, peers: seq<PeerStatus>)
    requires AnnouncedOnce(s) && DistinctKeys(peers)
    ensures AnnouncedOnce(HandshakeHop(s, hop, peers))
  {
    hide HandshakePeers;
    if hop in s.connections && s.connections[hop].date.None? {
      PendingHopIsAnnouncedOnce(s, hop, peers, |peers|);
      var t := HandshakePeers(s, hop, peers, |peers|);
      var key := s.connections[hop].config.serverPublicKey;
      if Handshaked(peers, |peers|, key) {
        forall h | h in t.connections
          ensures Announcements(t.log, h) == if t.connections[h].date.Some? then 1 else 0
        {
          LoggedAnnouncements(s.log, Connected(hop, key), h);
        }
      }
    }
  }

  lemma {:induction false} HandshakeHopsAnnounceOnce(s: DaemonState, peers: seq<PeerStatus>, n: nat)
    requires n <= |HOPS| && AnnouncedOnce(s) && DistinctKeys(peers)
    ensures AnnouncedOnce(HandshakeHops(s, peers, n))
  {
    hide HandshakeHop;
    if n > 0 {
      HandshakeHopsAnnounceOnce(s, peers, n-1);
      HandshakeHopAnnouncesOnce(HandshakeHops(s, peers, n-1), HOPS[n-1], peers);
    }
  }

  /** A handshake resets the counters, however often the key is listed. */
  lemma {:induction false} HandshakePeersKeepCounters(s: DaemonState, hop: HopType, peers: seq<PeerStatus>, n: nat)
    requires n <= |peers| && hop in s.connections && CountersOk(s)
    ensures CountersOk(HandshakePeers(s, hop, peers, n))
  {
    if n > 0 { HandshakePeersKeepCounters(s, hop, peers, n-1); }
  }

  lemma {:induction false} HandshakeHopsKeepCounters(s: DaemonState, peers: seq<PeerStatus>, n: nat)
    requires n <= |HOPS| && CountersOk(s)
    ensures CountersOk(HandshakeHops(s, peers, n))
  {
    hide HandshakePeers;
    if n > 0 {
      HandshakeHopsKeepCounters(s, peers, n-1);
      var before := HandshakeHops(s, peers, n-1);
      if HOPS[n-1] in before.connections { HandshakePeersKeepCounters(before, HOPS[n-1], peers, |peers|); }
    }
  }

  lemma HandshakeCarries(s: DaemonState, peers: seq<PeerStatus>)
    ensures Watched(CheckHandshake(s, peers))
    ensures CountersOk(s) ==> CountersOk(CheckHandshake(s, peers))
    ensures AnnouncedOnce(s) && DistinctKeys(peers) ==> AnnouncedOnce(CheckHandshake(s, peers))
  {
    hide HandshakeHops;
    var s0 := s.(handshakeTimer := false);
    StartCarries(HandshakeHops(s0, peers, |HOPS|));
    if CountersOk(s) { HandshakeHopsKeepCounters(s0, peers, |HOPS|); }
    if AnnouncedOnce(s) && DistinctKeys(peers) { HandshakeHopsAnnounceOnce(s0, peers, |HOPS|); }
  }

  // ---------------------------------------------------------------- liveness ticks

  lemma VerdictAnnouncements(log: seq<Event>, key: string, v: Verdict, hop: HopType)
    ensures Announcements(log + VerdictEvents(key, v), hop) == Announcements(log, hop)
  {
    match v
    case Fine => assert log + [] == log;
    case Resent => LoggedAnnouncements(log, UpdatePeer(key, true), hop);
    case ResendFailed =>
      LoggedAnnouncements(log, UpdatePeer(key, false), hop);
      LoggedAnnouncements(log + [UpdatePeer(key, false)], HandedOver, hop);
      assert log + [UpdatePeer(key, false), HandedOver] == log + [UpdatePeer(key, false)] + [HandedOver];
    case OutOfAttempts => LoggedAnnouncements(log, HandedOver, hop);
  }

  lemma JudgeKeepsDate(c: ConnectionState, status: PeerStatus, now: int, ok: bool)
    ensures Judge(c, status, now, ok).0.date == c.date
  {
  }

  lemma LivenessPeerCarries(s: DaemonState, hop: HopType, status: PeerStatus, now: int, ok: bool)
    requires hop in s.connections
    ensures Carries(s, LivenessPeer(s, hop, status, now, ok).0)
  {
    hide Judge, VerdictEvents;
    var t := LivenessPeer(s, hop, status, now, ok).0;
    var (c, v) := Judge(s.connections[hop], status, now, ok);
    JudgeKeepsDate(s.connections[hop], status, now, ok);
    if CountersInRange(s.connections[hop]) { JudgeKeepsRange(s.connections[hop], status, now, ok); }
    forall h ensures Announcements(t.log, h) == Announcements(s.log, h) {
      VerdictAnnouncements(s.log, c.config.serverPublicKey, v, h);
    }
  }

  lemma {:induction false} LivenessPeersCarry(s: DaemonState, hop: HopType, peers: seq<PeerStatus>, now: int,
                                              ok: nat -> bool, n: nat)
    requires n <= |peers| && hop in s.connections
    ensures Carries(s, LivenessPeers(s, hop, peers, now, ok, n).0)
  {
    hide LivenessPeer, AnnouncedOnce, CountersOk;
    if n > 0 {
      LivenessPeersCarry(s, hop, peers, now, ok, n-1);
      LivenessPeerCarries(LivenessPeers(s, hop, peers, now, ok, n-1).0, hop, peers[n-1], now, ok(n-1));
    }
  }

  lemma {:induction false} LivenessHopsCarry(s: DaemonState, r: Reading, n: nat)
    requires n <= |HOPS|
    ensures Carries(s, LivenessHops(s, r.peers, r.now, r.updatePeer, n).0)
  {
    hide LivenessPeers, AnnouncedOnce, CountersOk;
    if n > 0 {
      LivenessHopsCarry(s, r, n-1);
      var before := LivenessHops(s, r.peers, r.now, r.updatePeer, n-1).0;
      if HOPS[n-1] in before.connections {
        LivenessPeersCarry(before, HOPS[n-1], r.peers, r.now, r.updatePeer(HOPS[n-1]), |r.peers|);
      }
    }
  }

  lemma UncutPeersKeepTimer(s: DaemonState, hop: HopType, peers: seq<PeerStatus>, now: int, ok: nat -> bool, n: nat)
    requires n <= |peers| && hop in s.connections
    ensures LivenessPeers(s, hop, peers, now, ok, n).1
         || LivenessPeers(s, hop, peers, now, ok, n).0.livenessTimer == s.livenessTimer
  {
    hide Judge, VerdictEvents;
    if n > 0 { UncutPeersKeepTimer(s, hop, peers, now, ok, n-1); }
  }

  lemma UncutHopsKeepTimer(s: DaemonState, r: Reading, n: nat)
    requires n <= |HOPS|
    ensures LivenessHops(s, r.peers, r.now, r.updatePeer, n).1
         || LivenessHops(s, r.peers, r.now, r.updatePeer, n).0.livenessTimer == s.livenessTimer
  {
    hide LivenessPeers;
    if n > 0 {
      UncutHopsKeepTimer(s, r, n-1);
      var before := LivenessHops(s, r.peers, r.now, r.updatePeer, n-1).0;
      if HOPS[n-1] in before.connections {
        UncutPeersKeepTimer(before, HOPS[n-1], r.peers, r.now, r.updatePeer(HOPS[n-1]), |r.peers|);
      }
    }
  }

  lemma LivenessCarries(s: DaemonState, r: Reading)
    ensures Carries(s, CheckLiveness(s, r))
    ensures s.livenessTimer && r.interfaceExists ==> Watched(CheckLiveness(s, r))
  {
    hide LivenessHops;
    LivenessHopsCarry(s, r, |HOPS|);
    UncutHopsKeepTimer(s, r, |HOPS|);
    if HandsOver(s, r) { HandOverStopsAndSignals(s, r); }
  }

  // ---------------------------------------------------------------- whole runs

  predicate KeysDistinct(step: Step) { step.HandshakeStep? ==> DistinctKeys(step.peers) }

  lemma StepCarries(s: DaemonState, step: Step)
    requires Enabled(s, step)
    ensures CountersOk(s) ==> CountersOk(Next(s, step))
    ensures AnnouncedOnce(s) && KeysDistinct(step) ==> AnnouncedOnce(Next(s, step))
    ensures Watched(s) && HookSucceeds(step) ==> Watched(Next(s, step))
  {
    hide CheckHandshake, CheckLiveness, Deactivate, ActivateBySwitch, BringUp, CountersOk, AnnouncedOnce, Watched;
    match step
    case ActivateStep(config, env) =>
      if config.hopType !in s.connections {
        BringUpCarries(s, config, env.up);
      } else if SupportsSwitching(s, config) {
        ActivateBySwitchCarries(s, config, env);
      } else {
        RebuildCarries(s, config, env);
      }
    case DeactivateStep(emitSignals, env) => DeactivateCarries(s, emitSignals, env);
    case HandshakeStep(peers) => HandshakeCarries(s, peers);
    case LivenessStep(r) => LivenessCarries(s, r);
  }

  ghost predicate AllSteps(steps: seq<Step>, p: Step -> bool) { forall i :: 0 <= i < |steps| ==> p(steps[i]) }

  /** In every run the watchdog counters of every live connection stay in range. */
  lemma {:induction false} RunsKeepCounters(steps: seq<Step>)
    requires Legal(steps)
    ensures CountersOk(Exec(steps))
  {
    if steps != [] {
      RunsKeepCounters(steps[..|steps|-1]);
      StepCarries(Exec(steps[..|steps|-1]), steps[|steps|-1]);
    }
  }

  /**
   At most one announcement, exactly when the date becomes valid: after every
   run in which the backend reports distinct keys, each live connection has
   announced `connected` once if its date is valid and not at all otherwise.
   */
  lemma {:induction false} RunsAnnounceOnce(steps: seq<Step>)
    requires Legal(steps) && AllSteps(steps, KeysDistinct)
    ensures AnnouncedOnce(Exec(steps))
  {
    if steps != [] {
      var init := steps[..|steps|-1];
      assert AllSteps(init, KeysDistinct);
      RunsAnnounceOnce(init);
      StepCarries(Exec(init), steps[|steps|-1]);
    }
  }

  /**
   Watch coverage: with the base-class hook and the interface present, every
   state a run can reach has no live connection, an armed timer, or a tunnel
   already handed over to the client.
   */
  lemma {:induction false} RunsKeepTheTunnelWatched(steps: seq<Step>)
    requires Legal(steps) && AllSteps(steps, HookSucceeds)
    ensures Watched(Exec(steps))
  {
    if steps != [] {
      var init := steps[..|steps|-1];
      assert AllSteps(init, HookSucceeds);
      RunsKeepTheTunnelWatched(init);
      StepCarries(Exec(init), steps[|steps|-1]);
    }
  }

  /**
   The hook refuses to take a live tunnel down, for a deactivation or for a
   rebuild, or a tick does not find the interface while nothing else watches;
   and the tunnel had not been handed over.
   */
  predicate LosesWatch(s: DaemonState, step: Step) {
    s.connections != map[] && !GaveUp(s.log) &&
    match step
    case ActivateStep(config, env) => config.hopType in s.connections && !SupportsSwitching(s, config) && !env.down.run
    case DeactivateStep(_, env) => !env.run
    case LivenessStep(r) => !r.interfaceExists && !s.handshakeTimer
    case HandshakeStep(_) => false
  }

  lemma RebuildKeepsWatchExactly(s: DaemonState, config: InterfaceConfig, env: ActivateEnv)
    requires config.hopType in s.connections && !SupportsSwitching(s, config)
    ensures Watched(Activate(s, config, env).0) <==> env.down.run || GaveUp(s.log)
  {
    hide Deactivate, BringUp;
    if env.down.run {
      RebuildCarries(s, config, env);
    } else {
      DeactivateKeepsWatchExactly(s, false, env.down);
      RefusedDeactivation(s, false, env.down);
      var down := Deactivate(s, false, env.down).0;
      LoggedAnnouncements(down.log, ActivationFailure, SingleHop);
    }
  }

  lemma RefusedDeactivation(s: DaemonState, emitSignals: bool, env: DownEnv)
    requires s.connections != map[] && !env.run
    ensures Deactivate(s, emitSignals, env)
         == (s.(livenessTimer := false, handshakeTimer := false).Logged(TakenDown(false)), false)
  {
  }

  /** A step loses the watch of a state that has it exactly in those cases. */
  lemma WatchIsLostExactly(s: DaemonState, step: Step)
    requires Watched(s) && Enabled(s, step)
    ensures Watched(Next(s, step)) <==> !LosesWatch(s, step)
  {
    hide CheckHandshake, CheckLiveness, Deactivate, ActivateBySwitch, BringUp, GaveUp;
    match step
    case ActivateStep(config, env) =>
      if config.hopType !in s.connections {
        BringUpCarries(s, config, env.up);
      } else if SupportsSwitching(s, config) {
        ActivateBySwitchCarries(s, config, env);
      } else {
        RebuildKeepsWatchExactly(s, config, env);
      }
    case DeactivateStep(emitSignals, env) =>
      if s.connections == map[] { NothingToDeactivate(s, emitSignals, env); }
      else { DeactivateKeepsWatchExactly(s, emitSignals, env); }
    case HandshakeStep(peers) => HandshakeCarries(s, peers);
    case LivenessStep(r) =>
      if r.interfaceExists { LivenessCarries(s, r); } else { MissingInterfaceStopsWatchExactly(s, r); }
  }

  lemma NothingToDeactivate(s: DaemonState, emitSignals: bool, env: DownEnv)
    requires s.connections == map[]
    ensures Deactivate(s, emitSignals, env).0.connections == map[]
  {
    hide DropHops, DropExclusions;
  }

  ghost predicate NeverLosesWatch(steps: seq<Step>) {
    steps == [] ||
    (NeverLosesWatch(steps[..|steps|-1]) && !LosesWatch(Exec(steps[..|steps|-1]), steps[|steps|-1]))
  }

  /** In every run without such a step, whatever else fails, every live tunnel is watched. */
  lemma {:induction false} RunsLoseNoWatch(steps: seq<Step>)
    requires Legal(steps) && NeverLosesWatch(steps)
    ensures Watched(Exec(steps))
  {
    hide Next, LosesWatch;
    if steps != [] {
      RunsLoseNoWatch(steps[..|steps|-1]);
      WatchIsLostExactly(Exec(steps[..|steps|-1]), steps[|steps|-1]);
    }
  }

  /** From every reachable state a peer that only sends is handed over within twelve ticks. */
  lemma ReachableSilenceIsHandedOver(steps: seq<Step>, hop: HopType, rs: seq<Reading>, obs: seq<Observation>)
    requires Legal(steps) && hop in Exec(steps).connections
    requires ShowAll(rs, hop, Exec(steps).connections[hop].config.serverPublicKey, obs)
    requires OnlySends(Exec(steps).connections[hop], obs) && |rs| >= 12
    ensures exists j: nat :: j < 12 && HandsOver(Ticks(Exec(steps), rs, j), rs[j])
  {
    var s := Exec(steps);
    RunsKeepCounters(steps);
    RemainingBounds(s.connections[hop]);
    SilentPeerIsHandedOver(s, hop, rs, obs);
    var j: nat :| j < Remaining(s.connections[hop]) <= 12 && HandsOver(Ticks(s, rs, j), rs[j]);
  }

  // ---------------------------------------------------------------- who polls a pending connection

  /** A connection that awaits its handshake is polled for it. */
  predicate Polled(s: DaemonState) { Pending(s) ==> s.handshakeTimer }

  /** What follows switchServer in activate succeeds. */
  predicate SwitchCompletes(config: InterfaceConfig, env: ActivateEnv) {
    env.restoreResolvers && ResolversOk(config, env.updateResolvers) && env.runSwitch
  }

  /** When pending connections are polled after a step, said before it. */
  predicate PolledAfter(s: DaemonState, step: Step) {
    match step
    case ActivateStep(config, env) =>
      if config.hopType !in s.connections then (InterfaceReady(env.up) && PeerReady(config, env.up)) || Polled(s)
      else if !SupportsSwitching(s, config) then env.down.run || !Pending(s)
      else if SwitchInstalls(s, config, env.switching) then SwitchCompletes(config, env) || s.handshakeTimer
      else Polled(s)
    case DeactivateStep(_, env) => env.run || !Pending(s)
    case HandshakeStep(_) => true
    case LivenessStep(_) => Polled(s)
  }

  /** The same hops, dates and handshake timer. */
  ghost predicate SameDates(s: DaemonState, t: DaemonState) {
    && t.connections.Keys == s.connections.Keys && t.handshakeTimer == s.handshakeTimer
    && forall hop :: hop in s.connections ==> t.connections[hop].date == s.connections[hop].date
  }

  lemma SameDatesPolled(s: DaemonState, t: DaemonState)
    requires SameDates(s, t)
    ensures Pending(s) == Pending(t) && Polled(s) == Polled(t)
  {
    if hop :| hop in s.connections && s.connections[hop].date.None? { assert t.connections[hop].date.None?; }
    if hop :| hop in t.connections && t.connections[hop].date.None? { assert s.connections[hop].date.None?; }
  }

  lemma SameDatesTransitive(s: DaemonState, t: DaemonState, u: DaemonState)
    requires SameDates(s, t) && SameDates(t, u)
    ensures SameDates(s, u)
  {
  }

  lemma LivenessPeerKeepsDates(s: DaemonState, hop: HopType, status: PeerStatus, now: int, ok: bool)
    requires hop in s.connections
    ensures SameDates(s, LivenessPeer(s, hop, status, now, ok).0)
  {
    hide Judge, VerdictEvents;
    JudgeKeepsDate(s.connections[hop], status, now, ok);
  }

  lemma {:induction false} LivenessPeersKeepDates(s: DaemonState, hop: HopType, peers: seq<PeerStatus>, now: int,
                                                  ok: nat -> bool, n: nat)
    requires n <= |peers| && hop in s.connections
    ensures SameDates(s, LivenessPeers(s, hop, peers, now, ok, n).0)
  {
    hide LivenessPeer;
    if n > 0 {
      LivenessPeersKeepDates(s, hop, peers, now, ok, n-1);
      var before := LivenessPeers(s, hop, peers, now, ok, n-1).0;
      LivenessPeerKeepsDates(before, hop, peers[n-1], now, ok(n-1));
      SameDatesTransitive(s, before, LivenessPeers(s, hop, peers, now, ok, n).0);
    }
  }

  lemma SameDatesItself(s: DaemonState)
    ensures SameDates(s, s)
  {
  }

  lemma {:induction false} LivenessHopsKeepDates(s: DaemonState, r: Reading, n: nat)
    requires n <= |HOPS|
    ensures SameDates(s, LivenessHops(s, r.peers, r.now, r.updatePeer, n).0)
  {
    hide LivenessPeers, SameDates;
    SameDatesItself(s);
    if n > 0 {
      LivenessHopsKeepDates(s, r, n-1);
      var (before, cut) := LivenessHops(s, r.peers, r.now, r.updatePeer, n-1);
      if !cut && HOPS[n-1] in before.connections {
        LivenessPeersKeepDates(before, HOPS[n-1], r.peers, r.now, r.updatePeer(HOPS[n-1]), |r.peers|);
        SameDatesTransitive(s, before, LivenessHops(s, r.peers, r.now, r.updatePeer, n).0);
      }
    }
  }

  lemma LivenessPolls(s: DaemonState, r: Reading)
    ensures Polled(CheckLiveness(s, r)) == Polled(s)
  {
    hide LivenessHops, Polled, Pending;
    LivenessHopsKeepDates(s, r, |HOPS|);
    SameDatesPolled(s, CheckLiveness(s, r));
  }

  lemma HandshakePolls(s: DaemonState, peers: seq<PeerStatus>)
    ensures Polled(CheckHandshake(s, peers))
  {
    hide HandshakeHops;
    var seen := HandshakeHops(s.(handshakeTimer := false), peers, |HOPS|);
    assert CheckHandshake(s, peers).connections == seen.connections;
  }

  lemma DeactivatePollsExactly(s: DaemonState, emitSignals: bool, env: DownEnv)
    ensures Polled(Deactivate(s, emitSignals, env).0) <==> env.run || !Pending(s)
    ensures env.run ==> Deactivate(s, emitSignals, env).0.connections == map[]
    ensures !env.run && s.connections != map[] ==> !Deactivate(s, emitSignals, env).1
  {
    hide DropHops, DropExclusions;
    var t := Deactivate(s, emitSignals, env).0;
    assert t.connections == if s.connections != map[] && !env.run then s.connections else map[];
  }

  lemma BringUpPollsExactly(s: DaemonState, config: InterfaceConfig, env: UpEnv)
    ensures BringUp(s, config, env).1 <==> InterfaceReady(env) && PeerReady(config, env)
    ensures Polled(BringUp(s, config, env).0) <==> BringUp(s, config, env).1 || Polled(s)
    ensures s.connections == map[] ==> Polled(BringUp(s, config, env).0)
  {
    hide AddExclusions, UpdateRoutes;
    BringUpCarries(s, config, env);
  }

  lemma SwitchPollsExactly(s: DaemonState, config: InterfaceConfig, env: ActivateEnv)
    requires config.hopType in s.connections
    ensures Polled(ActivateBySwitch(s, config, env).0)
       <==> if SwitchInstalls(s, config, env.switching) then SwitchCompletes(config, env) || s.handshakeTimer
            else Polled(s)
  {
    hide SwitchMake, SwitchBreak;
    var t := SwitchEndsUnmarkedOrInstalled(s, config, env.switching);
    var (switched, ok) := SwitchServer(s, config, env.switching);
    assert ok == SwitchInstalls(s, config, env.switching);
    var u := ActivateBySwitch(s, config, env).0;
    if ok {
      assert switched == t.Install(config);
      assert config.hopType in u.connections && u.connections[config.hopType].date.None?;
      assert Pending(u);
    } else {
      assert switched == t && u.connections == s.connections;
    }
  }

  lemma RebuildPollsExactly(s: DaemonState, config: InterfaceConfig, env: ActivateEnv)
    requires config.hopType in s.connections && !SupportsSwitching(s, config)
    ensures Polled(Activate(s, config, env).0) <==> env.down.run || !Pending(s)
  {
    hide Deactivate, BringUp;
    DeactivatePollsExactly(s, false, env.down);
    var (down, ok) := Deactivate(s, false, env.down);
    BringUpPollsExactly(down, config, env.up);
    var t := Activate(s, config, env).0;
    if !ok {
      assert t.connections == down.connections;
    } else {
      assert t.connections == BringUp(down, config, env.up).0.connections;
    }
  }

  /** A step leaves every pending connection polled exactly if that can be told beforehand. */
  lemma StepPollsExactly(s: DaemonState, step: Step)
    ensures Polled(Next(s, step)) <==> PolledAfter(s, step)
  {
    hide Polled, Pending, BringUp, ActivateBySwitch, Deactivate, CheckHandshake, CheckLiveness, SwitchInstalls;
    match step
    case ActivateStep(config, env) =>
      if config.hopType !in s.connections {
        BringUpPollsExactly(s, config, env.up);
      } else if SupportsSwitching(s, config) {
        SwitchPollsExactly(s, config, env);
      } else {
        RebuildPollsExactly(s, config, env);
      }
    case DeactivateStep(emitSignals, env) => DeactivatePollsExactly(s, emitSignals, env);
    case HandshakeStep(peers) => HandshakePolls(s, peers);
    case LivenessStep(r) => LivenessPolls(s, r);
  }

  /** A switch installs a connection and stops short with no poll running, or the hook refuses while one is pending. */
  predicate DropsPoll(s: DaemonState, step: Step) {
    match step
    case ActivateStep(config, env) =>
      config.hopType in s.connections &&
      (if SupportsSwitching(s, config)
       then SwitchInstalls(s, config, env.switching) && !SwitchCompletes(config, env) && !s.handshakeTimer
       else !env.down.run && Pending(s))
    case DeactivateStep(_, env) => !env.run && Pending(s)
    case _ => false
  }

  /** One step loses the poll of a state that has it exactly in those two cases. */
  lemma PollIsLostExactly(s: DaemonState, step: Step)
    requires Polled(s)
    ensures Polled(Next(s, step)) <==> !DropsPoll(s, step)
  {
    hide Next;
    StepPollsExactly(s, step);
  }

  ghost predicate NeverDropsPoll(steps: seq<Step>) {
    steps == [] ||
    (NeverDropsPoll(steps[..|steps|-1]) && !DropsPoll(Exec(steps[..|steps|-1]), steps[|steps|-1]))
  }

  /** In every run without such a step, whatever else fails, a pending connection is polled. */
  lemma {:induction false} RunsPollPendingConnections(steps: seq<Step>)
    requires NeverDropsPoll(steps)
    ensures Polled(Exec(steps))
  {
    hide Next, DropsPoll;
    if steps != [] {
      RunsPollPendingConnections(steps[..|steps|-1]);
      PollIsLostExactly(Exec(steps[..|steps|-1]), steps[|steps|-1]);
    }
  }
}
