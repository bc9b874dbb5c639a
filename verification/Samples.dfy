/**
 The date and the byte counters of a connection over whole runs: they are those
 of the statuses reported for its own key, as long as it was shown them
 (client/daemon/daemon.cpp:649-669, 699-723).
 */
module Samples {
  import opened Basics
  import opened Daemon
  import opened ExclusionLedger
  import opened Watchdog
  import opened WatchCoverage
  import opened TunnelInterface

  /** What a connection remembers of the statuses of its peer. */
  datatype Memory = Memory(date: Option<int>, txBytes: int, rxBytes: int)

  const NOTHING := Memory(None, 0, 0)

  function MemoryOf(c: ConnectionState): Memory { Memory(c.date, c.lastTxBytes, c.lastRxBytes) }

  /** Where a list of statuses names a key. */
  function Position(peers: seq<PeerStatus>, key: string): (i: Option<nat>)
    ensures i.Some? ==> i.value < |peers| && peers[i.value].pubkey == key
    ensures i.None? ==> forall j :: 0 <= j < |peers| ==> peers[j].pubkey != key
  {
    if peers == [] then None
    else if peers[|peers|-1].pubkey == key then Some(|peers|-1)
    else Position(peers[..|peers|-1], key)
  }

  /** The status a reading has for the connection of a hop. */
  function StatusFor(s: DaemonState, hop: HopType, peers: seq<PeerStatus>): Option<nat> {
    if hop in s.connections then Position(peers, KeyOf(s, hop)) else None
  }

  /** The sample of a hop is one with which the watchdog calls the client. */
  predicate Calls(s: DaemonState, r: Reading, hop: HopType) {
    StatusFor(s, hop, r.peers).Some? &&
    var c, i := s.connections[hop], StatusFor(s, hop, r.peers).value;
    Alarming(c, r.peers[i], r.now) && (c.quickRecoveryAttempts >= 3 || !r.updatePeer(hop)(i))
  }

  predicate CallsAmong(s: DaemonState, r: Reading, n: nat) {
    exists hop :: HopIndex(hop) < n && Calls(s, r, hop)
  }

  /** The activation puts a new connection in place of that of its hop. */
  predicate Renews(s: DaemonState, config: InterfaceConfig, env: ActivateEnv) {
    if config.hopType !in s.connections then true
    else if SupportsSwitching(s, config) then SwitchInstalls(s, config, env.switching)
    else env.down.run
  }

  /** What a step adds to the memory of a hop's connection. */
  function Remembered(m: Memory, s: DaemonState, step: Step, hop: HopType): Memory {
    match step
    case ActivateStep(config, env) => if config.hopType == hop && Renews(s, config, env) then NOTHING else m
    case DeactivateStep(_, _) => m
    case HandshakeStep(peers) =>
      (match StatusFor(s, hop, peers)
       case Some(i) =>
         if m.date.None? && peers[i].handshake != 0
         then Memory(Some(peers[i].handshake), peers[i].txBytes, peers[i].rxBytes) else m
       case None => m)
    case LivenessStep(r) =>
      (match StatusFor(s, hop, r.peers)
       case Some(i) =>
         if r.interfaceExists && !CallsAmong(s, r, HopIndex(hop))
         then m.(txBytes := r.peers[i].txBytes, rxBytes := r.peers[i].rxBytes) else m
       case None => m)
  }

  function MemoryAfter(steps: seq<Step>, hop: HopType): Memory {
    if steps == [] then NOTHING else
    var init := steps[..|steps|-1];
    Remembered(MemoryAfter(init, hop), Exec(init), steps[|steps|-1], hop)
  }

  predicate ListsDistinctKeys(step: Step) {
    match step
    case HandshakeStep(peers) => DistinctKeys(peers)
    case LivenessStep(r) => DistinctKeys(r.peers)
    case _ => true
  }

  // ---------------------------------------------------------------- handshake ticks

  lemma HandshakeHopShows(s: DaemonState, hop: HopType, peers: seq<PeerStatus>)
    requires DistinctKeys(peers) && hop in s.connections
    ensures var t := HandshakeHop(s, hop, peers);
            hop in t.connections && MemoryOf(t.connections[hop])
            == Remembered(MemoryOf(s.connections[hop]), s, HandshakeStep(peers), hop)
  {
    hide HandshakePeers;
    if s.connections[hop].date.None? {
      PendingHopIsAnnouncedOnce(s, hop, peers, |peers|);
      var key := KeyOf(s, hop);
      var i := Position(peers, key);
      if i.Some? && peers[i.value].handshake == 0 { assert !Handshaked(peers, |peers|, key); }
    }
  }

  /** A handshake tick shows its list to every hop in turn, and to each hop once. */
  lemma {:induction false} HandshakeHopsShow(s: DaemonState, peers: seq<PeerStatus>, n: nat, hop: HopType)
    requires n <= |HOPS| && DistinctKeys(peers) && hop in s.connections
    ensures var t, m := HandshakeHops(s, peers, n), MemoryOf(s.connections[hop]);
            && hop in t.connections && t.connections[hop].config == s.connections[hop].config
            && MemoryOf(t.connections[hop])
               == if HopIndex(hop) < n then Remembered(m, s, HandshakeStep(peers), hop) else m
  {
    hide HandshakePeers, Position;
    if n > 0 {
      HandshakeHopsShow(s, peers, n-1, hop);
      var before, at := HandshakeHops(s, peers, n-1), HOPS[n-1];
      assert HopIndex(at) == n-1;
      if at == hop {
        HandshakeHopShows(before, hop, peers);
      } else if at in before.connections {
        HandshakePeersLeaveOtherHops(before, at, peers, |peers|, hop);
      }
    }
  }

  lemma HandshakeShows(s: DaemonState, peers: seq<PeerStatus>, hop: HopType)
    requires DistinctKeys(peers) && hop in s.connections
    ensures var t := CheckHandshake(s, peers);
            hop in t.connections && MemoryOf(t.connections[hop])
            == Remembered(MemoryOf(s.connections[hop]), s, HandshakeStep(peers), hop)
  {
    hide HandshakeHops;
    HandshakeHopsShow(s.(handshakeTimer := false), peers, |HOPS|, hop);
  }

  // ---------------------------------------------------------------- liveness ticks

  lemma {:induction false} UnlistedIsIgnored(s: DaemonState, hop: HopType, peers: seq<PeerStatus>, now: int,
                                             ok: nat -> bool, n: nat)
    requires n <= |peers| && hop in s.connections
    requires forall j :: 0 <= j < |peers| ==> peers[j].pubkey != KeyOf(s, hop)
    ensures LivenessPeers(s, hop, peers, now, ok, n) == (s, false)
  {
    hide LivenessPeer;
    if n > 0 {
      UnlistedIsIgnored(s, hop, peers, now, ok, n-1);
      OtherKeyIsIgnored(s, hop, peers[n-1], now, ok(n-1));
    }
  }

  /** The connection of a hop after its sample. */
  function Sampled(s: DaemonState, r: Reading, hop: HopType): ConnectionState
    requires hop in s.connections
  {
    match StatusFor(s, hop, r.peers)
    case Some(i) => Judge(s.connections[hop], r.peers[i], r.now, r.updatePeer(hop)(i)).0
    case None => s.connections[hop]
  }

  lemma SameSample(s: DaemonState, t: DaemonState, r: Reading, hop: HopType)
    requires hop in s.connections && hop in t.connections && s.connections[hop] == t.connections[hop]
    ensures Sampled(s, r, hop) == Sampled(t, r, hop) && Calls(s, r, hop) == Calls(t, r, hop)
  {
  }

  /** What a tick does to the connection whose turn it is, and whether it ends there. */
  lemma TurnOfHop(s: DaemonState, r: Reading, hop: HopType)
    requires DistinctKeys(r.peers) && hop in s.connections
    ensures var (t, cut) := LivenessPeers(s, hop, r.peers, r.now, r.updatePeer(hop), |r.peers|);
            hop in t.connections && cut == Calls(s, r, hop) && t.connections[hop] == Sampled(s, r, hop)
  {
    hide LivenessPeers, Judge, Alarming;
    match StatusFor(s, hop, r.peers)
    case Some(i) =>
      PeersActLikeTheListedOne(s, hop, r.peers, r.now, r.updatePeer(hop), |r.peers|, i);
      VerdictExactly(s.connections[hop], r.peers[i], r.now, r.updatePeer(hop)(i));
    case None => UnlistedIsIgnored(s, hop, r.peers, r.now, r.updatePeer(hop), |r.peers|);
  }

  /** A tick ends with the first hop whose sample calls the client. */
  lemma {:induction false} CutExactly(s: DaemonState, r: Reading, n: nat)
    requires n <= |HOPS| && DistinctKeys(r.peers)
    ensures LivenessHops(s, r.peers, r.now, r.updatePeer, n).1 == CallsAmong(s, r, n)
  {
    hide LivenessPeers, Calls, Sampled, CallsAmong, HopIndex;
    if n == 0 {
      NoneYet(s, r);
    } else {
      CutExactly(s, r, n-1);
      var before, at := LivenessHops(s, r.peers, r.now, r.updatePeer, n-1).0, HOPS[n-1];
      CallsGrow(s, r, n, at);
      if at in s.connections {
        HopsLeaveLaterOnes(s, r, n-1, at);
        SameSample(s, before, r, at);
        TurnOfHop(before, r, at);
      }
    }
  }

  /** A hop is not touched after its turn. */
  lemma {:induction false} HopsLeaveEarlierOnes(s: DaemonState, r: Reading, n: nat, hop: HopType)
    requires HopIndex(hop) < n <= |HOPS| && hop in s.connections
    ensures LivenessHops(s, r.peers, r.now, r.updatePeer, n).0.connections[hop]
         == LivenessHops(s, r.peers, r.now, r.updatePeer, HopIndex(hop) + 1).0.connections[hop]
  {
    hide LivenessPeers;
    if n > HopIndex(hop) + 1 {
      HopsLeaveEarlierOnes(s, r, n-1, hop);
      var before, at := LivenessHops(s, r.peers, r.now, r.updatePeer, n-1).0, HOPS[n-1];
      assert HopIndex(at) == n-1;
      if at in before.connections {
        PeersLeaveOtherHops(before, at, r.peers, r.now, r.updatePeer(at), |r.peers|, hop);
      }
    }
  }

  /** It samples the hops up to that one and no other. */
  lemma LivenessHopsShow(s: DaemonState, r: Reading, hop: HopType)
    requires DistinctKeys(r.peers) && hop in s.connections
    ensures LivenessHops(s, r.peers, r.now, r.updatePeer, |HOPS|).0.connections[hop]
         == if CallsAmong(s, r, HopIndex(hop)) then s.connections[hop] else Sampled(s, r, hop)
  {
    hide LivenessPeers, Calls, Sampled, CallsAmong, HopIndex;
    var n := HopIndex(hop);
    var before := LivenessHops(s, r.peers, r.now, r.updatePeer, n).0;
    HopsLeaveLaterOnes(s, r, n, hop);
    CutExactly(s, r, n);
    SameSample(s, before, r, hop);
    TurnOfHop(before, r, hop);
    HopsLeaveEarlierOnes(s, r, |HOPS|, hop);
  }

  lemma NoneYet(s: DaemonState, r: Reading)
    ensures !CallsAmong(s, r, 0)
  {
  }

  lemma CallsGrow(s: DaemonState, r: Reading, n: nat, hop: HopType)
    requires 0 < n <= |HOPS|
    ensures HopIndex(HOPS[n-1]) == n-1 && (HopIndex(hop) < n <==> HopIndex(hop) < n-1 || hop == HOPS[n-1])
    ensures CallsAmong(s, r, n) <==> CallsAmong(s, r, n-1) || Calls(s, r, HOPS[n-1])
    ensures Calls(s, r, HOPS[n-1]) ==> HOPS[n-1] in s.connections
  {
    hide Alarming;
    assert HopIndex(HOPS[n-1]) == n-1;
    assert forall h :: HopIndex(h) < n <==> HopIndex(h) < n-1 || h == HOPS[n-1];
  }

  // ---------------------------------------------------------------- what a tick does to the outside

  /** The peer is sent again if its sample is alarming and an attempt is left, the client called if that is no help. */
  function SampleEvents(s: DaemonState, r: Reading, hop: HopType): seq<Event> {
    match StatusFor(s, hop, r.peers)
    case None => []
    case Some(i) =>
      var c, ok := s.connections[hop], r.updatePeer(hop)(i);
      if !Alarming(c, r.peers[i], r.now) then []
      else if c.quickRecoveryAttempts >= 3 then [HandedOver]
      else if ok then [UpdatePeer(KeyOf(s, hop), true)]
      else [UpdatePeer(KeyOf(s, hop), false), HandedOver]
  }

  /** The events of the first n hops, up to the first that calls the client. */
  function TickEvents(s: DaemonState, r: Reading, n: nat): seq<Event>
    requires n <= |HOPS|
  {
    if n == 0 then []
    else if CallsAmong(s, r, n-1) then TickEvents(s, r, n-1)
    else TickEvents(s, r, n-1) + SampleEvents(s, r, HOPS[n-1])
  }

  lemma TurnEvents(s: DaemonState, r: Reading, hop: HopType)
    requires DistinctKeys(r.peers) && hop in s.connections
    ensures LivenessPeers(s, hop, r.peers, r.now, r.updatePeer(hop), |r.peers|).0.log
         == s.log + SampleEvents(s, r, hop)
  {
    hide LivenessPeers, Judge, Alarming;
    match StatusFor(s, hop, r.peers)
    case Some(i) =>
      PeersActLikeTheListedOne(s, hop, r.peers, r.now, r.updatePeer(hop), |r.peers|, i);
      VerdictExactly(s.connections[hop], r.peers[i], r.now, r.updatePeer(hop)(i));
      JudgeRemembers(s.connections[hop], r.peers[i], r.now, r.updatePeer(hop)(i));
    case None => UnlistedIsIgnored(s, hop, r.peers, r.now, r.updatePeer(hop), |r.peers|);
  }

  lemma SameEvents(s: DaemonState, t: DaemonState, r: Reading, hop: HopType)
    requires hop in s.connections && hop in t.connections && s.connections[hop] == t.connections[hop]
    ensures SampleEvents(s, r, hop) == SampleEvents(t, r, hop)
  {
  }

  /** What the turn of one hop adds to the log. */
  lemma NextTurnEvents(s: DaemonState, r: Reading, n: nat)
    requires 0 < n <= |HOPS| && DistinctKeys(r.peers)
    ensures var (before, cut) := LivenessHops(s, r.peers, r.now, r.updatePeer, n-1);
            LivenessHops(s, r.peers, r.now, r.updatePeer, n).0.log
            == before.log + if cut then [] else SampleEvents(s, r, HOPS[n-1])
  {
    hide LivenessPeers, SampleEvents, HopIndex;
    var before, at := LivenessHops(s, r.peers, r.now, r.updatePeer, n-1).0, HOPS[n-1];
    assert before.log + [] == before.log;
    if at in s.connections {
      IndexOfHop(n-1);
      HopsLeaveLaterOnes(s, r, n-1, at);
      SameEvents(s, before, r, at);
      TurnEvents(before, r, at);
    } else {
      NoEvents(s, r, at);
    }
  }

  lemma {:induction false} HopsEventsExactly(s: DaemonState, r: Reading, n: nat)
    requires n <= |HOPS| && DistinctKeys(r.peers)
    ensures LivenessHops(s, r.peers, r.now, r.updatePeer, n).0.log == s.log + TickEvents(s, r, n)
  {
    hide SampleEvents, CallsAmong, LivenessPeers, DistinctKeys;
    if n == 0 {
      assert s.log + [] == s.log;
    } else {
      hide LivenessHops;
      HopsEventsExactly(s, r, n-1);
      CutExactly(s, r, n-1);
      NextTurnEvents(s, r, n);
      Regroup(s.log, TickEvents(s, r, n-1), SampleEvents(s, r, HOPS[n-1]));
    }
  }

  lemma Regroup(a: seq<Event>, b: seq<Event>, c: seq<Event>)
    ensures a + b + c == a + (b + c) && a + b + [] == a + b
  {
  }

  lemma IndexOfHop(n: nat)
    requires n < |HOPS|
    ensures HopIndex(HOPS[n]) == n
  {
  }

  lemma NoEvents(s: DaemonState, r: Reading, hop: HopType)
    requires hop !in s.connections
    ensures SampleEvents(s, r, hop) == []
  {
  }

  /**
   The calls and signals of a liveness tick, exactly and in order: for each
   connection in turn its own peer is sent again, or the client is called, and
   after the first call of the client nothing more is done.
   */
  lemma TickEventsExactly(s: DaemonState, r: Reading)
    requires DistinctKeys(r.peers) && s.connections != map[] && r.interfaceExists
    ensures CheckLiveness(s, r).log == s.log + TickEvents(s, r, |HOPS|)
  {
    HopsEventsExactly(s, r, |HOPS|);
  }

  /** A tick calls the client exactly if some live connection has such a sample. */
  lemma HandsOverExactly(s: DaemonState, r: Reading)
    requires DistinctKeys(r.peers)
    ensures HandsOver(s, r) <==> r.interfaceExists && exists hop :: Calls(s, r, hop)
  {
    hide LivenessHops, Alarming;
    assert forall hop :: HopIndex(hop) < |HOPS|;
    CutExactly(s, r, |HOPS|);
  }

  lemma LivenessShows(s: DaemonState, r: Reading, hop: HopType)
    requires DistinctKeys(r.peers) && hop in s.connections
    ensures var t := CheckLiveness(s, r);
            hop in t.connections && MemoryOf(t.connections[hop])
            == Remembered(MemoryOf(s.connections[hop]), s, LivenessStep(r), hop)
  {
    hide LivenessHops, Judge, CallsAmong;
    LivenessHopsShow(s, r, hop);
    match StatusFor(s, hop, r.peers)
    case Some(i) =>
      JudgeRemembers(s.connections[hop], r.peers[i], r.now, r.updatePeer(hop)(i));
      JudgeKeepsDate(s.connections[hop], r.peers[i], r.now, r.updatePeer(hop)(i));
    case None =>
  }

  // ---------------------------------------------------------------- whole runs

  lemma ActivateRenews(s: DaemonState, config: InterfaceConfig, env: ActivateEnv, hop: HopType)
    requires hop in Activate(s, config, env).0.connections
    ensures var t := Activate(s, config, env).0;
            if hop == config.hopType && Renews(s, config, env) then t.connections[hop] == FreshConnection(config)
            else hop in s.connections && t.connections[hop] == s.connections[hop]
  {
    hide BringUp, SwitchServer, Deactivate;
    if config.hopType !in s.connections {
      BroughtUpInterface(s, config, env.up);
    } else if SupportsSwitching(s, config) {
      SwitchConnections(s, config, env.switching);
    } else {
      DeactivateConnections(s, false, env.down);
      BroughtUpInterface(Deactivate(s, false, env.down).0, config, env.up);
    }
  }

  lemma StepIsRemembered(s: DaemonState, step: Step, hop: HopType, m: Memory)
    requires ListsDistinctKeys(step) && hop in Next(s, step).connections
    requires hop in s.connections ==> MemoryOf(s.connections[hop]) == m
    ensures MemoryOf(Next(s, step).connections[hop]) == Remembered(m, s, step, hop)
  {
    hide Activate, Deactivate, CheckHandshake, CheckLiveness, Renews, StatusFor, CallsAmong;
    match step
    case ActivateStep(config, env) => ActivateRenews(s, config, env, hop);
    case DeactivateStep(emitSignals, env) => DeactivateConnections(s, emitSignals, env);
    case HandshakeStep(peers) =>
      HandshakeKeepsDemand(s, peers);
      HandshakeShows(s, peers, hop);
    case LivenessStep(r) =>
      LivenessResends(s, r);
      LivenessShows(s, r, hop);
  }

  /**
   In every run whose readings list each key once, the date of every live
   connection is that of the first handshake reported for its key since it was
   put in place, and its counters are those of the last status it was shown.
   */
  lemma {:induction false} RunsRememberTheLastStatus(steps: seq<Step>, hop: HopType)
    requires AllSteps(steps, ListsDistinctKeys) && hop in Exec(steps).connections
    ensures MemoryOf(Exec(steps).connections[hop]) == MemoryAfter(steps, hop)
  {
    hide Next, Remembered, MemoryOf;
    if steps != [] {
      var init := steps[..|steps|-1];
      assert AllSteps(init, ListsDistinctKeys);
      if hop in Exec(init).connections { RunsRememberTheLastStatus(init, hop); }
      StepIsRemembered(Exec(init), steps[|steps|-1], hop, MemoryAfter(init, hop));
    }
  }
}
