/**
 The liveness watchdog: how fast it escalates, and when it stays silent
 (client/daemon/daemon.cpp:35-39, 688-798).
 */
module Watchdog {
  import opened Daemon

  // ---------------------------------------------------------------- one connection, one status

  /** The counters of a connection in any state the daemon can reach. */
  predicate CountersInRange(c: ConnectionState) {
    c.stalledSamples >= 0 && 0 <= c.quickRecoveryAttempts <= QUICK_RECOVERY_ATTEMPTS
  }

  /**
   What is left of the escalation ladder: three samples per rung. The stalled
   count is capped because it stays at its limit after a hand-over.
   */
  function Remaining(c: ConnectionState): int {
    var stalled := if c.stalledSamples < BLACKHOLE_SAMPLES then c.stalledSamples else BLACKHOLE_SAMPLES - 1;
    BLACKHOLE_SAMPLES * (QUICK_RECOVERY_ATTEMPTS - c.quickRecoveryAttempts) + (BLACKHOLE_SAMPLES - stalled)
  }

  /** A handshake is reported, and it is at most 150 seconds old. */
  predicate Recent(status: PeerStatus, now: int) {
    status.handshake != 0 && (status.handshake > 0 ==> now - status.handshake <= 150_000)
  }

  /** The third silent sample in a row, or one without a recent handshake, is one to act on. */
  predicate Alarming(c: ConnectionState, status: PeerStatus, now: int) {
    && status.pubkey == c.config.serverPublicKey && status.rxBytes <= c.lastRxBytes
    && (!Recent(status, now) || c.stalledSamples + (if status.txBytes > c.lastTxBytes then 1 else 0) >= 3)
  }

  /** The verdict on every sample: acted on if it is alarming, with three attempts before the client is called. */
  lemma VerdictExactly(c: ConnectionState, status: PeerStatus, now: int, ok: bool)
    ensures Judge(c, status, now, ok).1 ==
            if !Alarming(c, status, now) then Fine
            else if c.quickRecoveryAttempts >= 3 then OutOfAttempts
            else if ok then Resent else ResendFailed
  {
  }

  /** A tunnel with no traffic at all is left alone exactly as long as its handshake is recent. */
  lemma IdleSampleExactly(c: ConnectionState, status: PeerStatus, now: int, ok: bool)
    requires status.pubkey == c.config.serverPublicKey && c.stalledSamples < 3
    requires status.txBytes == c.lastTxBytes && status.rxBytes == c.lastRxBytes
    ensures Judge(c, status, now, ok) == (c, Fine) <==> Recent(status, now)
    ensures !Recent(status, now) ==> !Judge(c, status, now, ok).1.Fine?
  {
  }

  /** An answer takes the connection back to the foot of the ladder, twelve silent samples away from the client. */
  lemma AnswerStartsOver(c: ConnectionState, status: PeerStatus, now: int, ok: bool)
    requires status.pubkey == c.config.serverPublicKey && status.rxBytes > c.lastRxBytes
    ensures var d := Judge(c, status, now, ok).0;
            d.stalledSamples == 0 && d.quickRecoveryAttempts == 0 && Remaining(d) == 12
  {
  }

  /** So does a new connection start. */
  lemma NewConnectionStartsOver(config: InterfaceConfig)
    ensures var c := FreshConnection(config);
            c.config == config && c.date.None? && c.stalledSamples == 0 && c.quickRecoveryAttempts == 0
    ensures Remaining(FreshConnection(config)) == 12
  {
  }

  lemma RemainingBounds(c: ConnectionState)
    requires CountersInRange(c)
    ensures 1 <= Remaining(c) <= 12
  {
  }

  lemma JudgeKeepsRange(c: ConnectionState, status: PeerStatus, now: int, ok: bool)
    requires CountersInRange(c)
    ensures CountersInRange(Judge(c, status, now, ok).0)
  {
  }

  /** Every silent sending sample either hands over or moves one rung down the ladder. */
  lemma SilentSampleDescends(c: ConnectionState, status: PeerStatus, now: int, ok: bool)
    requires CountersInRange(c) && status.pubkey == c.config.serverPublicKey
    requires status.txBytes > c.lastTxBytes && status.rxBytes <= c.lastRxBytes
    ensures var (d, v) := Judge(c, status, now, ok);
            v.HandsOver() || Remaining(d) < Remaining(c)
  {
  }

  /** With a stale handshake every sample without an answer uses up an attempt. */
  lemma StaleSampleDescends(c: ConnectionState, status: PeerStatus, now: int, ok: bool)
    requires CountersInRange(c) && status.pubkey == c.config.serverPublicKey
    requires !Recent(status, now) && status.rxBytes <= c.lastRxBytes
    ensures var (d, v) := Judge(c, status, now, ok);
            v.HandsOver() || d.quickRecoveryAttempts == c.quickRecoveryAttempts + 1
  {
  }

  // ---------------------------------------------------------------- one whole tick

  /** The status list names a key exactly once, at position i. */
  predicate ListedAt(peers: seq<PeerStatus>, key: string, i: nat) {
    && i < |peers| && peers[i].pubkey == key
    && forall j :: 0 <= j < |peers| && j != i ==> peers[j].pubkey != key
  }

  function HopIndex(hop: HopType): (i: nat)
    ensures i < |HOPS| && HOPS[i] == hop
  {
    match hop
    case SingleHop => 0
    case MultiHopEntry => 1
    case MultiHopExit => 2
  }

  /** The tick ends by handing the tunnel over to the client. */
  predicate HandsOver(s: DaemonState, r: Reading) {
    s.connections != map[] && r.interfaceExists && LivenessHops(s, r.peers, r.now, r.updatePeer, |HOPS|).1
  }

  /** Only the one matching status counts, so the list acts like that status alone. */
  lemma {:induction false} PeersActLikeTheListedOne(s: DaemonState, hop: HopType, peers: seq<PeerStatus>, now: int,
                                                    ok: nat -> bool, n: nat, i: nat)
    requires n <= |peers| && hop in s.connections && ListedAt(peers, s.connections[hop].config.serverPublicKey, i)
    ensures LivenessPeers(s, hop, peers, now, ok, n)
         == if n <= i then (s, false) else LivenessPeer(s, hop, peers[i], now, ok(i))
  {
    hide LivenessPeer;
    if n > 0 {
      PeersActLikeTheListedOne(s, hop, peers, now, ok, n-1, i);
      var (before, cut) := LivenessPeers(s, hop, peers, now, ok, n-1);
      if n-1 != i && !cut {
        OtherKeyIsIgnored(before, hop, peers[n-1], now, ok(n-1));
      }
    }
  }

  lemma OtherKeyIsIgnored(s: DaemonState, hop: HopType, status: PeerStatus, now: int, ok: bool)
    requires hop in s.connections && status.pubkey != s.connections[hop].config.serverPublicKey
    ensures LivenessPeer(s, hop, status, now, ok) == (s, false)
  {
    assert s.connections[hop := s.connections[hop]] == s.connections;
    assert s.log + [] == s.log;
  }

  lemma {:induction false} PeersLeaveOtherHops(s: DaemonState, hop: HopType, peers: seq<PeerStatus>, now: int,
                                               ok: nat -> bool, n: nat, other: HopType)
    requires n <= |peers| && hop in s.connections && other in s.connections && other != hop
    ensures LivenessPeers(s, hop, peers, now, ok, n).0.connections[other] == s.connections[other]
  {
    hide Judge, VerdictEvents;
    if n > 0 {
      PeersLeaveOtherHops(s, hop, peers, now, ok, n-1, other);
    }
  }

  lemma {:induction false} HandshakePeersLeaveOtherHops(s: DaemonState, hop: HopType, peers: seq<PeerStatus>, n: nat,
                                                        other: HopType)
    requires n <= |peers| && hop in s.connections && other in s.connections && other != hop
    ensures HandshakePeers(s, hop, peers, n).connections[other] == s.connections[other]
  {
    if n > 0 { HandshakePeersLeaveOtherHops(s, hop, peers, n-1, other); }
  }

  /** A tick that is not cut short applies the verdict on the listed status to the connection. */
  lemma {:induction false} HopsJudgeEach(s: DaemonState, r: Reading, n: nat, hop: HopType, i: nat)
    requires n <= |HOPS| && hop in s.connections && ListedAt(r.peers, s.connections[hop].config.serverPublicKey, i)
    requires !LivenessHops(s, r.peers, r.now, r.updatePeer, n).1
    ensures var t := LivenessHops(s, r.peers, r.now, r.updatePeer, n).0;
            var (c, v) := Judge(s.connections[hop], r.peers[i], r.now, r.updatePeer(hop)(i));
            if HopIndex(hop) < n then t.connections[hop] == c && !v.HandsOver()
            else t.connections[hop] == s.connections[hop]
  {
    hide Judge, VerdictEvents, LivenessPeers;
    if n > 0 {
      HopsJudgeEach(s, r, n-1, hop, i);
      var before := LivenessHops(s, r.peers, r.now, r.updatePeer, n-1).0;
      var at := HOPS[n-1];
      if at == hop {
        assert HopIndex(hop) == n-1;
        PeersActLikeTheListedOne(before, hop, r.peers, r.now, r.updatePeer(hop), |r.peers|, i);
      } else if at in before.connections {
        PeersLeaveOtherHops(before, at, r.peers, r.now, r.updatePeer(at), |r.peers|, hop);
      }
    }
  }

  // ---------------------------------------------------------------- what a hand-over looks like

  /** A state in which the watchdog has just given up. */
  predicate Announced(t: DaemonState) {
    !t.livenessTimer && t.log != [] && t.log[|t.log|-1] == HandedOver
  }

  lemma CutPeerAnnounces(s: DaemonState, hop: HopType, status: PeerStatus, now: int, ok: bool)
    requires hop in s.connections && LivenessPeer(s, hop, status, now, ok).1
    ensures Announced(LivenessPeer(s, hop, status, now, ok).0)
  {
  }

  lemma {:induction false} CutPeersAnnounce(s: DaemonState, hop: HopType, peers: seq<PeerStatus>, now: int,
                                            ok: nat -> bool, n: nat)
    requires n <= |peers| && hop in s.connections && LivenessPeers(s, hop, peers, now, ok, n).1
    ensures Announced(LivenessPeers(s, hop, peers, now, ok, n).0)
  {
    hide LivenessPeer;
    if n > 0 {
      var (before, cut) := LivenessPeers(s, hop, peers, now, ok, n-1);
      if cut {
        CutPeersAnnounce(s, hop, peers, now, ok, n-1);
      } else {
        CutPeerAnnounces(before, hop, peers[n-1], now, ok(n-1));
      }
    }
  }

  lemma {:induction false} CutHopsAnnounce(s: DaemonState, r: Reading, n: nat)
    requires n <= |HOPS| && LivenessHops(s, r.peers, r.now, r.updatePeer, n).1
    ensures Announced(LivenessHops(s, r.peers, r.now, r.updatePeer, n).0)
  {
    if n > 0 {
      var (before, cut) := LivenessHops(s, r.peers, r.now, r.updatePeer, n-1);
      if cut {
        CutHopsAnnounce(s, r, n-1);
      } else {
        CutPeersAnnounce(before, HOPS[n-1], r.peers, r.now, r.updatePeer(HOPS[n-1]), |r.peers|);
      }
    }
  }

  /** Handing over stops the watchdog and ends with the disconnected signal. */
  lemma HandOverStopsAndSignals(s: DaemonState, r: Reading)
    requires HandsOver(s, r)
    ensures Announced(CheckLiveness(s, r))
  {
    CutHopsAnnounce(s, r, |HOPS|);
  }

  // ---------------------------------------------------------------- what a connection sees of the ticks

  /** What one tick shows a connection: its peer's status, the clock, and the answer to a re-sent peer. */
  datatype Observation = Observation(status: PeerStatus, now: int, ok: bool)

  /** A reading lists the key exactly once, and this is what it says about it. */
  ghost predicate Shows(r: Reading, hop: HopType, key: string, o: Observation) {
    r.interfaceExists &&
    exists i: nat :: ListedAt(r.peers, key, i) && o == Observation(r.peers[i], r.now, r.updatePeer(hop)(i))
  }

  ghost predicate ShowAll(rs: seq<Reading>, hop: HopType, key: string, obs: seq<Observation>) {
    |obs| == |rs| && forall j :: 0 <= j < |rs| ==> Shows(rs[j], hop, key, obs[j])
  }

  /** A connection judged by the first n observations. */
  function JudgeAll(c: ConnectionState, obs: seq<Observation>, n: nat): ConnectionState
    requires n <= |obs|
    decreases n, 0
  {
    if n == 0 then c else JudgeNext(c, obs, n-1).0
  }

  /** The verdict on the n-th observation, after the ones before it. */
  function JudgeNext(c: ConnectionState, obs: seq<Observation>, n: nat): (ConnectionState, Verdict)
    requires n < |obs|
    decreases n, 1
  {
    Judge(JudgeAll(c, obs, n), obs[n].status, obs[n].now, obs[n].ok)
  }

  predicate AboutKey(obs: seq<Observation>, key: string) {
    forall j :: 0 <= j < |obs| ==> obs[j].status.pubkey == key
  }

  function TxBefore(c: ConnectionState, obs: seq<Observation>, j: nat): int
    requires j <= |obs|
  {
    if j == 0 then c.lastTxBytes else obs[j-1].status.txBytes
  }

  function RxBefore(c: ConnectionState, obs: seq<Observation>, j: nat): int
    requires j <= |obs|
  {
    if j == 0 then c.lastRxBytes else obs[j-1].status.rxBytes
  }

  lemma JudgeRemembers(c: ConnectionState, status: PeerStatus, now: int, ok: bool)
    requires status.pubkey == c.config.serverPublicKey
    ensures var d := Judge(c, status, now, ok).0;
            d.lastTxBytes == status.txBytes && d.lastRxBytes == status.rxBytes && d.config == c.config
  {
  }

  /** The connection carries the counters of the last observation. */
  lemma {:induction false} ObservationsAreRemembered(c: ConnectionState, obs: seq<Observation>, n: nat)
    requires n <= |obs| && AboutKey(obs, c.config.serverPublicKey)
    ensures var d := JudgeAll(c, obs, n);
            d.config == c.config && d.lastTxBytes == TxBefore(c, obs, n) && d.lastRxBytes == RxBefore(c, obs, n)
  {
    if n > 0 {
      ObservationsAreRemembered(c, obs, n-1);
      JudgeRemembers(JudgeAll(c, obs, n-1), obs[n-1].status, obs[n-1].now, obs[n-1].ok);
    }
  }

  // ---------------------------------------------------------------- consecutive ticks

  /** The state after the first n of a sequence of liveness ticks. */
  function Ticks(s: DaemonState, rs: seq<Reading>, n: nat): DaemonState
    requires n <= |rs|
  {
    if n == 0 then s else CheckLiveness(Ticks(s, rs, n-1), rs[n-1])
  }

  ghost predicate NoHandOver(s: DaemonState, rs: seq<Reading>, n: nat)
    requires n <= |rs|
  {
    forall j: nat :: j < n ==> !HandsOver(Ticks(s, rs, j), rs[j])
  }

  lemma NoHandOverYet(s: DaemonState, rs: seq<Reading>)
    ensures NoHandOver(s, rs, 0)
  {
  }

  lemma NoHandOverExtends(s: DaemonState, rs: seq<Reading>, n: nat)
    requires n < |rs| && NoHandOver(s, rs, n) && !HandsOver(Ticks(s, rs, n), rs[n])
    ensures NoHandOver(s, rs, n+1)
  {
    hide HandsOver, Ticks;
    forall j: nat | j < n+1 ensures !HandsOver(Ticks(s, rs, j), rs[j]) {
      if j < n { assert !HandsOver(Ticks(s, rs, j), rs[j]); }
    }
  }

  lemma TickJudges(s: DaemonState, r: Reading, hop: HopType, o: Observation)
    requires hop in s.connections && Shows(r, hop, s.connections[hop].config.serverPublicKey, o)
    requires !HandsOver(s, r)
    ensures hop in CheckLiveness(s, r).connections
    ensures var (c, v) := Judge(s.connections[hop], o.status, o.now, o.ok);
            CheckLiveness(s, r).connections[hop] == c && !v.HandsOver()
  {
    var i: nat :| ListedAt(r.peers, s.connections[hop].config.serverPublicKey, i)
               && o == Observation(r.peers[i], r.now, r.updatePeer(hop)(i));
    HopsJudgeEach(s, r, |HOPS|, hop, i);
  }

  lemma ShownIsAboutKey(rs: seq<Reading>, hop: HopType, key: string, obs: seq<Observation>)
    requires ShowAll(rs, hop, key, obs)
    ensures AboutKey(obs, key)
  {
  }

  /** As long as nothing is handed over, the ticks of the daemon judge each connection on its own. */
  lemma {:induction false} TicksFollowObservations(s: DaemonState, hop: HopType, rs: seq<Reading>,
                                                   obs: seq<Observation>, n: nat)
    requires n <= |rs| && hop in s.connections && ShowAll(rs, hop, s.connections[hop].config.serverPublicKey, obs)
    requires NoHandOver(s, rs, n)
    ensures hop in Ticks(s, rs, n).connections
    ensures Ticks(s, rs, n).connections[hop] == JudgeAll(s.connections[hop], obs, n)
    ensures n > 0 ==> !JudgeNext(s.connections[hop], obs, n-1).1.HandsOver()
  {
    hide HandsOver, CheckLiveness;
    if n > 0 {
      assert NoHandOver(s, rs, n-1);
      TicksFollowObservations(s, hop, rs, obs, n-1);
      ShownIsAboutKey(rs, hop, s.connections[hop].config.serverPublicKey, obs);
      ObservationsAreRemembered(s.connections[hop], obs, n-1);
      assert !HandsOver(Ticks(s, rs, n-1), rs[n-1]);
      TickJudges(Ticks(s, rs, n-1), rs[n-1], hop, obs[n-1]);
    }
  }

  /** A verdict that hands over ends the ticks there or earlier. */
  lemma HandOverVerdictEndsTicks(s: DaemonState, hop: HopType, rs: seq<Reading>, obs: seq<Observation>, j: nat)
    requires j < |rs| && hop in s.connections && ShowAll(rs, hop, s.connections[hop].config.serverPublicKey, obs)
    requires JudgeNext(s.connections[hop], obs, j).1.HandsOver()
    ensures !NoHandOver(s, rs, j+1)
  {
    if NoHandOver(s, rs, j+1) {
      TicksFollowObservations(s, hop, rs, obs, j+1);
    }
  }

  // ---------------------------------------------------------------- escalation

  /** Between any two observations the peer sent something and received nothing. */
  predicate OnlySends(c: ConnectionState, obs: seq<Observation>) {
    forall j :: 0 <= j < |obs| ==>
      obs[j].status.txBytes > TxBefore(c, obs, j) && obs[j].status.rxBytes <= RxBefore(c, obs, j)
  }

  /** Nothing came back and no recent handshake was reported. */
  predicate OnlyStale(c: ConnectionState, obs: seq<Observation>) {
    forall j :: 0 <= j < |obs| ==>
      !Recent(obs[j].status, obs[j].now) && obs[j].status.rxBytes <= RxBefore(c, obs, j)
  }

  /** Some verdict among the first n hands over, or n rungs of the ladder are gone. */
  lemma {:induction false} SilenceDescends(c: ConnectionState, obs: seq<Observation>, n: nat) returns (j: nat)
    requires n <= |obs| && AboutKey(obs, c.config.serverPublicKey) && CountersInRange(c) && OnlySends(c, obs)
    ensures j <= n
    ensures j < n ==> JudgeNext(c, obs, j).1.HandsOver()
    ensures j == n ==> CountersInRange(JudgeAll(c, obs, n)) && Remaining(JudgeAll(c, obs, n)) <= Remaining(c) - n
  {
    hide Judge, CountersInRange, Remaining;
    j := 0;
    if n > 0 {
      j := SilenceDescends(c, obs, n-1);
      if j == n-1 {
        ObservationsAreRemembered(c, obs, n-1);
        var before, o := JudgeAll(c, obs, n-1), obs[n-1];
        JudgeKeepsRange(before, o.status, o.now, o.ok);
        SilentSampleDescends(before, o.status, o.now, o.ok);
        if !JudgeNext(c, obs, n-1).1.HandsOver() { j := n; }
      }
    }
  }

  /** Some verdict among the first n hands over, or n attempts are used up. */
  lemma {:induction false} StalenessDescends(c: ConnectionState, obs: seq<Observation>, n: nat) returns (j: nat)
    requires n <= |obs| && AboutKey(obs, c.config.serverPublicKey) && CountersInRange(c) && OnlyStale(c, obs)
    ensures j <= n
    ensures j < n ==> JudgeNext(c, obs, j).1.HandsOver()
    ensures j == n ==>
              && CountersInRange(JudgeAll(c, obs, n))
              && JudgeAll(c, obs, n).quickRecoveryAttempts == c.quickRecoveryAttempts + n
  {
    hide Judge, CountersInRange, Remaining;
    j := 0;
    if n > 0 {
      j := StalenessDescends(c, obs, n-1);
      if j == n-1 {
        ObservationsAreRemembered(c, obs, n-1);
        var before, o := JudgeAll(c, obs, n-1), obs[n-1];
        JudgeKeepsRange(before, o.status, o.now, o.ok);
        StaleSampleDescends(before, o.status, o.now, o.ok);
        if !JudgeNext(c, obs, n-1).1.HandsOver() { j := n; }
      }
    }
  }

  /**
   Escalation bound: a peer that only sends makes the watchdog call the client
   within as many ticks as are left on the ladder, so within twelve from any
   state whose counters are in range.
   */
  lemma SilentPeerIsHandedOver(s: DaemonState, hop: HopType, rs: seq<Reading>, obs: seq<Observation>)
    requires hop in s.connections && CountersInRange(s.connections[hop])
    requires ShowAll(rs, hop, s.connections[hop].config.serverPublicKey, obs) && OnlySends(s.connections[hop], obs)
    requires |rs| >= Remaining(s.connections[hop])
    ensures exists j: nat :: j < Remaining(s.connections[hop]) <= 12 && HandsOver(Ticks(s, rs, j), rs[j])
  {
    var c := s.connections[hop];
    RemainingBounds(c);
    ShownIsAboutKey(rs, hop, c.config.serverPublicKey, obs);
    var j := SilenceDescends(c, obs, Remaining(c));
    if j == Remaining(c) { RemainingBounds(JudgeAll(c, obs, j)); }
    HandOverVerdictEndsTicks(s, hop, rs, obs, j);
  }

  /** With a stale handshake the client is called within four ticks, whether or not anything is sent. */
  lemma StalePeerIsHandedOver(s: DaemonState, hop: HopType, rs: seq<Reading>, obs: seq<Observation>)
    requires hop in s.connections && CountersInRange(s.connections[hop])
    requires ShowAll(rs, hop, s.connections[hop].config.serverPublicKey, obs) && OnlyStale(s.connections[hop], obs)
    requires |rs| >= 4
    ensures exists j: nat :: j < 4 && HandsOver(Ticks(s, rs, j), rs[j])
  {
    ShownIsAboutKey(rs, hop, s.connections[hop].config.serverPublicKey, obs);
    var j := StalenessDescends(s.connections[hop], obs, 4);
    HandOverVerdictEndsTicks(s, hop, rs, obs, j);
  }

  /** One silent, fresh, accepted sample from the n-th position of the ladder. */
  lemma LadderStep(c: ConnectionState, o: Observation, n: nat)
    requires n < 12 && o.status.pubkey == c.config.serverPublicKey && o.ok && Recent(o.status, o.now)
    requires o.status.txBytes > c.lastTxBytes && o.status.rxBytes <= c.lastRxBytes
    requires c.quickRecoveryAttempts == n / 3 && c.stalledSamples == n % 3
    ensures var (d, v) := Judge(c, o.status, o.now, o.ok);
            && v == (if n == 11 then OutOfAttempts else if n % 3 == 2 then Resent else Fine)
            && (n < 11 ==> d.quickRecoveryAttempts == (n+1) / 3 && d.stalledSamples == (n+1) % 3)
  {
  }

  /** The sample ahead of the n-th verdict is one the ladder counts. */
  lemma LadderSample(c: ConnectionState, obs: seq<Observation>, n: nat)
    requires n < |obs| && AboutKey(obs, c.config.serverPublicKey) && OnlySends(c, obs)
    ensures var d := JudgeAll(c, obs, n);
            && obs[n].status.pubkey == d.config.serverPublicKey
            && obs[n].status.txBytes > d.lastTxBytes && obs[n].status.rxBytes <= d.lastRxBytes
  {
    hide JudgeAll;
    ObservationsAreRemembered(c, obs, n);
  }

  /** One rung per silent sample. */
  lemma {:induction false} LadderCounts(c: ConnectionState, obs: seq<Observation>, n: nat)
    requires n < |obs| && n < 12 && AboutKey(obs, c.config.serverPublicKey) && OnlySends(c, obs)
    requires c.stalledSamples == 0 && c.quickRecoveryAttempts == 0
    requires forall j :: 0 <= j < |obs| ==> obs[j].ok && Recent(obs[j].status, obs[j].now)
    ensures JudgeAll(c, obs, n).quickRecoveryAttempts == n / 3 && JudgeAll(c, obs, n).stalledSamples == n % 3
  {
    hide Recent, Judge, OnlySends, AboutKey;
    if n > 0 {
      LadderCounts(c, obs, n-1);
      LadderSample(c, obs, n-1);
      LadderStep(JudgeAll(c, obs, n-1), obs[n-1], n-1);
    }
  }

  /**
   The bound is met exactly: with recent handshakes and accepted recoveries the
   ladder is climbed one sample at a time. The peer is sent again at the third,
   sixth and ninth silent sample, and the client is called at the twelfth.
   */
  lemma LadderIsClimbedExactly(c: ConnectionState, obs: seq<Observation>, n: nat)
    requires n < |obs| && n < 12 && AboutKey(obs, c.config.serverPublicKey) && OnlySends(c, obs)
    requires c.stalledSamples == 0 && c.quickRecoveryAttempts == 0
    requires forall j :: 0 <= j < |obs| ==> obs[j].ok && Recent(obs[j].status, obs[j].now)
    ensures JudgeAll(c, obs, n).quickRecoveryAttempts == n / 3 && JudgeAll(c, obs, n).stalledSamples == n % 3
    ensures JudgeNext(c, obs, n).1 == if n == 11 then OutOfAttempts else if n % 3 == 2 then Resent else Fine
  {
    hide Recent, Judge, JudgeAll, OnlySends, AboutKey;
    LadderCounts(c, obs, n);
    LadderSample(c, obs, n);
    LadderStep(JudgeAll(c, obs, n), obs[n], n);
  }

  // ---------------------------------------------------------------- no false alarm

  predicate Received(c: ConnectionState, obs: seq<Observation>, j: nat)
    requires j < |obs|
  {
    obs[j].status.rxBytes > RxBefore(c, obs, j)
  }

  /** Some sample among every three consecutive ones shows received bytes. */
  ghost predicate AnswersWithinThree(c: ConnectionState, obs: seq<Observation>) {
    forall j: nat :: j + 2 < |obs| ==> Received(c, obs, j) || Received(c, obs, j+1) || Received(c, obs, j+2)
  }

  predicate AlwaysFresh(obs: seq<Observation>) {
    forall j :: 0 <= j < |obs| ==> Recent(obs[j].status, obs[j].now)
  }

  /** The number of samples since something was last received. */
  function QuietSamples(c: ConnectionState, obs: seq<Observation>, n: nat): nat
    requires n <= |obs|
  {
    if n == 0 || Received(c, obs, n-1) then 0 else 1 + QuietSamples(c, obs, n-1)
  }

  lemma QuietAtMostTwo(c: ConnectionState, obs: seq<Observation>, n: nat)
    requires n <= |obs| && AnswersWithinThree(c, obs)
    ensures QuietSamples(c, obs, n) <= 2
  {
    if n >= 3 {
      var j := n - 3;
      assert Received(c, obs, j) || Received(c, obs, j+1) || Received(c, obs, j+2);
      assert QuietSamples(c, obs, j+1) == 0 || Received(c, obs, j+1) || Received(c, obs, j+2);
      assert QuietSamples(c, obs, j+2) <= 1 || Received(c, obs, j+2);
    } else if n == 2 {
      assert QuietSamples(c, obs, 1) <= 1;
    }
  }

  /** The stalled count never exceeds the quiet one, so every verdict is Fine. */
  lemma {:induction false} HealthyPeerIsFine(c: ConnectionState, obs: seq<Observation>, n: nat)
    requires n <= |obs| && AboutKey(obs, c.config.serverPublicKey) && c.stalledSamples == 0
    requires AlwaysFresh(obs) && AnswersWithinThree(c, obs)
    ensures 0 <= JudgeAll(c, obs, n).stalledSamples <= QuietSamples(c, obs, n)
    ensures n < |obs| ==> JudgeNext(c, obs, n).1.Fine?
  {
    if n > 0 {
      HealthyPeerIsFine(c, obs, n-1);
      ObservationsAreRemembered(c, obs, n-1);
    }
    ObservationsAreRemembered(c, obs, n);
    if n < |obs| {
      QuietAtMostTwo(c, obs, n+1);
    }
  }

  /** A hop is not touched before its turn. */
  lemma {:induction false} HopsLeaveLaterOnes(s: DaemonState, r: Reading, n: nat, hop: HopType)
    requires n <= HopIndex(hop) && hop in s.connections
    ensures LivenessHops(s, r.peers, r.now, r.updatePeer, n).0.connections[hop] == s.connections[hop]
  {
    hide LivenessPeers;
    if n > 0 {
      HopsLeaveLaterOnes(s, r, n-1, hop);
      var before := LivenessHops(s, r.peers, r.now, r.updatePeer, n-1).0;
      if HOPS[n-1] in before.connections {
        PeersLeaveOtherHops(before, HOPS[n-1], r.peers, r.now, r.updatePeer(HOPS[n-1]), |r.peers|, hop);
      }
    }
  }

  lemma FinePeers(s: DaemonState, r: Reading, hop: HopType)
    requires hop in s.connections && ShownFine(s, r, hop)
    ensures var (t, cut) := LivenessPeers(s, hop, r.peers, r.now, r.updatePeer(hop), |r.peers|);
            !cut && t.log == s.log && t.livenessTimer == s.livenessTimer
  {
    hide Judge, LivenessPeers;
    var i: nat :| ListedAt(r.peers, s.connections[hop].config.serverPublicKey, i)
               && Judge(s.connections[hop], r.peers[i], r.now, r.updatePeer(hop)(i)).1.Fine?;
    PeersActLikeTheListedOne(s, hop, r.peers, r.now, r.updatePeer(hop), |r.peers|, i);
    assert s.log + [] == s.log;
  }

  lemma ShownFineInTurn(s: DaemonState, r: Reading, n: nat)
    requires n < |HOPS| && HOPS[n] in s.connections && ShownFine(s, r, HOPS[n])
    ensures ShownFine(LivenessHops(s, r.peers, r.now, r.updatePeer, n).0, r, HOPS[n])
  {
    hide Judge, LivenessHops;
    assert HopIndex(HOPS[n]) == n;
    HopsLeaveLaterOnes(s, r, n, HOPS[n]);
  }

  /** A tick whose every verdict is Fine changes counters only. */
  lemma {:induction false} FineHops(s: DaemonState, r: Reading, n: nat)
    requires n <= |HOPS|
    requires forall hop :: hop in s.connections ==> ShownFine(s, r, hop)
    ensures var (t, cut) := LivenessHops(s, r.peers, r.now, r.updatePeer, n);
            !cut && t.log == s.log && t.livenessTimer == s.livenessTimer
  {
    hide ShownFine, LivenessPeers;
    if n > 0 {
      FineHops(s, r, n-1);
      if HOPS[n-1] in s.connections {
        ShownFineInTurn(s, r, n-1);
        FinePeers(LivenessHops(s, r.peers, r.now, r.updatePeer, n-1).0, r, HOPS[n-1]);
      }
    }
  }

  ghost predicate ShownFine(s: DaemonState, r: Reading, hop: HopType)
    requires hop in s.connections
  {
    exists i: nat :: ListedAt(r.peers, s.connections[hop].config.serverPublicKey, i)
                  && Judge(s.connections[hop], r.peers[i], r.now, r.updatePeer(hop)(i)).1.Fine?
  }

  /** Every live connection is shown fresh handshakes and an answer within every three samples. */
  ghost predicate Healthy(s: DaemonState, rs: seq<Reading>, obs: map<HopType, seq<Observation>>) {
    obs.Keys == s.connections.Keys &&
    forall hop :: hop in s.connections ==>
      && s.connections[hop].stalledSamples == 0
      && ShowAll(rs, hop, s.connections[hop].config.serverPublicKey, obs[hop])
      && AlwaysFresh(obs[hop]) && AnswersWithinThree(s.connections[hop], obs[hop])
  }

  lemma HealthyTickIsFine(s: DaemonState, rs: seq<Reading>, obs: map<HopType, seq<Observation>>, n: nat, hop: HopType)
    requires n < |rs| && Healthy(s, rs, obs) && NoHandOver(s, rs, n) && hop in s.connections
    ensures hop in Ticks(s, rs, n).connections && ShownFine(Ticks(s, rs, n), rs[n], hop)
  {
    var c := s.connections[hop];
    ShownIsAboutKey(rs, hop, c.config.serverPublicKey, obs[hop]);
    TicksFollowObservations(s, hop, rs, obs[hop], n);
    ObservationsAreRemembered(c, obs[hop], n);
    HealthyPeerIsFine(c, obs[hop], n);
    assert Shows(rs[n], hop, c.config.serverPublicKey, obs[hop][n]);
  }

  lemma FineTick(s: DaemonState, r: Reading)
    requires forall hop :: hop in s.connections ==> ShownFine(s, r, hop)
    ensures !HandsOver(s, r)
    ensures CheckLiveness(s, r).log == s.log && CheckLiveness(s, r).connections.Keys == s.connections.Keys
    ensures s.connections != map[] && r.interfaceExists ==> CheckLiveness(s, r).livenessTimer == s.livenessTimer
  {
    FineHops(s, r, |HOPS|);
  }

  lemma HealthyMeansInterface(s: DaemonState, rs: seq<Reading>, obs: map<HopType, seq<Observation>>, j: nat)
    requires j < |rs| && Healthy(s, rs, obs) && s.connections != map[]
    ensures rs[j].interfaceExists
  {
    var hop :| hop in s.connections;
    assert Shows(rs[j], hop, s.connections[hop].config.serverPublicKey, obs[hop][j]);
  }

  /** The next tick of a healthy trace changes nothing but counters. */
  lemma HealthyTick(s: DaemonState, rs: seq<Reading>, obs: map<HopType, seq<Observation>>, n: nat)
    requires n < |rs| && Healthy(s, rs, obs) && NoHandOver(s, rs, n)
    requires Ticks(s, rs, n).connections.Keys == s.connections.Keys
    ensures !HandsOver(Ticks(s, rs, n), rs[n])
    ensures var t, u := Ticks(s, rs, n), CheckLiveness(Ticks(s, rs, n), rs[n]);
            && u.log == t.log && u.connections.Keys == s.connections.Keys
            && (s.connections != map[] ==> u.livenessTimer == t.livenessTimer)
  {
    var t := Ticks(s, rs, n);
    forall hop | hop in t.connections ensures ShownFine(t, rs[n], hop) {
      HealthyTickIsFine(s, rs, obs, n, hop);
    }
    FineTick(t, rs[n]);
    if s.connections != map[] { HealthyMeansInterface(s, rs, obs, n); }
  }

  /**
   No false alarm: on every trace with recent handshakes in which every three
   consecutive samples show something received, the watchdog logs no call and
   no signal at all, and keeps running.
   */
  lemma {:induction false} HealthyTunnelIsLeftAlone(s: DaemonState, rs: seq<Reading>, obs: map<HopType,
                                                    seq<Observation>>, n: nat)
    requires n <= |rs| && Healthy(s, rs, obs)
    ensures NoHandOver(s, rs, n)
    ensures Ticks(s, rs, n).log == s.log && Ticks(s, rs, n).connections.Keys == s.connections.Keys
    ensures s.connections != map[] ==> Ticks(s, rs, n).livenessTimer == s.livenessTimer
  {
    hide HandsOver, CheckLiveness, NoHandOver, Healthy;
    NoHandOverYet(s, rs);
    if n > 0 {
      HealthyTunnelIsLeftAlone(s, rs, obs, n-1);
      HealthyTick(s, rs, obs, n-1);
      NoHandOverExtends(s, rs, n-1);
    }
  }
}
