/**
 Conservation of the reference-counted exclusion routes over every run of the
 daemon (client/daemon/daemon.cpp:160-163, 238-258, 497-542, 564-609).
 */
module ExclusionLedger {
  import opened IpAddresses
  import opened Daemon

  // ---------------------------------------------------------------- what is counted

  /** How often a list of entries asks for the exclusion of a prefix. */
  function Occurrences(list: seq<AddressText>, k: IpAddress): nat {
    if list == [] then 0
    else Occurrences(list[..|list|-1], k) + (if AddKey(list[|list|-1]) == k then 1 else 0)
  }

  /** Two lists ask for the same exclusions, equally often. */
  ghost predicate EqualDemand(a: seq<AddressText>, b: seq<AddressText>) {
    forall k :: Occurrences(a, k) == Occurrences(b, k)
  }

  function HopOccurrences(s: DaemonState, hop: HopType, k: IpAddress): nat {
    if hop in s.connections then Occurrences(s.connections[hop].config.excludedAddresses, k) else 0
  }

  /** How often the live configurations together ask for the exclusion of a prefix. */
  function Live(s: DaemonState, k: IpAddress): nat {
    HopOccurrences(s, SingleHop, k) + HopOccurrences(s, MultiHopEntry, k) + HopOccurrences(s, MultiHopExit, k)
  }

  function Count(s: DaemonState, k: IpAddress): int {
    if k in s.excluded then s.excluded[k] else 0
  }

  /** The entries switchServer cannot take back: it looks them up under another key. */
  function NonHosts(list: seq<AddressText>): seq<AddressText> {
    if list == [] then []
    else NonHosts(list[..|list|-1]) + (if list[|list|-1].HostText? then [] else [list[|list|-1]])
  }

  predicate AllHosts(list: seq<AddressText>) { forall i :: 0 <= i < |list| ==> list[i].HostText? }

  // ---------------------------------------------------------------- the invariant

  /** The table lists exactly the installed routes, with positive counts. */
  ghost predicate Faithful(s: DaemonState) {
    && s.excluded.Keys == InstalledExclusions(s.log)
    && (forall k :: k in s.excluded ==> s.excluded[k] > 0)
    && NULL_KEY !in s.excluded
  }

  /** The counts are the live demand plus the entries in `orphans`. */
  ghost predicate Accounted(s: DaemonState, orphans: seq<AddressText>) {
    forall k :: Count(s, k) == Live(s, k) + Occurrences(orphans, k)
  }

  ghost predicate Balanced(s: DaemonState) {
    forall k :: Count(s, k) == Live(s, k)
  }

  // ---------------------------------------------------------------- runs in which the three calls succeed

  predicate DownSucceeds(env: DownEnv) { AllOk(env.delExclusion, |env.order|) }

  /** addExclusionRoute, deleteExclusionRoute and deletePeer succeed in this step. */
  predicate ExclusionCallsSucceed(s: DaemonState, step: Step) {
    match step
    case ActivateStep(config, env) =>
      && AllOk(env.up.addExclusion, |config.excludedAddresses|)
      && AllOk(env.switching.addExclusion, |config.excludedAddresses|)
      && (config.hopType in s.connections ==>
            AllOk(env.switching.delExclusion, |s.connections[config.hopType].config.excludedAddresses|))
      && env.switching.deletePeer
      && DownSucceeds(env.down)
    case DeactivateStep(_, env) => DownSucceeds(env)
    case _ => true
  }

  predicate ExclusionCallsAlwaysSucceed(steps: seq<Step>) {
    steps == [] ||
    (ExclusionCallsAlwaysSucceed(steps[..|steps|-1])
     && ExclusionCallsSucceed(Exec(steps[..|steps|-1]), steps[|steps|-1]))
  }

  // ---------------------------------------------------------------- entries counted but not live

  /** A bring-up that got as far as the exclusion routes and then failed leaves them behind. */
  function OrphansOfBringUp(orphans: seq<AddressText>, config: InterfaceConfig, env: UpEnv): seq<AddressText> {
    if InterfaceReady(env) && !PeerReady(config, env) then orphans + config.excludedAddresses else orphans
  }

  /** The entries that stay counted without a live configuration after one more step. */
  function OrphansAfter(orphans: seq<AddressText>, s: DaemonState, step: Step): seq<AddressText> {
    match step
    case ActivateStep(config, env) =>
      if config.hopType !in s.connections then OrphansOfBringUp(orphans, config, env.up)
      else if SupportsSwitching(s, config) then
        if !env.switching.updatePeer then orphans + config.excludedAddresses
        else orphans + NonHosts(s.connections[config.hopType].config.excludedAddresses)
      else if !env.down.run then orphans
      else if !env.down.deleteInterface then []
      else OrphansOfBringUp([], config, env.up)
    case DeactivateStep(_, env) => if s.connections != map[] && !env.run then orphans else []
    case _ => orphans
  }

  function Orphans(steps: seq<Step>): seq<AddressText> {
    if steps == [] then [] else OrphansAfter(Orphans(steps[..|steps|-1]), Exec(steps[..|steps|-1]), steps[|steps|-1])
  }

  // ---------------------------------------------------------------- occurrences

  lemma {:induction false} OccurrencesConcat(a: seq<AddressText>, b: seq<AddressText>, k: IpAddress)
    ensures Occurrences(a + b, k) == Occurrences(a, k) + Occurrences(b, k)
  {
    if b == [] {
      assert a + b == a;
    } else {
      assert (a + b)[..|a + b|-1] == a + b[..|b|-1];
      OccurrencesConcat(a, b[..|b|-1], k);
    }
  }

  lemma {:induction false} OccurrencesOfMember(list: seq<AddressText>, i: nat)
    requires i < |list|
    ensures Occurrences(list, AddKey(list[i])) > 0
  {
    if i < |list|-1 {
      OccurrencesOfMember(list[..|list|-1], i);
    }
  }

  lemma {:induction false} NoNonHosts(list: seq<AddressText>)
    ensures NonHosts(list) == [] <==> AllHosts(list)
  {
    if list != [] {
      var init := list[..|list|-1];
      NoNonHosts(init);
      assert list == init + [list[|list|-1]];
      assert AllHosts(list) <==> AllHosts(init) && list[|list|-1].HostText?;
    }
  }

  /** A list asks for nothing only if it is empty. */
  lemma {:induction false} NothingCountedMeansEmpty(list: seq<AddressText>)
    ensures list == [] <==> forall k :: Occurrences(list, k) == 0
  {
    if list != [] {
      OccurrencesOfMember(list, 0);
    }
  }

  // ---------------------------------------------------------------- single calls

  lemma InstalledAfter(log: seq<Event>, e: Event)
    ensures InstalledExclusions(log + [e]) ==
            if e.AddExclusionRoute? && e.ok then InstalledExclusions(log) + {e.prefix}
            else if e.DeleteExclusionRoute? && e.ok then InstalledExclusions(log) - {e.prefix}
            else InstalledExclusions(log)
  {
    assert (log + [e])[..|log|] == log;
  }

  lemma AddExclusionCounts(s: DaemonState, p: IpAddress, ok: bool)
    requires Faithful(s) && p != NULL_KEY && ok
    ensures Faithful(AddExclusion(s, p, ok))
    ensures forall k :: Count(AddExclusion(s, p, ok), k) == Count(s, k) + if k == p then 1 else 0
  {
    hide InstalledExclusions;
    var t := AddExclusion(s, p, ok);
    assert t.excluded.Keys == s.excluded.Keys + {p};
    if p !in s.excluded { InstalledAfter(s.log, AddExclusionRoute(p, ok)); }
  }

  lemma DelExclusionCounts(s: DaemonState, p: IpAddress, ok: bool)
    requires Faithful(s) && ok
    ensures Faithful(DelExclusion(s, p, ok))
    ensures forall k :: Count(DelExclusion(s, p, ok), k) == Count(s, k) - if k == p && Count(s, p) > 0 then 1 else 0
    ensures Count(s, NULL_KEY) == 0
  {
    hide InstalledExclusions;
    InstalledAfter(s.log, DeleteExclusionRoute(p, ok));
  }

  // ---------------------------------------------------------------- lists

  lemma {:induction false} AddExclusionsCounts(s: DaemonState, list: seq<AddressText>, ok: nat -> bool, n: nat)
    requires Faithful(s) && n <= |list| && AllOk(ok, n)
    ensures Faithful(AddExclusions(s, list, ok, n))
    ensures forall k :: Count(AddExclusions(s, list, ok, n), k) == Count(s, k) + Occurrences(list[..n], k)
  {
    hide AddExclusion, Faithful, Count, InstalledExclusions, AddKey;
    if n > 0 {
      AddExclusionsCounts(s, list, ok, n-1);
      KeysAgreeExactlyForHosts(list[n-1]);
      AddExclusionCounts(AddExclusions(s, list, ok, n-1), AddKey(list[n-1]), ok(n-1));
      assert list[..n][..n-1] == list[..n-1];
    }
  }

  lemma NonHostsGrows(list: seq<AddressText>)
    requires list != []
    ensures var init, t := list[..|list|-1], list[|list|-1];
            forall k :: Occurrences(NonHosts(list), k)
                     == Occurrences(NonHosts(init), k) + if !t.HostText? && AddKey(t) == k then 1 else 0
  {
    var init, t := list[..|list|-1], list[|list|-1];
    if t.HostText? {
      assert NonHosts(list) == NonHosts(init);
    } else {
      assert NonHosts(list)[..|NonHosts(list)|-1] == NonHosts(init);
    }
  }

  /** Removing a counted list takes back its plain hosts and leaves the other entries counted. */
  lemma {:induction false} DelExclusionsCounts(s: DaemonState, list: seq<AddressText>, ok: nat -> bool, n: nat)
    requires Faithful(s) && n <= |list| && AllOk(ok, n)
    requires forall k :: Occurrences(list, k) <= Count(s, k)
    ensures Faithful(DelExclusions(s, list, ok, n))
    ensures forall k :: Count(DelExclusions(s, list, ok, n), k)
                     == Count(s, k) - Occurrences(list[..n], k) + Occurrences(NonHosts(list[..n]), k)
  {
    hide DelExclusion, Faithful, Count, InstalledExclusions, NonHosts, AddKey, RemoveKey;
    if n > 0 {
      DelExclusionsCounts(s, list, ok, n-1);
      var before := DelExclusions(s, list, ok, n-1);
      var t := list[n-1];
      KeysAgreeExactlyForHosts(t);
      DelExclusionCounts(before, RemoveKey(t), ok(n-1));
      assert list[..n][..n-1] == list[..n-1];
      if t.HostText? {
        assert list == list[..n] + list[n..];
        OccurrencesConcat(list[..n], list[n..], AddKey(t));
        assert Count(before, AddKey(t)) > 0;
      }
      NonHostsGrows(list[..n]);
    } else {
      NoNonHosts(list[..n]);
    }
  }

  /** Two states with the same table and the same exclusion calls behind them. */
  ghost predicate SameTable(s: DaemonState, t: DaemonState) {
    s.excluded == t.excluded && InstalledExclusions(s.log) == InstalledExclusions(t.log)
  }

  lemma LoggedKeepsTable(s: DaemonState, e: Event)
    requires !e.AddExclusionRoute? && !e.DeleteExclusionRoute?
    ensures SameTable(s, s.Logged(e))
  {
    assert (s.log + [e])[..|s.log|] == s.log;
  }

  lemma {:induction false} UpdateRoutesKeepsTable(s: DaemonState, list: seq<IpAddress>, ok: nat -> bool, n: nat)
    requires n <= |list|
    ensures SameTable(s, UpdateRoutes(s, list, ok, n))
    ensures UpdateRoutes(s, list, ok, n).connections == s.connections
  {
    if n > 0 {
      UpdateRoutesKeepsTable(s, list, ok, n-1);
      LoggedKeepsTable(UpdateRoutes(s, list, ok, n-1), UpdateRoutePrefix(list[n-1], ok(n-1)));
    }
  }

  lemma {:induction false} DeleteRoutesKeepsTable(s: DaemonState, list: seq<IpAddress>, keep: seq<IpAddress>,
                                                  ok: nat -> bool, n: nat)
    requires n <= |list|
    ensures SameTable(s, DeleteRoutes(s, list, keep, ok, n))
    ensures DeleteRoutes(s, list, keep, ok, n).connections == s.connections
  {
    if n > 0 {
      DeleteRoutesKeepsTable(s, list, keep, ok, n-1);
      LoggedKeepsTable(DeleteRoutes(s, list, keep, ok, n-1), DeleteRoutePrefix(list[n-1], ok(n-1)));
    }
  }

  lemma {:induction false} AddExclusionsKeepsConnections(s: DaemonState, list: seq<AddressText>, ok: nat -> bool,
                                                         n: nat)
    requires n <= |list|
    ensures AddExclusions(s, list, ok, n).connections == s.connections
  {
    if n > 0 { AddExclusionsKeepsConnections(s, list, ok, n-1); }
  }

  lemma {:induction false} DelExclusionsKeepsConnections(s: DaemonState, list: seq<AddressText>, ok: nat -> bool,
                                                         n: nat)
    requires n <= |list|
    ensures DelExclusions(s, list, ok, n).connections == s.connections
  {
    if n > 0 { DelExclusionsKeepsConnections(s, list, ok, n-1); }
  }

  // ---------------------------------------------------------------- ticks

  /** The same table, and the same configuration behind every hop. */
  ghost predicate SameDemand(s: DaemonState, t: DaemonState) {
    && SameTable(s, t)
    && s.connections.Keys == t.connections.Keys
    && forall hop :: hop in s.connections ==> s.connections[hop].config == t.connections[hop].config
  }

  lemma SameDemandKeepsLedger(s: DaemonState, t: DaemonState, orphans: seq<AddressText>)
    requires SameDemand(s, t) && Faithful(s) && Accounted(s, orphans)
    ensures Faithful(t) && Accounted(t, orphans)
  {
    forall k ensures Count(t, k) == Live(t, k) + Occurrences(orphans, k) {
      assert Count(s, k) == Live(s, k) + Occurrences(orphans, k);
    }
  }

  lemma UpdatedKeepsDemand(s: DaemonState, hop: HopType, c: ConnectionState)
    requires hop in s.connections && c.config == s.connections[hop].config
    ensures SameDemand(s, s.(connections := s.connections[hop := c]))
  {
  }

  lemma SameDemandTransitive(s: DaemonState, t: DaemonState, u: DaemonState)
    requires SameDemand(s, t) && SameDemand(t, u)
    ensures SameDemand(s, u)
  {
    hide InstalledExclusions;
  }

  lemma HandshakePeerKeepsDemand(s: DaemonState, hop: HopType, status: PeerStatus)
    requires hop in s.connections
    ensures SameDemand(s, HandshakePeer(s, hop, status))
  {
    hide InstalledExclusions;
    LoggedKeepsTable(s, Connected(hop, status.pubkey));
  }

  lemma {:induction false} HandshakePeersKeepDemand(s: DaemonState, hop: HopType, peers: seq<PeerStatus>, n: nat)
    requires n <= |peers| && hop in s.connections
    ensures SameDemand(s, HandshakePeers(s, hop, peers, n))
  {
    hide HandshakePeer;
    if n > 0 {
      HandshakePeersKeepDemand(s, hop, peers, n-1);
      HandshakePeerKeepsDemand(HandshakePeers(s, hop, peers, n-1), hop, peers[n-1]);
      SameDemandTransitive(s, HandshakePeers(s, hop, peers, n-1), HandshakePeers(s, hop, peers, n));
    }
  }

  lemma {:induction false} HandshakeHopsKeepDemand(s: DaemonState, peers: seq<PeerStatus>, n: nat)
    requires n <= |HOPS|
    ensures SameDemand(s, HandshakeHops(s, peers, n))
  {
    hide HandshakePeers, InstalledExclusions;
    if n > 0 {
      HandshakeHopsKeepDemand(s, peers, n-1);
      var before := HandshakeHops(s, peers, n-1);
      if HOPS[n-1] in before.connections {
        HandshakePeersKeepDemand(before, HOPS[n-1], peers, |peers|);
      }
      SameDemandTransitive(s, before, HandshakeHops(s, peers, n));
    }
  }

  lemma HandshakeKeepsDemand(s: DaemonState, peers: seq<PeerStatus>)
    ensures SameDemand(s, CheckHandshake(s, peers))
  {
    hide HandshakeHops, InstalledExclusions;
    var s0 := s.(handshakeTimer := false);
    HandshakeHopsKeepDemand(s0, peers, |HOPS|);
    LoggedKeepsTable(HandshakeHops(s0, peers, |HOPS|), WatchStarted);
  }

  lemma VerdictKeepsInstalled(log: seq<Event>, pubkey: string, v: Verdict)
    ensures InstalledExclusions(log + VerdictEvents(pubkey, v)) == InstalledExclusions(log)
  {
    match v
    case Fine => assert log + [] == log;
    case Resent => assert (log + [UpdatePeer(pubkey, true)])[..|log|] == log;
    case ResendFailed =>
      var resent := log + [UpdatePeer(pubkey, false)];
      assert resent[..|log|] == log;
      assert log + [UpdatePeer(pubkey, false), HandedOver] == resent + [HandedOver];
      assert (resent + [HandedOver])[..|resent|] == resent;
    case OutOfAttempts => assert (log + [HandedOver])[..|log|] == log;
  }

  lemma LivenessPeerKeepsDemand(s: DaemonState, hop: HopType, status: PeerStatus, now: int, ok: bool)
    requires hop in s.connections
    ensures SameDemand(s, LivenessPeer(s, hop, status, now, ok).0)
  {
    var (c, v) := Judge(s.connections[hop], status, now, ok);
    UpdatedKeepsDemand(s, hop, c);
    VerdictKeepsInstalled(s.log, c.config.serverPublicKey, v);
  }

  lemma {:induction false} LivenessPeersKeepDemand(s: DaemonState, hop: HopType, peers: seq<PeerStatus>, now: int,
                                                   ok: nat -> bool, n: nat)
    requires n <= |peers| && hop in s.connections
    ensures SameDemand(s, LivenessPeers(s, hop, peers, now, ok, n).0)
  {
    hide LivenessPeer, InstalledExclusions;
    if n > 0 {
      LivenessPeersKeepDemand(s, hop, peers, now, ok, n-1);
      var (before, cut) := LivenessPeers(s, hop, peers, now, ok, n-1);
      if !cut {
        LivenessPeerKeepsDemand(before, hop, peers[n-1], now, ok(n-1));
        SameDemandTransitive(s, before, LivenessPeers(s, hop, peers, now, ok, n).0);
      }
    }
  }

  lemma {:induction false} LivenessHopsKeepDemand(s: DaemonState, r: Reading, n: nat)
    requires n <= |HOPS|
    ensures SameDemand(s, LivenessHops(s, r.peers, r.now, r.updatePeer, n).0)
  {
    hide LivenessPeers, InstalledExclusions;
    if n > 0 {
      LivenessHopsKeepDemand(s, r, n-1);
      var before := LivenessHops(s, r.peers, r.now, r.updatePeer, n-1).0;
      if HOPS[n-1] in before.connections {
        LivenessPeersKeepDemand(before, HOPS[n-1], r.peers, r.now, r.updatePeer(HOPS[n-1]), |r.peers|);
      }
      SameDemandTransitive(s, before, LivenessHops(s, r.peers, r.now, r.updatePeer, n).0);
    }
  }

  // ---------------------------------------------------------------- deactivation

  lemma {:induction false} DropHopsKeepsTable(s: DaemonState, env: DownEnv, n: nat)
    requires n <= |HOPS|
    ensures SameTable(s, DropHops(s, env, n))
  {
    if n > 0 {
      DropHopsKeepsTable(s, env, n-1);
      var before := DropHops(s, env, n-1);
      if HOPS[n-1] in s.connections {
        var config := s.connections[HOPS[n-1]].config;
        var list := config.allowedIPAddressRanges;
        DeleteRoutesKeepsTable(before, list, [], env.delRoute(HOPS[n-1]), |list|);
        LoggedKeepsTable(DeleteRoutes(before, list, [], env.delRoute(HOPS[n-1]), |list|),
                         DeletePeer(config.serverPublicKey, env.deletePeer(HOPS[n-1])));
      }
    }
  }

  lemma {:induction false} DropExclusionsUninstalls(s: DaemonState, order: seq<IpAddress>, ok: nat -> bool, n: nat)
    requires n <= |order| && AllOk(ok, n)
    ensures InstalledExclusions(DropExclusions(s, order, ok, n).log)
         == InstalledExclusions(s.log) - set p | p in order[..n]
  {
    hide InstalledExclusions;
    if n > 0 {
      DropExclusionsUninstalls(s, order, ok, n-1);
      InstalledAfter(DropExclusions(s, order, ok, n-1).log, DeleteExclusionRoute(order[n-1], ok(n-1)));
      assert order[..n] == order[..n-1] + [order[n-1]];
    }
  }

  lemma AskedKeepsTable(s: DaemonState, env: DownEnv)
    ensures SameTable(s, AskDown(s, env)) && AskDown(s, env).connections == s.connections
  {
    LoggedKeepsTable(s, TakenDown(env.run));
  }

  /**
   A deactivation that gets past the platform hook leaves nothing behind: no
   connection, no counted prefix, and no exclusion route in the kernel.
   */
  lemma DeactivateEmptiesEverything(s: DaemonState, emitSignals: bool, env: DownEnv)
    requires Faithful(s) && IsOrderOf(env.order, s.excluded.Keys) && DownSucceeds(env)
    requires s.connections == map[] || env.run
    ensures var t := Deactivate(s, emitSignals, env).0;
            t.connections == map[] && t.excluded == map[] && InstalledExclusions(t.log) == {}
  {
    hide InstalledExclusions, DropHops, DropExclusions;
    AskedKeepsTable(s, env);
    var asked := AskDown(s, env);
    var announced := if emitSignals then asked.Logged(Disconnected) else asked;
    LoggedKeepsTable(asked, Disconnected);
    DropHopsKeepsTable(announced, env, |HOPS|);
    var dropped := DropHops(announced, env, |HOPS|);
    DropExclusionsUninstalls(dropped, env.order, env.delExclusion, |env.order|);
    assert env.order[..|env.order|] == env.order;
    var cleared := DropExclusions(dropped, env.order, env.delExclusion, |env.order|)
                   .(excluded := map[], connections := map[]);
    LoggedKeepsTable(cleared, DeleteInterface(env.deleteInterface));
  }

  // ---------------------------------------------------------------- installing

  lemma InstallLive(s: DaemonState, config: InterfaceConfig, k: IpAddress)
    ensures Live(s.Install(config), k)
         == Live(s, k) - HopOccurrences(s, config.hopType, k) + Occurrences(config.excludedAddresses, k)
  {
    match config.hopType
    case SingleHop =>
    case MultiHopEntry =>
    case MultiHopExit =>
  }

  lemma HopWithinLive(s: DaemonState, hop: HopType, k: IpAddress)
    ensures HopOccurrences(s, hop, k) <= Live(s, k)
  {
    match hop
    case SingleHop =>
    case MultiHopEntry =>
    case MultiHopExit =>
  }

  lemma {:induction false} AddExclusionsKeepsSameTable(s: DaemonState, t: DaemonState, list: seq<AddressText>,
                                                       ok: nat -> bool, n: nat)
    requires n <= |list| && SameTable(s, t)
    ensures SameTable(AddExclusions(s, list, ok, n), AddExclusions(t, list, ok, n))
  {
    hide AddExclusion, SameTable, AddKey;
    if n > 0 {
      AddExclusionsKeepsSameTable(s, t, list, ok, n-1);
      AddExclusionKeepsSameTable(AddExclusions(s, list, ok, n-1), AddExclusions(t, list, ok, n-1),
                                 AddKey(list[n-1]), ok(n-1));
    }
  }

  lemma AddExclusionKeepsSameTable(s: DaemonState, t: DaemonState, p: IpAddress, ok: bool)
    requires SameTable(s, t)
    ensures SameTable(AddExclusion(s, p, ok), AddExclusion(t, p, ok))
  {
    hide InstalledExclusions;
    InstalledAfter(s.log, AddExclusionRoute(p, ok));
    InstalledAfter(t.log, AddExclusionRoute(p, ok));
  }

  lemma RaisedKeepsTable(s: DaemonState, config: InterfaceConfig, env: UpEnv)
    ensures SameTable(s, RaiseInterface(s, config, env)) && RaiseInterface(s, config, env).connections == s.connections
  {
    LoggedKeepsTable(s, Prepared(config));
    LoggedKeepsTable(s.Logged(Prepared(config)), AddInterface(config.privateKey, env.addInterface));
  }

  /** A bring-up that does not get an interface changes neither the table nor the configurations. */
  lemma UnreadyBringUp(s: DaemonState, config: InterfaceConfig, env: UpEnv)
    requires !InterfaceReady(env)
    ensures SameDemand(s, BringUp(s, config, env).0)
  {
    hide InstalledExclusions, RaiseInterface;
    RaisedKeepsTable(s, config, env);
    LoggedKeepsTable(RaiseInterface(s, config, env), ActivationFailure);
  }

  /** After adding the exclusion routes a bring-up touches neither the table nor other hops. */
  lemma BringUpAfterExclusions(s: DaemonState, config: InterfaceConfig, env: UpEnv)
    requires InterfaceReady(env)
    ensures var added := AddExclusions(s, config.excludedAddresses, env.addExclusion, |config.excludedAddresses|);
            SameTable(added, BringUp(s, config, env).0)
    ensures BringUp(s, config, env).0.connections
         == if PeerReady(config, env) then s.connections[config.hopType := FreshConnection(config)] else s.connections
  {
    hide InstalledExclusions, RaiseInterface, AddExclusions, ConnectPeer;
    var list, raised := config.excludedAddresses, RaiseInterface(s, config, env);
    RaisedKeepsTable(s, config, env);
    AddExclusionsKeepsSameTable(s, raised, list, env.addExclusion, |list|);
    ConnectAfterExclusions(raised, config, env);
  }

  lemma ConnectAfterExclusions(s: DaemonState, config: InterfaceConfig, env: UpEnv)
    ensures var added := AddExclusions(s, config.excludedAddresses, env.addExclusion, |config.excludedAddresses|);
            SameTable(added, ConnectPeer(s, config, env).0)
    ensures ConnectPeer(s, config, env).0.connections
         == if PeerReady(config, env) then s.connections[config.hopType := FreshConnection(config)] else s.connections
  {
    hide InstalledExclusions, AddExclusions, UpdateRoutes;
    var list := config.excludedAddresses;
    var added := AddExclusions(s, list, env.addExclusion, |list|);
    AddExclusionsKeepsConnections(s, list, env.addExclusion, |list|);
    var peered := added.Logged(UpdatePeer(config.serverPublicKey, env.updatePeer));
    LoggedKeepsTable(added, UpdatePeer(config.serverPublicKey, env.updatePeer));
    LoggedKeepsTable(peered, ActivationFailure);
    var n := |config.allowedIPAddressRanges|;
    var routed := UpdateRoutes(peered, config.allowedIPAddressRanges, env.updateRoute, n);
    UpdateRoutesKeepsTable(peered, config.allowedIPAddressRanges, env.updateRoute, n);
    LoggedKeepsTable(routed, ActivationFailure);
    LoggedKeepsTable(routed, Installed(config.hopType));
    LoggedKeepsTable(routed.Install(config), WatchStarted);
  }

  lemma BringUpLedger(s: DaemonState, orphans: seq<AddressText>, config: InterfaceConfig, env: UpEnv)
    requires Faithful(s) && Accounted(s, orphans)
    requires config.hopType !in s.connections && AllOk(env.addExclusion, |config.excludedAddresses|)
    ensures Faithful(BringUp(s, config, env).0)
    ensures Accounted(BringUp(s, config, env).0, OrphansOfBringUp(orphans, config, env))
  {
    if InterfaceReady(env) {
      ReadyBringUpLedger(s, orphans, config, env);
    } else {
      UnreadyBringUp(s, config, env);
      SameDemandKeepsLedger(s, BringUp(s, config, env).0, orphans);
    }
  }

  lemma ReadyBringUpLedger(s: DaemonState, orphans: seq<AddressText>, config: InterfaceConfig, env: UpEnv)
    requires Faithful(s) && Accounted(s, orphans) && InterfaceReady(env)
    requires config.hopType !in s.connections && AllOk(env.addExclusion, |config.excludedAddresses|)
    ensures Faithful(BringUp(s, config, env).0)
    ensures Accounted(BringUp(s, config, env).0, OrphansOfBringUp(orphans, config, env))
  {
    hide BringUp, AddExclusions, Occurrences, InstalledExclusions, InterfaceReady, PeerReady;
    var t := BringUp(s, config, env).0;
    var list := config.excludedAddresses;
    AddExclusionsCounts(s, list, env.addExclusion, |list|);
    assert list[..|list|] == list;
    BringUpAfterExclusions(s, config, env);
    var added := AddExclusions(s, list, env.addExclusion, |list|);
    forall k ensures Count(t, k) == Live(t, k) + Occurrences(OrphansOfBringUp(orphans, config, env), k) {
      assert Count(t, k) == Count(added, k) && Count(s, k) == Live(s, k) + Occurrences(orphans, k);
      assert Live(t, k) == if PeerReady(config, env) then Live(s.Install(config), k) else Live(s, k);
      InstallLive(s, config, k);
      OccurrencesConcat(orphans, list, k);
    }
  }

  // ---------------------------------------------------------------- switching

  /** Making the switch changes the table only by adding the new exclusions. */
  lemma SwitchMakeTable(s: DaemonState, config: InterfaceConfig, env: SwitchEnv)
    ensures SameTable(AddExclusions(s, config.excludedAddresses, env.addExclusion, |config.excludedAddresses|),
                      SwitchMake(s, config, env))
    ensures SwitchMake(s, config, env).connections == s.connections
  {
    hide InstalledExclusions, AddExclusions, UpdateRoutes;
    var list, ranges := config.excludedAddresses, config.allowedIPAddressRanges;
    var added := AddExclusions(s, list, env.addExclusion, |list|);
    AddExclusionsKeepsConnections(s, list, env.addExclusion, |list|);
    LoggedKeepsTable(added, UpdatePeer(config.serverPublicKey, env.updatePeer));
    UpdateRoutesKeepsTable(added.Logged(UpdatePeer(config.serverPublicKey, env.updatePeer)), ranges, env.updateRoute,
                           |ranges|);
  }

  /** Breaking with the old configuration changes it only by removing the old ones. */
  lemma SwitchBreakTable(s: DaemonState, last: InterfaceConfig, config: InterfaceConfig, env: SwitchEnv)
    ensures SameTable(DelExclusions(s, last.excludedAddresses, env.delExclusion, |last.excludedAddresses|),
                      SwitchBreak(s, last, config, env))
    ensures SwitchBreak(s, last, config, env).connections == s.connections
  {
    hide InstalledExclusions, DelExclusions, DeleteRoutes;
    var list, ranges := last.excludedAddresses, last.allowedIPAddressRanges;
    DelExclusionsKeepsConnections(s, list, env.delExclusion, |list|);
    DeleteRoutesKeepsTable(DelExclusions(s, list, env.delExclusion, |list|), ranges, config.allowedIPAddressRanges,
                           env.delRoute, |ranges|);
  }

  lemma SwitchMakeCounts(s: DaemonState, config: InterfaceConfig, env: SwitchEnv)
    requires Faithful(s) && AllOk(env.addExclusion, |config.excludedAddresses|)
    ensures Faithful(SwitchMake(s, config, env))
    ensures forall k :: Count(SwitchMake(s, config, env), k) == Count(s, k) + Occurrences(config.excludedAddresses, k)
    ensures SwitchMake(s, config, env).connections == s.connections
  {
    hide SwitchMake, AddExclusions, InstalledExclusions, Occurrences;
    var list := config.excludedAddresses;
    AddExclusionsCounts(s, list, env.addExclusion, |list|);
    assert list[..|list|] == list;
    SwitchMakeTable(s, config, env);
    var added, made := AddExclusions(s, list, env.addExclusion, |list|), SwitchMake(s, config, env);
    assert forall k :: Count(made, k) == Count(added, k);
  }

  lemma SwitchBreakCounts(s: DaemonState, last: InterfaceConfig, config: InterfaceConfig, env: SwitchEnv)
    requires Faithful(s) && AllOk(env.delExclusion, |last.excludedAddresses|)
    requires forall k :: Occurrences(last.excludedAddresses, k) <= Count(s, k)
    ensures Faithful(SwitchBreak(s, last, config, env))
    ensures forall k :: Count(SwitchBreak(s, last, config, env), k)
                     == Count(s, k) - Occurrences(last.excludedAddresses, k)
                        + Occurrences(NonHosts(last.excludedAddresses), k)
    ensures SwitchBreak(s, last, config, env).connections == s.connections
  {
    hide SwitchBreak, DelExclusions, InstalledExclusions, Occurrences;
    var list := last.excludedAddresses;
    DelExclusionsCounts(s, list, env.delExclusion, |list|);
    assert list[..|list|] == list;
    SwitchBreakTable(s, last, config, env);
    var removed, broken := DelExclusions(s, list, env.delExclusion, |list|), SwitchBreak(s, last, config, env);
    assert forall k :: Count(broken, k) == Count(removed, k);
  }

  /** The tail of a switch: deleting the old peer and installing the new connection. */
  lemma SwitchTail(s: DaemonState, config: InterfaceConfig, env: SwitchEnv)
    requires config.hopType in s.connections && env.updatePeer
    ensures var last := s.connections[config.hopType].config;
            var broken := SwitchBreak(SwitchMake(s, config, env), last, config, env);
            var (t, ok) := SwitchServer(s, config, env);
            && SameTable(broken, t)
            && t.connections == (if ok then s.connections[config.hopType := FreshConnection(config)] else s.connections)
            && ok == SwitchInstalls(s, config, env)
  {
    hide InstalledExclusions, SwitchMake, SwitchBreak;
    var last := s.connections[config.hopType].config;
    var broken := SwitchBreak(SwitchMake(s, config, env), last, config, env);
    var unpeered := broken.Logged(DeletePeer(last.serverPublicKey, env.deletePeer));
    LoggedKeepsTable(broken, DeletePeer(last.serverPublicKey, env.deletePeer));
    LoggedKeepsTable(broken, Installed(config.hopType));
    LoggedKeepsTable(unpeered, Installed(config.hopType));
    SwitchMakeTable(s, config, env);
    SwitchBreakTable(SwitchMake(s, config, env), last, config, env);
  }

  /** Whether a switch puts the new connection into the map, and that it changes nothing else there. */
  lemma SwitchConnections(s: DaemonState, config: InterfaceConfig, env: SwitchEnv)
    requires config.hopType in s.connections
    ensures var (t, ok) := SwitchServer(s, config, env);
            && ok == SwitchInstalls(s, config, env)
            && t.connections == if ok then s.connections[config.hopType := FreshConnection(config)] else s.connections
  {
    if env.updatePeer { SwitchTail(s, config, env); } else { SwitchMakeTable(s, config, env); }
  }

  /** The counts after a switch whose peer update succeeded, wherever it stopped. */
  lemma SwitchCounts(s: DaemonState, config: InterfaceConfig, env: SwitchEnv)
    requires config.hopType in s.connections && Faithful(s) && env.updatePeer
    requires AllOk(env.addExclusion, |config.excludedAddresses|)
    requires AllOk(env.delExclusion, |s.connections[config.hopType].config.excludedAddresses|)
    requires forall k :: Live(s, k) <= Count(s, k)
    ensures var olds := s.connections[config.hopType].config.excludedAddresses;
            var t := SwitchServer(s, config, env).0;
            && Faithful(t)
            && forall k :: Count(t, k) == Count(s, k) + Occurrences(config.excludedAddresses, k)
                                        - Occurrences(olds, k) + Occurrences(NonHosts(olds), k)
    ensures var (t, ok) := SwitchServer(s, config, env);
            t.connections == if ok then s.connections[config.hopType := FreshConnection(config)] else s.connections
  {
    var last := s.connections[config.hopType].config;
    var made := SwitchMake(s, config, env);
    SwitchMakeCounts(s, config, env);
    forall k ensures Occurrences(last.excludedAddresses, k) <= Count(made, k) {
      assert Live(s, k) <= Count(s, k);
      HopWithinLive(s, config.hopType, k);
    }
    SwitchBreakCounts(made, last, config, env);
    SwitchTail(s, config, env);
    var broken := SwitchBreak(made, last, config, env);
    var t := SwitchServer(s, config, env).0;
    forall k ensures Count(t, k) == Count(s, k) + Occurrences(config.excludedAddresses, k)
                                  - Occurrences(last.excludedAddresses, k)
                                  + Occurrences(NonHosts(last.excludedAddresses), k)
    {
      assert Count(t, k) == Count(broken, k);
    }
  }

  /** What activate does after switchServer changes neither the table nor the configurations. */
  lemma ActivateAfterSwitch(s: DaemonState, config: InterfaceConfig, env: ActivateEnv)
    requires config.hopType in s.connections
    ensures SameTable(SwitchServer(s, config, env.switching).0, ActivateBySwitch(s, config, env).0)
    ensures var (t, ok) := SwitchServer(s, config, env.switching);
            var u := ActivateBySwitch(s, config, env).0;
            u.connections == t.connections
            || (ok && u.connections == t.connections[config.hopType := FreshConnection(config)])
  {
    var t := SwitchServer(s, config, env.switching).0;
    LoggedKeepsTable(t, ActivationFailure);
    LoggedKeepsTable(t, Installed(config.hopType));
    LoggedKeepsTable(t.Install(config), WatchStarted);
  }

  lemma CompletedSwitchLedger(s: DaemonState, orphans: seq<AddressText>, config: InterfaceConfig, env: ActivateEnv)
    requires Faithful(s) && Accounted(s, orphans) && SupportsSwitching(s, config)
    requires ExclusionCallsSucceed(s, ActivateStep(config, env)) && env.switching.updatePeer
    ensures Faithful(ActivateBySwitch(s, config, env).0)
    ensures Accounted(ActivateBySwitch(s, config, env).0,
                      orphans + NonHosts(s.connections[config.hopType].config.excludedAddresses))
  {
    hide SwitchServer, ActivateBySwitch, Occurrences, InstalledExclusions;
    var u := ActivateBySwitch(s, config, env).0;
    var (t, ok) := SwitchServer(s, config, env.switching);
    var olds := s.connections[config.hopType].config.excludedAddresses;
    forall k ensures Live(s, k) <= Count(s, k) { assert Count(s, k) == Live(s, k) + Occurrences(orphans, k); }
    SwitchCounts(s, config, env.switching);
    SwitchTail(s, config, env.switching);
    ActivateAfterSwitch(s, config, env);
    assert u.connections == s.Install(config).connections;
    forall k ensures Count(u, k) == Live(u, k) + Occurrences(orphans + NonHosts(olds), k) {
      assert Count(u, k) == Count(t, k) && Count(s, k) == Live(s, k) + Occurrences(orphans, k);
      assert Live(u, k) == Live(s.Install(config), k);
      InstallLive(s, config, k);
      OccurrencesConcat(orphans, NonHosts(olds), k);
    }
  }

  lemma AbortedSwitchLedger(s: DaemonState, orphans: seq<AddressText>, config: InterfaceConfig, env: ActivateEnv)
    requires Faithful(s) && Accounted(s, orphans) && SupportsSwitching(s, config)
    requires ExclusionCallsSucceed(s, ActivateStep(config, env)) && !env.switching.updatePeer
    ensures Faithful(ActivateBySwitch(s, config, env).0)
    ensures Accounted(ActivateBySwitch(s, config, env).0, orphans + config.excludedAddresses)
  {
    hide Occurrences, InstalledExclusions;
    var u := ActivateBySwitch(s, config, env).0;
    var made := SwitchMake(s, config, env.switching);
    ActivateAfterSwitch(s, config, env);
    SwitchMakeCounts(s, config, env.switching);
    forall k ensures Count(u, k) == Live(u, k) + Occurrences(orphans + config.excludedAddresses, k) {
      assert Count(u, k) == Count(made, k) && Count(s, k) == Live(s, k) + Occurrences(orphans, k);
      OccurrencesConcat(orphans, config.excludedAddresses, k);
    }
  }

  // ---------------------------------------------------------------- whole runs

  lemma EmptyLedger(s: DaemonState)
    requires s.connections == map[] && s.excluded == map[] && InstalledExclusions(s.log) == {}
    ensures Faithful(s) && Accounted(s, [])
  {
  }

  lemma DeactivateLedger(s: DaemonState, orphans: seq<AddressText>, emitSignals: bool, env: DownEnv)
    requires Faithful(s) && Accounted(s, orphans) && IsOrderOf(env.order, s.excluded.Keys) && DownSucceeds(env)
    ensures var t := Deactivate(s, emitSignals, env).0;
            Faithful(t) && Accounted(t, if s.connections != map[] && !env.run then orphans else [])
  {
    if s.connections != map[] && !env.run {
      SameDemandKeepsLedger(s, Deactivate(s, emitSignals, env).0, orphans);
    } else {
      DeactivateEmptiesEverything(s, emitSignals, env);
      EmptyLedger(Deactivate(s, emitSignals, env).0);
    }
  }

  lemma RebuildLedger(s: DaemonState, orphans: seq<AddressText>, config: InterfaceConfig, env: ActivateEnv)
    requires Faithful(s) && Accounted(s, orphans) && IsOrderOf(env.down.order, s.excluded.Keys)
    requires config.hopType in s.connections && !SupportsSwitching(s, config)
    requires ExclusionCallsSucceed(s, ActivateStep(config, env))
    ensures Faithful(Activate(s, config, env).0)
    ensures Accounted(Activate(s, config, env).0, OrphansAfter(orphans, s, ActivateStep(config, env)))
  {
    var t := Activate(s, config, env).0;
    var after := OrphansAfter(orphans, s, ActivateStep(config, env));
    DeactivateLedger(s, orphans, false, env.down);
    var (down, ok) := Deactivate(s, false, env.down);
    if !ok {
      LoggedKeepsTable(down, ActivationFailure);
      SameDemandKeepsLedger(down, t, after);
    } else {
      DeactivateEmptiesEverything(s, false, env.down);
      BringUpLedger(down, [], config, env.up);
      var up := BringUp(down, config, env.up).0;
      LoggedKeepsTable(up, ActivationFailure);
      SameDemandKeepsLedger(up, t, after);
    }
  }

  lemma StepKeepsLedger(s: DaemonState, orphans: seq<AddressText>, step: Step)
    requires Enabled(s, step) && ExclusionCallsSucceed(s, step)
    requires Faithful(s) && Accounted(s, orphans)
    ensures Faithful(Next(s, step)) && Accounted(Next(s, step), OrphansAfter(orphans, s, step))
  {
    match step
    case ActivateStep(config, env) =>
      if config.hopType !in s.connections {
        BringUpLedger(s, orphans, config, env.up);
      } else if SupportsSwitching(s, config) {
        if env.switching.updatePeer {
          CompletedSwitchLedger(s, orphans, config, env);
        } else {
          AbortedSwitchLedger(s, orphans, config, env);
        }
      } else {
        RebuildLedger(s, orphans, config, env);
      }
    case DeactivateStep(emitSignals, env) =>
      DeactivateLedger(s, orphans, emitSignals, env);
    case HandshakeStep(peers) =>
      HandshakeKeepsDemand(s, peers);
      SameDemandKeepsLedger(s, Next(s, step), orphans);
    case LivenessStep(r) =>
      LivenessHopsKeepDemand(s, r, |HOPS|);
      SameDemandKeepsLedger(s, Next(s, step), orphans);
  }

  /**
   Conservation. After every run in which the exclusion calls succeed, the
   table lists exactly the routes in the kernel, and every count is the number
   of times the live configurations list the prefix plus the entries orphaned
   since the last deactivation.
   */
  lemma {:induction false} RunsConserveExclusions(steps: seq<Step>)
    requires Legal(steps) && ExclusionCallsAlwaysSucceed(steps)
    ensures Faithful(Exec(steps)) && Accounted(Exec(steps), Orphans(steps))
  {
    if steps == [] {
      EmptyLedger(INITIAL);
    } else {
      RunsConserveExclusions(steps[..|steps|-1]);
      StepKeepsLedger(Exec(steps[..|steps|-1]), Orphans(steps[..|steps|-1]), steps[|steps|-1]);
    }
  }

  /** Backend failures elsewhere can only over-count, and the counts are exact just when nothing is orphaned. */
  lemma CountsAreExactWithoutOrphans(steps: seq<Step>)
    requires Legal(steps) && ExclusionCallsAlwaysSucceed(steps)
    ensures forall k :: Live(Exec(steps), k) <= Count(Exec(steps), k)
    ensures Balanced(Exec(steps)) <==> Orphans(steps) == []
  {
    RunsConserveExclusions(steps);
    NothingCountedMeansEmpty(Orphans(steps));
    var s := Exec(steps);
    forall k ensures Live(s, k) <= Count(s, k) {
      assert Count(s, k) == Live(s, k) + Occurrences(Orphans(steps), k);
    }
    if Balanced(s) {
      forall k ensures Occurrences(Orphans(steps), k) == 0 {
        assert Count(s, k) == Live(s, k) + Occurrences(Orphans(steps), k);
      }
    }
  }

  /**
   A completed switch keeps an exact table exact if and only if the replaced
   configuration excluded plain hosts only: a subnet is added under one key and
   removed under another.
   */
  lemma SwitchKeepsBalanceExactlyForHosts(s: DaemonState, config: InterfaceConfig, env: ActivateEnv)
    requires Faithful(s) && Balanced(s) && SupportsSwitching(s, config)
    requires ExclusionCallsSucceed(s, ActivateStep(config, env)) && env.switching.updatePeer
    ensures Balanced(Activate(s, config, env).0)
       <==> AllHosts(s.connections[config.hopType].config.excludedAddresses)
  {
    var olds := s.connections[config.hopType].config.excludedAddresses;
    var t := Activate(s, config, env).0;
    assert Accounted(s, []);
    CompletedSwitchLedger(s, [], config, env);
    NoNonHosts(olds);
    NothingCountedMeansEmpty(NonHosts(olds));
    assert [] + NonHosts(olds) == NonHosts(olds);
    forall k ensures Count(t, k) == Live(t, k) + Occurrences(NonHosts(olds), k) {}
  }

  /**
   When the old peer cannot be deleted the map keeps the old configuration
   while the table already counts the new one. The table then still matches the
   map if and only if the new configuration asks for the same exclusions as the
   plain hosts of the old one.
   */
  lemma FailedDeletePeerKeepsBalanceExactlyForEqualDemand(s: DaemonState, config: InterfaceConfig, env: SwitchEnv)
    requires Faithful(s) && Balanced(s) && config.hopType in s.connections
    requires env.updatePeer && !env.deletePeer
    requires config.serverPublicKey != s.connections[config.hopType].config.serverPublicKey
    requires AllOk(env.addExclusion, |config.excludedAddresses|)
    requires AllOk(env.delExclusion, |s.connections[config.hopType].config.excludedAddresses|)
    ensures !SwitchServer(s, config, env).1
    ensures var olds := s.connections[config.hopType].config.excludedAddresses;
            Balanced(SwitchServer(s, config, env).0) <==> EqualDemand(config.excludedAddresses + NonHosts(olds), olds)
  {
    hide SwitchServer;
    var olds := s.connections[config.hopType].config.excludedAddresses;
    var t := SwitchServer(s, config, env).0;
    SwitchCounts(s, config, env);
    SwitchTail(s, config, env);
    var news := config.excludedAddresses + NonHosts(olds);
    forall k ensures Count(t, k) - Live(t, k) == Occurrences(news, k) - Occurrences(olds, k) {
      OccurrencesConcat(config.excludedAddresses, NonHosts(olds), k);
      assert Live(t, k) == Live(s, k) && Count(s, k) == Live(s, k);
    }
    if Balanced(t) {
      forall k ensures Occurrences(news, k) == Occurrences(olds, k) { assert Count(t, k) == Live(t, k); }
    }
    if EqualDemand(news, olds) {
      forall k ensures Count(t, k) == Live(t, k) { assert Occurrences(news, k) == Occurrences(olds, k); }
    }
  }

  lemma OneMoreStep(steps: seq<Step>, step: Step)
    ensures Exec(steps + [step]) == Next(Exec(steps), step)
    ensures Legal(steps + [step]) == (Legal(steps) && Enabled(Exec(steps), step))
    ensures ExclusionCallsAlwaysSucceed(steps + [step])
         == (ExclusionCallsAlwaysSucceed(steps) && ExclusionCallsSucceed(Exec(steps), step))
    ensures Orphans(steps + [step]) == OrphansAfter(Orphans(steps), Exec(steps), step)
  {
    assert (steps + [step])[..|steps|] == steps;
  }

  /** A bring-up over an empty table, of a configuration that excludes one prefix. */
  lemma BringUpWithOne(s: DaemonState, config: InterfaceConfig, t: AddressText, env: UpEnv)
    requires s.excluded == map[] && config.excludedAddresses == [t] && InterfaceReady(env) && PeerReady(config, env)
    ensures var up := BringUp(s, config, env).0;
            && up.excluded == (if env.addExclusion(0) then map[AddKey(t) := 1] else map[])
            && up.connections == s.connections[config.hopType := FreshConnection(config)]
  {
    assert AddExclusions(s, [t], env.addExclusion, 1) == AddExclusion(s, AddKey(t), env.addExclusion(0));
    BringUpAfterExclusions(s, config, env);
  }

  /**
   The failing family has members: a run in which every backend call succeeds
   and the table still counts a subnet that no live configuration lists.
   */
  lemma SubnetOutlivesItsConfiguration() returns (steps: seq<Step>)
    ensures Legal(steps) && ExclusionCallsAlwaysSucceed(steps) && !Balanced(Exec(steps))
  {
    hide BringUp, Exec, Legal, ExclusionCallsAlwaysSucceed, Balanced, FromText;
    var subnet := SubnetText(seq(32, _ => false), 8);
    var ok := (i: nat) => true;
    var up := UpEnv(true, true, false, true, true, ok, true, true, ok, true);
    var first := InterfaceConfig(SingleHop, "", "", "", "", "", "", [subnet], []);
    var second := first.(excludedAddresses := []);
    var down := DownEnv(true, _ => ok, _ => true, [], ok, true);
    var step1 := ActivateStep(first, ActivateEnv(SwitchEnv(ok, true, ok, ok, ok, true), true, true, true, down, up));
    var step2 := ActivateStep(second, step1.env.(down := down.(order := [AddKey(subnet)])));
    assert Exec([]) == INITIAL && Legal([]) && ExclusionCallsAlwaysSucceed([]) by { StartOfRun(); }
    OneMoreStep([], step1);
    BringUpWithOne(INITIAL, first, subnet, up);
    OneMoreStep([] + [step1], step2);
    assert NonHosts([subnet]) == NonHosts([]) + [subnet] by { assert [subnet][..0] == []; }
    steps := [] + [step1] + [step2];
    CountsAreExactWithoutOrphans(steps);
  }

  lemma StartOfRun()
    ensures Exec([]) == INITIAL && Legal([]) && ExclusionCallsAlwaysSucceed([])
  {
  }

  // ---------------------------------------------------------------- whatever fails

  /** Every counted prefix has its route in the kernel. */
  ghost predicate Backed(s: DaemonState) { s.excluded.Keys <= InstalledExclusions(s.log) }

  lemma {:induction false} AddExclusionsBacked(s: DaemonState, list: seq<AddressText>, ok: nat -> bool, n: nat)
    requires n <= |list| && Backed(s)
    ensures Backed(AddExclusions(s, list, ok, n))
  {
    if n > 0 {
      AddExclusionsBacked(s, list, ok, n-1);
      var before := AddExclusions(s, list, ok, n-1);
      assert (before.log + [AddExclusionRoute(AddKey(list[n-1]), ok(n-1))])[..|before.log|] == before.log;
    }
  }

  lemma {:induction false} DelExclusionsBacked(s: DaemonState, list: seq<AddressText>, ok: nat -> bool, n: nat)
    requires n <= |list| && Backed(s)
    ensures Backed(DelExclusions(s, list, ok, n))
  {
    if n > 0 {
      DelExclusionsBacked(s, list, ok, n-1);
      var before := DelExclusions(s, list, ok, n-1);
      assert (before.log + [DeleteExclusionRoute(RemoveKey(list[n-1]), ok(n-1))])[..|before.log|] == before.log;
    }
  }

  lemma BringUpBacked(s: DaemonState, config: InterfaceConfig, env: UpEnv)
    requires Backed(s)
    ensures Backed(BringUp(s, config, env).0)
  {
    if InterfaceReady(env) {
      AddExclusionsBacked(s, config.excludedAddresses, env.addExclusion, |config.excludedAddresses|);
      BringUpAfterExclusions(s, config, env);
    } else {
      UnreadyBringUp(s, config, env);
    }
  }

  lemma SwitchBacked(s: DaemonState, config: InterfaceConfig, env: ActivateEnv)
    requires Backed(s) && config.hopType in s.connections
    ensures Backed(ActivateBySwitch(s, config, env).0)
  {
    hide InstalledExclusions;
    var sw := env.switching;
    var last := s.connections[config.hopType].config;
    var news, olds := config.excludedAddresses, last.excludedAddresses;
    AddExclusionsBacked(s, news, sw.addExclusion, |news|);
    SwitchMakeTable(s, config, sw);
    var made := SwitchMake(s, config, sw);
    ActivateAfterSwitch(s, config, env);
    if sw.updatePeer {
      DelExclusionsBacked(made, olds, sw.delExclusion, |olds|);
      SwitchBreakTable(made, last, config, sw);
      SwitchTail(s, config, sw);
    }
  }

  lemma DeactivateBacked(s: DaemonState, emitSignals: bool, env: DownEnv)
    requires Backed(s)
    ensures Backed(Deactivate(s, emitSignals, env).0)
  {
    hide DropHops, DropExclusions;
  }

  lemma ActivateBacked(s: DaemonState, config: InterfaceConfig, env: ActivateEnv)
    requires Backed(s)
    ensures Backed(Activate(s, config, env).0)
  {
    hide Deactivate, BringUp, ActivateBySwitch;
    if config.hopType !in s.connections {
      BringUpBacked(s, config, env.up);
    } else if SupportsSwitching(s, config) {
      SwitchBacked(s, config, env);
    } else {
      DeactivateBacked(s, false, env.down);
      var (down, ok) := Deactivate(s, false, env.down);
      LoggedKeepsTable(down, ActivationFailure);
      if ok {
        BringUpBacked(down, config, env.up);
        LoggedKeepsTable(BringUp(down, config, env.up).0, ActivationFailure);
      }
    }
  }

  /** After every run whatsoever, with any backend call failing at any time, every counted prefix is installed. */
  lemma {:induction false} CountedPrefixesAreInstalled(steps: seq<Step>)
    requires Legal(steps)
    ensures Exec(steps).excluded.Keys <= InstalledExclusions(Exec(steps).log)
  {
    if steps != [] {
      var s, step := Exec(steps[..|steps|-1]), steps[|steps|-1];
      CountedPrefixesAreInstalled(steps[..|steps|-1]);
      match step
      case ActivateStep(config, env) => ActivateBacked(s, config, env);
      case DeactivateStep(emitSignals, env) => DeactivateBacked(s, emitSignals, env);
      case HandshakeStep(peers) => HandshakeKeepsDemand(s, peers);
      case LivenessStep(r) => LivenessHopsKeepDemand(s, r, |HOPS|);
    }
  }
}
