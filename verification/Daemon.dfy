/**
 The tunnel daemon as a state machine (client/daemon/daemon.cpp, daemon.h).

 Every call into a backend is an oracle: its outcome is a parameter of the step
 and the call itself is written to `log`, together with the emitted signals.
 What the kernel holds is a fold over that log.
 */
module Daemon {
  import opened Basics
  import opened IpAddresses

  const HANDSHAKE_STALE_MSEC := 150 * 1000
  const BLACKHOLE_SAMPLES := 3
  const QUICK_RECOVERY_ATTEMPTS := 3

  datatype HopType = SingleHop | MultiHopEntry | MultiHopExit

  /** The keys of the connection map in iteration order. */
  const HOPS: seq<HopType> := [SingleHop, MultiHopEntry, MultiHopExit]

  datatype InterfaceConfig = InterfaceConfig(
    hopType: HopType,
    privateKey: string,
    deviceIpv4Address: string,
    deviceIpv6Address: string,
    serverIpv4Gateway: string,
    serverIpv6Gateway: string,
    serverPublicKey: string,
    excludedAddresses: seq<AddressText>,
    allowedIPAddressRanges: seq<IpAddress>)

  datatype ConnectionState = ConnectionState(
    config: InterfaceConfig,
    date: Option<int>,
    lastTxBytes: int,
    lastRxBytes: int,
    stalledSamples: int,
    quickRecoveryAttempts: int)

  function FreshConnection(config: InterfaceConfig): ConnectionState {
    ConnectionState(config, None, 0, 0, 0, 0)
  }

  datatype PeerStatus = PeerStatus(pubkey: string, handshake: int, rxBytes: int, txBytes: int)

  /** Backend calls with their outcome, emitted signals, and bookkeeping marks. */
  datatype Event =
    | AddExclusionRoute(prefix: IpAddress, ok: bool)
    | DeleteExclusionRoute(prefix: IpAddress, ok: bool)
    | UpdateRoutePrefix(prefix: IpAddress, ok: bool)
    | DeleteRoutePrefix(prefix: IpAddress, ok: bool)
    | UpdatePeer(pubkey: string, ok: bool)
    | DeletePeer(pubkey: string, ok: bool)
    | Prepared(config: InterfaceConfig)
    | AddInterface(privateKey: string, ok: bool)
    | TakenDown(ok: bool)
    | DeleteInterface(ok: bool)
    | Installed(hop: HopType)
    | WatchStarted
    | Connected(hop: HopType, pubkey: string)
    | Disconnected
    | HandedOver
    | ActivationFailure

  datatype DaemonState = DaemonState(
    connections: map<HopType, ConnectionState>,
    excluded: map<IpAddress, int>,
    handshakeTimer: bool,
    livenessTimer: bool,
    log: seq<Event>)
  {
    function Logged(e: Event): DaemonState { this.(log := log + [e]) }

    /** m_connections[config.m_hopType] = ConnectionState(config) */
    function Install(config: InterfaceConfig): DaemonState {
      this.(connections := connections[config.hopType := FreshConnection(config)]).Logged(Installed(config.hopType))
    }

    function StartHandshakeTimer(): DaemonState { this.(handshakeTimer := true).Logged(WatchStarted) }
  }

  const INITIAL := DaemonState(map[], map[], false, false, [])

  /** The exclusion routes the kernel holds after the logged calls. */
  function InstalledExclusions(log: seq<Event>): set<IpAddress> {
    if log == [] then {} else
    var before := InstalledExclusions(log[..|log|-1]);
    match log[|log|-1]
    case AddExclusionRoute(p, true) => before + {p}
    case DeleteExclusionRoute(p, true) => before - {p}
    case _ => before
  }

  /** The tunnel routes the kernel holds after the logged calls. */
  function InstalledRoutes(log: seq<Event>): set<IpAddress> {
    if log == [] then {} else
    var before := InstalledRoutes(log[..|log|-1]);
    match log[|log|-1]
    case UpdateRoutePrefix(p, true) => before + {p}
    case DeleteRoutePrefix(p, true) => before - {p}
    case _ => before
  }

  // ---------------------------------------------------------------- exclusion routes

  function AddExclusion(s: DaemonState, prefix: IpAddress, ok: bool): DaemonState {
    if prefix in s.excluded then
      s.(excluded := s.excluded[prefix := s.excluded[prefix] + 1])
    else
      var t := s.Logged(AddExclusionRoute(prefix, ok));
      if ok then t.(excluded := t.excluded[prefix := 1]) else t
  }

  /**
   The release build: the assertion that the prefix is present is off, and
   looking up an absent prefix inserts a zero that is removed right away.
   */
  function DelExclusion(s: DaemonState, prefix: IpAddress, ok: bool): DaemonState {
    if prefix in s.excluded && s.excluded[prefix] > 1 then
      s.(excluded := s.excluded[prefix := s.excluded[prefix] - 1])
    else
      s.(excluded := s.excluded - {prefix}).Logged(DeleteExclusionRoute(prefix, ok))
  }

  /** The first n entries of a list added, one outcome per entry. */
  function AddExclusions(s: DaemonState, list: seq<AddressText>, ok: nat -> bool, n: nat): DaemonState
    requires n <= |list|
  {
    if n == 0 then s else AddExclusion(AddExclusions(s, list, ok, n-1), AddKey(list[n-1]), ok(n-1))
  }

  function DelExclusions(s: DaemonState, list: seq<AddressText>, ok: nat -> bool, n: nat): DaemonState
    requires n <= |list|
  {
    if n == 0 then s else DelExclusion(DelExclusions(s, list, ok, n-1), RemoveKey(list[n-1]), ok(n-1))
  }

  // ---------------------------------------------------------------- tunnel routes

  predicate AllOk(ok: nat -> bool, n: nat) { forall i: nat :: i < n ==> ok(i) }

  /** The first n prefixes routed, stopping at the first failure. */
  function UpdateRoutes(s: DaemonState, list: seq<IpAddress>, ok: nat -> bool, n: nat): DaemonState
    requires n <= |list|
  {
    if n == 0 then s else
    var before := UpdateRoutes(s, list, ok, n-1);
    if AllOk(ok, n-1) then before.Logged(UpdateRoutePrefix(list[n-1], ok(n-1))) else before
  }

  function DeleteRoutes(s: DaemonState, list: seq<IpAddress>, keep: seq<IpAddress>, ok: nat -> bool,
                        n: nat): DaemonState
    requires n <= |list|
  {
    if n == 0 then s else
    var before := DeleteRoutes(s, list, keep, ok, n-1);
    if list[n-1] in keep then before else before.Logged(DeleteRoutePrefix(list[n-1], ok(n-1)))
  }

  // ---------------------------------------------------------------- switching servers

  /** Outcomes of the backend calls of switchServer; lists are indexed by position. */
  datatype SwitchEnv = SwitchEnv(
    addExclusion: nat -> bool,
    updatePeer: bool,
    updateRoute: nat -> bool,
    delExclusion: nat -> bool,
    delRoute: nat -> bool,
    deletePeer: bool)

  predicate SupportsSwitching(s: DaemonState, config: InterfaceConfig) {
    config.hopType in s.connections &&
    var current := s.connections[config.hopType].config;
    && current.privateKey == config.privateKey
    && current.deviceIpv4Address == config.deviceIpv4Address
    && current.deviceIpv6Address == config.deviceIpv6Address
    && current.serverIpv4Gateway == config.serverIpv4Gateway
    && current.serverIpv6Gateway == config.serverIpv6Gateway
  }

  /** switchServer up to and including the routes of the new peer. */
  function SwitchMake(s: DaemonState, config: InterfaceConfig, env: SwitchEnv): DaemonState {
    var added := AddExclusions(s, config.excludedAddresses, env.addExclusion, |config.excludedAddresses|);
    var peered := added.Logged(UpdatePeer(config.serverPublicKey, env.updatePeer));
    if !env.updatePeer then peered
    else UpdateRoutes(peered, config.allowedIPAddressRanges, env.updateRoute, |config.allowedIPAddressRanges|)
  }

  /** The removal of what only the old configuration needed. */
  function SwitchBreak(s: DaemonState, last: InterfaceConfig, config: InterfaceConfig, env: SwitchEnv): DaemonState {
    var removed := DelExclusions(s, last.excludedAddresses, env.delExclusion, |last.excludedAddresses|);
    DeleteRoutes(removed, last.allowedIPAddressRanges, config.allowedIPAddressRanges,
                 env.delRoute, |last.allowedIPAddressRanges|)
  }

  function SwitchServer(s: DaemonState, config: InterfaceConfig, env: SwitchEnv): (DaemonState, bool)
    requires config.hopType in s.connections
  {
    var last := s.connections[config.hopType].config;
    var made := SwitchMake(s, config, env);
    if !env.updatePeer then (made, false) else
    var broken := SwitchBreak(made, last, config, env);
    if config.serverPublicKey == last.serverPublicKey then (broken.Install(config), true) else
    var unpeered := broken.Logged(DeletePeer(last.serverPublicKey, env.deletePeer));
    if env.deletePeer then (unpeered.Install(config), true) else (unpeered, false)
  }

  /** The switch gets as far as putting the new connection into the map. */
  predicate SwitchInstalls(s: DaemonState, config: InterfaceConfig, env: SwitchEnv)
    requires config.hopType in s.connections
  {
    env.updatePeer && (config.serverPublicKey == s.connections[config.hopType].config.serverPublicKey || env.deletePeer)
  }

  // ---------------------------------------------------------------- deactivate

  /** Outcomes of deactivate; `order` is the iteration order of the hash table. */
  datatype DownEnv = DownEnv(
    run: bool,
    delRoute: HopType -> nat -> bool,
    deletePeer: HopType -> bool,
    order: seq<IpAddress>,
    delExclusion: nat -> bool,
    deleteInterface: bool)

  predicate IsOrderOf<T(==)>(order: seq<T>, keys: set<T>) {
    && (forall i :: 0 <= i < |order| ==> order[i] in keys)
    && (forall k :: k in keys ==> k in order)
    && (forall i, j :: 0 <= i < j < |order| ==> order[i] != order[j])
  }

  /** The routes and peers of the first n hops in iteration order taken down. */
  function DropHops(s: DaemonState, env: DownEnv, n: nat): DaemonState
    requires n <= |HOPS|
  {
    if n == 0 then s else
    var before := DropHops(s, env, n-1);
    var hop := HOPS[n-1];
    if hop !in s.connections then before else
    var config := s.connections[hop].config;
    DeleteRoutes(before, config.allowedIPAddressRanges, [], env.delRoute(hop), |config.allowedIPAddressRanges|)
      .Logged(DeletePeer(config.serverPublicKey, env.deletePeer(hop)))
  }

  function DropExclusions(s: DaemonState, order: seq<IpAddress>, ok: nat -> bool, n: nat): DaemonState
    requires n <= |order|
  {
    if n == 0 then s else DropExclusions(s, order, ok, n-1).Logged(DeleteExclusionRoute(order[n-1], ok(n-1)))
  }

  /** Both timers stopped, and the platform hook asked to take a live tunnel down. */
  function AskDown(s: DaemonState, env: DownEnv): DaemonState {
    var stopped := s.(livenessTimer := false, handshakeTimer := false);
    if s.connections == map[] then stopped else stopped.Logged(TakenDown(env.run))
  }

  function Deactivate(s: DaemonState, emitSignals: bool, env: DownEnv): (DaemonState, bool) {
    var asked := AskDown(s, env);
    if s.connections != map[] && !env.run then (asked, false) else
    var announced := if emitSignals then asked.Logged(Disconnected) else asked;
    var dropped := DropExclusions(DropHops(announced, env, |HOPS|), env.order, env.delExclusion, |env.order|);
    (dropped.(excluded := map[], connections := map[]).Logged(DeleteInterface(env.deleteInterface)),
     env.deleteInterface)
  }

  // ---------------------------------------------------------------- activate

  datatype UpEnv = UpEnv(
    interfaceExists: bool,
    addInterface: bool,
    supportIPUtils: bool,
    addInterfaceIPs: bool,
    setMTUAndUp: bool,
    addExclusion: nat -> bool,
    updatePeer: bool,
    updateResolvers: bool,
    updateRoute: nat -> bool,
    run: bool)

  datatype ActivateEnv = ActivateEnv(
    switching: SwitchEnv,
    restoreResolvers: bool,
    updateResolvers: bool,
    runSwitch: bool,
    down: DownEnv,
    up: UpEnv)

  /** maybeUpdateResolvers touches the resolvers for the hops that face the user only. */
  predicate ResolversOk(config: InterfaceConfig, updateResolvers: bool) {
    config.hopType == MultiHopEntry || updateResolvers
  }

  /** The interface exists, or could be created, and could be brought up. */
  predicate InterfaceReady(env: UpEnv) {
    && (env.interfaceExists || env.addInterface)
    && (env.supportIPUtils ==> env.addInterfaceIPs && env.setMTUAndUp)
  }

  /** Everything that follows the exclusion routes in a bring-up succeeds. */
  predicate PeerReady(config: InterfaceConfig, env: UpEnv) {
    && env.updatePeer
    && ResolversOk(config, env.updateResolvers)
    && AllOk(env.updateRoute, |config.allowedIPAddressRanges|)
    && env.run
  }

  /** The preparation of a bring-up, and the interface created if there is none. */
  function RaiseInterface(s: DaemonState, config: InterfaceConfig, env: UpEnv): DaemonState {
    var prepared := s.Logged(Prepared(config));
    if env.interfaceExists then prepared else prepared.Logged(AddInterface(config.privateKey, env.addInterface))
  }

  /** The exclusions, the peer and its routes on an interface that is up. */
  function ConnectPeer(s: DaemonState, config: InterfaceConfig, env: UpEnv): (DaemonState, bool) {
    var added := AddExclusions(s, config.excludedAddresses, env.addExclusion, |config.excludedAddresses|);
    var peered := added.Logged(UpdatePeer(config.serverPublicKey, env.updatePeer));
    if !env.updatePeer || !ResolversOk(config, env.updateResolvers) then (peered.Logged(ActivationFailure), false) else
    var routed := UpdateRoutes(peered, config.allowedIPAddressRanges, env.updateRoute, |config.allowedIPAddressRanges|);
    if PeerReady(config, env) then (routed.Install(config).StartHandshakeTimer(), true)
    else (routed.Logged(ActivationFailure), false)
  }

  /** activate for a hop that has no connection yet. */
  function BringUp(s: DaemonState, config: InterfaceConfig, env: UpEnv): (DaemonState, bool) {
    var raised := RaiseInterface(s, config, env);
    if InterfaceReady(env) then ConnectPeer(raised, config, env) else (raised.Logged(ActivationFailure), false)
  }

  /** activate for a hop whose connection can be switched in place. */
  function ActivateBySwitch(s: DaemonState, config: InterfaceConfig, env: ActivateEnv): (DaemonState, bool)
    requires config.hopType in s.connections
  {
    var (switched, ok) := SwitchServer(s, config, env.switching);
    if ok && env.restoreResolvers && ResolversOk(config, env.updateResolvers) && env.runSwitch
    then (switched.Install(config).StartHandshakeTimer(), true)
    else (switched.Logged(ActivationFailure), false)
  }

  function Activate(s: DaemonState, config: InterfaceConfig, env: ActivateEnv): (DaemonState, bool) {
    if config.hopType !in s.connections then BringUp(s, config, env.up)
    else if SupportsSwitching(s, config) then ActivateBySwitch(s, config, env)
    else
      var (down, ok) := Deactivate(s, false, env.down);
      if !ok then (down.Logged(ActivationFailure), false) else
      var (up, done) := BringUp(down, config, env.up);
      if done then (up, true) else (up.Logged(ActivationFailure), false)
  }

  // ---------------------------------------------------------------- handshake tick

  /** One reported peer shown to a connection that awaits its handshake. */
  function HandshakePeer(s: DaemonState, hop: HopType, status: PeerStatus): (r: DaemonState)
    requires hop in s.connections
    ensures r.connections.Keys == s.connections.Keys
    ensures r.connections[hop].config == s.connections[hop].config
  {
    var c := s.connections[hop];
    if c.config.serverPublicKey != status.pubkey || status.handshake == 0 then s else
    var dated := c.(date := Some(status.handshake), lastTxBytes := status.txBytes, lastRxBytes := status.rxBytes,
                    stalledSamples := 0, quickRecoveryAttempts := 0);
    s.(connections := s.connections[hop := dated]).Logged(Connected(hop, status.pubkey))
  }

  /** The first n reported peers shown to the connection of a hop. */
  function HandshakePeers(s: DaemonState, hop: HopType, peers: seq<PeerStatus>, n: nat): (r: DaemonState)
    requires n <= |peers| && hop in s.connections
    ensures r.connections.Keys == s.connections.Keys
    ensures r.connections[hop].config == s.connections[hop].config
  {
    if n == 0 then s else HandshakePeer(HandshakePeers(s, hop, peers, n-1), hop, peers[n-1])
  }

  function HandshakeHop(s: DaemonState, hop: HopType, peers: seq<PeerStatus>): DaemonState {
    if hop in s.connections && s.connections[hop].date.None? then HandshakePeers(s, hop, peers, |peers|) else s
  }

  function HandshakeHops(s: DaemonState, peers: seq<PeerStatus>, n: nat): DaemonState
    requires n <= |HOPS|
  {
    if n == 0 then s else HandshakeHop(HandshakeHops(s, peers, n-1), HOPS[n-1], peers)
  }

  predicate Pending(s: DaemonState) {
    exists hop :: hop in s.connections && s.connections[hop].date.None?
  }

  /** checkHandshake, called by the one-shot timer, which is off by then. */
  function CheckHandshake(s: DaemonState, peers: seq<PeerStatus>): DaemonState {
    var seen := HandshakeHops(s.(handshakeTimer := false), peers, |HOPS|);
    if Pending(seen) then seen.StartHandshakeTimer()
    else if seen.connections != map[] then seen.(livenessTimer := true).Logged(WatchStarted)
    else seen
  }

  // ---------------------------------------------------------------- liveness tick

  /** What one liveness sample does to a connection's counters. */
  function Sample(c: ConnectionState, status: PeerStatus): ConnectionState {
    var tx := status.txBytes - c.lastTxBytes;
    var rx := status.rxBytes - c.lastRxBytes;
    var seen := c.(lastTxBytes := status.txBytes, lastRxBytes := status.rxBytes);
    if rx > 0 then seen.(stalledSamples := 0, quickRecoveryAttempts := 0)
    else if tx > 0 then seen.(stalledSamples := seen.stalledSamples + 1)
    else seen
  }

  predicate Stale(status: PeerStatus, now: int) {
    status.handshake == 0 || (status.handshake > 0 && now - status.handshake > HANDSHAKE_STALE_MSEC)
  }

  /** Nothing came back, and the handshake is stale or the sampled silence too long. */
  predicate NeedsRecovery(c: ConnectionState, status: PeerStatus, now: int) {
    && status.rxBytes - c.lastRxBytes <= 0
    && (Stale(status, now) || Sample(c, status).stalledSamples >= BLACKHOLE_SAMPLES)
  }

  /** What one status makes of a connection: nothing to do, the peer re-sent, or the client called. */
  datatype Verdict = Fine | Resent | ResendFailed | OutOfAttempts
  {
    predicate HandsOver() { ResendFailed? || OutOfAttempts? }
  }

  /** One status compared with one connection; `ok` is the outcome of a re-sent peer. */
  function Judge(c: ConnectionState, status: PeerStatus, now: int, ok: bool): (ConnectionState, Verdict) {
    if status.pubkey != c.config.serverPublicKey then (c, Fine) else
    var sampled := Sample(c, status);
    if !NeedsRecovery(c, status, now) then (sampled, Fine)
    else if sampled.quickRecoveryAttempts >= QUICK_RECOVERY_ATTEMPTS then (sampled, OutOfAttempts)
    else if !ok then (sampled, ResendFailed)
    else (sampled.(quickRecoveryAttempts := sampled.quickRecoveryAttempts + 1, stalledSamples := 0), Resent)
  }

  /** The calls and signals that go with a verdict. */
  function VerdictEvents(pubkey: string, v: Verdict): seq<Event> {
    match v
    case Fine => []
    case Resent => [UpdatePeer(pubkey, true)]
    case ResendFailed => [UpdatePeer(pubkey, false), HandedOver]
    case OutOfAttempts => [HandedOver]
  }

  /** One status shown to the connection of a hop; the flag says the tick was cut short. */
  function LivenessPeer(s: DaemonState, hop: HopType, status: PeerStatus, now: int, ok: bool): (r: (DaemonState, bool))
    requires hop in s.connections
    ensures r.0.connections.Keys == s.connections.Keys
    ensures r.0.connections[hop].config == s.connections[hop].config
  {
    var (c, v) := Judge(s.connections[hop], status, now, ok);
    (s.(connections := s.connections[hop := c],
        livenessTimer := s.livenessTimer && !v.HandsOver(),
        log := s.log + VerdictEvents(c.config.serverPublicKey, v)),
     v.HandsOver())
  }

  function LivenessPeers(s: DaemonState, hop: HopType, peers: seq<PeerStatus>, now: int, ok: nat -> bool, n: nat)
    : (r: (DaemonState, bool))
    requires n <= |peers| && hop in s.connections
    ensures r.0.connections.Keys == s.connections.Keys
    ensures r.0.connections[hop].config == s.connections[hop].config
  {
    if n == 0 then (s, false) else
    var (before, cut) := LivenessPeers(s, hop, peers, now, ok, n-1);
    if cut then (before, true) else LivenessPeer(before, hop, peers[n-1], now, ok(n-1))
  }

  function LivenessHops(s: DaemonState, peers: seq<PeerStatus>, now: int, ok: HopType -> nat -> bool, n: nat)
    : (r: (DaemonState, bool))
    requires n <= |HOPS|
    ensures r.0.connections.Keys == s.connections.Keys
  {
    if n == 0 then (s, false) else
    var (before, cut) := LivenessHops(s, peers, now, ok, n-1);
    var hop := HOPS[n-1];
    if cut || hop !in before.connections then (before, cut)
    else LivenessPeers(before, hop, peers, now, ok(hop), |peers|)
  }

  /** One reading of the backend by checkLiveness; `updatePeer` answers the recovery attempts. */
  datatype Reading =
    Reading(interfaceExists: bool, peers: seq<PeerStatus>, now: int, updatePeer: HopType -> nat -> bool)

  function CheckLiveness(s: DaemonState, r: Reading): DaemonState {
    if s.connections == map[] || !r.interfaceExists then s.(livenessTimer := false)
    else LivenessHops(s, r.peers, r.now, r.updatePeer, |HOPS|).0
  }

  // ---------------------------------------------------------------- runs

  datatype Step =
    | ActivateStep(config: InterfaceConfig, env: ActivateEnv)
    | DeactivateStep(emitSignals: bool, down: DownEnv)
    | HandshakeStep(peers: seq<PeerStatus>)
    | LivenessStep(reading: Reading)

  /** A timer only fires while it is armed; the hash table is iterated in some order of its keys. */
  predicate Enabled(s: DaemonState, step: Step) {
    match step
    case ActivateStep(_, env) => IsOrderOf(env.down.order, s.excluded.Keys)
    case DeactivateStep(_, env) => IsOrderOf(env.order, s.excluded.Keys)
    case HandshakeStep(_) => s.handshakeTimer
    case LivenessStep(_) => s.livenessTimer
  }

  function Next(s: DaemonState, step: Step): DaemonState {
    match step
    case ActivateStep(config, env) => Activate(s, config, env).0
    case DeactivateStep(emitSignals, env) => Deactivate(s, emitSignals, env).0
    case HandshakeStep(peers) => CheckHandshake(s, peers)
    case LivenessStep(reading) => CheckLiveness(s, reading)
  }

  function Exec(steps: seq<Step>): DaemonState {
    if steps == [] then INITIAL else Next(Exec(steps[..|steps|-1]), steps[|steps|-1])
  }

  predicate Legal(steps: seq<Step>) {
    steps == [] || (Legal(steps[..|steps|-1]) && Enabled(Exec(steps[..|steps|-1]), steps[|steps|-1]))
  }
}
