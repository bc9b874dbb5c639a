/**
 The kill switch on Linux: the service's state machine
 (service/server/killswitch.cpp, Linux branches) over the firewall it drives
 (client/platforms/linux/daemon/linuxfirewall.cpp), with the verdict the
 installed rules give a packet.
 */
module KillSwitch {

  // ---------------------------------------------------------------- the firewall

  datatype Family = V4 | V6

  datatype Anchor =
    | AllowLoopback | AllowDNS | BlockDNS | AllowLAN | AllowDHCP | BlockIPv6
    | AllowVPN | AllowMarkedXray | BlockNets | AllowNets | BlockAll | AllowPIA

  /** The anchors in the order in which they are linked into the root chain; the first match decides. */
  const CHAIN: seq<Anchor> :=
    [AllowLoopback, AllowDNS, BlockDNS, AllowLAN, AllowDHCP, BlockIPv6,
     AllowVPN, AllowMarkedXray, BlockNets, AllowNets, BlockAll]

  /** The anchors an installation creates; enabling another one has no effect. */
  predicate Exists(f: Family, a: Anchor) {
    match a
    case AllowDNS => f == V4
    case BlockNets => f == V4
    case AllowNets => f == V4
    case BlockIPv6 => f == V6
    case AllowPIA => false
    case _ => true
  }

  datatype Firewall = Firewall(
    installed: bool,
    enabled: set<(Family, Anchor)>,
    allowNets: seq<string>,
    blockNets: seq<string>,
    dnsServers: seq<string>)
  {
    predicate On(f: Family, a: Anchor) { installed && Exists(f, a) && (f, a) in enabled }

    function Install(): Firewall { Firewall(true, {}, [], [], []) }
    function Uninstall(): Firewall { Firewall(false, {}, [], [], []) }

    function Installed(): (r: Firewall)
      ensures r.installed && forall g, b :: r.On(g, b) == On(g, b)
    {
      if installed then this else Install()
    }

    /** Without an installation there is no chain to change. */
    function Set(f: Family, a: Anchor, on: bool): (r: Firewall)
      ensures r.installed == installed && r.allowNets == allowNets
           && r.blockNets == blockNets && r.dnsServers == dnsServers
      ensures forall g, b :: r.On(g, b) == if (g, b) == (f, a) && installed && Exists(f, a) then on else On(g, b)
    {
      if !installed || !Exists(f, a) then this
      else this.(enabled := if on then enabled + {(f, a)} else enabled - {(f, a)})
    }

    function Both(a: Anchor, on: bool): (r: Firewall)
      ensures r.installed == installed && r.allowNets == allowNets
           && r.blockNets == blockNets && r.dnsServers == dnsServers
      ensures forall g, b :: r.On(g, b) == if b == a && installed && Exists(g, a) then on else On(g, b)
    {
      BothFamilies(a, on);
      Set(V4, a, on).Set(V6, a, on)
    }

    lemma BothFamilies(a: Anchor, on: bool)
      ensures forall g, b :: Set(V4, a, on).Set(V6, a, on).On(g, b) ==
                if b == a && installed && Exists(g, a) then on else On(g, b)
    {
      hide On, Set, Exists;
      var one := Set(V4, a, on);
      forall g, b ensures one.Set(V6, a, on).On(g, b) == if b == a && installed && Exists(g, a) then on else On(g, b) {
        assert g == V4 || g == V6;
        assert one.On(g, b) == if (g, b) == (V4, a) && installed && Exists(V4, a) then on else On(g, b);
      }
    }

    function UpdateAllowNets(nets: seq<string>): (r: Firewall)
      ensures r.installed == installed && forall g, b :: r.On(g, b) == On(g, b)
    {
      if installed then this.(allowNets := nets) else this
    }

    function UpdateBlockNets(nets: seq<string>): (r: Firewall)
      ensures r.installed == installed && forall g, b :: r.On(g, b) == On(g, b)
    {
      if installed then this.(blockNets := nets) else this
    }

    function UpdateDNSServers(servers: seq<string>): (r: Firewall)
      ensures r.installed == installed && forall g, b :: r.On(g, b) == On(g, b)
    {
      if installed then this.(dnsServers := servers) else this
    }
  }

  /** An outgoing packet as the rules see it; `nets` are the networks its destination lies in. */
  datatype Packet = Packet(
    family: Family,
    loopback: bool,
    tunnel: bool,
    dnsPort: bool,
    lan: bool,
    dhcp: bool,
    marked: bool,
    nets: set<string>)

  predicate Meets(p: Packet, list: seq<string>) { exists net :: net in list && net in p.nets }

  predicate Matches(fw: Firewall, a: Anchor, p: Packet) {
    match a
    case AllowLoopback => p.loopback
    case AllowDNS => p.tunnel && p.dnsPort && Meets(p, fw.dnsServers)
    case BlockDNS => p.dnsPort
    case AllowLAN => p.lan
    case AllowDHCP => p.dhcp
    case BlockIPv6 => !p.loopback
    case AllowVPN => p.tunnel
    case AllowMarkedXray => p.marked
    case BlockNets => Meets(p, fw.blockNets)
    case AllowNets => Meets(p, fw.allowNets)
    case BlockAll => true
    case AllowPIA => false
  }

  predicate Rejects(a: Anchor) { a == BlockDNS || a == BlockIPv6 || a == BlockNets || a == BlockAll }

  datatype Verdict = Accept | Reject | Untouched

  /** The verdict of the chain from position i on. */
  function VerdictFrom(fw: Firewall, p: Packet, i: nat): Verdict
    requires i <= |CHAIN|
    decreases |CHAIN| - i
  {
    if i == |CHAIN| then Untouched
    else if fw.On(p.family, CHAIN[i]) && Matches(fw, CHAIN[i], p) then (if Rejects(CHAIN[i]) then Reject else Accept)
    else VerdictFrom(fw, p, i + 1)
  }

  function VerdictOf(fw: Firewall, p: Packet): Verdict { VerdictFrom(fw, p, 0) }

  // ---------------------------------------------------------------- the state machine

  datatype Config = Config(
    splitTunnelType: int,
    splitTunnelSites: seq<string>,
    vpnServer: string,
    dns1: string,
    dns2: string,
    dns1IsAmnezia: bool,
    allowedDnsServers: seq<string>)

  datatype State = State(strict: bool, fw: Firewall, allowedRanges: seq<string>)

  function DisableAllTraffic(s: State): State {
    s.(fw := s.fw.Installed().Both(BlockAll, true).Both(AllowMarkedXray, false)
             .Both(AllowLoopback, true).Set(V6, BlockIPv6, true),
       allowedRanges := [])
  }

  function DisableKillSwitch(s: State): State {
    var fw := s.fw.Both(AllowLoopback, true).Both(BlockAll, s.strict)
                  .Set(V4, AllowNets, false).Set(V4, BlockNets, false)
                  .Both(AllowMarkedXray, false).Set(V4, AllowVPN, false).Set(V6, BlockIPv6, s.strict)
                  .Both(AllowDHCP, !s.strict).Both(AllowLAN, !s.strict).Set(V4, BlockDNS, false)
                  .Set(V4, AllowDNS, !s.strict).Both(AllowPIA, false);
    s.(fw := if s.strict then fw else fw.Uninstall(), allowedRanges := [])
  }

  /** The service starts with the persisted setting and whatever the firewall holds. */
  function Init(strict: bool, fw: Firewall): State {
    var s := State(strict, fw, []);
    if strict then DisableAllTraffic(s) else s
  }

  function Refresh(s: State, enabled: bool): State {
    var t := s.(strict := enabled);
    if enabled then DisableAllTraffic(t) else DisableKillSwitch(t)
  }

  function ResetAllowedRange(s: State, ranges: seq<string>): State {
    State(s.strict, s.fw.Set(V4, AllowNets, true).UpdateAllowNets(ranges), ranges)
  }

  /** The non-empty entries of the first n that are not yet in the list, appended in order. */
  function Merge(have: seq<string>, ranges: seq<string>, n: nat): seq<string>
    requires n <= |ranges|
  {
    if n == 0 then have else
    var before := Merge(have, ranges, n-1);
    if ranges[n-1] != "" && ranges[n-1] !in before then before + [ranges[n-1]] else before
  }

  function AddAllowedRange(s: State, ranges: seq<string>): State {
    ResetAllowedRange(s, Merge(s.allowedRanges, ranges, |ranges|))
  }

  function DnsServers(c: Config): seq<string> {
    [c.dns1] + (if c.dns1IsAmnezia then [] else [c.dns2]) + ["127.0.0.1", "127.0.0.53"] + c.allowedDnsServers
  }

  predicate BlocksAll(c: Config) { c.splitTunnelType == 0 || c.splitTunnelType == 2 }

  function AllowedNets(c: Config): seq<string> {
    if c.splitTunnelType == 0 then [c.vpnServer]
    else if c.splitTunnelType == 2 then [c.vpnServer] + c.splitTunnelSites
    else []
  }

  function EnableKillSwitch(s: State, c: Config): State {
    var blockNets := if c.splitTunnelType == 1 then c.splitTunnelSites else [];
    s.(fw := s.fw.Installed().Both(AllowLoopback, true).Both(BlockAll, BlocksAll(c)).Set(V4, AllowNets, BlocksAll(c))
                 .UpdateAllowNets(AllowedNets(c)).Set(V4, BlockNets, BlocksAll(c)).UpdateBlockNets(blockNets)
                 .Both(AllowMarkedXray, true).Set(V4, AllowVPN, true).Set(V6, BlockIPv6, true)
                 .Both(AllowDHCP, true).Both(AllowLAN, true).Set(V4, BlockDNS, true)
                 .UpdateDNSServers(DnsServers(c)).Set(V4, AllowDNS, true).Both(AllowPIA, true))
  }

  datatype Call =
    | RefreshCall(enabled: bool)
    | DisableKillSwitchCall
    | DisableAllTrafficCall
    | EnableKillSwitchCall(config: Config)
    | ResetAllowedRangeCall(ranges: seq<string>)
    | AddAllowedRangeCall(ranges: seq<string>)

  function Next(s: State, call: Call): State {
    match call
    case RefreshCall(enabled) => Refresh(s, enabled)
    case DisableKillSwitchCall => DisableKillSwitch(s)
    case DisableAllTrafficCall => DisableAllTraffic(s)
    case EnableKillSwitchCall(config) => EnableKillSwitch(s, config)
    case ResetAllowedRangeCall(ranges) => ResetAllowedRange(s, ranges)
    case AddAllowedRangeCall(ranges) => AddAllowedRange(s, ranges)
  }

  function Run(s: State, calls: seq<Call>, n: nat): State
    requires n <= |calls|
  {
    if n == 0 then s else Next(Run(s, calls, n-1), calls[n-1])
  }

  // ---------------------------------------------------------------- which anchors are on afterwards

  lemma OnlyExistingAreOn(fw: Firewall)
    ensures !fw.On(V6, AllowDNS) && !fw.On(V6, AllowNets) && !fw.On(V6, BlockNets) && !fw.On(V4, BlockIPv6)
  {
  }

  lemma OnMeans(fw: Firewall, f: Family, a: Anchor)
    ensures fw.On(f, a) ==> fw.installed && Exists(f, a)
  {
  }

  /** What enabling the kill switch leaves on; two IPv6 anchors are not touched. */
  lemma EnableOn(s: State, c: Config, f: Family, a: Anchor)
    ensures EnableKillSwitch(s, c).fw.On(f, a) ==
            match a {
              case BlockAll => BlocksAll(c)
              case AllowNets => f == V4 && BlocksAll(c)
              case BlockNets => f == V4 && BlocksAll(c)
              case AllowDNS => f == V4
              case BlockIPv6 => f == V6
              case AllowVPN => f == V4 || s.fw.On(f, a)
              case BlockDNS => f == V4 || s.fw.On(f, a)
              case AllowPIA => false
              case _ => true
            }
  {
    hide Firewall.Set, Firewall.Both, Firewall.On, Firewall.Installed, Firewall.UpdateAllowNets,
         Firewall.UpdateBlockNets, Firewall.UpdateDNSServers;
    OnMeans(s.fw, f, a);
    OnMeans(EnableKillSwitch(s, c).fw, f, a);
  }

  /** Blocking all traffic switches four anchors and leaves the others as they are. */
  lemma DisableAllTrafficOn(s: State, f: Family, a: Anchor)
    ensures DisableAllTraffic(s).fw.On(f, a) ==
            match a {
              case BlockAll => true
              case AllowLoopback => true
              case BlockIPv6 => f == V6
              case AllowMarkedXray => false
              case _ => s.fw.On(f, a)
            }
  {
    hide Firewall.Set, Firewall.Both, Firewall.On, Firewall.Installed;
    OnMeans(s.fw, f, a);
  }

  /** A strict disable switches everything off but the guard; two IPv6 anchors are not touched. */
  lemma StrictDisableOn(s: State, f: Family, a: Anchor)
    requires s.strict && s.fw.installed
    ensures DisableKillSwitch(s).fw.On(f, a) ==
            match a {
              case BlockAll => true
              case AllowLoopback => true
              case BlockIPv6 => f == V6
              case AllowVPN => f == V6 && s.fw.On(f, a)
              case BlockDNS => f == V6 && s.fw.On(f, a)
              case _ => false
            }
  {
    hide Firewall.Set, Firewall.Both, Firewall.On;
    OnMeans(s.fw, f, a);
  }

  lemma ResetOn(s: State, ranges: seq<string>, f: Family, a: Anchor)
    ensures ResetAllowedRange(s, ranges).fw.On(f, a) ==
                if f == V4 && a == AllowNets && s.fw.installed then true else s.fw.On(f, a)
  {
    hide Firewall.Set, Firewall.On, Firewall.UpdateAllowNets;
  }

  // ---------------------------------------------------------------- the verdict, anchor by anchor

  /** What an anchor makes of a packet that has come to it. */
  function Decided(fw: Firewall, p: Packet, a: Anchor, otherwise: Verdict): Verdict {
    if fw.On(p.family, a) && Matches(fw, a, p) then (if Rejects(a) then Reject else Accept) else otherwise
  }

  lemma OneAnchor(fw: Firewall, p: Packet, i: nat)
    requires i < |CHAIN|
    ensures VerdictFrom(fw, p, i) == Decided(fw, p, CHAIN[i], VerdictFrom(fw, p, i + 1))
    ensures VerdictFrom(fw, p, |CHAIN|) == Untouched
  {
  }

  lemma WholeChain(fw: Firewall, p: Packet)
    ensures VerdictOf(fw, p) ==
            Decided(fw, p, AllowLoopback, Decided(fw, p, AllowDNS, Decided(fw, p, BlockDNS, Decided(fw, p, AllowLAN,
            Decided(fw, p, AllowDHCP, Decided(fw, p, BlockIPv6, Decided(fw, p, AllowVPN, Decided(fw, p, AllowMarkedXray,
            Decided(fw, p, BlockNets, Decided(fw, p, AllowNets, Decided(fw, p, BlockAll, Untouched)))))))))))
  {
    hide VerdictFrom, Decided;
    OneAnchor(fw, p, 0);
    OneAnchor(fw, p, 1);
    OneAnchor(fw, p, 2);
    OneAnchor(fw, p, 3);
    OneAnchor(fw, p, 4);
    OneAnchor(fw, p, 5);
    OneAnchor(fw, p, 6);
    OneAnchor(fw, p, 7);
    OneAnchor(fw, p, 8);
    OneAnchor(fw, p, 9);
    OneAnchor(fw, p, 10);
  }

  /** The chain written out for IPv4. */
  lemma VerdictV4(fw: Firewall, p: Packet)
    requires p.family == V4
    ensures VerdictOf(fw, p) ==
            if fw.On(V4, AllowLoopback) && p.loopback then Accept
            else if fw.On(V4, AllowDNS) && p.tunnel && p.dnsPort && Meets(p, fw.dnsServers) then Accept
            else if fw.On(V4, BlockDNS) && p.dnsPort then Reject
            else if fw.On(V4, AllowLAN) && p.lan then Accept
            else if fw.On(V4, AllowDHCP) && p.dhcp then Accept
            else if fw.On(V4, AllowVPN) && p.tunnel then Accept
            else if fw.On(V4, AllowMarkedXray) && p.marked then Accept
            else if fw.On(V4, BlockNets) && Meets(p, fw.blockNets) then Reject
            else if fw.On(V4, AllowNets) && Meets(p, fw.allowNets) then Accept
            else if fw.On(V4, BlockAll) then Reject
            else Untouched
  {
    hide Firewall.On, VerdictOf, Meets;
    WholeChain(fw, p);
    OnlyExistingAreOn(fw);
  }

  /** The chain written out for IPv6, where most anchors do not exist. */
  lemma VerdictV6(fw: Firewall, p: Packet)
    requires p.family == V6
    ensures VerdictOf(fw, p) ==
            if fw.On(V6, AllowLoopback) && p.loopback then Accept
            else if fw.On(V6, BlockDNS) && p.dnsPort then Reject
            else if fw.On(V6, AllowLAN) && p.lan then Accept
            else if fw.On(V6, AllowDHCP) && p.dhcp then Accept
            else if fw.On(V6, BlockIPv6) && !p.loopback then Reject
            else if fw.On(V6, AllowVPN) && p.tunnel then Accept
            else if fw.On(V6, AllowMarkedXray) && p.marked then Accept
            else if fw.On(V6, BlockAll) then Reject
            else Untouched
  {
    hide Firewall.On, VerdictOf, Meets;
    WholeChain(fw, p);
    OnlyExistingAreOn(fw);
  }

  // ---------------------------------------------------------------- strict mode

  /** Installed, with everything blocked that is not explicitly allowed, and the loopback allowed. */
  predicate Guarded(fw: Firewall) {
    && fw.On(V4, BlockAll) && fw.On(V6, BlockAll) && fw.On(V6, BlockIPv6)
    && fw.On(V4, AllowLoopback) && fw.On(V6, AllowLoopback)
  }

  /** The last call that decides about the guard enabled the kill switch with a type that does not block all. */
  predicate LeftOpen(calls: seq<Call>, n: nat)
    requires n <= |calls|
  {
    n > 0 &&
    match calls[n-1]
    case EnableKillSwitchCall(c) => !BlocksAll(c)
    case ResetAllowedRangeCall(_) => LeftOpen(calls, n-1)
    case AddAllowedRangeCall(_) => LeftOpen(calls, n-1)
    case _ => false
  }

  /** Enabling the kill switch guards the machine if and only if the split type is 0 or 2. */
  lemma EnableGuardsExactly(s: State, c: Config)
    ensures Guarded(EnableKillSwitch(s, c).fw) <==> BlocksAll(c)
    ensures EnableKillSwitch(s, c).fw.On(V4, BlockAll) <==> BlocksAll(c)
  {
    hide Firewall.On, EnableKillSwitch;
    EnableOn(s, c, V4, BlockAll);
    EnableOn(s, c, V6, BlockAll);
    EnableOn(s, c, V6, BlockIPv6);
    EnableOn(s, c, V4, AllowLoopback);
    EnableOn(s, c, V6, AllowLoopback);
  }

  /** Blocking all traffic guards the machine whatever the firewall held. */
  lemma DisableAllTrafficGuards(s: State)
    ensures Guarded(DisableAllTraffic(s).fw)
  {
    hide Firewall.On, DisableAllTraffic;
    DisableAllTrafficOn(s, V4, BlockAll);
    DisableAllTrafficOn(s, V6, BlockAll);
    DisableAllTrafficOn(s, V6, BlockIPv6);
    DisableAllTrafficOn(s, V4, AllowLoopback);
    DisableAllTrafficOn(s, V6, AllowLoopback);
  }

  /** In strict mode, disabling the kill switch guards a machine with an installed firewall. */
  lemma StrictDisableGuards(s: State)
    requires s.strict && s.fw.installed
    ensures Guarded(DisableKillSwitch(s).fw)
  {
    hide Firewall.On, DisableKillSwitch;
    StrictDisableOn(s, V4, BlockAll);
    StrictDisableOn(s, V6, BlockAll);
    StrictDisableOn(s, V6, BlockIPv6);
    StrictDisableOn(s, V4, AllowLoopback);
    StrictDisableOn(s, V6, AllowLoopback);
  }

  lemma RangesKeepGuard(s: State, ranges: seq<string>)
    ensures ResetAllowedRange(s, ranges).strict == s.strict
         && ResetAllowedRange(s, ranges).fw.installed == s.fw.installed
    ensures Guarded(ResetAllowedRange(s, ranges).fw) <==> Guarded(s.fw)
  {
    hide Firewall.Set, Firewall.On, Firewall.UpdateAllowNets;
  }

  lemma EnableKeepsSetting(s: State, c: Config)
    ensures EnableKillSwitch(s, c).strict == s.strict && EnableKillSwitch(s, c).fw.installed
  {
    hide Firewall.On, Exists;
  }

  /** A strict setting has an installed firewall, guarded unless `open`. */
  predicate GuardedUnless(s: State, open: bool) { s.strict ==> s.fw.installed && (Guarded(s.fw) <==> !open) }

  lemma DisableKeepsSetting(s: State)
    ensures DisableAllTraffic(s).strict == DisableKillSwitch(s).strict == s.strict
    ensures DisableAllTraffic(s).fw.installed
    ensures s.strict ==> DisableKillSwitch(s).fw.installed == s.fw.installed
  {
    hide Firewall.On, Exists;
  }

  lemma CallDecidesGuard(calls: seq<Call>, n: nat, s: State)
    requires 0 < n <= |calls| && GuardedUnless(s, LeftOpen(calls, n-1))
    ensures GuardedUnless(Next(s, calls[n-1]), LeftOpen(calls, n))
  {
    hide Guarded, EnableKillSwitch, DisableAllTraffic, DisableKillSwitch, ResetAllowedRange;
    match calls[n-1]
    case RefreshCall(enabled) =>
      DisableKeepsSetting(s.(strict := enabled));
      DisableAllTrafficGuards(s.(strict := enabled));
    case DisableKillSwitchCall =>
      DisableKeepsSetting(s);
      if s.strict { StrictDisableGuards(s); }
    case DisableAllTrafficCall =>
      DisableKeepsSetting(s);
      DisableAllTrafficGuards(s);
    case EnableKillSwitchCall(c) =>
      EnableKeepsSetting(s, c);
      EnableGuardsExactly(s, c);
    case ResetAllowedRangeCall(ranges) => RangesKeepGuard(s, ranges);
    case AddAllowedRangeCall(ranges) => RangesKeepGuard(s, Merge(s.allowedRanges, ranges, |ranges|));
  }

  /**
   Strict mode over every run from the start of the service, whatever the
   firewall held: a strict setting means an installed firewall that blocks all
   and all of IPv6 and allows the loopback, if and only if the last call that
   decides did not enable the kill switch with another type than 0 and 2.
   */
  lemma {:induction false} StrictRunsAreGuardedExactly(strict: bool, fw: Firewall, calls: seq<Call>, n: nat)
    requires n <= |calls|
    ensures GuardedUnless(Run(Init(strict, fw), calls, n), LeftOpen(calls, n))
  {
    hide Next, DisableAllTraffic, Guarded;
    if n == 0 {
      DisableAllTrafficGuards(State(strict, fw, []));
      DisableKeepsSetting(State(strict, fw, []));
    } else {
      StrictRunsAreGuardedExactly(strict, fw, calls, n-1);
      CallDecidesGuard(calls, n, Run(Init(strict, fw), calls, n-1));
    }
  }

  // ---------------------------------------------------------------- what that means for packets

  /** Some enabled rule lets the packet out. */
  predicate Allowed(fw: Firewall, p: Packet) {
    exists a :: a in CHAIN && !Rejects(a) && fw.On(p.family, a) && Matches(fw, a, p)
  }

  lemma {:induction false} BlockedFrom(fw: Firewall, p: Packet, i: nat)
    requires i < |CHAIN| && fw.On(p.family, BlockAll) && !Allowed(fw, p)
    ensures VerdictFrom(fw, p, i) == Reject
    decreases |CHAIN| - i
  {
    assert CHAIN[i] in CHAIN;
    assert CHAIN[|CHAIN|-1] == BlockAll;
    if i + 1 < |CHAIN| { BlockedFrom(fw, p, i + 1); }
  }

  /** After a strict run that is not left open, a packet that no enabled rule allows is rejected. */
  lemma StrictRejectsWhatIsNotAllowed(strict: bool, fw: Firewall, calls: seq<Call>, p: Packet)
    requires !LeftOpen(calls, |calls|)
    requires Run(Init(strict, fw), calls, |calls|).strict && !Allowed(Run(Init(strict, fw), calls, |calls|).fw, p)
    ensures VerdictOf(Run(Init(strict, fw), calls, |calls|).fw, p) == Reject
  {
    hide Run, Init, VerdictFrom, Allowed;
    StrictRunsAreGuardedExactly(strict, fw, calls, |calls|);
    assert p.family == V4 || p.family == V6;
    BlockedFrom(Run(Init(strict, fw), calls, |calls|).fw, p, 0);
  }

  /** Nothing leaves the machine but what goes to the loopback. */
  ghost predicate ShutsTheMachine(fw: Firewall) {
    forall p: Packet :: VerdictOf(fw, p) == if p.loopback then Accept else Reject
  }

  /** A strict disable shuts the machine. */
  lemma StrictDisableShutsTheMachine(s: State)
    requires s.strict && s.fw.installed
    ensures ShutsTheMachine(DisableKillSwitch(s).fw)
  {
    hide DisableKillSwitch, VerdictOf, Firewall.On;
    var fw := DisableKillSwitch(s).fw;
    forall p: Packet ensures VerdictOf(fw, p) == if p.loopback then Accept else Reject {
      forall f, a ensures fw.On(f, a) == (match a {
        case BlockAll => true
        case AllowLoopback => true
        case BlockIPv6 => f == V6
        case AllowVPN => f == V6 && s.fw.On(f, a)
        case BlockDNS => f == V6 && s.fw.On(f, a)
        case _ => false
      })
      {
        StrictDisableOn(s, f, a);
      }
      if p.family == V4 { VerdictV4(fw, p); } else { VerdictV6(fw, p); }
    }
  }

  /** After every strict run, left open or not, disabling the kill switch shuts the machine. */
  lemma StrictRunsCanBeShut(strict: bool, fw: Firewall, calls: seq<Call>)
    requires Run(Init(strict, fw), calls, |calls|).strict
    ensures ShutsTheMachine(DisableKillSwitch(Run(Init(strict, fw), calls, |calls|)).fw)
  {
    hide Run, Init, DisableKillSwitch, ShutsTheMachine, Guarded;
    StrictRunsAreGuardedExactly(strict, fw, calls, |calls|);
    StrictDisableShutsTheMachine(Run(Init(strict, fw), calls, |calls|));
  }

  /** An anchor ahead of the block lets something out: the local networks, the tunnel, or a listed network or server. */
  predicate LetsOut(fw: Firewall) {
    || fw.On(V4, AllowLAN) || fw.On(V4, AllowDHCP) || fw.On(V4, AllowVPN) || fw.On(V6, AllowLAN) || fw.On(V6, AllowDHCP)
    || (fw.On(V4, AllowDNS) && fw.dnsServers != [])
    || (fw.On(V4, AllowNets) && exists net :: net in fw.allowNets && !(fw.On(V4, BlockNets) && net in fw.blockNets))
  }

  const QUIET := Packet(V4, false, false, false, false, false, false, {})

  lemma SomethingGetsOut(fw: Firewall) returns (p: Packet)
    requires LetsOut(fw)
    ensures !p.loopback && VerdictOf(fw, p) == Accept
  {
    hide VerdictOf, Firewall.On;
    if fw.On(V4, AllowLAN) { p := QUIET.(lan := true); VerdictV4(fw, p); }
    else if fw.On(V4, AllowDHCP) { p := QUIET.(dhcp := true); VerdictV4(fw, p); }
    else if fw.On(V4, AllowVPN) { p := QUIET.(tunnel := true); VerdictV4(fw, p); }
    else if fw.On(V6, AllowLAN) { p := QUIET.(family := V6, lan := true); VerdictV6(fw, p); }
    else if fw.On(V6, AllowDHCP) { p := QUIET.(family := V6, dhcp := true); VerdictV6(fw, p); }
    else if fw.On(V4, AllowDNS) && fw.dnsServers != [] {
      p := QUIET.(tunnel := true, dnsPort := true, nets := {fw.dnsServers[0]});
      assert fw.dnsServers[0] in p.nets;
      VerdictV4(fw, p);
    } else {
      var net :| net in fw.allowNets && !(fw.On(V4, BlockNets) && net in fw.blockNets);
      p := QUIET.(nets := {net});
      assert net in p.nets;
      VerdictV4(fw, p);
    }
  }

  lemma NothingGetsOut(s: State, p: Packet)
    requires !LetsOut(s.fw)
    ensures VerdictOf(DisableAllTraffic(s).fw, p) == if p.loopback then Accept else Reject
  {
    hide VerdictOf, Firewall.On, DisableAllTraffic;
    var fw := DisableAllTraffic(s).fw;
    BlockingKeepsLists(s);
    forall f, a ensures fw.On(f, a) == (match a {
      case BlockAll => true
      case AllowLoopback => true
      case BlockIPv6 => f == V6
      case AllowMarkedXray => false
      case _ => s.fw.On(f, a)
    })
    {
      DisableAllTrafficOn(s, f, a);
    }
    if p.family == V4 { VerdictV4(fw, p); } else { VerdictV6(fw, p); }
  }

  /** Blocking all traffic changes no list; a firewall that is not installed has no anchor on. */
  lemma BlockingKeepsLists(s: State)
    ensures s.fw.installed ==>
              var fw := DisableAllTraffic(s).fw;
              fw.dnsServers == s.fw.dnsServers && fw.allowNets == s.fw.allowNets && fw.blockNets == s.fw.blockNets
    ensures !s.fw.installed ==> forall f, a :: !s.fw.On(f, a)
  {
    hide Exists;
  }

  lemma LetsOutStays(s: State)
    requires LetsOut(s.fw)
    ensures LetsOut(DisableAllTraffic(s).fw)
  {
    hide Firewall.On, DisableAllTraffic;
    BlockingKeepsLists(s);
    DisableAllTrafficOn(s, V4, AllowLAN);
    DisableAllTrafficOn(s, V6, AllowLAN);
    DisableAllTrafficOn(s, V4, AllowDHCP);
    DisableAllTrafficOn(s, V6, AllowDHCP);
    DisableAllTrafficOn(s, V4, AllowVPN);
    DisableAllTrafficOn(s, V4, AllowDNS);
    DisableAllTrafficOn(s, V4, AllowNets);
    DisableAllTrafficOn(s, V4, BlockNets);
  }

  /**
   Blocking all traffic shuts the machine if and only if nothing was let out
   ahead of the block: it switches no allowing anchor off but one.
   */
  lemma DisableAllTrafficShutsExactly(s: State)
    ensures ShutsTheMachine(DisableAllTraffic(s).fw) <==> !LetsOut(s.fw)
  {
    hide VerdictOf, LetsOut, DisableAllTraffic;
    if LetsOut(s.fw) {
      LetsOutStays(s);
      var p := SomethingGetsOut(DisableAllTraffic(s).fw);
    } else {
      forall p: Packet ensures VerdictOf(DisableAllTraffic(s).fw, p) == if p.loopback then Accept else Reject {
        NothingGetsOut(s, p);
      }
    }
  }

  /** So after the kill switch was enabled, with whatever settings, it does not. */
  lemma DisableAllTrafficLeavesTheTunnel(s: State, c: Config)
    ensures !ShutsTheMachine(DisableAllTraffic(EnableKillSwitch(s, c)).fw)
  {
    hide EnableKillSwitch, DisableAllTraffic, ShutsTheMachine, Firewall.On;
    EnableOn(s, c, V4, AllowVPN);
    DisableAllTrafficShutsExactly(EnableKillSwitch(s, c));
  }

  // ---------------------------------------------------------------- two anchors that stay off

  /** Of the IPv6 anchors, the tunnel and the DNS block are off. */
  predicate Regular(fw: Firewall) { !fw.On(V6, AllowVPN) && !fw.On(V6, BlockDNS) }

  lemma DisableKeepsRegular(s: State)
    requires Regular(s.fw)
    ensures Regular(DisableKillSwitch(s).fw) && Regular(DisableAllTraffic(s).fw)
  {
    hide Firewall.On, DisableKillSwitch, DisableAllTraffic;
    DisableKeepsSetting(s);
    DisableClearsRanges(s);
    DisableAllTrafficOn(s, V6, AllowVPN);
    DisableAllTrafficOn(s, V6, BlockDNS);
    OnMeans(DisableKillSwitch(s).fw, V6, AllowVPN);
    OnMeans(DisableKillSwitch(s).fw, V6, BlockDNS);
    if s.strict && s.fw.installed {
      StrictDisableOn(s, V6, AllowVPN);
      StrictDisableOn(s, V6, BlockDNS);
    }
  }

  lemma CallKeepsRegular(s: State, call: Call)
    requires Regular(s.fw)
    ensures Regular(Next(s, call).fw)
  {
    hide Firewall.On, DisableKillSwitch, DisableAllTraffic, EnableKillSwitch, ResetAllowedRange;
    match call
    case RefreshCall(enabled) => DisableKeepsRegular(s.(strict := enabled));
    case EnableKillSwitchCall(c) =>
      EnableOn(s, c, V6, AllowVPN);
      EnableOn(s, c, V6, BlockDNS);
    case ResetAllowedRangeCall(ranges) =>
      ResetOn(s, ranges, V6, AllowVPN);
      ResetOn(s, ranges, V6, BlockDNS);
    case AddAllowedRangeCall(ranges) =>
      ResetOn(s, Merge(s.allowedRanges, ranges, |ranges|), V6, AllowVPN);
      ResetOn(s, Merge(s.allowedRanges, ranges, |ranges|), V6, BlockDNS);
    case _ => DisableKeepsRegular(s);
  }

  /** No run switches them on. */
  lemma {:induction false} RunsStayRegular(strict: bool, fw: Firewall, calls: seq<Call>, n: nat)
    requires n <= |calls| && Regular(fw)
    ensures Regular(Run(Init(strict, fw), calls, n).fw)
  {
    hide Next, Regular;
    if n == 0 {
      DisableKeepsRegular(State(strict, fw, []));
    } else {
      RunsStayRegular(strict, fw, calls, n-1);
      CallKeepsRegular(Run(Init(strict, fw), calls, n-1), calls[n-1]);
    }
  }

  // ---------------------------------------------------------------- the policy behind the anchors

  /**
   What a guarded firewall lets out: with `general` the tunnel, the local
   networks and the named DNS servers; marked packets; and the listed networks.
   */
  datatype Policy = Policy(general: bool, dns: seq<string>, marked: bool, nets: seq<string>)

  const CLOSED := Policy(false, [], false, [])

  function PolicyVerdict(pol: Policy, p: Packet): Verdict {
    if p.loopback then Accept
    else if p.family == V6 then if pol.general && (p.lan || p.dhcp) then Accept else Reject
    else if pol.general && p.dnsPort then if p.tunnel && Meets(p, pol.dns) then Accept else Reject
    else if pol.general && (p.lan || p.dhcp || p.tunnel) then Accept
    else if (pol.marked && p.marked) || Meets(p, pol.nets) then Accept
    else Reject
  }

  /** The setting, the policy and the ranges, with no firewall underneath. */
  datatype Plan = Plan(strict: bool, installed: bool, ranges: seq<string>, policy: Policy)

  function PlanReset(q: Plan, ranges: seq<string>): Plan {
    q.(ranges := ranges, policy := if q.installed then q.policy.(nets := ranges) else q.policy)
  }

  function PlanBlocked(q: Plan): Plan { q.(installed := true, ranges := [], policy := q.policy.(marked := false)) }

  function PlanDisabled(q: Plan): Plan { q.(installed := q.strict && q.installed, ranges := [], policy := CLOSED) }

  function PlanNext(q: Plan, call: Call): Plan {
    match call
    case RefreshCall(enabled) => if enabled then PlanBlocked(q.(strict := true)) else PlanDisabled(q.(strict := false))
    case DisableKillSwitchCall => PlanDisabled(q)
    case DisableAllTrafficCall => PlanBlocked(q)
    case EnableKillSwitchCall(c) => q.(installed := true, policy := Policy(true, DnsServers(c), true, AllowedNets(c)))
    case ResetAllowedRangeCall(ranges) => PlanReset(q, ranges)
    case AddAllowedRangeCall(ranges) => PlanReset(q, Merge(q.ranges, ranges, |ranges|))
  }

  function PlanInit(strict: bool): Plan {
    var q := Plan(strict, false, [], CLOSED);
    if strict then PlanBlocked(q) else q
  }

  function PlanRun(strict: bool, calls: seq<Call>, n: nat): Plan
    requires n <= |calls|
  {
    if n == 0 then PlanInit(strict) else PlanNext(PlanRun(strict, calls, n-1), calls[n-1])
  }

  /** Which anchors a policy stands for, apart from the guard. */
  predicate Stands(pol: Policy, f: Family, a: Anchor, on: bool) {
    match a
    case AllowLAN => on == pol.general
    case AllowDHCP => on == pol.general
    case AllowVPN => on == (pol.general && f == V4)
    case AllowDNS => on == (pol.general && f == V4)
    case BlockDNS => on == (pol.general && f == V4)
    case AllowMarkedXray => on == pol.marked
    case _ => true
  }

  ghost predicate AllStand(pol: Policy, fw: Firewall) { forall f, a :: Stands(pol, f, a, fw.On(f, a)) }

  /** The firewall carries the plan out. */
  ghost predicate Carries(s: State, q: Plan) {
    && s.strict == q.strict && s.fw.installed == q.installed && s.allowedRanges == q.ranges
    && (!q.installed ==> q.policy == CLOSED)
    && AllStand(q.policy, s.fw)
    && (q.policy.general ==> s.fw.dnsServers == q.policy.dns)
    && q.policy.nets == (if s.fw.On(V4, AllowNets) then s.fw.allowNets else [])
    && (s.fw.On(V4, BlockNets) ==> s.fw.blockNets == [])
  }

  lemma OffIsCarried(s: State, q: Plan)
    requires !s.fw.installed && !q.installed && s.strict == q.strict && s.allowedRanges == q.ranges
    requires q.policy == CLOSED
    ensures Carries(s, q)
  {
  }

  lemma BlockedStands(s: State, pol: Policy)
    requires AllStand(pol, s.fw)
    ensures AllStand(pol.(marked := false), DisableAllTraffic(s).fw)
  {
    hide Firewall.On, DisableAllTraffic;
    forall f, a ensures Stands(pol.(marked := false), f, a, DisableAllTraffic(s).fw.On(f, a)) {
      assert Stands(pol, f, a, s.fw.On(f, a));
      DisableAllTrafficOn(s, f, a);
    }
  }

  lemma BlockedIsCarried(s: State, q: Plan)
    requires Carries(s, q)
    ensures Carries(DisableAllTraffic(s), PlanBlocked(q))
  {
    hide Firewall.On, DisableAllTraffic, AllStand;
    BlockingKeepsLists(s);
    DisableKeepsSetting(s);
    DisableClearsRanges(s);
    BlockedStands(s, q.policy);
    DisableAllTrafficOn(s, V4, AllowNets);
    DisableAllTrafficOn(s, V4, BlockNets);
  }

  lemma DisableClearsRanges(s: State)
    ensures DisableAllTraffic(s).allowedRanges == [] && DisableKillSwitch(s).allowedRanges == []
    ensures !s.strict ==> !DisableKillSwitch(s).fw.installed
  {
    hide Firewall.On, Firewall.Set, Firewall.Both, Firewall.Installed;
  }

  lemma EnableLists(s: State, c: Config)
    ensures EnableKillSwitch(s, c).fw.blockNets == if c.splitTunnelType == 1 then c.splitTunnelSites else []
    ensures EnableKillSwitch(s, c).fw.allowNets == AllowedNets(c)
    ensures EnableKillSwitch(s, c).fw.dnsServers == DnsServers(c)
    ensures EnableKillSwitch(s, c).allowedRanges == s.allowedRanges
  {
    hide Firewall.On, Exists;
  }

  lemma ResetIsCarried(s: State, q: Plan, ranges: seq<string>)
    requires Carries(s, q)
    ensures Carries(ResetAllowedRange(s, ranges), PlanReset(q, ranges))
  {
    hide Firewall.On, ResetAllowedRange;
    var t := ResetAllowedRange(s, ranges);
    ResetLists(s, ranges);
    forall f, a ensures Stands(PlanReset(q, ranges).policy, f, a, t.fw.On(f, a)) {
      ResetOn(s, ranges, f, a);
      assert Stands(q.policy, f, a, s.fw.On(f, a));
    }
    ResetOn(s, ranges, V4, AllowNets);
    ResetOn(s, ranges, V4, BlockNets);
    OnMeans(s.fw, V4, AllowNets);
  }

  lemma ResetLists(s: State, ranges: seq<string>)
    ensures var t := ResetAllowedRange(s, ranges);
            && t.strict == s.strict && t.allowedRanges == ranges && t.fw.installed == s.fw.installed
            && t.fw.dnsServers == s.fw.dnsServers && t.fw.blockNets == s.fw.blockNets
            && (s.fw.installed ==> t.fw.allowNets == ranges)
  {
    hide Firewall.On, Exists;
  }

  /** A call that does not set every anchor keeps the plan carried out. */
  lemma CallIsCarried(s: State, q: Plan, call: Call)
    requires Carries(s, q) && !Settles(call)
    ensures Carries(Next(s, call), PlanNext(q, call))
  {
    hide Carries, PlanBlocked, PlanDisabled, PlanReset, EnableKillSwitch, DisableAllTraffic, DisableKillSwitch,
         ResetAllowedRange;
    match call
    case RefreshCall(enabled) =>
      SettingIsCarried(s, q, enabled);
      if enabled {
        BlockedIsCarried(s.(strict := enabled), q.(strict := enabled));
      }
    case DisableAllTrafficCall => BlockedIsCarried(s, q);
    case ResetAllowedRangeCall(ranges) => ResetIsCarried(s, q, ranges);
    case AddAllowedRangeCall(ranges) =>
      RangesAreCarried(s, q);
      ResetIsCarried(s, q, Merge(s.allowedRanges, ranges, |ranges|));
  }

  lemma SettingIsCarried(s: State, q: Plan, strict: bool)
    requires Carries(s, q)
    ensures Carries(s.(strict := strict), q.(strict := strict))
  {
  }

  lemma RangesAreCarried(s: State, q: Plan)
    requires Carries(s, q)
    ensures s.allowedRanges == q.ranges
  {
  }

  /** Some call among the first n has set every anchor: it enabled or disabled the kill switch. */
  predicate Settled(calls: seq<Call>, n: nat)
    requires n <= |calls|
  {
    exists i :: 0 <= i < n && Settles(calls[i])
  }

  predicate Settles(call: Call) {
    call.EnableKillSwitchCall? || call.DisableKillSwitchCall? || call == RefreshCall(false)
  }

  /** What state and plan share before that, on a firewall left over from an earlier service. */
  predicate Agrees(s: State, q: Plan) {
    && s.strict == q.strict && s.allowedRanges == q.ranges && Regular(s.fw)
    && (s.strict ==> s.fw.installed) && (q.strict ==> q.installed)
  }

  /** A call that sets every anchor makes the firewall carry the plan out, whatever it held. */
  lemma SettlingIsCarried(s: State, q: Plan, call: Call)
    requires Agrees(s, q) && Settles(call)
    ensures Carries(Next(s, call), PlanNext(q, call))
  {
    hide Firewall.On, DisableKillSwitch, EnableKillSwitch, DnsServers;
    match call
    case EnableKillSwitchCall(c) => FreshlyEnabled(s, q, c);
    case RefreshCall(_) => FreshlyDisabled(s.(strict := false), q.(strict := false));
    case DisableKillSwitchCall => FreshlyDisabled(s, q);
  }

  lemma FreshlyEnabled(s: State, q: Plan, c: Config)
    requires Regular(s.fw) && s.strict == q.strict && s.allowedRanges == q.ranges
    ensures Carries(EnableKillSwitch(s, c), PlanNext(q, EnableKillSwitchCall(c)))
  {
    hide Firewall.On, EnableKillSwitch, DnsServers;
    EnableKeepsSetting(s, c);
    EnableLists(s, c);
    var t := EnableKillSwitch(s, c);
    var pol := Policy(true, DnsServers(c), true, AllowedNets(c));
    forall f, a ensures Stands(pol, f, a, t.fw.On(f, a)) {
      assert f == V4 || f == V6;
      EnableOn(s, c, f, a);
    }
    EnableOn(s, c, V4, AllowNets);
    EnableOn(s, c, V4, BlockNets);
  }

  lemma FreshlyDisabled(s: State, q: Plan)
    requires Regular(s.fw) && s.strict == q.strict && (s.strict ==> s.fw.installed && q.installed)
    ensures Carries(DisableKillSwitch(s), PlanDisabled(q))
  {
    hide Firewall.On, DisableKillSwitch;
    DisableKeepsSetting(s);
    DisableClearsRanges(s);
    var t := DisableKillSwitch(s);
    if !s.strict {
      OffIsCarried(t, PlanDisabled(q));
    } else {
      forall f, a ensures Stands(CLOSED, f, a, t.fw.On(f, a)) {
        assert f == V4 || f == V6;
        StrictDisableOn(s, f, a);
      }
      StrictDisableOn(s, V4, AllowNets);
      StrictDisableOn(s, V4, BlockNets);
    }
  }

  lemma CallKeepsAgreement(s: State, q: Plan, call: Call)
    requires Agrees(s, q)
    ensures Agrees(Next(s, call), PlanNext(q, call))
  {
    hide Regular, EnableKillSwitch, DisableAllTraffic, DisableKillSwitch, ResetAllowedRange;
    CallKeepsRegular(s, call);
    match call
    case RefreshCall(enabled) =>
      DisableKeepsSetting(s.(strict := enabled));
      DisableClearsRanges(s.(strict := enabled));
    case EnableKillSwitchCall(c) =>
      EnableKeepsSetting(s, c);
      EnableLists(s, c);
    case ResetAllowedRangeCall(ranges) => ResetLists(s, ranges);
    case AddAllowedRangeCall(ranges) => ResetLists(s, Merge(s.allowedRanges, ranges, |ranges|));
    case _ =>
      DisableKeepsSetting(s);
      DisableClearsRanges(s);
  }

  lemma {:induction false} RunsAgree(strict: bool, fw: Firewall, calls: seq<Call>, n: nat)
    requires n <= |calls| && Regular(fw)
    ensures Agrees(Run(Init(strict, fw), calls, n), PlanRun(strict, calls, n))
  {
    hide Next, PlanNext, Agrees, Regular, DisableAllTraffic;
    if n == 0 {
      StartAgrees(strict, fw);
    } else {
      RunsAgree(strict, fw, calls, n-1);
      CallKeepsAgreement(Run(Init(strict, fw), calls, n-1), PlanRun(strict, calls, n-1), calls[n-1]);
    }
  }

  lemma StartAgrees(strict: bool, fw: Firewall)
    requires Regular(fw)
    ensures Agrees(Init(strict, fw), PlanInit(strict))
  {
    hide Regular, DisableAllTraffic, DisableKillSwitch;
    DisableKeepsRegular(State(strict, fw, []));
    DisableKeepsSetting(State(strict, fw, []));
    DisableClearsRanges(State(strict, fw, []));
  }

  /**
   Over every run, the firewall carries out the plan that the calls describe:
   from the start if it was not installed, and otherwise, on any regular firewall
   left over from before, from the first call on that enables or disables.
   */
  lemma {:induction false} RunsCarryThePlan(strict: bool, fw: Firewall, calls: seq<Call>, n: nat)
    requires n <= |calls| && Regular(fw) && (!fw.installed || Settled(calls, n))
    ensures Carries(Run(Init(strict, fw), calls, n), PlanRun(strict, calls, n))
  {
    hide Carries, Next, PlanNext, Agrees, Regular, DisableAllTraffic, PlanBlocked;
    if n == 0 {
      var s, q := State(strict, fw, []), Plan(strict, false, [], CLOSED);
      OffIsCarried(s, q);
      BlockedIsCarried(s, q);
    } else {
      RunsAgree(strict, fw, calls, n-1);
      var s, q := Run(Init(strict, fw), calls, n-1), PlanRun(strict, calls, n-1);
      if Settles(calls[n-1]) {
        SettlingIsCarried(s, q, calls[n-1]);
      } else {
        RunsCarryThePlan(strict, fw, calls, n-1);
        CallIsCarried(s, q, calls[n-1]);
      }
    }
  }

  lemma GuardedFollowsPolicy(s: State, q: Plan, p: Packet)
    requires Carries(s, q) && Guarded(s.fw)
    ensures VerdictOf(s.fw, p) == PolicyVerdict(q.policy, p)
  {
    hide Firewall.On, VerdictOf;
    assert !Meets(p, []);
    if p.family == V4 {
      StandsV4(s.fw, q);
      VerdictV4(s.fw, p);
    } else {
      StandsV6(s.fw, q);
      VerdictV6(s.fw, p);
    }
  }

  lemma StandsV4(fw: Firewall, q: Plan)
    requires AllStand(q.policy, fw)
    ensures fw.On(V4, AllowDNS) == fw.On(V4, BlockDNS) == fw.On(V4, AllowLAN)
         == fw.On(V4, AllowDHCP) == fw.On(V4, AllowVPN) == q.policy.general
    ensures fw.On(V4, AllowMarkedXray) == q.policy.marked
  {
    hide Firewall.On;
    assert Stands(q.policy, V4, AllowDNS, fw.On(V4, AllowDNS)) && Stands(q.policy, V4, BlockDNS, fw.On(V4, BlockDNS));
    assert Stands(q.policy, V4, AllowLAN, fw.On(V4, AllowLAN)) && Stands(q.policy, V4, AllowDHCP, fw.On(V4, AllowDHCP));
    assert Stands(q.policy, V4, AllowVPN, fw.On(V4, AllowVPN));
    assert Stands(q.policy, V4, AllowMarkedXray, fw.On(V4, AllowMarkedXray));
  }

  lemma StandsV6(fw: Firewall, q: Plan)
    requires AllStand(q.policy, fw)
    ensures fw.On(V6, AllowLAN) == fw.On(V6, AllowDHCP) == q.policy.general && !fw.On(V6, BlockDNS)
  {
    hide Firewall.On;
    assert Stands(q.policy, V6, AllowLAN, fw.On(V6, AllowLAN)) && Stands(q.policy, V6, AllowDHCP, fw.On(V6, AllowDHCP));
    assert Stands(q.policy, V6, BlockDNS, fw.On(V6, BlockDNS));
  }

  /**
   What gets out after a strict run is exactly what the calls say: once the
   firewall carries the plan out, and as long as the run is not left open, the
   verdict on every packet is that of the policy the calls add up to.
   */
  lemma StrictRunsFollowThePolicy(strict: bool, fw: Firewall, calls: seq<Call>, p: Packet)
    requires Regular(fw) && (!fw.installed || Settled(calls, |calls|))
    requires !LeftOpen(calls, |calls|) && Run(Init(strict, fw), calls, |calls|).strict
    ensures VerdictOf(Run(Init(strict, fw), calls, |calls|).fw, p)
         == PolicyVerdict(PlanRun(strict, calls, |calls|).policy, p)
  {
    hide Run, Init, VerdictOf, PolicyVerdict, Carries, Guarded, PlanRun;
    StrictRunsAreGuardedExactly(strict, fw, calls, |calls|);
    RunsCarryThePlan(strict, fw, calls, |calls|);
    GuardedFollowsPolicy(Run(Init(strict, fw), calls, |calls|), PlanRun(strict, calls, |calls|), p);
  }

  // ---------------------------------------------------------------- what gets out once enabled

  /** The packet goes to the server, or with split type 2 to one of the sites. */
  predicate ToServerOrSite(c: Config, p: Packet) {
    c.vpnServer in p.nets || (c.splitTunnelType == 2 && exists site :: site in c.splitTunnelSites && site in p.nets)
  }

  /** The packet goes to a DNS server of the configuration or of this machine. */
  predicate ToDnsServer(c: Config, p: Packet) {
    || c.dns1 in p.nets || (!c.dns1IsAmnezia && c.dns2 in p.nets)
    || "127.0.0.1" in p.nets || "127.0.0.53" in p.nets
    || exists server :: server in c.allowedDnsServers && server in p.nets
  }

  lemma ListsMeetExactly(c: Config, p: Packet)
    ensures Meets(p, DnsServers(c)) <==> ToDnsServer(c, p)
    ensures Meets(p, AllowedNets(c)) <==> c.splitTunnelType in {0, 2} && ToServerOrSite(c, p)
  {
    var first := [c.dns1] + (if c.dns1IsAmnezia then [] else [c.dns2]);
    assert DnsServers(c) == first + ["127.0.0.1", "127.0.0.53"] + c.allowedDnsServers;
    assert forall net :: net in DnsServers(c) <==>
      net in first || net in ["127.0.0.1", "127.0.0.53"] || net in c.allowedDnsServers;
    assert c.splitTunnelType == 2 ==>
      forall net :: net in AllowedNets(c) <==> net in [c.vpnServer] || net in c.splitTunnelSites;
  }

  /**
   What gets out once the kill switch is enabled, for every packet and every
   configuration.
   */
  lemma EnabledVerdictExactly(s: State, c: Config, p: Packet)
    requires p.family == V6 ==> Regular(s.fw)
    ensures VerdictOf(EnableKillSwitch(s, c).fw, p) ==
            if p.loopback then Accept
            else if p.family == V6 then if p.lan || p.dhcp then Accept else Reject
            else if p.dnsPort then if p.tunnel && ToDnsServer(c, p) then Accept else Reject
            else if p.lan || p.dhcp || p.tunnel || p.marked then Accept
            else if c.splitTunnelType !in {0, 2} then Untouched
            else if ToServerOrSite(c, p) then Accept else Reject
  {
    hide Firewall.On, EnableKillSwitch, VerdictOf, AllowedNets, DnsServers, ToDnsServer, ToServerOrSite;
    var fw := EnableKillSwitch(s, c).fw;
    EnableLists(s, c);
    ListsMeetExactly(c, p);
    assert !Meets(p, []);
    if p.family == V4 {
      EnabledV4(s, c);
      VerdictV4(fw, p);
    } else {
      EnabledV6(s, c);
      VerdictV6(fw, p);
    }
  }

  /** A packet that concerns no rule but the lists of networks. */
  predicate Ordinary(p: Packet) {
    p.family == V4 && !p.loopback && !p.tunnel && !p.dnsPort && !p.lan && !p.dhcp && !p.marked
  }

  /**
   So ordinary traffic outside the tunnel is rejected with split type 0 or 2
   unless it goes to the server or, with type 2, to a site. With any other type
   nothing of it is rejected, the listed sites of type 1 included, because their
   anchor is switched by the wrong flag.
   */
  lemma OrdinaryTrafficOutsideTheTunnel(s: State, c: Config, p: Packet)
    requires Ordinary(p)
    ensures VerdictOf(EnableKillSwitch(s, c).fw, p) ==
            if c.splitTunnelType !in {0, 2} then Untouched else if ToServerOrSite(c, p) then Accept else Reject
  {
    hide EnableKillSwitch, VerdictOf, ToServerOrSite;
    EnabledVerdictExactly(s, c, p);
  }

  lemma EnabledV4(s: State, c: Config)
    ensures var fw := EnableKillSwitch(s, c).fw;
            && fw.On(V4, AllowLoopback) && fw.On(V4, AllowDNS) && fw.On(V4, BlockDNS) && fw.On(V4, AllowLAN)
            && fw.On(V4, AllowDHCP) && fw.On(V4, AllowVPN) && fw.On(V4, AllowMarkedXray)
            && fw.On(V4, BlockNets) == fw.On(V4, AllowNets) == fw.On(V4, BlockAll) == (c.splitTunnelType in {0, 2})
  {
    hide Firewall.On, EnableKillSwitch;
    EnableOn(s, c, V4, AllowLoopback);
    EnableOn(s, c, V4, AllowDNS);
    EnableOn(s, c, V4, BlockDNS);
    EnableOn(s, c, V4, AllowLAN);
    EnableOn(s, c, V4, AllowDHCP);
    EnableOn(s, c, V4, AllowVPN);
    EnableOn(s, c, V4, AllowMarkedXray);
    EnableOn(s, c, V4, BlockNets);
    EnableOn(s, c, V4, AllowNets);
    EnableOn(s, c, V4, BlockAll);
  }

  lemma EnabledV6(s: State, c: Config)
    requires Regular(s.fw)
    ensures var fw := EnableKillSwitch(s, c).fw;
            && fw.On(V6, AllowLoopback) && !fw.On(V6, BlockDNS) && fw.On(V6, AllowLAN) && fw.On(V6, AllowDHCP)
            && fw.On(V6, BlockIPv6)
  {
    hide Firewall.On, EnableKillSwitch;
    EnableOn(s, c, V6, AllowLoopback);
    EnableOn(s, c, V6, BlockDNS);
    EnableOn(s, c, V6, AllowLAN);
    EnableOn(s, c, V6, AllowDHCP);
    EnableOn(s, c, V6, BlockIPv6);
  }

  // ---------------------------------------------------------------- allowed ranges

  /** Merging keeps what is there, in place, adds every non-empty entry, nothing else, and no duplicates. */
  lemma {:induction false} MergeAdds(have: seq<string>, ranges: seq<string>, n: nat)
    requires n <= |ranges|
    ensures var m := Merge(have, ranges, n);
            && have <= m
            && (forall r :: r in m <==> r in have || (r != "" && r in ranges[..n]))
            && ((forall i, j :: 0 <= i < j < |have| ==> have[i] != have[j]) ==>
                  forall i, j :: 0 <= i < j < |m| ==> m[i] != m[j])
  {
    if n > 0 {
      MergeAdds(have, ranges, n-1);
      assert ranges[..n] == ranges[..n-1] + [ranges[n-1]];
    }
  }

  // ---------------------------------------------------------------- the object

  class KillSwitch {
    var strictEnabled: bool
    var firewall: Firewall
    var allowedRanges: seq<string>

    ghost function View(): State
      reads this
    {
      State(strictEnabled, firewall, allowedRanges)
    }

    constructor (strict: bool, fw: Firewall)
      ensures View() == Init(strict, fw)
    {
      strictEnabled, firewall, allowedRanges := strict, fw, [];
      new;
      if strictEnabled {
        BlockAllTraffic();
      }
    }

    method RefreshSetting(enabled: bool)
      modifies this
      ensures View() == Refresh(old(View()), enabled)
    {
      strictEnabled := enabled;
      if strictEnabled {
        BlockAllTraffic();
      } else {
        Disable();
      }
    }

    method Disable()
      modifies this
      ensures View() == DisableKillSwitch(old(View()))
    {
      hide Firewall.Set, Firewall.Both, Firewall.On;
      if strictEnabled {
        firewall := firewall.Both(AllowLoopback, true);
        firewall := firewall.Both(BlockAll, true);
        firewall := firewall.Set(V4, AllowNets, false);
        firewall := firewall.Set(V4, BlockNets, false);
        firewall := firewall.Both(AllowMarkedXray, false);
        firewall := firewall.Set(V4, AllowVPN, false);
        firewall := firewall.Set(V6, BlockIPv6, true);
        firewall := firewall.Both(AllowDHCP, false);
        firewall := firewall.Both(AllowLAN, false);
        firewall := firewall.Set(V4, BlockDNS, false);
        firewall := firewall.Set(V4, AllowDNS, false);
        firewall := firewall.Both(AllowPIA, false);
      } else {
        firewall := firewall.Both(AllowLoopback, true);
        firewall := firewall.Both(BlockAll, false);
        firewall := firewall.Set(V4, AllowNets, false);
        firewall := firewall.Set(V4, BlockNets, false);
        firewall := firewall.Both(AllowMarkedXray, false);
        firewall := firewall.Set(V4, AllowVPN, false);
        firewall := firewall.Set(V6, BlockIPv6, false);
        firewall := firewall.Both(AllowDHCP, true);
        firewall := firewall.Both(AllowLAN, true);
        firewall := firewall.Set(V4, BlockDNS, false);
        firewall := firewall.Set(V4, AllowDNS, true);
        firewall := firewall.Both(AllowPIA, false);
        firewall := firewall.Uninstall();
      }
      allowedRanges := [];
    }

    method BlockAllTraffic()
      modifies this
      ensures View() == DisableAllTraffic(old(View()))
    {
      hide Firewall.Set, Firewall.Both, Firewall.On;
      if !firewall.installed {
        firewall := firewall.Install();
      }
      firewall := firewall.Both(BlockAll, true);
      firewall := firewall.Both(AllowMarkedXray, false);
      firewall := firewall.Both(AllowLoopback, true);
      firewall := firewall.Set(V6, BlockIPv6, true);
      allowedRanges := [];
    }

    method ResetRange(ranges: seq<string>)
      modifies this
      ensures View() == ResetAllowedRange(old(View()), ranges)
    {
      allowedRanges := ranges;
      firewall := firewall.Set(V4, AllowNets, true);
      firewall := firewall.UpdateAllowNets(allowedRanges);
    }

    method AddRange(ranges: seq<string>)
      modifies this
      ensures View() == AddAllowedRange(old(View()), ranges)
    {
      for i := 0 to |ranges|
        invariant allowedRanges == Merge(old(allowedRanges), ranges, i)
        invariant firewall == old(firewall) && strictEnabled == old(strictEnabled)
      {
        if ranges[i] != "" && ranges[i] !in allowedRanges {
          allowedRanges := allowedRanges + [ranges[i]];
        }
      }
      ResetRange(allowedRanges);
    }

    /** The flags and lists the split type asks for. */
    static method SplitLists(c: Config)
      returns (blockAll: bool, allowNets: bool, allownets: seq<string>, blocknets: seq<string>)
      ensures blockAll == BlocksAll(c) && allowNets == BlocksAll(c) && allownets == AllowedNets(c)
      ensures blocknets == if c.splitTunnelType == 1 then c.splitTunnelSites else []
    {
      blockAll, allowNets, allownets, blocknets := false, false, [], [];
      var sites := c.splitTunnelSites;
      if c.splitTunnelType == 0 {
        blockAll, allowNets := true, true;
        allownets := allownets + [c.vpnServer];
      } else if c.splitTunnelType == 1 {
        for i := 0 to |sites|
          invariant blocknets == sites[..i]
        {
          blocknets := blocknets + [sites[i]];
        }
        assert sites[..|sites|] == sites;
      } else if c.splitTunnelType == 2 {
        blockAll, allowNets := true, true;
        allownets := allownets + [c.vpnServer];
        for i := 0 to |sites|
          invariant allownets == [c.vpnServer] + sites[..i]
        {
          allownets := allownets + [sites[i]];
        }
        assert sites[..|sites|] == sites;
      }
    }

    static method DnsList(c: Config) returns (dnsServers: seq<string>)
      ensures dnsServers == DnsServers(c)
    {
      dnsServers := [c.dns1];
      if !c.dns1IsAmnezia {
        dnsServers := dnsServers + [c.dns2];
      }
      dnsServers := dnsServers + ["127.0.0.1"];
      dnsServers := dnsServers + ["127.0.0.53"];
      var fixed := dnsServers;
      for i := 0 to |c.allowedDnsServers|
        invariant dnsServers == fixed + c.allowedDnsServers[..i]
      {
        dnsServers := dnsServers + [c.allowedDnsServers[i]];
      }
      assert c.allowedDnsServers[..|c.allowedDnsServers|] == c.allowedDnsServers;
    }

    method Enable(c: Config)
      modifies this
      ensures View() == EnableKillSwitch(old(View()), c)
    {
      hide Firewall.Set, Firewall.Both, Firewall.On, Firewall.UpdateAllowNets, Firewall.UpdateBlockNets,
           Firewall.UpdateDNSServers, DnsServers;
      var blockAll, allowNets, allownets, blocknets := SplitLists(c);
      if !firewall.installed {
        firewall := firewall.Install();
      }
      firewall := firewall.Both(AllowLoopback, true);
      firewall := firewall.Both(BlockAll, blockAll);
      firewall := firewall.Set(V4, AllowNets, allowNets);
      firewall := firewall.UpdateAllowNets(allownets);
      firewall := firewall.Set(V4, BlockNets, blockAll);
      firewall := firewall.UpdateBlockNets(blocknets);
      firewall := firewall.Both(AllowMarkedXray, true);
      firewall := firewall.Set(V4, AllowVPN, true);
      firewall := firewall.Set(V6, BlockIPv6, true);
      firewall := firewall.Both(AllowDHCP, true);
      firewall := firewall.Both(AllowLAN, true);
      firewall := firewall.Set(V4, BlockDNS, true);
      var dnsServers := DnsList(c);
      firewall := firewall.UpdateDNSServers(dnsServers);
      firewall := firewall.Set(V4, AllowDNS, true);
      firewall := firewall.Both(AllowPIA, true);
    }
  }
}
