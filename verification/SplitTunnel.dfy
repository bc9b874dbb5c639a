/**
 From the user's split-tunnel settings to prefixes, and what the prefixes mean
 to a packet (client/vpnConnection.cpp:474-510,
 client/mozilla/localsocketcontroller.cpp:178-249, client/daemon/daemon.cpp:397-406).
 */
module SplitTunnel {
  import opened IpAddresses
  import opened Prefixes

  const ALL_SITES := 0
  const ONLY_FORWARD_SITES := 1
  const ALL_EXCEPT_SITES := 2

  function Zeros(n: nat): (z: seq<bool>)
    ensures |z| == n && forall i :: 0 <= i < n ==> !z[i]
  {
    if n == 0 then [] else Zeros(n - 1) + [false]
  }

  /** 0.0.0.0/0 and ::/0 */
  function AllIpv4(): IpAddress { IpAddress(Inet(Zeros(32)), 0) }
  function AllIpv6(): IpAddress { IpAddress(Inet(Zeros(128)), 0) }

  // ---------------------------------------------------------------- the client's lists

  /** A site text taken as an allowed range; text that is no address gives a range that holds nothing. */
  function RangeOf(t: AddressText): IpAddress {
    match t
    case HostText(bits) => IpAddress(Inet(bits), 32)
    case SubnetText(bits, length) => IpAddress(Inet(bits), length)
    case MalformedHost => IpAddress(NullAddress, 32)
    case MalformedSubnet => IpAddress(NullAddress, 32)
  }

  function Ranges(sites: seq<AddressText>): (r: seq<IpAddress>)
    ensures |r| == |sites| && forall i :: 0 <= i < |sites| ==> r[i] == RangeOf(sites[i])
  {
    seq(|sites|, i requires 0 <= i < |sites| => RangeOf(sites[i]))
  }

  /** The AllowedIPs that stand for everything, in the order in which they are compared. */
  function DefaultIPs(): seq<AddressText> { [SubnetText(Zeros(32), 0), SubnetText(Zeros(128), 0)] }

  /** Between them they hold every address of either protocol. */
  lemma DefaultsHoldEverything(a: Bits)
    ensures |DefaultIPs()| == 2
    ensures InSite(DefaultIPs()[0], a) <==> |a| == 32
    ensures InSite(DefaultIPs()[1], a) <==> |a| == 128
    ensures Holds(AllIpv4(), a) <==> |a| == 32
    ensures Holds(AllIpv6(), a) <==> |a| == 128
  {
    assert a[..0] == Zeros(32)[..0] == Zeros(128)[..0];
  }

  /** The server's own list takes precedence unless it is empty or the default. */
  predicate UsesOwnList(plain: seq<AddressText>) { plain != [] && plain != DefaultIPs() }

  /** The allowed ranges that activate sends, given the AllowedIPs of the server's configuration. */
  function AllowedRanges(plain: seq<AddressText>, mode: int, sites: seq<AddressText>): seq<IpAddress> {
    if UsesOwnList(plain) then Ranges(plain)
    else if mode == ALL_SITES || mode == ALL_EXCEPT_SITES then [AllIpv4(), AllIpv6()]
    else if mode == ONLY_FORWARD_SITES then Ranges(sites)
    else []
  }

  /** The exclusions that activate sends: the server always, the sites in one mode. */
  function ExcludedTexts(mode: int, server: AddressText, sites: seq<AddressText>): seq<AddressText> {
    [server] + if mode == ALL_EXCEPT_SITES then sites else []
  }

  /** The exclusion routes the daemon makes of them. */
  function Routes(texts: seq<AddressText>): (r: seq<IpAddress>)
    ensures |r| == |texts| && forall i :: 0 <= i < |texts| ==> r[i] == FromText(texts[i])
  {
    seq(|texts|, i requires 0 <= i < |texts| => FromText(texts[i]))
  }

  function ExcludedRanges(mode: int, server: AddressText, sites: seq<AddressText>): seq<IpAddress> {
    Routes(ExcludedTexts(mode, server, sites))
  }

  method CollectRanges(texts: seq<AddressText>) returns (ranges: seq<IpAddress>)
    ensures ranges == Ranges(texts)
  {
    ranges := [];
    for i := 0 to |texts|
      invariant ranges == Ranges(texts)[..i]
    {
      ranges := ranges + [RangeOf(texts[i])];
    }
  }

  method BuildLists(plain: seq<AddressText>, mode: int, server: AddressText, sites: seq<AddressText>)
    returns (allowed: seq<IpAddress>, excluded: seq<AddressText>)
    ensures allowed == AllowedRanges(plain, mode, sites) && excluded == ExcludedTexts(mode, server, sites)
  {
    allowed := [];
    if plain != DefaultIPs() && plain != [] {
      allowed := CollectRanges(plain);
    } else {
      if mode == 0 || mode == 2 {
        allowed := allowed + [AllIpv4()];
        allowed := allowed + [AllIpv6()];
      }
      if mode == 1 {
        allowed := CollectRanges(sites);
      }
    }
    excluded := [server];
    if mode == 2 {
      for i := 0 to |sites|
        invariant excluded == [server] + sites[..i]
      {
        excluded := excluded + [sites[i]];
      }
      assert sites[..|sites|] == sites;
    }
  }

  // ---------------------------------------------------------------- longest prefix match

  predicate Holds(p: IpAddress, a: Bits) { Proper(p) && Contains(p, a) }

  /** The length of the longest prefix of the list that holds the address, or -1. */
  function Longest(list: seq<IpAddress>, a: Bits): int {
    if list == [] then -1 else
    var rest, last := Longest(list[..|list|-1], a), list[|list|-1];
    if Holds(last, a) && last.prefixLength > rest then last.prefixLength else rest
  }

  /** The length of the first prefix of the list that holds the address, or -1. */
  function First(list: seq<IpAddress>, a: Bits): int {
    if list == [] then -1
    else if Holds(list[0], a) then list[0].prefixLength
    else First(list[1..], a)
  }

  lemma {:induction false} LongestIsMaximum(list: seq<IpAddress>, a: Bits)
    ensures forall i :: 0 <= i < |list| && Holds(list[i], a) ==> list[i].prefixLength <= Longest(list, a)
    ensures Longest(list, a) >= 0 ==>
              exists i :: 0 <= i < |list| && Holds(list[i], a) && list[i].prefixLength == Longest(list, a)
    ensures Longest(list, a) >= -1
  {
    if list != [] {
      var init := list[..|list|-1];
      LongestIsMaximum(init, a);
      forall i | 0 <= i < |list| && Holds(list[i], a) ensures list[i].prefixLength <= Longest(list, a) {
        if i < |init| { assert init[i] == list[i]; }
      }
      if Longest(list, a) == Longest(init, a) && Longest(init, a) >= 0 {
        var i :| 0 <= i < |init| && Holds(init[i], a) && init[i].prefixLength == Longest(init, a);
        assert list[i] == init[i];
      }
    }
  }

  predicate SortedByLength(list: seq<IpAddress>) {
    forall i, j :: 0 <= i < j < |list| ==> list[i].prefixLength >= list[j].prefixLength
  }

  lemma {:induction false} FirstOfSorted(list: seq<IpAddress>, a: Bits)
    requires SortedByLength(list)
    ensures First(list, a) == Longest(list, a)
  {
    LongestIsMaximum(list, a);
    FirstIsFirst(list, a);
  }

  lemma {:induction false} FirstIsFirst(list: seq<IpAddress>, a: Bits)
    ensures First(list, a) == -1 ==> forall i :: 0 <= i < |list| ==> !Holds(list[i], a)
    ensures First(list, a) != -1 ==>
              exists k :: 0 <= k < |list| && Holds(list[k], a) && First(list, a) == list[k].prefixLength
                                          && forall i :: 0 <= i < k ==> !Holds(list[i], a)
  {
    if list != [] && !Holds(list[0], a) {
      FirstIsFirst(list[1..], a);
      if First(list[1..], a) != -1 {
        var k :| 0 <= k < |list[1..]| && Holds(list[1..][k], a) && First(list[1..], a) == list[1..][k].prefixLength
              && forall i :: 0 <= i < k ==> !Holds(list[1..][i], a);
        assert list[k+1] == list[1..][k];
        forall i | 0 <= i < k+1 ensures !Holds(list[i], a) {
          if i > 0 { assert list[i] == list[1..][i-1]; }
        }
      } else {
        forall i | 0 <= i < |list| ensures !Holds(list[i], a) {
          if i > 0 { assert list[i] == list[1..][i-1]; }
        }
      }
    }
  }

  /**
   The daemon sorts the allowed ranges by decreasing length. Whatever the sort
   does with equal lengths, the first match in its result is a longest match of
   the unsorted list.
   */
  lemma FirstMatchAfterSortingIsLongest(list: seq<IpAddress>, sorted: seq<IpAddress>, a: Bits)
    requires multiset(list) == multiset(sorted) && SortedByLength(sorted)
    ensures First(sorted, a) == Longest(list, a)
  {
    FirstOfSorted(sorted, a);
    forall p ensures p in list <==> p in sorted { assert p in multiset(list) <==> p in multiset(sorted); }
    NotLonger(list, sorted, a);
    NotLonger(sorted, list, a);
  }

  /** A list whose members are all in another has no longer match. */
  lemma NotLonger(x: seq<IpAddress>, y: seq<IpAddress>, a: Bits)
    requires forall p :: p in x ==> p in y
    ensures Longest(x, a) <= Longest(y, a)
  {
    hide Longest;
    LongestIsMaximum(x, a);
    LongestIsMaximum(y, a);
    if Longest(x, a) >= 0 {
      var i :| 0 <= i < |x| && Holds(x[i], a) && x[i].prefixLength == Longest(x, a);
      assert x[i] in y;
    }
  }

  // ---------------------------------------------------------------- what the lists mean

  datatype Route = Tunnel | Bypass | Ambiguous

  /** Longest-prefix match over tunnel and exclusion routes together; equal lengths settle nothing. */
  function RouteOf(allowed: seq<IpAddress>, excluded: seq<IpAddress>, a: Bits): Route {
    var tunnel, bypass := Longest(allowed, a), Longest(excluded, a);
    if tunnel > bypass then Tunnel else if tunnel == bypass >= 0 then Ambiguous else Bypass
  }

  /** Not an IPv4 address with a length that does not fit. */
  predicate SiteOk(t: AddressText) { t.SubnetText? && |t.subnet| == 32 ==> t.length <= 32 }

  predicate InSite(t: AddressText, a: Bits) { Holds(FromText(t), a) }

  predicate InSites(sites: seq<AddressText>, a: Bits) { exists i :: 0 <= i < |sites| && InSite(sites[i], a) }

  /** What the modes are meant to send through the tunnel: 0 everything, 1 the sites, 2 everything but the sites. */
  predicate Intended(mode: int, server: Bits, sites: seq<AddressText>, a: Bits) {
    a != server &&
    (mode == 1 ==> InSites(sites, a)) &&
    (mode == 2 ==> !InSites(sites, a))
  }

  /** The addresses for which a tunnel and an exclusion route of equal length compete. */
  predicate Clash(mode: int, server: Bits, sites: seq<AddressText>, a: Bits) {
    if mode == 1 then
      a == server && exists i :: 0 <= i < |sites| && InSite(sites[i], a) && FromText(sites[i]).prefixLength == 32
    else
      mode == 2 && a != server && InSites(sites, a)
      && forall i :: 0 <= i < |sites| && InSite(sites[i], a) ==> FromText(sites[i]).prefixLength == 0
  }

  lemma SiteRange(t: AddressText, a: Bits)
    requires SiteOk(t) && |a| == 32
    ensures Holds(RangeOf(t), a) <==> InSite(t, a)
    ensures InSite(t, a) ==> RangeOf(t).prefixLength == FromText(t).prefixLength <= 32
  {
  }

  lemma HostHoldsItself(server: Bits, a: Bits)
    requires |server| == 32 && |a| == 32
    ensures Holds(FromText(HostText(server)), a) <==> a == server
    ensures FromText(HostText(server)).prefixLength == 32
  {
    assert a[..32] == a && server[..32] == server;
  }

  lemma LongestOfDefault(a: Bits)
    requires |a| == 32
    ensures Longest([AllIpv4(), AllIpv6()], a) == 0
  {
    hide Longest;
    var list := [AllIpv4(), AllIpv6()];
    LongestIsMaximum(list, a);
    assert Holds(list[0], a) && !Holds(list[1], a);
  }

  /** The longest match among exclusion routes, said about the texts they come from. */
  lemma LongestRoute(texts: seq<AddressText>, a: Bits)
    ensures var e := Longest(Routes(texts), a);
            && e >= -1
            && (forall t :: t in texts && InSite(t, a) ==> FromText(t).prefixLength <= e)
            && (e >= 0 ==> exists t :: t in texts && InSite(t, a) && FromText(t).prefixLength == e)
  {
    hide Longest, FromText, Holds;
    var list := Routes(texts);
    LongestIsMaximum(list, a);
    forall t | t in texts && InSite(t, a) ensures FromText(t).prefixLength <= Longest(list, a) {
      var i :| 0 <= i < |texts| && texts[i] == t;
      assert Holds(list[i], a);
    }
    if Longest(list, a) >= 0 {
      var i :| 0 <= i < |list| && Holds(list[i], a) && list[i].prefixLength == Longest(list, a);
      assert texts[i] in texts && InSite(texts[i], a);
    }
  }

  /** The longest exclusion: 32 for the server, otherwise that of the sites if they are excluded. */
  lemma LongestExclusion(mode: int, server: Bits, sites: seq<AddressText>, a: Bits)
    requires |server| == 32 && |a| == 32 && forall i :: 0 <= i < |sites| ==> SiteOk(sites[i])
    ensures var e := Longest(ExcludedRanges(mode, HostText(server), sites), a);
            && (a == server ==> e == 32)
            && (a != server && (mode != ALL_EXCEPT_SITES || !InSites(sites, a)) ==> e == -1)
            && (a != server && mode == ALL_EXCEPT_SITES ==>
                  forall i :: 0 <= i < |sites| && InSite(sites[i], a) ==> FromText(sites[i]).prefixLength <= e)
            && (a != server && mode == ALL_EXCEPT_SITES && InSites(sites, a) ==>
                  exists i :: 0 <= i < |sites| && InSite(sites[i], a) && FromText(sites[i]).prefixLength == e)
  {
    hide Longest, FromText, Holds, SiteOk, RangeOf, Routes;
    var host := HostText(server);
    var texts := ExcludedTexts(mode, host, sites);
    LongestRoute(texts, a);
    HostHoldsItself(server, a);
    SitesHaveLength(sites, a);
    assert texts[0] == host;
    if a == server {
      forall t | t in texts && InSite(t, a) ensures FromText(t).prefixLength <= 32 {
        if t != host { SiteRange(t, a); }
      }
    } else if mode == ALL_EXCEPT_SITES && InSites(sites, a) {
      var j :| 0 <= j < |sites| && InSite(sites[j], a);
      assert sites[j] in texts;
      var t :| t in texts && InSite(t, a) && FromText(t).prefixLength == Longest(Routes(texts), a);
      assert t in sites;
    }
  }

  /** The longest site range among the allowed ones. */
  lemma LongestSite(sites: seq<AddressText>, a: Bits)
    requires |a| == 32 && forall i :: 0 <= i < |sites| ==> SiteOk(sites[i])
    ensures var t := Longest(Ranges(sites), a);
            && -1 <= t <= 32 && (t >= 0 <==> InSites(sites, a))
            && (t == 32 <==>
                  exists i :: 0 <= i < |sites| && InSite(sites[i], a) && FromText(sites[i]).prefixLength == 32)
  {
    var list := Ranges(sites);
    LongestIsMaximum(list, a);
    forall i | 0 <= i < |sites|
      ensures Holds(list[i], a) <==> InSite(sites[i], a)
      ensures InSite(sites[i], a) ==> 0 <= list[i].prefixLength == FromText(sites[i]).prefixLength <= 32
    {
      SiteRange(sites[i], a);
    }
  }

  /**
   The translation preserves meaning: for every IPv4 address the generated
   routes tunnel exactly what the mode intends, unless the server has a list of
   its own, except for the addresses at which two routes of equal length compete - the server listed as a site of
   its own, or an exclusion of everything.
   */
  lemma TranslationPreservesMeaning(plain: seq<AddressText>, mode: int, server: Bits, sites: seq<AddressText>, a: Bits)
    requires !UsesOwnList(plain)
    requires mode in {0, 1, 2}
    requires |server| == 32 && |a| == 32 && forall i :: 0 <= i < |sites| ==> SiteOk(sites[i])
    ensures RouteOf(AllowedRanges(plain, mode, sites), ExcludedRanges(mode, HostText(server), sites), a) ==
            if Clash(mode, server, sites, a) then Ambiguous
            else if Intended(mode, server, sites, a) then Tunnel else Bypass
  {
    hide Longest, FromText, RangeOf, Holds, ExcludedRanges;
    LongestOfDefault(a);
    LongestExclusion(mode, server, sites, a);
    LongestSite(sites, a);
    SitesHaveLength(sites, a);
  }

  lemma SitesHaveLength(sites: seq<AddressText>, a: Bits)
    ensures forall i :: 0 <= i < |sites| && InSite(sites[i], a) ==> FromText(sites[i]).prefixLength >= 0
  {
  }

  /** IPv6 is not split: it is tunnelled in the modes that tunnel everything else, and not in the forwarding mode. */
  lemma Ipv6IsNotSplit(plain: seq<AddressText>, mode: int, server: Bits, sites: seq<AddressText>, a: Bits)
    requires !UsesOwnList(plain) && mode in {0, 1, 2}
    requires |server| == 32 && |a| == 128
    requires forall i :: 0 <= i < |sites| && FromText(sites[i]).address.Inet? ==>
               |FromText(sites[i]).address.bits| == 32
    ensures RouteOf(AllowedRanges(plain, mode, sites), ExcludedRanges(mode, HostText(server), sites), a)
         == if mode == ONLY_FORWARD_SITES then Bypass else Tunnel
  {
    hide Longest, Routes;
    var allowed, excluded := AllowedRanges(plain, mode, sites), ExcludedRanges(mode, HostText(server), sites);
    LongestIsMaximum(allowed, a);
    LongestRoute(ExcludedTexts(mode, HostText(server), sites), a);
    assert forall t :: t in ExcludedTexts(mode, HostText(server), sites) ==> !InSite(t, a);
    if mode == ONLY_FORWARD_SITES {
      forall i | 0 <= i < |allowed| ensures !Holds(allowed[i], a) { assert !InSite(sites[i], a); }
    } else {
      assert a[..0] == AllIpv6().address.bits[..0];
      assert Holds(allowed[1], a) && !Holds(allowed[0], a);
    }
  }

  // ---------------------------------------------------------------- from the settings to the sites

  /** One entry of the site list: its own text if that is an address, and the addresses it resolved to. */
  datatype SiteEntry = SiteEntry(isAddress: bool, key: AddressText, ips: seq<AddressText>)

  /** The texts an entry contributes, those that fail the format check left out. */
  function EntryTexts(e: SiteEntry): seq<AddressText> {
    if e.isAddress then [e.key] else Valid(e.ips, |e.ips|)
  }

  /** What the format check lets through: IPv4 addresses and subnets. */
  predicate FormatOk(t: AddressText) {
    (t.HostText? && |t.bits| == 32) || (t.SubnetText? && |t.subnet| == 32 && t.length <= 32)
  }

  function Valid(ips: seq<AddressText>, n: nat): seq<AddressText>
    requires n <= |ips|
  {
    if n == 0 then [] else Valid(ips, n-1) + if FormatOk(ips[n-1]) then [ips[n-1]] else []
  }

  function Collect(entries: seq<SiteEntry>, n: nat): seq<AddressText>
    requires n <= |entries|
  {
    if n == 0 then [] else Collect(entries, n-1) + EntryTexts(entries[n-1])
  }

  /** The first occurrence of every element, in order. */
  function Distinct(list: seq<AddressText>, n: nat): seq<AddressText>
    requires n <= |list|
  {
    if n == 0 then [] else
    var before := Distinct(list, n-1);
    if list[n-1] in before then before else before + [list[n-1]]
  }

  lemma {:induction false} DistinctKeepsMembers(list: seq<AddressText>, n: nat)
    requires n <= |list|
    ensures forall t :: t in Distinct(list, n) <==> t in list[..n]
    ensures forall i, j :: 0 <= i < j < |Distinct(list, n)| ==> Distinct(list, n)[i] != Distinct(list, n)[j]
  {
    if n > 0 {
      DistinctKeepsMembers(list, n-1);
      assert list[..n] == list[..n-1] + [list[n-1]];
    }
  }

  /** Splitting by site is allowed if the server's list holds both defaults. */
  predicate SitesAllowed(plain: seq<AddressText>) { forall t :: t in DefaultIPs() ==> t in plain }

  /** The mode and the sites that the client passes on. */
  function SplitSettings(enabled: bool, allowSites: bool, mode: int, entries: seq<SiteEntry>, dns1: AddressText,
                         dns2: AddressText)
    : (int, seq<AddressText>)
  {
    if !enabled then (ALL_SITES, []) else
    if !allowSites then (mode, []) else
    var all := Collect(entries, |entries|);
    var sites := Distinct(all, |all|);
    if sites == [] then (ALL_SITES, [])
    else if mode == ONLY_FORWARD_SITES then (mode, sites + [dns1, dns2])
    else (mode, sites)
  }

  method CollectSites(entries: seq<SiteEntry>) returns (sites: seq<AddressText>)
    ensures sites == Collect(entries, |entries|)
  {
    hide FormatOk;
    sites := [];
    for i := 0 to |entries|
      invariant sites == Collect(entries, i)
    {
      if entries[i].isAddress {
        sites := sites + [entries[i].key];
      } else {
        var valid := KeepValid(entries[i].ips);
        sites := sites + valid;
      }
    }
  }

  method KeepValid(siteIps: seq<AddressText>) returns (valid: seq<AddressText>)
    ensures valid == Valid(siteIps, |siteIps|)
  {
    valid := [];
    for k := 0 to |siteIps|
      invariant valid == Valid(siteIps, k)
    {
      if FormatOk(siteIps[k]) {
        valid := valid + [siteIps[k]];
      }
    }
  }

  method RemoveDuplicates(list: seq<AddressText>) returns (distinct: seq<AddressText>)
    ensures distinct == Distinct(list, |list|)
  {
    distinct := [];
    for i := 0 to |list|
      invariant distinct == Distinct(list, i)
    {
      if list[i] !in distinct {
        distinct := distinct + [list[i]];
      }
    }
  }

  /** `wireGuard` says whether the protocol has AllowedIPs at all. */
  method AppendSplitTunnelingConfig(wireGuard: bool, plain: seq<AddressText>, enabled: bool, repositoryMode: int,
                                    entries: seq<SiteEntry>,
                                    dns1: AddressText, dns2: AddressText)
    returns (routeMode: int, sitesArray: seq<AddressText>)
    ensures (routeMode, sitesArray)
         == SplitSettings(enabled, wireGuard ==> SitesAllowed(plain), repositoryMode, entries, dns1, dns2)
  {
    hide Collect, Distinct;
    var allowSites := true;
    if wireGuard {
      allowSites := SubnetText(Zeros(32), 0) in plain && SubnetText(Zeros(128), 0) in plain;
      assert allowSites == SitesAllowed(plain) by {
        assert DefaultIPs()[0] in DefaultIPs() && DefaultIPs()[1] in DefaultIPs(); }
    }
    routeMode, sitesArray := 0, [];
    if enabled {
      routeMode := repositoryMode;
      if allowSites {
        var sites := CollectSites(entries);
        sites := RemoveDuplicates(sites);
        sitesArray := sites;
        if sitesArray == [] {
          routeMode := 0;
        } else if routeMode == 1 {
          sitesArray := sitesArray + [dns1];
          sitesArray := sitesArray + [dns2];
          assert sitesArray == sites + [dns1, dns2];
        }
      }
    }
  }

  /** A resolved address that is used: IPv4, and not written with a length beyond 32. */
  predicate Usable(ip: AddressText) {
    && FromText(ip).address.Inet? && |FromText(ip).address.bits| == 32
    && (ip.SubnetText? ==> ip.length <= 32)
  }

  /** The entry is an address that holds this one, or one of its resolved addresses is used and does. */
  predicate Names(e: SiteEntry, a: Bits) {
    if e.isAddress then InSite(e.key, a)
    else exists k :: 0 <= k < |e.ips| && Usable(e.ips[k]) && InSite(e.ips[k], a)
  }

  /** Some entry of the user's list names the address. */
  predicate Listed(entries: seq<SiteEntry>, a: Bits) {
    exists i :: 0 <= i < |entries| && Names(entries[i], a)
  }

  /** No entry of the user's list is an address or has one that is used. */
  predicate NothingListed(entries: seq<SiteEntry>) {
    forall i :: 0 <= i < |entries| ==>
      !entries[i].isAddress && forall k :: 0 <= k < |entries[i].ips| ==> !Usable(entries[i].ips[k])
  }

  lemma {:induction false} ValidExactly(ips: seq<AddressText>, n: nat)
    requires n <= |ips|
    ensures forall t :: t in Valid(ips, n) <==> t in ips[..n] && Usable(t)
  {
    if n > 0 {
      ValidExactly(ips, n-1);
      assert ips[..n] == ips[..n-1] + [ips[n-1]];
    }
  }

  lemma EntryNames(e: SiteEntry, a: Bits)
    ensures InSites(EntryTexts(e), a) <==> Names(e, a)
    ensures EntryTexts(e) == [] <==> !e.isAddress && forall k :: 0 <= k < |e.ips| ==> !Usable(e.ips[k])
  {
    hide Usable, InSite;
    if e.isAddress {
      assert EntryTexts(e)[0] == e.key;
    } else {
      var valid := Valid(e.ips, |e.ips|);
      ValidExactly(e.ips, |e.ips|);
      assert e.ips[..|e.ips|] == e.ips;
      if i :| 0 <= i < |valid| && InSite(valid[i], a) {
        assert valid[i] in e.ips;
        var k :| 0 <= k < |e.ips| && e.ips[k] == valid[i];
      }
      if k :| 0 <= k < |e.ips| && Usable(e.ips[k]) { assert e.ips[k] in valid; }
      if k :| 0 <= k < |e.ips| && Usable(e.ips[k]) && InSite(e.ips[k], a) { assert e.ips[k] in valid; }
      if valid != [] { assert valid[0] in e.ips; }
    }
  }

  lemma {:induction false} CollectedNothing(entries: seq<SiteEntry>, n: nat)
    requires n <= |entries|
    ensures Collect(entries, n) == [] <==> NothingListed(entries[..n])
  {
    hide EntryTexts, Usable;
    if n > 0 {
      CollectedNothing(entries, n-1);
      EntryNames(entries[n-1], AllIpv4().address.bits);
      assert entries[..n] == entries[..n-1] + [entries[n-1]];
    }
  }

  lemma {:induction false} CollectedSites(entries: seq<SiteEntry>, n: nat, a: Bits)
    requires n <= |entries|
    ensures InSites(Collect(entries, n), a) <==> Listed(entries[..n], a)
  {
    hide Names, EntryTexts, InSites;
    if n == 0 {
      NoSites(a);
    } else {
      CollectedSites(entries, n-1, a);
      var before, last := Collect(entries, n-1), EntryTexts(entries[n-1]);
      InSitesConcat(before, last, a);
      EntryNames(entries[n-1], a);
      assert entries[..n] == entries[..n-1] + [entries[n-1]];
    }
  }

  lemma InSitesConcat(x: seq<AddressText>, y: seq<AddressText>, a: Bits)
    ensures InSites(x + y, a) <==> InSites(x, a) || InSites(y, a)
  {
    var z := x + y;
    if i :| 0 <= i < |x| && InSite(x[i], a) { assert z[i] == x[i]; }
    if i :| 0 <= i < |y| && InSite(y[i], a) { assert z[|x| + i] == y[i]; }
    if i :| 0 <= i < |z| && InSite(z[i], a) {
      if i < |x| { assert x[i] == z[i]; } else { assert y[i - |x|] == z[i]; }
    }
  }

  lemma NoSites(a: Bits)
    ensures !InSites([], a)
  {
  }

  lemma SameMembersSameSites(x: seq<AddressText>, y: seq<AddressText>, a: Bits)
    requires forall t :: t in x <==> t in y
    ensures InSites(x, a) <==> InSites(y, a)
  {
    if i :| 0 <= i < |x| && InSite(x[i], a) { assert x[i] in y; }
    if i :| 0 <= i < |y| && InSite(y[i], a) { assert y[i] in x; }
  }

  /** The sites passed on hold exactly the listed addresses, plus the two DNS servers in the forwarding mode. */
  lemma SettingsKeepTheList(mode: int, entries: seq<SiteEntry>, dns1: AddressText, dns2: AddressText, a: Bits)
    ensures var (m, sites) := SplitSettings(true, true, mode, entries, dns1, dns2);
            if m == mode == ONLY_FORWARD_SITES
            then InSites(sites, a) <==> Listed(entries, a) || InSite(dns1, a) || InSite(dns2, a)
            else m == mode && mode != ALL_SITES ==> (InSites(sites, a) <==> Listed(entries, a))
    ensures var (m, sites) := SplitSettings(true, true, mode, entries, dns1, dns2);
            m != mode ==> m == ALL_SITES && !Listed(entries, a)
  {
    var all := Collect(entries, |entries|);
    CollectedSites(entries, |entries|, a);
    DistinctKeepsMembers(all, |all|);
    var sites := Distinct(all, |all|);
    assert entries[..|entries|] == entries && all[..|all|] == all;
    SameMembersSameSites(sites, all, a);
    InSitesConcat(sites, [dns1, dns2], a);
    TwoSites(dns1, dns2, a);
  }

  lemma TwoSites(x: AddressText, y: AddressText, a: Bits)
    ensures InSites([x, y], a) <==> InSite(x, a) || InSite(y, a)
  {
    assert [x, y][0] == x && [x, y][1] == y;
  }

  // ---------------------------------------------------------------- end to end

  /** The user's list holds IPv4 addresses and subnets only, as the format check ensures. */
  predicate EntriesOk(entries: seq<SiteEntry>) {
    forall i :: 0 <= i < |entries| && entries[i].isAddress ==> FormatOk(entries[i].key)
  }

  lemma {:induction false} ValidIsOk(ips: seq<AddressText>, n: nat)
    requires n <= |ips|
    ensures forall i :: 0 <= i < |Valid(ips, n)| ==> SiteOk(Valid(ips, n)[i])
  {
    if n > 0 { ValidIsOk(ips, n-1); }
  }

  lemma {:induction false} CollectedOk(entries: seq<SiteEntry>, n: nat)
    requires n <= |entries| && EntriesOk(entries)
    ensures forall i :: 0 <= i < |Collect(entries, n)| ==> SiteOk(Collect(entries, n)[i])
  {
    if n > 0 {
      CollectedOk(entries, n-1);
      if !entries[n-1].isAddress { ValidIsOk(entries[n-1].ips, |entries[n-1].ips|); }
    }
  }

  lemma SettingsAreOk(enabled: bool, mode: int, entries: seq<SiteEntry>, dns1: AddressText, dns2: AddressText)
    requires EntriesOk(entries) && SiteOk(dns1) && SiteOk(dns2)
    ensures var sites := SplitSettings(enabled, true, mode, entries, dns1, dns2).1;
            forall i :: 0 <= i < |sites| ==> SiteOk(sites[i])
  {
    hide Collect, Distinct;
    var all := Collect(entries, |entries|);
    CollectedOk(entries, |entries|);
    DistinctKeepsMembers(all, |all|);
    assert all[..|all|] == all;
    var sites := Distinct(all, |all|);
    forall i | 0 <= i < |sites| ensures SiteOk(sites[i]) { assert sites[i] in all; }
  }

  /** What the user asked for, said about their own list. */
  predicate Wanted(enabled: bool, mode: int, entries: seq<SiteEntry>, dns1: AddressText, dns2: AddressText, a: Bits) {
    !enabled || NothingListed(entries) || mode == 0 ||
    (if mode == 1 then Listed(entries, a) || InSite(dns1, a) || InSite(dns2, a)
     else !Listed(entries, a))
  }

  /**
   End to end: whatever the settings, the routes generated from them for a
   server with the default AllowedIPs tunnel an IPv4 address exactly if the user
   asked for it and it is not the server, unless two routes of equal length
   compete for it.
   */
  lemma SettingsReachTheRoutes(enabled: bool, mode: int, entries: seq<SiteEntry>, dns1: AddressText, dns2: AddressText,
                               server: Bits, a: Bits)
    requires mode in {0, 1, 2}
    requires EntriesOk(entries) && SiteOk(dns1) && SiteOk(dns2) && |server| == 32 && |a| == 32
    ensures var (m, sites) := SplitSettings(enabled, SitesAllowed(DefaultIPs()), mode, entries, dns1, dns2);
            RouteOf(AllowedRanges(DefaultIPs(), m, sites), ExcludedRanges(m, HostText(server), sites), a) ==
            if Clash(m, server, sites, a) then Ambiguous
            else if a != server && Wanted(enabled, mode, entries, dns1, dns2, a) then Tunnel else Bypass
  {
    hide Listed, InSites, InSite, SiteOk, RouteOf, AllowedRanges, ExcludedRanges, Clash, Distinct, Collect,
         NothingListed;
    CollectedNothing(entries, |entries|);
    assert entries[..|entries|] == entries;
    var (m, sites) := SplitSettings(enabled, true, mode, entries, dns1, dns2);
    SettingsAreOk(enabled, mode, entries, dns1, dns2);
    TranslationPreservesMeaning(DefaultIPs(), m, server, sites, a);
    SettingsKeepTheList(mode, entries, dns1, dns2, a);
    var all := Collect(entries, |entries|);
    DistinctKeepsMembers(all, |all|);
    assert all[..|all|] == all;
    assert all != [] ==> all[0] in Distinct(all, |all|);
    assert Distinct(all, |all|) != [] ==> Distinct(all, |all|)[0] in all;
  }

  // ---------------------------------------------------------------- other AllowedIPs

  /** Without a list of the server's, nothing is tunnelled in the forwarding mode, and everything in the others. */
  lemma EmptyListReachesTheRoutes(enabled: bool, mode: int, entries: seq<SiteEntry>, dns1: AddressText,
                                  dns2: AddressText, server: Bits, a: Bits)
    requires mode in {0, 1, 2} && |server| == 32 && |a| == 32
    ensures var (m, sites) := SplitSettings(enabled, SitesAllowed([]), mode, entries, dns1, dns2);
            RouteOf(AllowedRanges([], m, sites), ExcludedRanges(m, HostText(server), sites), a) ==
            if a != server && !(enabled && mode == ONLY_FORWARD_SITES) then Tunnel else Bypass
  {
    hide RouteOf, AllowedRanges, ExcludedRanges, Collect, Distinct;
    assert !SitesAllowed([]) by { assert DefaultIPs()[0] in DefaultIPs(); }
    TranslationPreservesMeaning([], if enabled then mode else ALL_SITES, server, [], a);
  }

  /**
   A server's own list without the defaults decides alone: whatever the mode and
   the sites, an address is tunnelled if that list holds it and it is not the
   server, as if the list were the sites of the forwarding mode.
   */
  lemma OwnListReachesTheRoutes(plain: seq<AddressText>, enabled: bool, mode: int, entries: seq<SiteEntry>,
                                dns1: AddressText, dns2: AddressText, server: Bits, a: Bits)
    requires UsesOwnList(plain) && !SitesAllowed(plain) && forall i :: 0 <= i < |plain| ==> SiteOk(plain[i])
    requires |server| == 32 && |a| == 32
    ensures var (m, sites) := SplitSettings(enabled, SitesAllowed(plain), mode, entries, dns1, dns2);
            RouteOf(AllowedRanges(plain, m, sites), ExcludedRanges(m, HostText(server), sites), a) ==
            if Clash(ONLY_FORWARD_SITES, server, plain, a) then Ambiguous
            else if a != server && InSites(plain, a) then Tunnel else Bypass
  {
    hide RouteOf, Clash, Collect, Distinct, Ranges, Routes, SiteOk, InSites;
    TranslationPreservesMeaning([], ONLY_FORWARD_SITES, server, plain, a);
    var (m, sites) := SplitSettings(enabled, false, mode, entries, dns1, dns2);
    assert ExcludedTexts(m, HostText(server), sites) == [HostText(server)];
    assert ExcludedTexts(ONLY_FORWARD_SITES, HostText(server), plain) == [HostText(server)];
  }

  /**
   A list that holds both defaults in another order, or more than them, allows
   sites and takes precedence over them: the forwarding mode then sends every
   address but the server's through the tunnel. So the mode is honoured if and
   only if the list is the default one, as long as some address is not listed.
   */
  lemma ForwardingIsHonouredExactly(plain: seq<AddressText>, server: Bits, sites: seq<AddressText>, unlisted: Bits)
    requires SitesAllowed(plain) && |server| == 32 && |unlisted| == 32 && unlisted != server
    requires !InSites(sites, unlisted)
    requires forall i :: 0 <= i < |plain| ==> SiteOk(plain[i])
    requires forall i :: 0 <= i < |sites| ==> SiteOk(sites[i])
    ensures (forall a: Bits :: |a| == 32 && !Clash(ONLY_FORWARD_SITES, server, sites, a) ==>
               RouteOf(AllowedRanges(plain, ONLY_FORWARD_SITES, sites),
                       ExcludedRanges(ONLY_FORWARD_SITES, HostText(server), sites), a)
               == if Intended(ONLY_FORWARD_SITES, server, sites, a) then Tunnel else Bypass)
       <==> plain == DefaultIPs()
  {
    hide RouteOf, Ranges, Routes, SiteOk, Longest, ExcludedRanges;
    if plain == DefaultIPs() {
      forall a: Bits | |a| == 32 && !Clash(ONLY_FORWARD_SITES, server, sites, a)
        ensures RouteOf(AllowedRanges(plain, ONLY_FORWARD_SITES, sites),
                        ExcludedRanges(ONLY_FORWARD_SITES, HostText(server), sites), a)
             == if Intended(ONLY_FORWARD_SITES, server, sites, a) then Tunnel else Bypass
      {
        TranslationPreservesMeaning(plain, ONLY_FORWARD_SITES, server, sites, a);
      }
    } else {
      OwnListTunnelsAll(plain, server, sites, unlisted);
      assert !Clash(ONLY_FORWARD_SITES, server, sites, unlisted);
    }
  }

  lemma OwnListTunnelsAll(plain: seq<AddressText>, server: Bits, sites: seq<AddressText>, a: Bits)
    requires SitesAllowed(plain) && plain != DefaultIPs() && |server| == 32 && |a| == 32 && a != server
    requires forall i :: 0 <= i < |plain| ==> SiteOk(plain[i])
    requires forall i :: 0 <= i < |sites| ==> SiteOk(sites[i])
    ensures RouteOf(AllowedRanges(plain, ONLY_FORWARD_SITES, sites),
                    ExcludedRanges(ONLY_FORWARD_SITES, HostText(server), sites), a) == Tunnel
  {
    hide Ranges, Routes, Longest, ExcludedRanges;
    DefaultHolds(plain, a);
    LongestSite(plain, a);
    LongestExclusion(ONLY_FORWARD_SITES, server, sites, a);
  }

  /** Some text of x holds the address with a longer prefix than every text of y that holds it. */
  predicate Outranks(x: seq<AddressText>, y: seq<AddressText>, a: Bits) {
    exists i :: 0 <= i < |x| && InSite(x[i], a) && LongerThanAll(FromText(x[i]).prefixLength, y, a)
  }

  predicate LongerThanAll(length: int, y: seq<AddressText>, a: Bits) {
    forall j :: 0 <= j < |y| && InSite(y[j], a) ==> FromText(y[j]).prefixLength < length
  }

  /** The longest match among allowed ranges, said about the texts they come from. */
  lemma LongestRange(texts: seq<AddressText>, a: Bits)
    requires |a| == 32 && forall i :: 0 <= i < |texts| ==> SiteOk(texts[i])
    ensures var t := Longest(Ranges(texts), a);
            && t >= -1
            && (forall i :: 0 <= i < |texts| && InSite(texts[i], a) ==> FromText(texts[i]).prefixLength <= t)
            && (t >= 0 ==> exists i :: 0 <= i < |texts| && InSite(texts[i], a) && FromText(texts[i]).prefixLength == t)
  {
    hide Longest, FromText, Holds, RangeOf, SiteOk;
    var list := Ranges(texts);
    LongestIsMaximum(list, a);
    forall i | 0 <= i < |texts| && InSite(texts[i], a) ensures FromText(texts[i]).prefixLength <= Longest(list, a) {
      SiteRange(texts[i], a);
      assert Holds(list[i], a);
    }
    if Longest(list, a) >= 0 {
      var i :| 0 <= i < |list| && Holds(list[i], a) && list[i].prefixLength == Longest(list, a);
      SiteRange(texts[i], a);
    }
  }

  /** Comparing the longest matches of two lists is asking which list outranks the other. */
  lemma OutranksExactly(x: seq<AddressText>, y: seq<AddressText>, a: Bits, m: int, n: int)
    requires m >= -1 && n >= -1
    requires forall i :: 0 <= i < |x| && InSite(x[i], a) ==> FromText(x[i]).prefixLength <= m
    requires m >= 0 ==> exists i :: 0 <= i < |x| && InSite(x[i], a) && FromText(x[i]).prefixLength == m
    requires forall j :: 0 <= j < |y| && InSite(y[j], a) ==> FromText(y[j]).prefixLength <= n
    requires n >= 0 ==> exists j :: 0 <= j < |y| && InSite(y[j], a) && FromText(y[j]).prefixLength == n
    ensures Outranks(x, y, a) <==> m > n
  {
    hide InSite, FromText;
    SitesHaveLength(x, a);
    if m > n {
      var i :| 0 <= i < |x| && InSite(x[i], a) && FromText(x[i]).prefixLength == m;
      assert LongerThanAll(m, y, a);
    }
    if Outranks(x, y, a) {
      var i :| 0 <= i < |x| && InSite(x[i], a) && LongerThanAll(FromText(x[i]).prefixLength, y, a);
      if n >= 0 {
        var j :| 0 <= j < |y| && InSite(y[j], a) && FromText(y[j]).prefixLength == n;
      }
    }
  }

  /**
   The exclusion mode against a list of the server's own that allows sites: a
   listed address is bypassed if and only if one of its sites is longer than
   every range of the list that holds it, and tunnelled if and only if it is the
   other way round.
   */
  lemma ExclusionAgainstOwnListExactly(plain: seq<AddressText>, server: Bits, sites: seq<AddressText>, a: Bits)
    requires SitesAllowed(plain) && UsesOwnList(plain) && |server| == 32 && |a| == 32 && a != server
    requires forall i :: 0 <= i < |plain| ==> SiteOk(plain[i])
    requires forall i :: 0 <= i < |sites| ==> SiteOk(sites[i])
    ensures RouteOf(AllowedRanges(plain, ALL_EXCEPT_SITES, sites),
                    ExcludedRanges(ALL_EXCEPT_SITES, HostText(server), sites), a)
         == if Outranks(sites, plain, a) then Bypass else if Outranks(plain, sites, a) then Tunnel else Ambiguous
  {
    hide Ranges, Routes, Longest, ExcludedRanges, SiteOk, Outranks, InSite, FromText, SitesAllowed;
    LongestRange(plain, a);
    LongestExclusion(ALL_EXCEPT_SITES, server, sites, a);
    var t := Longest(Ranges(plain), a);
    var e := Longest(ExcludedRanges(ALL_EXCEPT_SITES, HostText(server), sites), a);
    ExclusionLength(server, sites, a);
    OutranksExactly(plain, sites, a, t, e);
    OutranksExactly(sites, plain, a, e, t);
    DefaultHolds(plain, a);
  }

  lemma ExclusionLength(server: Bits, sites: seq<AddressText>, a: Bits)
    ensures Longest(ExcludedRanges(ALL_EXCEPT_SITES, HostText(server), sites), a) >= -1
  {
    hide Longest;
    LongestIsMaximum(ExcludedRanges(ALL_EXCEPT_SITES, HostText(server), sites), a);
  }

  /** A list with the defaults holds every address. */
  lemma DefaultHolds(plain: seq<AddressText>, a: Bits)
    requires SitesAllowed(plain) && |a| == 32
    ensures exists i :: 0 <= i < |plain| && InSite(plain[i], a) && FromText(plain[i]).prefixLength >= 0
  {
    assert DefaultIPs()[0] in DefaultIPs();
    var all := SubnetText(Zeros(32), 0);
    var i :| 0 <= i < |plain| && plain[i] == all;
    assert InSite(all, a) by { assert a[..0] == Zeros(32)[..0]; }
  }

  /** So a listed address can be tunnelled: its site is shorter than a range the server adds to the defaults. */
  lemma ListedAddressCanBeTunnelled(server: Bits, a: Bits)
    requires |server| == 32 && |a| == 32 && a != server
    ensures var plain, sites := DefaultIPs() + [SubnetText(a, 8)], [SubnetText(a, 5)];
            && SitesAllowed(plain) && InSites(sites, a)
            && RouteOf(AllowedRanges(plain, ALL_EXCEPT_SITES, sites),
                       ExcludedRanges(ALL_EXCEPT_SITES, HostText(server), sites), a) == Tunnel
  {
    hide RouteOf, AllowedRanges, ExcludedRanges, Outranks;
    var plain, sites := DefaultIPs() + [SubnetText(a, 8)], [SubnetText(a, 5)];
    assert plain[2] == SubnetText(a, 8) && InSite(plain[2], a);
    assert InSite(sites[0], a);
    ExclusionAgainstOwnListExactly(plain, server, sites, a);
    ShorterIsOutranked(plain, sites, a);
  }

  lemma ShorterIsOutranked(plain: seq<AddressText>, sites: seq<AddressText>, a: Bits)
    requires |plain| > 2 && plain[2] == SubnetText(a, 8) && sites == [SubnetText(a, 5)] && |a| == 32
    ensures Outranks(plain, sites, a) && !Outranks(sites, plain, a)
  {
    assert InSite(plain[2], a) && LongerThanAll(8, sites, a);
  }
}
