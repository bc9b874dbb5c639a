/**
 Make-before-break: while switchServer replaces one configuration by another,
 nothing that both of them need is ever missing from the kernel
 (client/daemon/daemon.cpp:573-598).
 */
module MakeBeforeBreak {
  import opened IpAddresses
  import opened Daemon
  import opened ExclusionLedger

  /** The exclusion route has been installed at every point of the log from `since` on. */
  ghost predicate ExclusionHeld(log: seq<Event>, since: nat, k: IpAddress) {
    since <= |log| && forall m :: since <= m <= |log| ==> k in InstalledExclusions(log[..m])
  }

  /** The tunnel route has been installed at every point of the log from `since` on. */
  ghost predicate RouteHeld(log: seq<Event>, since: nat, p: IpAddress) {
    since <= |log| && forall m :: since <= m <= |log| ==> p in InstalledRoutes(log[..m])
  }

  lemma ExclusionHeldAppend(log: seq<Event>, since: nat, k: IpAddress, e: Event)
    requires ExclusionHeld(log, since, k)
    requires !(e.DeleteExclusionRoute? && e.prefix == k)
    ensures ExclusionHeld(log + [e], since, k)
  {
    var grown := log + [e];
    assert log[..|log|] == log && grown[..|grown|] == grown;
    forall m | since <= m <= |grown| ensures k in InstalledExclusions(grown[..m]) {
      if m <= |log| {
        assert grown[..m] == log[..m];
      } else {
        assert m == |grown| && grown[..|grown|-1] == log;
      }
    }
  }

  lemma RouteHeldAppend(log: seq<Event>, since: nat, p: IpAddress, e: Event)
    requires RouteHeld(log, since, p)
    requires !(e.DeleteRoutePrefix? && e.prefix == p)
    ensures RouteHeld(log + [e], since, p)
  {
    var grown := log + [e];
    assert log[..|log|] == log && grown[..|grown|] == grown;
    forall m | since <= m <= |grown| ensures p in InstalledRoutes(grown[..m]) {
      if m <= |log| {
        assert grown[..m] == log[..m];
      } else {
        assert m == |grown| && grown[..|grown|-1] == log;
      }
    }
  }

  // ---------------------------------------------------------------- exclusion routes

  /** How often a list is removed under a given key. */
  function Removals(list: seq<AddressText>, k: IpAddress): nat {
    if list == [] then 0
    else Removals(list[..|list|-1], k) + (if RemoveKey(list[|list|-1]) == k then 1 else 0)
  }

  lemma {:induction false} RemovalsWithinOccurrences(list: seq<AddressText>, k: IpAddress)
    requires k != NULL_KEY
    ensures Removals(list, k) <= Occurrences(list, k)
  {
    if list != [] {
      RemovalsWithinOccurrences(list[..|list|-1], k);
      KeysAgreeExactlyForHosts(list[|list|-1]);
    }
  }

  /** A counted prefix is held while a list is added, whatever the kernel answers for the others. */
  lemma {:induction false} AddExclusionsHold(s: DaemonState, list: seq<AddressText>, ok: nat -> bool, n: nat,
                                             since: nat, k: IpAddress)
    requires n <= |list| && k in s.excluded && ExclusionHeld(s.log, since, k)
    ensures var t := AddExclusions(s, list, ok, n);
            k in t.excluded && t.excluded[k] == s.excluded[k] + Occurrences(list[..n], k)
            && ExclusionHeld(t.log, since, k)
  {
    if n > 0 {
      AddExclusionsHold(s, list, ok, n-1, since, k);
      var before := AddExclusions(s, list, ok, n-1);
      ExclusionHeldAppend(before.log, since, k, AddExclusionRoute(AddKey(list[n-1]), ok(n-1)));
      assert list[..n][..n-1] == list[..n-1];
    }
  }

  /** A prefix counted more often than a list removes it is held while the list is removed. */
  lemma {:induction false} DelExclusionsHold(s: DaemonState, list: seq<AddressText>, ok: nat -> bool, n: nat,
                                             since: nat, k: IpAddress)
    requires n <= |list| && k in s.excluded && ExclusionHeld(s.log, since, k)
    requires Removals(list[..n], k) < s.excluded[k]
    ensures var t := DelExclusions(s, list, ok, n);
            k in t.excluded && t.excluded[k] == s.excluded[k] - Removals(list[..n], k) && ExclusionHeld(t.log, since, k)
  {
    if n > 0 {
      assert list[..n][..n-1] == list[..n-1];
      DelExclusionsHold(s, list, ok, n-1, since, k);
      var before := DelExclusions(s, list, ok, n-1);
      var key := RemoveKey(list[n-1]);
      if key != k {
        ExclusionHeldAppend(before.log, since, k, DeleteExclusionRoute(key, ok(n-1)));
      }
    }
  }

  lemma {:induction false} UpdateRoutesHoldExclusion(s: DaemonState, list: seq<IpAddress>, ok: nat -> bool, n: nat,
                                                     since: nat, k: IpAddress)
    requires n <= |list| && ExclusionHeld(s.log, since, k)
    ensures ExclusionHeld(UpdateRoutes(s, list, ok, n).log, since, k)
    ensures UpdateRoutes(s, list, ok, n).excluded == s.excluded
  {
    if n > 0 {
      UpdateRoutesHoldExclusion(s, list, ok, n-1, since, k);
      ExclusionHeldAppend(UpdateRoutes(s, list, ok, n-1).log, since, k, UpdateRoutePrefix(list[n-1], ok(n-1)));
    }
  }

  lemma {:induction false} DeleteRoutesHoldExclusion(s: DaemonState, list: seq<IpAddress>, keep: seq<IpAddress>,
                                                     ok: nat -> bool, n: nat, since: nat, k: IpAddress)
    requires n <= |list| && ExclusionHeld(s.log, since, k)
    ensures ExclusionHeld(DeleteRoutes(s, list, keep, ok, n).log, since, k)
  {
    if n > 0 {
      DeleteRoutesHoldExclusion(s, list, keep, ok, n-1, since, k);
      ExclusionHeldAppend(DeleteRoutes(s, list, keep, ok, n-1).log, since, k, DeleteRoutePrefix(list[n-1], ok(n-1)));
    }
  }

  /**
   The step behind the theorem: a prefix that the table counts at least as often
   as the old configuration lists it, and that the new one lists again, stays
   installed at every point of the switch, whatever fails on the way.
   */
  lemma SwitchHoldsExclusion(s: DaemonState, config: InterfaceConfig, env: SwitchEnv, k: IpAddress)
    requires config.hopType in s.connections
    requires k in s.excluded && k in InstalledExclusions(s.log) && k != NULL_KEY
    requires Occurrences(s.connections[config.hopType].config.excludedAddresses, k) <= s.excluded[k]
    requires Occurrences(config.excludedAddresses, k) > 0
    ensures ExclusionHeld(SwitchServer(s, config, env).0.log, |s.log|, k)
  {
    var last := s.connections[config.hopType].config;
    var since := |s.log|;
    assert s.log[..since] == s.log;
    var news, olds := config.excludedAddresses, last.excludedAddresses;
    AddExclusionsHold(s, news, env.addExclusion, |news|, since, k);
    assert news[..|news|] == news && olds[..|olds|] == olds;
    var added := AddExclusions(s, news, env.addExclusion, |news|);
    var peered := added.Logged(UpdatePeer(config.serverPublicKey, env.updatePeer));
    ExclusionHeldAppend(added.log, since, k, UpdatePeer(config.serverPublicKey, env.updatePeer));
    UpdateRoutesHoldExclusion(peered, config.allowedIPAddressRanges, env.updateRoute, |config.allowedIPAddressRanges|,
                              since, k);
    var made := SwitchMake(s, config, env);
    RemovalsWithinOccurrences(olds, k);
    DelExclusionsHold(made, olds, env.delExclusion, |olds|, since, k);
    DeleteRoutesHoldExclusion(DelExclusions(made, olds, env.delExclusion, |olds|), last.allowedIPAddressRanges,
                              config.allowedIPAddressRanges, env.delRoute, |last.allowedIPAddressRanges|, since, k);
    var broken := SwitchBreak(made, last, config, env);
    var unpeered := broken.Logged(DeletePeer(last.serverPublicKey, env.deletePeer));
    ExclusionHeldAppend(broken.log, since, k, DeletePeer(last.serverPublicKey, env.deletePeer));
    ExclusionHeldAppend(broken.log, since, k, Installed(config.hopType));
    ExclusionHeldAppend(unpeered.log, since, k, Installed(config.hopType));
  }

  /**
   In every state a run can reach, an exclusion listed by both the old and the
   new configuration stays installed at every intermediate point of a switch,
   whatever the duplicates and the order in the two lists and whatever backend
   calls of the switch fail.
   */
  lemma SharedExclusionNeverGoes(steps: seq<Step>, config: InterfaceConfig, env: SwitchEnv, i: nat, j: nat)
    requires Legal(steps) && ExclusionCallsAlwaysSucceed(steps)
    requires config.hopType in Exec(steps).connections
    requires i < |config.excludedAddresses|
    requires j < |Exec(steps).connections[config.hopType].config.excludedAddresses|
    requires config.excludedAddresses[i] == Exec(steps).connections[config.hopType].config.excludedAddresses[j]
    ensures ExclusionHeld(SwitchServer(Exec(steps), config, env).0.log, |Exec(steps).log|,
                          AddKey(config.excludedAddresses[i]))
  {
    var s := Exec(steps);
    var olds := s.connections[config.hopType].config.excludedAddresses;
    var k := AddKey(config.excludedAddresses[i]);
    KeysAgreeExactlyForHosts(config.excludedAddresses[i]);
    OccurrencesOfMember(config.excludedAddresses, i);
    OccurrencesOfMember(olds, j);
    RunsConserveExclusions(steps);
    HopWithinLive(s, config.hopType, k);
    assert Count(s, k) == Live(s, k) + Occurrences(Orphans(steps), k);
    SwitchHoldsExclusion(s, config, env, k);
  }

  // ---------------------------------------------------------------- tunnel routes

  lemma {:induction false} UpdateRoutesHold(s: DaemonState, list: seq<IpAddress>, ok: nat -> bool, n: nat, since: nat,
                                            p: IpAddress)
    requires n <= |list| && RouteHeld(s.log, since, p)
    ensures RouteHeld(UpdateRoutes(s, list, ok, n).log, since, p)
  {
    if n > 0 {
      UpdateRoutesHold(s, list, ok, n-1, since, p);
      RouteHeldAppend(UpdateRoutes(s, list, ok, n-1).log, since, p, UpdateRoutePrefix(list[n-1], ok(n-1)));
    }
  }

  lemma {:induction false} DeleteRoutesHold(s: DaemonState, list: seq<IpAddress>, keep: seq<IpAddress>,
                                            ok: nat -> bool, n: nat, since: nat, p: IpAddress)
    requires n <= |list| && RouteHeld(s.log, since, p) && p in keep
    ensures RouteHeld(DeleteRoutes(s, list, keep, ok, n).log, since, p)
  {
    if n > 0 {
      DeleteRoutesHold(s, list, keep, ok, n-1, since, p);
      if list[n-1] != p {
        RouteHeldAppend(DeleteRoutes(s, list, keep, ok, n-1).log, since, p, DeleteRoutePrefix(list[n-1], ok(n-1)));
      }
    }
  }

  lemma {:induction false} ExclusionsHoldRoute(s: DaemonState, list: seq<AddressText>, ok: nat -> bool, n: nat,
                                               since: nat, p: IpAddress)
    requires n <= |list| && RouteHeld(s.log, since, p)
    ensures RouteHeld(AddExclusions(s, list, ok, n).log, since, p)
    ensures RouteHeld(DelExclusions(s, list, ok, n).log, since, p)
  {
    if n > 0 {
      ExclusionsHoldRoute(s, list, ok, n-1, since, p);
      RouteHeldAppend(AddExclusions(s, list, ok, n-1).log, since, p, AddExclusionRoute(AddKey(list[n-1]), ok(n-1)));
      RouteHeldAppend(DelExclusions(s, list, ok, n-1).log, since, p,
                      DeleteExclusionRoute(RemoveKey(list[n-1]), ok(n-1)));
    }
  }

  /**
   An installed tunnel route that the new configuration wants stays installed
   at every point of the switch, whatever fails and whatever the old one lists.
   */
  lemma SharedRouteNeverGoes(s: DaemonState, config: InterfaceConfig, env: SwitchEnv, p: IpAddress)
    requires config.hopType in s.connections
    requires p in InstalledRoutes(s.log) && p in config.allowedIPAddressRanges
    ensures RouteHeld(SwitchServer(s, config, env).0.log, |s.log|, p)
  {
    var last := s.connections[config.hopType].config;
    var since := |s.log|;
    assert s.log[..since] == s.log;
    var news, olds := config.excludedAddresses, last.excludedAddresses;
    ExclusionsHoldRoute(s, news, env.addExclusion, |news|, since, p);
    var added := AddExclusions(s, news, env.addExclusion, |news|);
    var peered := added.Logged(UpdatePeer(config.serverPublicKey, env.updatePeer));
    RouteHeldAppend(added.log, since, p, UpdatePeer(config.serverPublicKey, env.updatePeer));
    UpdateRoutesHold(peered, config.allowedIPAddressRanges, env.updateRoute, |config.allowedIPAddressRanges|, since, p);
    var made := SwitchMake(s, config, env);
    ExclusionsHoldRoute(made, olds, env.delExclusion, |olds|, since, p);
    DeleteRoutesHold(DelExclusions(made, olds, env.delExclusion, |olds|), last.allowedIPAddressRanges,
                     config.allowedIPAddressRanges, env.delRoute, |last.allowedIPAddressRanges|, since, p);
    var broken := SwitchBreak(made, last, config, env);
    var unpeered := broken.Logged(DeletePeer(last.serverPublicKey, env.deletePeer));
    RouteHeldAppend(broken.log, since, p, DeletePeer(last.serverPublicKey, env.deletePeer));
    RouteHeldAppend(broken.log, since, p, Installed(config.hopType));
    RouteHeldAppend(unpeered.log, since, p, Installed(config.hopType));
  }

  // ---------------------------------------------------------------- the break half

  lemma LoggedRoutes(log: seq<Event>, e: Event)
    ensures InstalledRoutes(log + [e]) ==
            if e.UpdateRoutePrefix? && e.ok then InstalledRoutes(log) + {e.prefix}
            else if e.DeleteRoutePrefix? && e.ok then InstalledRoutes(log) - {e.prefix}
            else InstalledRoutes(log)
  {
    assert (log + [e])[..|log|] == log;
  }

  lemma {:induction false} ExclusionsKeepRoutes(s: DaemonState, list: seq<AddressText>, ok: nat -> bool, n: nat)
    requires n <= |list|
    ensures InstalledRoutes(AddExclusions(s, list, ok, n).log) == InstalledRoutes(s.log)
    ensures InstalledRoutes(DelExclusions(s, list, ok, n).log) == InstalledRoutes(s.log)
  {
    hide InstalledRoutes, AddKey, RemoveKey;
    if n > 0 {
      ExclusionsKeepRoutes(s, list, ok, n-1);
      LoggedRoutes(AddExclusions(s, list, ok, n-1).log, AddExclusionRoute(AddKey(list[n-1]), ok(n-1)));
      LoggedRoutes(DelExclusions(s, list, ok, n-1).log, DeleteExclusionRoute(RemoveKey(list[n-1]), ok(n-1)));
    }
  }

  lemma {:induction false} UpdateRoutesInstalls(s: DaemonState, list: seq<IpAddress>, ok: nat -> bool, n: nat)
    requires n <= |list| && AllOk(ok, n)
    ensures InstalledRoutes(UpdateRoutes(s, list, ok, n).log) == InstalledRoutes(s.log) + set p | p in list[..n]
  {
    hide InstalledRoutes;
    if n > 0 {
      UpdateRoutesInstalls(s, list, ok, n-1);
      LoggedRoutes(UpdateRoutes(s, list, ok, n-1).log, UpdateRoutePrefix(list[n-1], ok(n-1)));
      assert list[..n] == list[..n-1] + [list[n-1]];
    }
  }

  lemma {:induction false} DeleteRoutesUninstalls(s: DaemonState, list: seq<IpAddress>, keep: seq<IpAddress>,
                                                  ok: nat -> bool, n: nat)
    requires n <= |list| && AllOk(ok, n)
    ensures InstalledRoutes(DeleteRoutes(s, list, keep, ok, n).log)
         == InstalledRoutes(s.log) - set p | p in list[..n] && p !in keep
  {
    hide InstalledRoutes;
    if n > 0 {
      DeleteRoutesUninstalls(s, list, keep, ok, n-1);
      LoggedRoutes(DeleteRoutes(s, list, keep, ok, n-1).log, DeleteRoutePrefix(list[n-1], ok(n-1)));
      assert list[..n] == list[..n-1] + [list[n-1]];
    }
  }

  /** With no route failure a switch adds the new prefixes and removes exactly the ones only the old list has. */
  lemma SwitchRoutesExactly(s: DaemonState, config: InterfaceConfig, env: SwitchEnv)
    requires config.hopType in s.connections && env.updatePeer
    requires AllOk(env.updateRoute, |config.allowedIPAddressRanges|)
    requires AllOk(env.delRoute, |s.connections[config.hopType].config.allowedIPAddressRanges|)
    ensures InstalledRoutes(SwitchServer(s, config, env).0.log)
         == InstalledRoutes(s.log) + (set p | p in config.allowedIPAddressRanges)
          - (set p | p in s.connections[config.hopType].config.allowedIPAddressRanges
                     && p !in config.allowedIPAddressRanges)
  {
    var last := s.connections[config.hopType].config;
    var news, olds := config.allowedIPAddressRanges, last.allowedIPAddressRanges;
    assert news[..|news|] == news && olds[..|olds|] == olds;
    var added := AddExclusions(s, config.excludedAddresses, env.addExclusion, |config.excludedAddresses|);
    ExclusionsKeepRoutes(s, config.excludedAddresses, env.addExclusion, |config.excludedAddresses|);
    var peered := added.Logged(UpdatePeer(config.serverPublicKey, true));
    LoggedRoutes(added.log, UpdatePeer(config.serverPublicKey, true));
    UpdateRoutesInstalls(peered, news, env.updateRoute, |news|);
    var made := SwitchMake(s, config, env);
    ExclusionsKeepRoutes(made, last.excludedAddresses, env.delExclusion, |last.excludedAddresses|);
    DeleteRoutesUninstalls(DelExclusions(made, last.excludedAddresses, env.delExclusion, |last.excludedAddresses|),
                           olds, news, env.delRoute, |olds|);
    var broken := SwitchBreak(made, last, config, env);
    var unpeered := broken.Logged(DeletePeer(last.serverPublicKey, env.deletePeer));
    LoggedRoutes(broken.log, DeletePeer(last.serverPublicKey, env.deletePeer));
    LoggedRoutes(broken.log, Installed(config.hopType));
    LoggedRoutes(unpeered.log, Installed(config.hopType));
  }

  /**
   Tunnel routes are not reference-counted: a switch of one hop keeps an
   installed prefix of another hop if and only if it is not a prefix that the
   switched hop gives up.
   */
  lemma OtherHopKeepsRouteExactly(s: DaemonState, config: InterfaceConfig, env: SwitchEnv, other: HopType, p: IpAddress)
    requires config.hopType in s.connections && other in s.connections && other != config.hopType && env.updatePeer
    requires AllOk(env.updateRoute, |config.allowedIPAddressRanges|)
    requires AllOk(env.delRoute, |s.connections[config.hopType].config.allowedIPAddressRanges|)
    requires p in s.connections[other].config.allowedIPAddressRanges && p in InstalledRoutes(s.log)
    ensures p in InstalledRoutes(SwitchServer(s, config, env).0.log)
       <==> (p in s.connections[config.hopType].config.allowedIPAddressRanges ==> p in config.allowedIPAddressRanges)
  {
    SwitchRoutesExactly(s, config, env);
  }
}
