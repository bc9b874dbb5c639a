/**
 What failing calls do to the counts of the exclusion routes, and when the table
 still covers what the live configurations list
 (client/daemon/daemon.cpp:160-163, 238-258, 573-594).
 */
module ExclusionFailures {
  import opened IpAddresses
  import opened Daemon
  import opened ExclusionLedger
  import opened MakeBeforeBreak

  /** The table counts every prefix at least as often as the live configurations list it. */
  ghost predicate Covers(s: DaemonState) { forall k :: Live(s, k) <= Count(s, k) }

  /** Counts are positive, and the key that only removals use is not counted. */
  predicate Positive(s: DaemonState) { (forall k :: k in s.excluded ==> s.excluded[k] > 0) && NULL_KEY !in s.excluded }

  // ---------------------------------------------------------------- adding a list

  /** How many of the first n entries for a prefix are counted: all once it is in the table, none before. */
  function Counted(present: bool, list: seq<AddressText>, ok: nat -> bool, n: nat, k: IpAddress): nat
    requires n <= |list|
  {
    if n == 0 then 0 else
    var before := Counted(present, list, ok, n-1, k);
    if AddKey(list[n-1]) == k && (present || before > 0 || ok(n-1)) then before + 1 else before
  }

  lemma CountAfterAdding(s: DaemonState, p: IpAddress, ok: bool, k: IpAddress)
    requires Positive(s) && p != NULL_KEY
    ensures var t := AddExclusion(s, p, ok);
            && Positive(t)
            && Count(t, k) == Count(s, k) + (if k == p && (p in s.excluded || ok) then 1 else 0)
            && (k in t.excluded <==> k in s.excluded || (k == p && ok))
  {
  }

  lemma {:induction false} CountAfterAddingAll(s: DaemonState, list: seq<AddressText>, ok: nat -> bool, n: nat,
                                               k: IpAddress)
    requires Positive(s) && n <= |list|
    ensures var t, counted := AddExclusions(s, list, ok, n), Counted(k in s.excluded, list, ok, n, k);
            && Positive(t) && Count(t, k) == Count(s, k) + counted
            && (k in t.excluded <==> k in s.excluded || counted > 0)
  {
    hide AddExclusion, Positive, Count, AddKey;
    if n > 0 {
      CountAfterAddingAll(s, list, ok, n-1, k);
      KeysAgreeExactlyForHosts(list[n-1]);
      CountAfterAdding(AddExclusions(s, list, ok, n-1), AddKey(list[n-1]), ok(n-1), k);
    }
  }

  /** The call for the first entry of a prefix among the first n succeeds. */
  predicate FirstAddOk(list: seq<AddressText>, ok: nat -> bool, n: nat, k: IpAddress)
    requires n <= |list|
  {
    forall i: nat :: i < n && IsFirst(list, i, k) ==> ok(i)
  }

  predicate IsFirst(list: seq<AddressText>, i: nat, k: IpAddress)
    requires i < |list|
  {
    AddKey(list[i]) == k && forall j :: 0 <= j < i ==> AddKey(list[j]) != k
  }

  lemma {:induction false} NoneBefore(list: seq<AddressText>, n: nat, k: IpAddress)
    requires n <= |list|
    ensures Occurrences(list[..n], k) == 0 <==> forall j :: 0 <= j < n ==> AddKey(list[j]) != k
  {
    hide AddKey;
    if n > 0 {
      NoneBefore(list, n-1, k);
      assert list[..n][..n-1] == list[..n-1];
    }
  }

  /** Every entry of a prefix is counted if and only if it was in the table or its first call succeeds. */
  lemma {:induction false} AllCountedExactly(present: bool, list: seq<AddressText>, ok: nat -> bool, n: nat,
                                             k: IpAddress)
    requires n <= |list|
    ensures Counted(present, list, ok, n, k) <= Occurrences(list[..n], k)
    ensures Counted(present, list, ok, n, k) == Occurrences(list[..n], k) <==> present || FirstAddOk(list, ok, n, k)
  {
    hide AddKey;
    if n > 0 {
      AllCountedExactly(present, list, ok, n-1, k);
      NoneBefore(list, n-1, k);
      assert list[..n][..n-1] == list[..n-1];
      assert FirstAddOk(list, ok, n, k) <==> FirstAddOk(list, ok, n-1, k) && (IsFirst(list, n-1, k) ==> ok(n-1));
    }
  }

  /** The first call for every prefix that is not in the table yet succeeds. */
  predicate FirstAddsSucceed(table: map<IpAddress, int>, list: seq<AddressText>, ok: nat -> bool) {
    forall i: nat :: i < |list| && AddKey(list[i]) !in table && IsFirst(list, i, AddKey(list[i])) ==> ok(i)
  }

  lemma FirstAddsSucceedFor(table: map<IpAddress, int>, list: seq<AddressText>, ok: nat -> bool, k: IpAddress)
    requires FirstAddsSucceed(table, list, ok)
    ensures k in table || FirstAddOk(list, ok, |list|, k)
  {
  }

  // ---------------------------------------------------------------- removing a list

  lemma CountAfterRemoving(s: DaemonState, p: IpAddress, ok: bool, k: IpAddress)
    requires Positive(s)
    ensures var t := DelExclusion(s, p, ok);
            Positive(t) && Count(t, k) == if k == p && Count(s, k) > 0 then Count(s, k) - 1 else Count(s, k)
  {
  }

  /** Removals count down to zero, whatever the kernel answers. */
  lemma {:induction false} CountAfterRemovingAll(s: DaemonState, list: seq<AddressText>, ok: nat -> bool, n: nat,
                                                 k: IpAddress)
    requires Positive(s) && n <= |list|
    ensures var t, left := DelExclusions(s, list, ok, n), Count(s, k) - Removals(list[..n], k);
            Positive(t) && Count(t, k) == if left > 0 then left else 0
  {
    hide DelExclusion, Positive, RemoveKey;
    NotNegative(s, k);
    if n > 0 {
      CountAfterRemovingAll(s, list, ok, n-1, k);
      assert list[..n][..n-1] == list[..n-1];
      CountAfterRemoving(DelExclusions(s, list, ok, n-1), RemoveKey(list[n-1]), ok(n-1), k);
    }
  }

  lemma NotNegative(s: DaemonState, k: IpAddress)
    requires Positive(s)
    ensures Count(s, k) >= 0 && (Count(s, k) > 0 <==> k in s.excluded) && (k in s.excluded ==> k != NULL_KEY)
  {
  }

  // ---------------------------------------------------------------- bringing a hop up

  lemma SameTableSameCounts(s: DaemonState, t: DaemonState)
    requires SameTable(s, t)
    ensures Positive(s) == Positive(t) && forall k :: Count(t, k) == Count(s, k)
  {
    hide InstalledExclusions;
  }

  lemma SameDemandCovers(s: DaemonState, t: DaemonState)
    requires SameDemand(s, t)
    ensures Covers(s) == Covers(t) && Positive(s) == Positive(t)
  {
    hide InstalledExclusions, Occurrences;
    assert forall k :: Count(t, k) == Count(s, k) && Live(t, k) == Live(s, k);
  }

  /** Adding the exclusions of a configuration and putting it into the map keeps the table covering exactly then. */
  lemma AddedCoversExactly(s: DaemonState, list: seq<AddressText>, ok: nat -> bool, t: DaemonState)
    requires Covers(s) && Positive(s) && SameTable(AddExclusions(s, list, ok, |list|), t)
    requires forall k :: Live(t, k) == Live(s, k) + Occurrences(list, k)
    ensures Positive(t) && (Covers(t) <==> FirstAddsSucceed(s.excluded, list, ok))
  {
    hide AddExclusions, InstalledExclusions, Live, Occurrences, Positive, FirstAddOk;
    AddedIsPositive(s, list, ok);
    SameTableSameCounts(AddExclusions(s, list, ok, |list|), t);
    assert list[..|list|] == list;
    if FirstAddsSucceed(s.excluded, list, ok) {
      forall k ensures Live(t, k) <= Count(t, k) {
        CountAfterAddingAll(s, list, ok, |list|, k);
        AllCountedExactly(k in s.excluded, list, ok, |list|, k);
        FirstAddsSucceedFor(s.excluded, list, ok, k);
        assert Live(s, k) <= Count(s, k);
      }
    } else {
      var i: nat :| i < |list| && AddKey(list[i]) !in s.excluded && IsFirst(list, i, AddKey(list[i])) && !ok(i);
      var k := AddKey(list[i]);
      CountAfterAddingAll(s, list, ok, |list|, k);
      AllCountedExactly(false, list, ok, |list|, k);
      FailedFirst(list, ok, i, k);
      assert Live(s, k) <= Count(s, k) == 0;
      assert Live(t, k) > Count(t, k);
    }
  }

  lemma FailedFirst(list: seq<AddressText>, ok: nat -> bool, i: nat, k: IpAddress)
    requires i < |list| && IsFirst(list, i, k) && !ok(i)
    ensures !FirstAddOk(list, ok, |list|, k)
  {
  }

  lemma AddedIsPositive(s: DaemonState, list: seq<AddressText>, ok: nat -> bool)
    requires Positive(s)
    ensures Positive(AddExclusions(s, list, ok, |list|))
  {
    CountAfterAddingAll(s, list, ok, |list|, NULL_KEY);
  }

  /** Adding without installing only raises counts. */
  lemma AddedStillCovers(s: DaemonState, list: seq<AddressText>, ok: nat -> bool, t: DaemonState)
    requires Covers(s) && Positive(s) && SameTable(AddExclusions(s, list, ok, |list|), t)
    requires t.connections == s.connections
    ensures Positive(t) && Covers(t)
  {
    hide AddExclusions, InstalledExclusions, Occurrences, Positive;
    AddedIsPositive(s, list, ok);
    SameTableSameCounts(AddExclusions(s, list, ok, |list|), t);
    forall k ensures Live(t, k) <= Count(t, k) {
      CountAfterAddingAll(s, list, ok, |list|, k);
      assert Live(s, k) <= Count(s, k);
    }
  }

  lemma BringUpCoversExactly(s: DaemonState, config: InterfaceConfig, env: UpEnv)
    requires Covers(s) && Positive(s) && config.hopType !in s.connections
    ensures var t := BringUp(s, config, env).0;
            Positive(t) && (Covers(t) <==>
            (InterfaceReady(env) && PeerReady(config, env) ==>
             FirstAddsSucceed(s.excluded, config.excludedAddresses, env.addExclusion)))
  {
    hide InstalledExclusions, BringUp, AddExclusions, FirstAddsSucceed, Covers, Positive, Occurrences;
    var t, list := BringUp(s, config, env).0, config.excludedAddresses;
    if InterfaceReady(env) {
      BringUpAfterExclusions(s, config, env);
      if PeerReady(config, env) {
        forall k ensures Live(t, k) == Live(s, k) + Occurrences(list, k) { InstallLive(s, config, k); }
        AddedCoversExactly(s, list, env.addExclusion, t);
      } else {
        AddedStillCovers(s, list, env.addExclusion, t);
      }
    } else {
      UnreadyBringUp(s, config, env);
      SameDemandCovers(s, t);
    }
  }

  // ---------------------------------------------------------------- switching

  /** A switch that keeps the old configuration has not removed more than the counts allow. */
  ghost predicate KeptIsCovered(s: DaemonState, config: InterfaceConfig)
    requires config.hopType in s.connections
  {
    var olds := s.connections[config.hopType].config.excludedAddresses;
    forall k :: k in s.excluded ==>
      Live(s, k) + Removals(olds, k) <= Count(s, k) + Occurrences(config.excludedAddresses, k)
  }

  /** The counts after a switch whose peer update succeeded, whatever else fails. */
  lemma CountAfterSwitch(s: DaemonState, config: InterfaceConfig, env: SwitchEnv, k: IpAddress)
    requires Positive(s) && config.hopType in s.connections && env.updatePeer
    ensures var olds, news := s.connections[config.hopType].config.excludedAddresses, config.excludedAddresses;
            var t := SwitchServer(s, config, env).0;
            var left := Count(s, k) + Counted(k in s.excluded, news, env.addExclusion, |news|, k) - Removals(olds, k);
            Positive(t) && Count(t, k) == if left > 0 then left else 0
  {
    hide AddExclusions, DelExclusions, SwitchMake, SwitchBreak, SwitchServer, InstalledExclusions, Counted, Removals;
    var last := s.connections[config.hopType].config;
    var olds, news := last.excludedAddresses, config.excludedAddresses;
    var made := SwitchMake(s, config, env);
    SwitchMakeTable(s, config, env);
    CountAfterAddingAll(s, news, env.addExclusion, |news|, k);
    SameTableSameCounts(AddExclusions(s, news, env.addExclusion, |news|), made);
    CountAfterRemovingAll(made, olds, env.delExclusion, |olds|, k);
    assert olds[..|olds|] == olds;
    SwitchBreakTable(made, last, config, env);
    var broken := SwitchBreak(made, last, config, env);
    SameTableSameCounts(DelExclusions(made, olds, env.delExclusion, |olds|), broken);
    SwitchTail(s, config, env);
    SameTableSameCounts(broken, SwitchServer(s, config, env).0);
  }

  /** What a prefix outside the table means for a covered state: nobody lists it. */
  lemma UncountedIsUnlisted(s: DaemonState, hop: HopType, k: IpAddress)
    requires Covers(s) && Positive(s) && hop in s.connections
    ensures k !in s.excluded ==> Live(s, k) == 0
    ensures Occurrences(s.connections[hop].config.excludedAddresses, k) <= Live(s, k)
    ensures k != NULL_KEY ==>
              Removals(s.connections[hop].config.excludedAddresses, k)
              <= Occurrences(s.connections[hop].config.excludedAddresses, k)
  {
    hide Occurrences, Removals;
    assert Live(s, k) <= Count(s, k);
    HopWithinLive(s, hop, k);
    if k != NULL_KEY { RemovalsWithinOccurrences(s.connections[hop].config.excludedAddresses, k); }
  }

  lemma InstallingSwitchCoversExactly(s: DaemonState, config: InterfaceConfig, env: SwitchEnv)
    requires Covers(s) && Positive(s) && config.hopType in s.connections && SwitchInstalls(s, config, env)
    ensures var t := SwitchServer(s, config, env).0;
            Covers(t) <==> FirstAddsSucceed(s.excluded, config.excludedAddresses, env.addExclusion)
  {
    hide SwitchServer, Occurrences, Removals, Counted, FirstAddOk, Positive;
    var t := SwitchServer(s, config, env).0;
    var olds, news := s.connections[config.hopType].config.excludedAddresses, config.excludedAddresses;
    SwitchConnections(s, config, env);
    assert news[..|news|] == news;
    if FirstAddsSucceed(s.excluded, news, env.addExclusion) {
      forall k ensures Live(t, k) <= Count(t, k) {
        AfterInstall(s, config, env, k);
        FirstAddsSucceedFor(s.excluded, news, env.addExclusion, k);
      }
    } else {
      var i: nat :| i < |news| && AddKey(news[i]) !in s.excluded
                    && IsFirst(news, i, AddKey(news[i])) && !env.addExclusion(i);
      var k := AddKey(news[i]);
      AfterInstall(s, config, env, k);
      FailedFirst(news, env.addExclusion, i, k);
      assert Live(t, k) > Count(t, k);
    }
  }

  /** Demand and count of one prefix after a switch that installs: level exactly if all its new entries are counted. */
  lemma AfterInstall(s: DaemonState, config: InterfaceConfig, env: SwitchEnv, k: IpAddress)
    requires Covers(s) && Positive(s) && config.hopType in s.connections && SwitchInstalls(s, config, env)
    ensures var t, news := SwitchServer(s, config, env).0, config.excludedAddresses;
            Live(t, k) <= Count(t, k) <==> k in s.excluded || FirstAddOk(news, env.addExclusion, |news|, k)
  {
    hide SwitchServer, Occurrences, Removals, Counted, FirstAddOk, Positive;
    var t := SwitchServer(s, config, env).0;
    var olds, news := s.connections[config.hopType].config.excludedAddresses, config.excludedAddresses;
    SwitchConnections(s, config, env);
    CountAfterSwitch(s, config, env, k);
    InstallLive(s, config, k);
    assert Live(t, k) == Live(s, k) - Occurrences(olds, k) + Occurrences(news, k);
    assert news[..|news|] == news;
    AllCountedExactly(k in s.excluded, news, env.addExclusion, |news|, k);
    UncountedIsUnlisted(s, config.hopType, k);
    NotNegative(s, k);
    NoNullDemand(news, k);
    assert Live(s, k) <= Count(s, k);
  }

  lemma {:induction false} NoNullDemand(list: seq<AddressText>, k: IpAddress)
    ensures k == NULL_KEY ==> Occurrences(list, k) == 0
  {
    if list != [] {
      NoNullDemand(list[..|list|-1], k);
      KeysAgreeExactlyForHosts(list[|list|-1]);
    }
  }

  lemma KeepingSwitchCoversExactly(s: DaemonState, config: InterfaceConfig, env: SwitchEnv)
    requires Covers(s) && Positive(s) && config.hopType in s.connections
    requires env.updatePeer && !SwitchInstalls(s, config, env)
    ensures Covers(SwitchServer(s, config, env).0) <==> KeptIsCovered(s, config)
  {
    hide SwitchServer, Occurrences, Removals, Counted, Positive, FirstAddOk;
    var t := SwitchServer(s, config, env).0;
    var olds, news := s.connections[config.hopType].config.excludedAddresses, config.excludedAddresses;
    SwitchConnections(s, config, env);
    assert news[..|news|] == news;
    forall k ensures Live(t, k) <= Count(t, k) <==>
        (k in s.excluded ==> Live(s, k) + Removals(olds, k) <= Count(s, k) + Occurrences(news, k))
    {
      CountAfterSwitch(s, config, env, k);
      AllCountedExactly(k in s.excluded, news, env.addExclusion, |news|, k);
      UncountedIsUnlisted(s, config.hopType, k);
      NotNegative(s, k);
      NotNegative(t, k);
      assert Live(t, k) == Live(s, k) <= Count(s, k);
    }
  }

  // ---------------------------------------------------------------- every step

  /** When the table covers the live configurations after a step, said before it. */
  ghost predicate CoversAfter(s: DaemonState, step: Step) {
    match step
    case ActivateStep(config, env) =>
      var list := config.excludedAddresses;
      if config.hopType !in s.connections then
        InterfaceReady(env.up) && PeerReady(config, env.up) ==> FirstAddsSucceed(s.excluded, list, env.up.addExclusion)
      else if !SupportsSwitching(s, config) then
        env.down.run && env.down.deleteInterface && InterfaceReady(env.up) && PeerReady(config, env.up) ==>
          FirstAddsSucceed(map[], list, env.up.addExclusion)
      else if SwitchInstalls(s, config, env.switching) then
        FirstAddsSucceed(s.excluded, list, env.switching.addExclusion)
      else env.switching.updatePeer ==> KeptIsCovered(s, config)
    case _ => true
  }

  lemma SwitchCoversExactly(s: DaemonState, config: InterfaceConfig, env: ActivateEnv)
    requires Covers(s) && Positive(s) && config.hopType in s.connections
    ensures var t, list := ActivateBySwitch(s, config, env).0, config.excludedAddresses;
            Positive(t) && (Covers(t) <==>
            (if SwitchInstalls(s, config, env.switching) then
               FirstAddsSucceed(s.excluded, list, env.switching.addExclusion)
             else env.switching.updatePeer ==> KeptIsCovered(s, config)))
  {
    hide SwitchServer, InstalledExclusions, Occurrences, FirstAddsSucceed, KeptIsCovered, Covers, Positive, Count, Live;
    var switched := SwitchServer(s, config, env.switching).0;
    AfterwardsSameDemand(s, config, env);
    SameDemandCovers(switched, ActivateBySwitch(s, config, env).0);
    if env.switching.updatePeer {
      CountAfterSwitch(s, config, env.switching, NULL_KEY);
      if SwitchInstalls(s, config, env.switching) {
        InstallingSwitchCoversExactly(s, config, env.switching);
      } else {
        KeepingSwitchCoversExactly(s, config, env.switching);
      }
    } else {
      SwitchMakeTable(s, config, env.switching);
      AbortedIsMade(s, config, env.switching);
      AddedStillCovers(s, config.excludedAddresses, env.switching.addExclusion, switched);
    }
  }

  lemma AbortedIsMade(s: DaemonState, config: InterfaceConfig, env: SwitchEnv)
    requires config.hopType in s.connections && !env.updatePeer
    ensures SwitchServer(s, config, env).0 == SwitchMake(s, config, env)
  {
  }

  /** What activate does after switchServer changes no demand. */
  lemma AfterwardsSameDemand(s: DaemonState, config: InterfaceConfig, env: ActivateEnv)
    requires config.hopType in s.connections
    ensures SameDemand(SwitchServer(s, config, env.switching).0, ActivateBySwitch(s, config, env).0)
  {
    hide SwitchServer, InstalledExclusions;
    ActivateAfterSwitch(s, config, env);
    SwitchConnections(s, config, env.switching);
  }

  lemma EmptyCovers(s: DaemonState)
    requires s.connections == map[] && s.excluded == map[]
    ensures Covers(s) && Positive(s)
  {
  }

  lemma DeactivateCovers(s: DaemonState, emitSignals: bool, env: DownEnv)
    requires Covers(s) && Positive(s)
    ensures var t := Deactivate(s, emitSignals, env).0;
            && Covers(t) && Positive(t)
            && (s.connections != map[] && !env.run ==> !Deactivate(s, emitSignals, env).1)
            && (s.connections == map[] || env.run ==>
                  t.connections == map[] && t.excluded == map[]
                  && Deactivate(s, emitSignals, env).1 == env.deleteInterface)
  {
    hide DropHops, DropExclusions, Covers, Positive;
    var t := Deactivate(s, emitSignals, env).0;
    if s.connections != map[] && !env.run {
      SameDemandCovers(s, t);
    } else {
      EmptyCovers(t);
    }
  }

  lemma RebuildCoversExactly(s: DaemonState, config: InterfaceConfig, env: ActivateEnv)
    requires Covers(s) && Positive(s) && config.hopType in s.connections && !SupportsSwitching(s, config)
    ensures var t := Activate(s, config, env).0;
            Positive(t) && (Covers(t) <==>
            (env.down.run && env.down.deleteInterface && InterfaceReady(env.up) && PeerReady(config, env.up) ==>
             FirstAddsSucceed(map[], config.excludedAddresses, env.up.addExclusion)))
  {
    hide Deactivate, BringUp, Covers, Positive, FirstAddsSucceed, InstalledExclusions;
    DeactivateCovers(s, false, env.down);
    var (down, ok) := Deactivate(s, false, env.down);
    LoggedSameDemand(down, ActivationFailure);
    SameDemandCovers(down, down.Logged(ActivationFailure));
    if ok {
      BringUpCoversExactly(down, config, env.up);
      var up := BringUp(down, config, env.up).0;
      LoggedSameDemand(up, ActivationFailure);
      SameDemandCovers(up, up.Logged(ActivationFailure));
    }
  }

  lemma LoggedSameDemand(s: DaemonState, e: Event)
    requires !e.AddExclusionRoute? && !e.DeleteExclusionRoute?
    ensures SameDemand(s, s.Logged(e))
  {
    hide InstalledExclusions;
    LoggedKeepsTable(s, e);
  }

  /**
   A step keeps the table covering what the live configurations list if and only
   if that can be told beforehand: when a configuration goes into the map, the
   first call for each of its prefixes that was not in the table succeeded; and
   when a switch keeps the old one, it has not removed more than the counts allow.
   */
  lemma StepCoversExactly(s: DaemonState, step: Step)
    requires Covers(s) && Positive(s)
    ensures Positive(Next(s, step)) && (Covers(Next(s, step)) <==> CoversAfter(s, step))
  {
    hide Covers, Positive, BringUp, ActivateBySwitch, Deactivate, CheckHandshake, LivenessHops, FirstAddsSucceed,
         KeptIsCovered;
    match step
    case ActivateStep(config, env) =>
      if config.hopType !in s.connections {
        BringUpCoversExactly(s, config, env.up);
      } else if SupportsSwitching(s, config) {
        SwitchCoversExactly(s, config, env);
      } else {
        RebuildCoversExactly(s, config, env);
      }
    case DeactivateStep(emitSignals, env) => DeactivateCovers(s, emitSignals, env);
    case HandshakeStep(peers) =>
      HandshakeKeepsDemand(s, peers);
      SameDemandCovers(s, CheckHandshake(s, peers));
    case LivenessStep(r) =>
      LivenessHopsKeepDemand(s, r, |HOPS|);
      SameDemandCovers(s, CheckLiveness(s, r));
  }

  // ---------------------------------------------------------------- whole runs

  ghost predicate CoveringRun(steps: seq<Step>) {
    steps == [] || (CoveringRun(steps[..|steps|-1]) && CoversAfter(Exec(steps[..|steps|-1]), steps[|steps|-1]))
  }

  lemma {:induction false} RunsKeepCovering(steps: seq<Step>)
    requires CoveringRun(steps)
    ensures Covers(Exec(steps)) && Positive(Exec(steps))
  {
    hide Next, CoversAfter, Covers, Positive;
    if steps == [] {
      EmptyCovers(INITIAL);
    } else {
      RunsKeepCovering(steps[..|steps|-1]);
      StepCoversExactly(Exec(steps[..|steps|-1]), steps[|steps|-1]);
    }
  }

  /**
   In every run whose steps meet that condition, whatever else fails at any time,
   every exclusion that a live configuration lists is counted and installed.
   */
  lemma RunsKeepLiveExclusions(steps: seq<Step>, hop: HopType, i: nat)
    requires Legal(steps) && CoveringRun(steps) && hop in Exec(steps).connections
    requires i < |Exec(steps).connections[hop].config.excludedAddresses|
    ensures var k := AddKey(Exec(steps).connections[hop].config.excludedAddresses[i]);
            k in Exec(steps).excluded && k in InstalledExclusions(Exec(steps).log)
  {
    hide Exec, Legal, CoveringRun, AddKey, InstalledExclusions, Occurrences;
    var s := Exec(steps);
    var list := s.connections[hop].config.excludedAddresses;
    RunsKeepCovering(steps);
    OccurrencesOfMember(list, i);
    HopWithinLive(s, hop, AddKey(list[i]));
    assert Live(s, AddKey(list[i])) <= Count(s, AddKey(list[i]));
    CountedPrefixesAreInstalled(steps);
  }
}
