/**
 When the reconnect machine goes on by itself, and when it gives up
 (client/vpnConnection.cpp:569-640, 683-716; client/vpnConnection.h:95-104).
 */
module Retries {
  import opened Reconnect

  // ---------------------------------------------------------------- starts

  /** How often the protocol has been started. */
  function Starts(acts: seq<Act>): nat {
    if acts == [] then 0 else Starts(acts[..|acts|-1]) + (if acts[|acts|-1].ProtocolStarted? then 1 else 0)
  }

  lemma StartsOne(acts: seq<Act>, a: Act)
    ensures Starts(acts + [a]) == Starts(acts) + if a.ProtocolStarted? then 1 else 0
  {
    assert (acts + [a])[..|acts|] == acts;
  }

  lemma StateStarts(c: Client, state: Vpn)
    ensures Starts(SetConnectionState(c, state).acts) == Starts(c.acts)
  {
    StartsOne(c.acts, Cancelled);
    StartsOne(c.acts, TimerStarted(ReconnectDelayMsec(c.attempt)));
  }

  lemma {:induction false} ReportStarts(c: Client, states: seq<Vpn>, n: nat)
    requires n <= |states|
    ensures Starts(Report(c, states, n).acts) == Starts(c.acts)
  {
    hide SetConnectionState, Starts;
    if n > 0 {
      ReportStarts(c, states, n-1);
      StateStarts(Report(c, states, n-1), states[n-1]);
    }
  }

  /** A reconnect trigger starts the protocol exactly once if its guards let it, and otherwise does nothing at all. */
  lemma TriggerStartsExactly(c: Client, env: RestartEnv)
    ensures Starts(ReconnectToVpn(c, env).acts) == Starts(c.acts) + if MayRestart(c) then 1 else 0
    ensures !MayRestart(c) ==> ReconnectToVpn(c, env) == c
  {
    hide SetConnectionState, Report, Starts;
    if MayRestart(c) {
      var counted := c.(attempt := c.attempt + 1);
      StateStarts(counted, Reconnecting);
      var moved := SetConnectionState(counted, Reconnecting);
      StartsOne(moved.acts, ProtocolStopped);
      ReportStarts(moved.Did(ProtocolStopped), env.stopping, |env.stopping|);
      var stopped := Stop(moved, env.stopping);
      StartsOne(stopped.acts, ProtocolStarted);
      ReportStarts(stopped.Did(ProtocolStarted), env.starting, |env.starting|);
      var restarted := Restart(c, env);
      StartsOne(restarted.acts, TimerStarted(ReconnectDelayMsec(restarted.attempt)));
    }
  }

  /** A live tunnel that the user still wants. */
  predicate Wanted(c: Client) { c.protocol && !c.userDisconnect }

  /** Some sequence of triggers starts the protocol again. */
  ghost predicate TriggersCanStart(c: Client) {
    exists events: seq<Event> ::
      && (forall i :: 0 <= i < |events| ==> IsTrigger(events[i]))
      && Legal(c, events) && Starts(Run(c, events, |events|).acts) > Starts(c.acts)
  }

  /** The same, with a protocol that may report Disconnected in between. */
  ghost predicate TriggersAndDropsCanStart(c: Client) {
    exists events: seq<Event> ::
      && (forall i :: 0 <= i < |events| ==> IsTrigger(events[i]) || events[i] == ProtocolState(Disconnected))
      && Legal(c, events) && Starts(Run(c, events, |events|).acts) > Starts(c.acts)
  }

  /** Two clients that differ in nothing but the retry timer. */
  predicate SameButTimer(c: Client, d: Client) { d.(retryTimer := c.retryTimer) == c }

  /** Reconnecting and Disconnecting turn every trigger away. */
  lemma {:induction false} TriggersAreTurnedAway(c: Client, events: seq<Event>, n: nat)
    requires n <= |events| && c.state in {Reconnecting, Disconnecting}
    requires forall i :: 0 <= i < |events| ==>
               IsTrigger(events[i]) || (c.state == Reconnecting && events[i] == ProtocolState(Disconnected))
    ensures SameButTimer(c, Run(c, events, n))
  {
    if n > 0 {
      TriggersAreTurnedAway(c, events, n-1);
      assert IsTrigger(events[n-1]) || events[n-1] == ProtocolState(Disconnected);
    }
  }

  lemma OneTrigger(c: Client)
    requires MayRestart(c)
    ensures TriggersCanStart(c)
  {
    hide Starts, ReconnectToVpn, Legal;
    var e := NetworkChanged(RestartEnv([], [], true));
    var events := [e];
    TriggerStartsExactly(c, e.restart);
    assert Run(c, events, 1) == Next(Run(c, events, 0), e);
    OneEventIsLegal(c, e);
  }

  lemma OneEventIsLegal(c: Client, e: Event)
    requires !e.RetryTimeout?
    ensures Legal(c, [e])
  {
  }

  /**
   What the outside can do: a wanted tunnel can be started again by some sequence
   of network changes, wake-ups and timeouts if and only if it is neither
   Reconnecting nor Disconnecting, however it came there.
   */
  lemma TriggersCanStartExactly(c: Client)
    requires Wanted(c)
    ensures TriggersCanStart(c) <==> c.state != Reconnecting && c.state != Disconnecting
  {
    hide Starts, Legal;
    if c.state != Reconnecting && c.state != Disconnecting {
      OneTrigger(c);
    } else {
      forall events: seq<Event> | forall i :: 0 <= i < |events| ==> IsTrigger(events[i])
        ensures Starts(Run(c, events, |events|).acts) == Starts(c.acts)
      {
        TriggersAreTurnedAway(c, events, |events|);
      }
    }
  }

  /** A Disconnected reported in between frees Disconnecting, but never Reconnecting, which swallows it. */
  lemma DropsFreeExactly(c: Client)
    requires Wanted(c)
    ensures TriggersAndDropsCanStart(c) <==> c.state != Reconnecting
  {
    hide Starts, Legal;
    if c.state == Reconnecting {
      forall events: seq<Event> |
        forall i :: 0 <= i < |events| ==> IsTrigger(events[i]) || events[i] == ProtocolState(Disconnected)
        ensures Starts(Run(c, events, |events|).acts) == Starts(c.acts)
      {
        TriggersAreTurnedAway(c, events, |events|);
      }
    } else {
      DropThenTrigger(c);
    }
  }

  lemma DropThenTrigger(c: Client)
    requires Wanted(c) && c.state != Reconnecting
    ensures TriggersAndDropsCanStart(c)
  {
    hide Starts, ReconnectToVpn;
    var e := NetworkChanged(RestartEnv([], [], true));
    var events := [ProtocolState(Disconnected), e];
    var dropped := SetConnectionState(c, Disconnected);
    assert Run(c, events, 0) == c && Run(c, events, 1) == dropped;
    assert Run(c, events, 2) == Next(dropped, e);
    assert dropped.state == Disconnected && MayRestart(dropped);
    StateStarts(c, Disconnected);
    TriggerStartsExactly(dropped, e.restart);
    assert Starts(Run(c, events, |events|).acts) > Starts(c.acts);
  }

  /** The reports end in Reconnecting or Disconnecting, where triggers are turned away. */
  predicate EndsStalled(from: Vpn, reports: seq<Vpn>) {
    EndsReconnecting(from, reports) || (if reports == [] then from else reports[|reports|-1]) == Disconnecting
  }

  lemma StalledExactly(from: Vpn, reports: seq<Vpn>)
    ensures StateAfter(from, reports, |reports|) in {Reconnecting, Disconnecting} <==> EndsStalled(from, reports)
  {
    ReconnectingStaysExactly(from, reports, |reports|);
    assert reports[..|reports|] == reports;
  }

  /**
   The same about every restart, whether its start succeeded or failed: triggers
   can start the protocol again if and only if the states reported to it do not
   end stalled.
   */
  lemma RestartCanBeTriggeredAgainExactly(c: Client, e: Event)
    requires IsTrigger(e) && MayRestart(c)
    ensures TriggersCanStart(Next(c, e)) <==> !EndsStalled(Reconnecting, Reports(e.restart))
    ensures TriggersAndDropsCanStart(Next(c, e)) <==> !EndsReconnecting(Reconnecting, Reports(e.restart))
  {
    hide Restart, TriggersCanStart, TriggersAndDropsCanStart, EndsReconnecting, EndsWith;
    var from := if e.RetryTimeout? then c.(retryTimer := false) else c;
    RestartIsDisciplined(from, e.restart);
    RestartEndsExactly(from, e.restart);
    StalledIsEndsWith(Reports(e.restart));
    var d := Next(c, e);
    assert d == ReconnectToVpn(from, e.restart) && d.state == Restart(from, e.restart).state && Wanted(d);
    TriggersCanStartExactly(d);
    DropsFreeExactly(d);
  }

  lemma StalledIsEndsWith(reports: seq<Vpn>)
    ensures EndsStalled(Reconnecting, reports)
       <==> EndsReconnecting(Reconnecting, reports) || EndsWith(reports, Disconnecting)
  {
  }

  /** After a restart that ends in Reconnecting, no triggers and no Disconnected change more than the timer. */
  lemma StalledRestartIsNeverRetried(c: Client, e: Event, events: seq<Event>, n: nat)
    requires IsTrigger(e) && MayRestart(c) && EndsReconnecting(Reconnecting, Reports(e.restart)) && n <= |events|
    requires forall i :: 0 <= i < |events| ==> IsTrigger(events[i]) || events[i] == ProtocolState(Disconnected)
    ensures SameButTimer(Next(c, e), Run(Next(c, e), events, n))
  {
    hide Restart, EndsReconnecting;
    var from := if e.RetryTimeout? then c.(retryTimer := false) else c;
    RestartEndsExactly(from, e.restart);
    TriggersAreTurnedAway(Next(c, e), events, n);
  }

  /**
   After a restart whose start failed the timer is armed, but the retry it
   stands for takes place if and only if the reported states do not end stalled.
   */
  lemma FailedRestartIsRetriedExactly(c: Client, env: RestartEnv, again: RestartEnv)
    requires MayRestart(c) && !env.ok
    ensures var d := ReconnectToVpn(c, env);
            && d.retryTimer
            && (Starts(Next(d, RetryTimeout(again)).acts) == Starts(d.acts) + 1
                <==> !EndsStalled(Reconnecting, Reports(env)))
  {
    hide Restart, Starts, EndsReconnecting, EndsWith;
    RestartIsDisciplined(c, env);
    RestartEndsExactly(c, env);
    StalledIsEndsWith(Reports(env));
    TriggerStartsExactly(ReconnectToVpn(c, env).(retryTimer := false), again);
  }

  // ---------------------------------------------------------------- what reports do to the timer

  /** Whether the timer runs after the first n reports to a client that the user has not disconnected. */
  function TimerAfter(armed: bool, from: Vpn, reports: seq<Vpn>, n: nat): bool
    requires n <= |reports|
  {
    if n == 0 then armed
    else if reports[n-1] == Connected then false
    else Arms(from, reports, n-1) || TimerAfter(armed, from, reports, n-1)
  }

  /** The report is an Error, or a Disconnected right after Connected. */
  predicate Arms(from: Vpn, reports: seq<Vpn>, k: nat)
    requires k < |reports|
  {
    reports[k] == Error || (reports[k] == Disconnected && (if k == 0 then from else reports[k-1]) == Connected)
  }

  predicate NoConnectedFrom(reports: seq<Vpn>, k: nat) { forall i :: k <= i < |reports| ==> reports[i] != Connected }

  /** The timer was armed and nothing was reported Connected, or some report arms it and none after it is Connected. */
  predicate EndsArmed(armed: bool, from: Vpn, reports: seq<Vpn>) {
    || (armed && NoConnectedFrom(reports, 0))
    || exists k: nat :: k < |reports| && Arms(from, reports, k) && NoConnectedFrom(reports, k + 1)
  }

  lemma {:induction false} TimerFollowsReports(c: Client, reports: seq<Vpn>, n: nat)
    requires n <= |reports| && !c.userDisconnect
    ensures Report(c, reports, n).retryTimer == TimerAfter(c.retryTimer, c.state, reports, n)
    ensures !Report(c, reports, n).userDisconnect
  {
    if n > 0 {
      TimerFollowsReports(c, reports, n-1);
      ReportsLeadThere(c, reports, n-1);
      ConnectedBefore(c.state, reports, n-1);
    }
  }

  lemma {:induction false} TimerAfterBoth(armed: bool, from: Vpn, a: seq<Vpn>, b: seq<Vpn>, n: nat)
    requires n <= |b|
    ensures TimerAfter(armed, from, a + b, |a| + n)
         == TimerAfter(TimerAfter(armed, from, a, |a|), StateAfter(from, a, |a|), b, n)
  {
    if n == 0 {
      TimerAfterPrefix(armed, from, a, b, |a|);
    } else {
      TimerAfterBoth(armed, from, a, b, n-1);
      ConnectedBefore(from, a, |a|);
      assert (a + b)[|a| + n - 1] == b[n-1];
    }
  }

  lemma {:induction false} TimerAfterPrefix(armed: bool, from: Vpn, a: seq<Vpn>, b: seq<Vpn>, n: nat)
    requires n <= |a|
    ensures TimerAfter(armed, from, a + b, n) == TimerAfter(armed, from, a, n)
  {
    if n > 0 { TimerAfterPrefix(armed, from, a, b, n-1); }
  }

  lemma {:induction false} ArmedExactly(armed: bool, from: Vpn, reports: seq<Vpn>, n: nat)
    requires n <= |reports|
    ensures TimerAfter(armed, from, reports, n) <==> EndsArmed(armed, from, reports[..n])
  {
    if n > 0 {
      ArmedExactly(armed, from, reports, n-1);
      OneMoreArmed(armed, from, reports[..n]);
      assert reports[..n][..n-1] == reports[..n-1];
    }
  }

  lemma OneMoreArmed(armed: bool, from: Vpn, reports: seq<Vpn>)
    requires reports != []
    ensures var n := |reports|;
            EndsArmed(armed, from, reports) <==>
            (reports[n-1] != Connected && (Arms(from, reports, n-1) || EndsArmed(armed, from, reports[..n-1])))
  {
    var n := |reports|;
    var init := reports[..n-1];
    if EndsArmed(armed, from, reports) && !(armed && NoConnectedFrom(reports, 0)) {
      var k: nat :| k < n && Arms(from, reports, k) && NoConnectedFrom(reports, k + 1);
      if k < n-1 { assert Arms(from, init, k) && NoConnectedFrom(init, k + 1); }
    }
    if reports[n-1] != Connected && Arms(from, reports, n-1) { assert NoConnectedFrom(reports, n-1+1); }
    if reports[n-1] != Connected && EndsArmed(armed, from, init) && !(armed && NoConnectedFrom(init, 0)) {
      var k: nat :| k < |init| && Arms(from, init, k) && NoConnectedFrom(init, k + 1);
      assert Arms(from, reports, k) && NoConnectedFrom(reports, k + 1);
    }
  }

  // ---------------------------------------------------------------- when the timer alone goes on

  /** The machine starts the protocol again with nobody's help: some timeouts do it. */
  ghost predicate RetriesItself(c: Client) {
    exists events: seq<Event> ::
      && (forall i :: 0 <= i < |events| ==> events[i].RetryTimeout?)
      && Legal(c, events) && Starts(Run(c, events, |events|).acts) > Starts(c.acts)
  }

  /**
   When attempts are not given up on: the machine goes on by itself if and only
   if the timer runs and the guards of a restart hold, so for a wanted tunnel if
   and only if the timer runs and it is neither Reconnecting nor Disconnecting.
   */
  lemma RetriesItselfExactly(c: Client)
    ensures RetriesItself(c) <==> c.retryTimer && MayRestart(c)
    ensures Wanted(c) ==>
              (RetriesItself(c) <==> c.retryTimer && c.state != Reconnecting && c.state != Disconnecting)
  {
    hide Starts, ReconnectToVpn;
    if c.retryTimer && MayRestart(c) {
      var e := RetryTimeout(RestartEnv([], [], true));
      var events := [e];
      assert Run(c, events, 0) == c && Run(c, events, 1) == Next(c, e);
      TriggerStartsExactly(c.(retryTimer := false), e.restart);
      assert Starts(Run(c, events, |events|).acts) > Starts(c.acts);
    } else {
      forall events: seq<Event> | (forall i :: 0 <= i < |events| ==> events[i].RetryTimeout?) && Legal(c, events)
        ensures Starts(Run(c, events, |events|).acts) == Starts(c.acts)
      {
        TimeoutsEndHere(c, events);
      }
    }
  }

  lemma TimeoutsEndHere(c: Client, events: seq<Event>)
    requires !(c.retryTimer && MayRestart(c)) && Legal(c, events)
    requires forall i :: 0 <= i < |events| ==> events[i].RetryTimeout?
    ensures Run(c, events, |events|).acts == c.acts
  {
    assert Run(c, events, 0) == c;
    if |events| > 0 {
      assert Enabled(Run(c, events, 0), events[0]);
      assert |events| > 1 ==> Enabled(Run(c, events, 1), events[1]);
      assert Run(c, events, 1) == c.(retryTimer := false);
    }
  }

  /** State and timer after a restart, from the states reported to it. */
  lemma RestartFollowsReports(c: Client, env: RestartEnv)
    requires !c.userDisconnect
    ensures var reports := Reports(env);
            && Restart(c, env).state == StateAfter(Reconnecting, reports, |reports|)
            && Restart(c, env).retryTimer == TimerAfter(c.retryTimer, Reconnecting, reports, |reports|)
  {
    hide Report, StateAfter, TimerAfter;
    var moved := SetConnectionState(c.(attempt := c.attempt + 1), Reconnecting);
    assert moved.state == Reconnecting && moved.retryTimer == c.retryTimer && !moved.userDisconnect;
    var stopping := moved.Did(ProtocolStopped);
    ReportsLeadThere(stopping, env.stopping, |env.stopping|);
    TimerFollowsReports(stopping, env.stopping, |env.stopping|);
    var starting := Stop(moved, env.stopping).Did(ProtocolStarted);
    ReportsLeadThere(starting, env.starting, |env.starting|);
    TimerFollowsReports(starting, env.starting, |env.starting|);
    StateAfterBoth(Reconnecting, env.stopping, env.starting, |env.starting|);
    TimerAfterBoth(c.retryTimer, Reconnecting, env.stopping, env.starting, |env.starting|);
  }

  /**
   A restart is not the last one, with nobody's help, if and only if the reported
   states do not end stalled and the start failed or they end with the timer
   armed: the timer still ran and nothing was reported Connected, or an Error or
   a Disconnected right after Connected came, and no Connected after it.
   */
  lemma RestartRetriesItselfExactly(c: Client, e: Event)
    requires IsTrigger(e) && MayRestart(c)
    ensures var reports, armed := Reports(e.restart), c.retryTimer && !e.RetryTimeout?;
            RetriesItself(Next(c, e)) <==>
            (!EndsStalled(Reconnecting, reports) && (!e.restart.ok || EndsArmed(armed, Reconnecting, reports)))
  {
    hide Restart, RetriesItself, EndsStalled, EndsArmed, StateAfter, TimerAfter;
    var from := if e.RetryTimeout? then c.(retryTimer := false) else c;
    var reports := Reports(e.restart);
    RestartIsDisciplined(from, e.restart);
    RestartFollowsReports(from, e.restart);
    StalledExactly(Reconnecting, reports);
    ArmedExactly(from.retryTimer, Reconnecting, reports, |reports|);
    assert reports[..|reports|] == reports;
    assert Next(c, e) == ReconnectToVpn(from, e.restart);
    RetriesItselfExactly(Next(c, e));
  }

  /** The states a connect is told once it is Connecting: those of the old protocol, if any, and of the new one. */
  function ConnectReports(c: Client, env: ConnectEnv): seq<Vpn> {
    (if c.protocol then env.stopping else []) + env.starting
  }

  /** State and timer after a connect that gets as far as starting the protocol. */
  lemma ConnectFollowsReports(c: Client, env: ConnectEnv)
    requires env.repositories && env.factory && env.ok
    ensures var d, reports := ConnectToVpn(c, env), ConnectReports(c, env);
            && Wanted(d) && d.state == StateAfter(Connecting, reports, |reports|)
            && d.retryTimer == TimerAfter(false, Connecting, reports, |reports|)
  {
    hide Report, StateAfter, TimerAfter;
    var connecting := SetConnectionState(CancelReconnect(c.(userDisconnect := false)), Connecting);
    assert connecting.state == Connecting && !connecting.retryTimer && !connecting.userDisconnect;
    var first := if c.protocol then env.stopping else [];
    var stopping := connecting.Did(ProtocolStopped);
    ReportsLeadThere(stopping, env.stopping, |env.stopping|);
    TimerFollowsReports(stopping, env.stopping, |env.stopping|);
    var stopped := if connecting.protocol then Stop(connecting, env.stopping).(protocol := false) else connecting;
    assert stopped.state == StateAfter(Connecting, first, |first|) by { NoReports(false, Connecting); }
    assert stopped.retryTimer == TimerAfter(false, Connecting, first, |first|) by { NoReports(false, Connecting); }
    var starting := stopped.(protocol := true).Did(ProtocolStarted);
    ReportsLeadThere(starting, env.starting, |env.starting|);
    TimerFollowsReports(starting, env.starting, |env.starting|);
    ReportKeepsDiscipline(starting, env.starting, |env.starting|);
    StateAfterBoth(Connecting, first, env.starting, |env.starting|);
    TimerAfterBoth(false, Connecting, first, env.starting, |env.starting|);
  }

  lemma NoReports(armed: bool, from: Vpn)
    ensures StateAfter(from, [], 0) == from && TimerAfter(armed, from, [], 0) == armed
  {
  }

  /**
   The same for a connect: it goes on by itself if and only if the protocol
   could be made, and its start failed or the reports end armed and not stalled;
   or there were no repositories, and the protocol of before is still there.
   */
  lemma ConnectRetriesItselfExactly(c: Client, env: ConnectEnv)
    ensures var reports := ConnectReports(c, env);
            var onward := EndsArmed(false, Connecting, reports) && !EndsStalled(Connecting, reports);
            RetriesItself(ConnectToVpn(c, env)) <==>
            (if env.repositories then env.factory && (!env.ok || onward) else c.protocol)
  {
    hide RetriesItself, EndsStalled, EndsArmed, StateAfter, TimerAfter, Report;
    var reports := ConnectReports(c, env);
    RetriesItselfExactly(ConnectToVpn(c, env));
    if env.repositories && env.factory && env.ok {
      ConnectFollowsReports(c, env);
      StalledExactly(Connecting, reports);
      ArmedExactly(false, Connecting, reports, |reports|);
      assert reports[..|reports|] == reports;
    } else {
      UnfinishedConnect(c, env);
    }
  }

  /** A connect that fails ends in Error, with the timer armed, and with a protocol unless none could be made. */
  lemma UnfinishedConnect(c: Client, env: ConnectEnv)
    requires !(env.repositories && env.factory && env.ok)
    ensures var d := ConnectToVpn(c, env);
            && d.state == Error && d.retryTimer && !d.userDisconnect
            && d.protocol == if env.repositories then env.factory else c.protocol
  {
    hide Report;
    var connecting := SetConnectionState(CancelReconnect(c.(userDisconnect := false)), Connecting);
    ReportKeepsDiscipline(connecting.Did(ProtocolStopped), env.stopping, |env.stopping|);
    var stopped := if connecting.protocol then Stop(connecting, env.stopping).(protocol := false) else connecting;
    ReportKeepsDiscipline(stopped.(protocol := true).Did(ProtocolStarted), env.starting, |env.starting|);
  }

  // ---------------------------------------------------------------- what is down is retried, over whole runs

  /** A wanted tunnel that is down has its retry scheduled. */
  predicate DownIsRetried(c: Client) { Wanted(c) && c.state in {Disconnected, Error} ==> c.retryTimer }

  /** A Disconnected that schedules nothing: the timer is off, and the tunnel was neither up nor already down. */
  predicate Drops(c: Client, state: Vpn) {
    Wanted(c) && state == Disconnected && !c.retryTimer && c.state !in {Connected, Reconnecting, Disconnected}
  }

  /** One report loses the retry exactly then. */
  lemma ReportLosesRetryExactly(c: Client, state: Vpn)
    requires DownIsRetried(c)
    ensures DownIsRetried(SetConnectionState(c, state)) <==> !Drops(c, state)
  {
  }

  predicate AnyDrops(c: Client, states: seq<Vpn>) {
    exists i :: 0 <= i < |states| && Drops(Report(c, states, i), states[i])
  }

  lemma {:induction false} ReportsKeepRetry(c: Client, states: seq<Vpn>, n: nat)
    requires n <= |states| && DownIsRetried(c) && !AnyDrops(c, states)
    ensures DownIsRetried(Report(c, states, n))
  {
    hide SetConnectionState, DownIsRetried;
    if n > 0 {
      ReportsKeepRetry(c, states, n-1);
      ReportLosesRetryExactly(Report(c, states, n-1), states[n-1]);
    }
  }

  /** A report that the event brings about drops the tunnel. */
  predicate EventDrops(c: Client, e: Event) {
    match e
    case Connect(env) =>
      env.repositories && ConnectDrops(
        SetConnectionState(CancelReconnect(c.(userDisconnect := false)), Connecting), env)
    case Disconnect(_) => false
    case ProtocolState(state) => Drops(c, state)
    case RetryTimeout(env) => MayRestart(c) && RestartDrops(c.(retryTimer := false), env)
    case _ => MayRestart(c) && RestartDrops(c, e.restart)
  }

  predicate ConnectDrops(connecting: Client, env: ConnectEnv) {
    || (connecting.protocol && AnyDrops(connecting.Did(ProtocolStopped), env.stopping))
    || (var stopped := if connecting.protocol then Stop(connecting, env.stopping) else connecting;
        env.factory && AnyDrops(stopped.(protocol := true).Did(ProtocolStarted), env.starting))
  }

  predicate RestartDrops(c: Client, env: RestartEnv) {
    var moved := SetConnectionState(c.(attempt := c.attempt + 1), Reconnecting);
    || AnyDrops(moved.Did(ProtocolStopped), env.stopping)
    || AnyDrops(Stop(moved, env.stopping).Did(ProtocolStarted), env.starting)
  }

  lemma RestartKeepsRetry(c: Client, env: RestartEnv)
    requires MayRestart(c) && !RestartDrops(c, env)
    ensures DownIsRetried(ReconnectToVpn(c, env))
  {
    hide Report, AnyDrops;
    var moved := SetConnectionState(c.(attempt := c.attempt + 1), Reconnecting);
    assert moved.state == Reconnecting;
    ReportsKeepRetry(moved.Did(ProtocolStopped), env.stopping, |env.stopping|);
    var stopped := Stop(moved, env.stopping);
    ReportsKeepRetry(stopped.Did(ProtocolStarted), env.starting, |env.starting|);
    RestartIsDisciplined(c, env);
  }

  lemma ConnectKeepsRetry(c: Client, env: ConnectEnv)
    requires !EventDrops(c, Connect(env))
    ensures DownIsRetried(ConnectToVpn(c, env))
  {
    hide Report, AnyDrops;
    if env.repositories && env.factory && env.ok {
      var connecting := SetConnectionState(CancelReconnect(c.(userDisconnect := false)), Connecting);
      assert connecting.state == Connecting;
      if connecting.protocol {
        ReportsKeepRetry(connecting.Did(ProtocolStopped), env.stopping, |env.stopping|);
        ReportKeepsDiscipline(connecting.Did(ProtocolStopped), env.stopping, |env.stopping|);
      }
      var stopped := if connecting.protocol then Stop(connecting, env.stopping) else connecting;
      ReportsKeepRetry(stopped.(protocol := true).Did(ProtocolStarted), env.starting, |env.starting|);
    } else {
      UnfinishedConnect(c, env);
    }
  }

  lemma EventKeepsRetry(c: Client, e: Event)
    requires DownIsRetried(c) && !EventDrops(c, e)
    ensures DownIsRetried(Next(c, e))
  {
    hide Report, Restart, RestartDrops, ConnectDrops, ConnectToVpn;
    match e
    case Connect(env) => ConnectKeepsRetry(c, env);
    case Disconnect(stopping) => DisconnectSwitchesOff(c, |c.acts|, stopping);
    case ProtocolState(state) => ReportLosesRetryExactly(c, state);
    case RetryTimeout(env) => if MayRestart(c) { RestartKeepsRetry(c.(retryTimer := false), env); }
    case NetworkChanged(env) => if MayRestart(c) { RestartKeepsRetry(c, env); }
    case Wakeup(env) => if MayRestart(c) { RestartKeepsRetry(c, env); }
  }

  /**
   In every run in which no Disconnected reaches a wanted tunnel that is neither
   up nor down while the timer is off, a wanted tunnel that is Disconnected or in
   Error has its retry scheduled, and so goes on by itself.
   */
  lemma {:induction false} RunsRetryWhatIsDown(c: Client, events: seq<Event>, n: nat)
    requires n <= |events| && Initial(c)
    requires forall i :: 0 <= i < n ==> !EventDrops(Run(c, events, i), events[i])
    ensures DownIsRetried(Run(c, events, n))
    ensures var d := Run(c, events, n); Wanted(d) && d.state in {Disconnected, Error} ==> RetriesItself(d)
  {
    hide Next, EventDrops, RetriesItself;
    if n > 0 {
      RunsRetryWhatIsDown(c, events, n-1);
      EventKeepsRetry(Run(c, events, n-1), events[n-1]);
    }
    RetriesItselfExactly(Run(c, events, n));
  }

  // ---------------------------------------------------------------- runs that end given up

  /** Down with the timer off: timeouts cannot happen, and a Disconnected changes nothing. */
  lemma {:induction false} UnarmedStaysDown(c: Client, events: seq<Event>, n: nat)
    requires n <= |events| && c.state == Disconnected && !c.retryTimer && Legal(c, events)
    requires forall i :: 0 <= i < |events| ==> events[i].RetryTimeout? || events[i] == ProtocolState(Disconnected)
    ensures Run(c, events, n) == c
  {
    hide Next;
    if n > 0 {
      UnarmedStaysDown(c, events, n-1);
      assert Enabled(Run(c, events, n-1), events[n-1]);
      DownIgnoresDisconnected(c);
    }
  }

  lemma DownIgnoresDisconnected(c: Client)
    requires c.state == Disconnected
    ensures Next(c, ProtocolState(Disconnected)) == c
  {
  }

  /** A wanted tunnel that is down with no retry scheduled, and stays so until the outside moves it. */
  ghost predicate GivenUp(d: Client) {
    && Wanted(d) && d.state == Disconnected && !d.retryTimer && !RetriesItself(d)
    && forall more: seq<Event> ::
         Legal(d, more)
         && (forall i :: 0 <= i < |more| ==> more[i].RetryTimeout? || more[i] == ProtocolState(Disconnected))
         ==> Run(d, more, |more|) == d
  }

  lemma DownIsGivenUp(d: Client)
    requires Wanted(d) && d.state == Disconnected && !d.retryTimer
    ensures GivenUp(d)
  {
    hide RetriesItself, Legal;
    RetriesItselfExactly(d);
    forall more: seq<Event> | Legal(d, more)
        && (forall i :: 0 <= i < |more| ==> more[i].RetryTimeout? || more[i] == ProtocolState(Disconnected))
      ensures Run(d, more, |more|) == d
    {
      UnarmedStaysDown(d, more, |more|);
    }
  }

  /**
   A tunnel that went down is restarted by the timer; the start reports
   Connecting, and the Disconnected that follows is not worth a retry.
   */
  lemma DropWhileConnectingIsGivenUp() returns (c: Client, events: seq<Event>)
    ensures Initial(c) && Legal(c, events) && GivenUp(Run(c, events, |events|)) && Run(c, events, |events|).attempt == 1
  {
    hide GivenUp;
    c := Client(Unknown, false, 0, false, false, []);
    var env := RestartEnv([], [Connecting], true);
    events := [Connect(ConnectEnv(true, [], true, [Connected], true)), ProtocolState(Disconnected), RetryTimeout(env),
               ProtocolState(Disconnected)];
    assert Run(c, events, 0) == c;
    var c1, c2, c3, c4 := Run(c, events, 1), Run(c, events, 2), Run(c, events, 3), Run(c, events, 4);
    ConnectsAtOnce(c);
    assert c1 == ConnectToVpn(c, events[0].connect) && c1.attempt == 0;
    assert c2 == SetConnectionState(c1, Disconnected) && c2.retryTimer;
    assert c3 == ReconnectToVpn(c2.(retryTimer := false), env);
    ConnectingRestart(c2.(retryTimer := false));
    assert c4 == SetConnectionState(c3, Disconnected);
    DownIsGivenUp(c4);
  }

  lemma ConnectingRestart(c: Client)
    requires MayRestart(c)
    ensures var d := ReconnectToVpn(c, RestartEnv([], [Connecting], true));
            d.state == Connecting && d.retryTimer == c.retryTimer && Wanted(d) && d.attempt == c.attempt + 1
  {
    var started := SetConnectionState(c.(attempt := c.attempt + 1), Reconnecting)
                   .Did(ProtocolStopped).Did(ProtocolStarted);
    assert Report(started, [Connecting], 1) == SetConnectionState(Report(started, [Connecting], 0), Connecting);
  }

  /** A first connect whose start reports nothing before a Disconnected is not retried at all. */
  lemma FirstConnectCanBeGivenUp() returns (c: Client, events: seq<Event>)
    ensures Initial(c) && Legal(c, events) && |events| == 2 && GivenUp(Run(c, events, 2))
  {
    hide GivenUp;
    c := Client(Unknown, false, 0, false, false, []);
    events := [Connect(ConnectEnv(true, [], true, [], true)), ProtocolState(Disconnected)];
    assert Run(c, events, 0) == c;
    var c1, c2 := Run(c, events, 1), Run(c, events, 2);
    assert c1 == ConnectToVpn(c, events[0].connect);
    assert c1.state == Connecting && Wanted(c1) && !c1.retryTimer;
    assert c2 == SetConnectionState(c1, Disconnected);
    DownIsGivenUp(c2);
  }

  /**
   A start that succeeds can be the last one, too. A tunnel that went down is
   restarted by the timer, the start succeeds without a report, and the
   Disconnected that follows is swallowed: the tunnel is still wanted, and no
   sequence of triggers and Disconnected reports ever starts it again.
   */
  lemma SuccessfulStartCanBeTheLast() returns (c: Client, events: seq<Event>)
    ensures Initial(c) && Legal(c, events)
    ensures var d := Run(c, events, |events|);
            Wanted(d) && !d.retryTimer && !TriggersAndDropsCanStart(d) && !TriggersCanStart(d)
  {
    hide TriggersAndDropsCanStart, TriggersCanStart;
    c := Client(Unknown, false, 0, false, false, []);
    events := [Connect(ConnectEnv(true, [], true, [Connected], true)), ProtocolState(Disconnected),
               RetryTimeout(RestartEnv([], [], true)), ProtocolState(Disconnected)];
    var c1, c2, c3, c4 := Run(c, events, 1), Run(c, events, 2), Run(c, events, 3), Run(c, events, 4);
    assert Run(c, events, 0) == c;
    ConnectsAtOnce(c);
    assert c1 == ConnectToVpn(c, events[0].connect);
    assert c2 == SetConnectionState(c1, Disconnected) && c2.retryTimer;
    assert c3 == ReconnectToVpn(c2.(retryTimer := false), RestartEnv([], [], true));
    RestartIsDisciplined(c2.(retryTimer := false), RestartEnv([], [], true));
    SilentRestart(c2.(retryTimer := false));
    assert c4 == c3;
    DropsFreeExactly(c4);
    TriggersCanStartExactly(c4);
  }

  lemma ConnectsAtOnce(c: Client)
    requires !c.protocol
    ensures var d := ConnectToVpn(c, ConnectEnv(true, [], true, [Connected], true));
            d.state == Connected && Wanted(d) && d.attempt == 0
  {
    var started := SetConnectionState(CancelReconnect(c.(userDisconnect := false)), Connecting)
                   .(protocol := true).Did(ProtocolStarted);
    assert Report(started, [Connected], 1) == SetConnectionState(Report(started, [Connected], 0), Connected);
  }

  lemma SilentRestart(c: Client)
    requires MayRestart(c)
    ensures var d := ReconnectToVpn(c, RestartEnv([], [], true));
            d.state == Reconnecting && d.retryTimer == c.retryTimer && Wanted(d)
  {
  }
}
