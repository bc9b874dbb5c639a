/**
 The client's reconnect machine on a desktop build (client/vpnConnection.cpp).

 Each slot is one atomic step. Starting or stopping the protocol may report any
 sequence of states before it returns; the states and the outcome are
 parameters of the step.
 */
module Reconnect {

  datatype Vpn = Unknown | Disconnected | Preparing | Connecting | Connected | Disconnecting | Reconnecting | Error

  /** What the machine did: timer starts, cancellations, and calls into the protocol. */
  datatype Act = TimerStarted(delayMsec: int) | Cancelled | ProtocolStopped | ProtocolStarted

  datatype Client = Client(
    state: Vpn,
    retryTimer: bool,
    attempt: nat,
    userDisconnect: bool,
    protocol: bool,
    acts: seq<Act>)
  {
    function Did(a: Act): Client { this.(acts := acts + [a]) }
  }

  const DELAYS_SEC: seq<int> := [1, 2, 5, 15, 30]

  function ReconnectDelayMsec(attempt: nat): int {
    DELAYS_SEC[if attempt < |DELAYS_SEC| then attempt else |DELAYS_SEC| - 1] * 1000
  }

  function ScheduleReconnect(c: Client): Client {
    if c.userDisconnect then c
    else c.(retryTimer := true).Did(TimerStarted(ReconnectDelayMsec(c.attempt)))
  }

  function CancelReconnect(c: Client): Client { c.(retryTimer := false, attempt := 0).Did(Cancelled) }

  function SetConnectionState(c: Client, state: Vpn): Client {
    if state == Disconnected && c.state == Reconnecting then c else
    var moved := c.(state := state);
    if state == Connected then CancelReconnect(moved)
    else if c.userDisconnect then moved
    else if (state == Disconnected && c.state == Connected) || state == Error then ScheduleReconnect(moved)
    else moved
  }

  /** The first n of the states that a call into the protocol reports. */
  function Report(c: Client, states: seq<Vpn>, n: nat): Client
    requires n <= |states|
  {
    if n == 0 then c else SetConnectionState(Report(c, states, n-1), states[n-1])
  }

  function Stop(c: Client, states: seq<Vpn>): Client { Report(c.Did(ProtocolStopped), states, |states|) }
  function Start(c: Client, states: seq<Vpn>): Client { Report(c.Did(ProtocolStarted), states, |states|) }

  datatype ConnectEnv = ConnectEnv(repositories: bool, stopping: seq<Vpn>, factory: bool, starting: seq<Vpn>, ok: bool)

  function ConnectToVpn(c: Client, env: ConnectEnv): Client {
    var renewed := CancelReconnect(c.(userDisconnect := false));
    if !env.repositories then SetConnectionState(renewed, Error) else
    var connecting := SetConnectionState(renewed, Connecting);
    var stopped := if connecting.protocol then Stop(connecting, env.stopping).(protocol := false) else connecting;
    if !env.factory then SetConnectionState(stopped, Error) else
    var started := Start(stopped.(protocol := true), env.starting);
    if env.ok then started else SetConnectionState(started, Error)
  }

  datatype RestartEnv = RestartEnv(stopping: seq<Vpn>, starting: seq<Vpn>, ok: bool)

  /** The guards of reconnectToVpn. */
  predicate MayRestart(c: Client) {
    c.protocol && c.state != Disconnecting && c.state != Reconnecting && !c.userDisconnect
  }

  function Restart(c: Client, env: RestartEnv): Client {
    Start(Stop(SetConnectionState(c.(attempt := c.attempt + 1), Reconnecting), env.stopping), env.starting)
  }

  function ReconnectToVpn(c: Client, env: RestartEnv): Client {
    if !MayRestart(c) then c else
    var restarted := Restart(c, env);
    if env.ok then restarted else ScheduleReconnect(restarted)
  }

  function DisconnectFromVpn(c: Client, stopping: seq<Vpn>): Client {
    var quiet := CancelReconnect(c.(userDisconnect := true));
    if !quiet.protocol then SetConnectionState(quiet, Disconnected)
    else Stop(SetConnectionState(quiet, Disconnecting), stopping).(protocol := false)
  }

  // ---------------------------------------------------------------- runs

  datatype Event =
    | Connect(connect: ConnectEnv)
    | Disconnect(stopping: seq<Vpn>)
    | RetryTimeout(restart: RestartEnv)
    | NetworkChanged(restart: RestartEnv)
    | Wakeup(restart: RestartEnv)
    | ProtocolState(state: Vpn)

  predicate Enabled(c: Client, e: Event) { e.RetryTimeout? ==> c.retryTimer }

  function Next(c: Client, e: Event): Client {
    match e
    case Connect(env) => ConnectToVpn(c, env)
    case Disconnect(stopping) => DisconnectFromVpn(c, stopping)
    case RetryTimeout(env) => ReconnectToVpn(c.(retryTimer := false), env)
    case NetworkChanged(env) => ReconnectToVpn(c, env)
    case Wakeup(env) => ReconnectToVpn(c, env)
    case ProtocolState(state) => SetConnectionState(c, state)
  }

  function Run(c: Client, events: seq<Event>, n: nat): Client
    requires n <= |events|
  {
    if n == 0 then c else Next(Run(c, events, n-1), events[n-1])
  }

  predicate Legal(c: Client, events: seq<Event>) {
    forall i :: 0 <= i < |events| ==> Enabled(Run(c, events, i), events[i])
  }

  /** A new object: no protocol and no timer, and a connection state that nothing initialises. */
  predicate Initial(c: Client) {
    !c.protocol && !c.retryTimer && c.attempt == 0 && !c.userDisconnect && c.acts == []
  }

  // ---------------------------------------------------------------- user disconnect is final

  /** Off by the user's wish, with nothing scheduled and nothing counted. */
  predicate Off(c: Client) { c.userDisconnect && !c.retryTimer && c.attempt == 0 }

  /** From the first to the second, nothing was scheduled and no protocol was started. */
  predicate OnlyQuietActs(from: nat, acts: seq<Act>) {
    from <= |acts| && forall i :: from <= i < |acts| ==> !acts[i].TimerStarted? && !acts[i].ProtocolStarted?
  }

  lemma OffAfterState(c: Client, from: nat, state: Vpn)
    requires Off(c) && OnlyQuietActs(from, c.acts)
    ensures Off(SetConnectionState(c, state)) && OnlyQuietActs(from, SetConnectionState(c, state).acts)
  {
  }

  lemma {:induction false} OffAfterReport(c: Client, from: nat, states: seq<Vpn>, n: nat)
    requires n <= |states| && Off(c) && OnlyQuietActs(from, c.acts)
    ensures Off(Report(c, states, n)) && OnlyQuietActs(from, Report(c, states, n).acts)
  {
    hide SetConnectionState;
    if n > 0 {
      OffAfterReport(c, from, states, n-1);
      OffAfterState(Report(c, states, n-1), from, states[n-1]);
    }
  }

  /** A disconnect switches the machine off from any state whatsoever. */
  lemma DisconnectSwitchesOff(c: Client, from: nat, stopping: seq<Vpn>)
    requires OnlyQuietActs(from, c.acts)
    ensures var d := DisconnectFromVpn(c, stopping);
            Off(d) && OnlyQuietActs(from, d.acts) && !d.protocol
  {
    hide SetConnectionState, Report;
    var quiet := CancelReconnect(c.(userDisconnect := true));
    OffAfterState(quiet, from, Disconnected);
    OffAfterState(quiet, from, Disconnecting);
    StateKeepsProtocol(quiet, Disconnected);
    OffAfterReport(SetConnectionState(quiet, Disconnecting).Did(ProtocolStopped), from, stopping, |stopping|);
  }

  lemma StateKeepsProtocol(c: Client, state: Vpn)
    ensures SetConnectionState(c, state).protocol == c.protocol
    ensures SetConnectionState(c, state).userDisconnect == c.userDisconnect
  {
  }

  lemma OffAfterEvent(c: Client, from: nat, e: Event)
    requires Off(c) && OnlyQuietActs(from, c.acts) && !e.Connect?
    ensures Off(Next(c, e)) && OnlyQuietActs(from, Next(c, e).acts)
  {
    hide SetConnectionState, Restart, DisconnectFromVpn;
    match e
    case Disconnect(stopping) => DisconnectSwitchesOff(c, from, stopping);
    case ProtocolState(state) => OffAfterState(c, from, state);
    case _ =>
  }

  /**
   User disconnect is final: whatever happens between a disconnect and the next
   connect, the retry timer stays off, the attempt count stays 0, and neither a
   retry is scheduled nor the protocol started.
   */
  lemma {:induction false} DisconnectIsFinal(c: Client, stopping: seq<Vpn>, events: seq<Event>, n: nat)
    requires n <= |events| && forall i :: 0 <= i < |events| ==> !events[i].Connect?
    ensures var d := Run(DisconnectFromVpn(c, stopping), events, n);
            Off(d) && OnlyQuietActs(|c.acts|, d.acts)
  {
    hide Next;
    if n == 0 {
      DisconnectSwitchesOff(c, |c.acts|, stopping);
    } else {
      DisconnectIsFinal(c, stopping, events, n-1);
      OffAfterEvent(Run(DisconnectFromVpn(c, stopping), events, n-1), |c.acts|, events[n-1]);
    }
  }

  // ---------------------------------------------------------------- what reported states lead to

  /** The state after the first n reports: a Disconnected is swallowed while reconnecting. */
  function StateAfter(from: Vpn, reports: seq<Vpn>, n: nat): Vpn
    requires n <= |reports|
  {
    if n == 0 then from
    else if reports[n-1] == Disconnected && StateAfter(from, reports, n-1) == Reconnecting then Reconnecting
    else reports[n-1]
  }

  lemma {:induction false} ReportsLeadThere(c: Client, reports: seq<Vpn>, n: nat)
    requires n <= |reports|
    ensures Report(c, reports, n).state == StateAfter(c.state, reports, n)
  {
    if n > 0 { ReportsLeadThere(c, reports, n-1); }
  }

  lemma {:induction false} StateAfterBoth(from: Vpn, a: seq<Vpn>, b: seq<Vpn>, n: nat)
    requires n <= |b|
    ensures StateAfter(from, a + b, |a| + n) == StateAfter(StateAfter(from, a, |a|), b, n)
  {
    if n == 0 { StateAfterPrefix(from, a, b, |a|); } else { StateAfterBoth(from, a, b, n-1); }
  }

  lemma {:induction false} StateAfterPrefix(from: Vpn, a: seq<Vpn>, b: seq<Vpn>, n: nat)
    requires n <= |a|
    ensures StateAfter(from, a + b, n) == StateAfter(from, a, n)
  {
    if n > 0 { StateAfterPrefix(from, a, b, n-1); }
  }

  /** The last report is the given state. */
  predicate EndsWith(reports: seq<Vpn>, state: Vpn) { reports != [] && reports[|reports|-1] == state }

  /** From position k on, where the state is Reconnecting, nothing but Disconnected is reported. */
  predicate SwallowedFrom(from: Vpn, reports: seq<Vpn>, k: nat) {
    && k <= |reports| && (if k == 0 then from else reports[k-1]) == Reconnecting
    && forall i :: k <= i < |reports| ==> reports[i] == Disconnected
  }

  predicate EndsReconnecting(from: Vpn, reports: seq<Vpn>) {
    exists k: nat :: k <= |reports| && SwallowedFrom(from, reports, k)
  }

  lemma {:induction false} ReconnectingStaysExactly(from: Vpn, reports: seq<Vpn>, n: nat)
    requires n <= |reports|
    ensures StateAfter(from, reports, n) == Reconnecting <==> EndsReconnecting(from, reports[..n])
  {
    if n == 0 {
      assert SwallowedFrom(from, reports[..0], 0) <==> from == Reconnecting;
    } else {
      ReconnectingStaysExactly(from, reports, n-1);
      OneMoreReport(from, reports[..n]);
      assert reports[..n][..n-1] == reports[..n-1];
    }
  }

  /** One more report ends in Reconnecting if it says so, or if it is a Disconnected that is swallowed. */
  lemma OneMoreReport(from: Vpn, reports: seq<Vpn>)
    requires reports != []
    ensures var init, last := reports[..|reports|-1], reports[|reports|-1];
            EndsReconnecting(from, reports)
            <==> last == Reconnecting || (last == Disconnected && EndsReconnecting(from, init))
  {
    var init, last := reports[..|reports|-1], reports[|reports|-1];
    if last == Reconnecting { assert SwallowedFrom(from, reports, |reports|); }
    if last == Disconnected && EndsReconnecting(from, init) {
      var k: nat :| k <= |init| && SwallowedFrom(from, init, k);
      assert SwallowedFrom(from, reports, k);
    }
    if EndsReconnecting(from, reports) && last != Reconnecting {
      var k: nat :| k <= |reports| && SwallowedFrom(from, reports, k);
      assert k < |reports|;
      assert SwallowedFrom(from, init, k);
    }
  }

  /** The state before a report is Connected exactly if the report before it, or the start, was. */
  lemma ConnectedBefore(from: Vpn, reports: seq<Vpn>, n: nat)
    requires n <= |reports|
    ensures StateAfter(from, reports, n) == Connected <==> (if n == 0 then from else reports[n-1]) == Connected
  {
  }

  /** The states a restart is told, in order, from the moment it enters Reconnecting. */
  function Reports(env: RestartEnv): seq<Vpn> { env.stopping + env.starting }

  /** Where a restart ends, said about the states reported to it. */
  lemma RestartEndsExactly(c: Client, env: RestartEnv)
    ensures Restart(c, env).state == Connected <==> EndsWith(Reports(env), Connected)
    ensures Restart(c, env).state == Disconnecting <==> EndsWith(Reports(env), Disconnecting)
    ensures Restart(c, env).state == Reconnecting <==> EndsReconnecting(Reconnecting, Reports(env))
  {
    hide Report, SetConnectionState, EndsReconnecting;
    var moved := SetConnectionState(c.(attempt := c.attempt + 1), Reconnecting);
    EntersReconnecting(c.(attempt := c.attempt + 1));
    ReportsLeadThere(moved.Did(ProtocolStopped), env.stopping, |env.stopping|);
    ReportsLeadThere(Stop(moved, env.stopping).Did(ProtocolStarted), env.starting, |env.starting|);
    StateAfterBoth(Reconnecting, env.stopping, env.starting, |env.starting|);
    ReconnectingStaysExactly(Reconnecting, Reports(env), |Reports(env)|);
    assert Reports(env)[..|Reports(env)|] == Reports(env);
  }

  lemma EntersReconnecting(c: Client)
    ensures SetConnectionState(c, Reconnecting).state == Reconnecting
  {
  }

  // ---------------------------------------------------------------- retry discipline

  /** An error on a live, wanted protocol has its retry scheduled. */
  predicate ErrorIsRetried(c: Client) {
    c.state == Error && c.protocol && !c.userDisconnect ==> c.retryTimer
  }

  /** A connected tunnel has no retry pending and starts counting afresh. */
  predicate ConnectedIsSettled(c: Client) {
    c.state == Connected ==> !c.retryTimer && c.attempt == 0
  }

  lemma StateKeepsDiscipline(c: Client, state: Vpn)
    ensures ErrorIsRetried(c) ==> ErrorIsRetried(SetConnectionState(c, state))
    ensures ConnectedIsSettled(c) ==> ConnectedIsSettled(SetConnectionState(c, state))
    ensures !(state == Disconnected && c.state == Reconnecting) ==>
              && SetConnectionState(c, state).state == state
              && ErrorIsRetried(SetConnectionState(c, state)) && ConnectedIsSettled(SetConnectionState(c, state))
  {
  }

  lemma {:induction false} ReportKeepsDiscipline(c: Client, states: seq<Vpn>, n: nat)
    requires n <= |states|
    ensures ErrorIsRetried(c) ==> ErrorIsRetried(Report(c, states, n))
    ensures ConnectedIsSettled(c) ==> ConnectedIsSettled(Report(c, states, n))
    ensures Report(c, states, n).protocol == c.protocol && Report(c, states, n).userDisconnect == c.userDisconnect
  {
    hide SetConnectionState, ErrorIsRetried, ConnectedIsSettled;
    if n > 0 {
      ReportKeepsDiscipline(c, states, n-1);
      StateKeepsDiscipline(Report(c, states, n-1), states[n-1]);
      StateKeepsProtocol(Report(c, states, n-1), states[n-1]);
    }
  }

  lemma RestartIsDisciplined(c: Client, env: RestartEnv)
    ensures ErrorIsRetried(Restart(c, env)) && ConnectedIsSettled(Restart(c, env))
    ensures Restart(c, env).userDisconnect == c.userDisconnect && Restart(c, env).protocol == c.protocol
  {
    hide Report, SetConnectionState;
    var counted := c.(attempt := c.attempt + 1);
    var moved := SetConnectionState(counted, Reconnecting);
    StateKeepsDiscipline(counted, Reconnecting);
    StateKeepsProtocol(counted, Reconnecting);
    ReportKeepsDiscipline(moved.Did(ProtocolStopped), env.stopping, |env.stopping|);
    ReportKeepsDiscipline(Stop(moved, env.stopping).Did(ProtocolStarted), env.starting, |env.starting|);
  }

  lemma ConnectIsDisciplined(c: Client, env: ConnectEnv)
    ensures ErrorIsRetried(ConnectToVpn(c, env)) && ConnectedIsSettled(ConnectToVpn(c, env))
  {
    hide Report, SetConnectionState;
    var renewed := CancelReconnect(c.(userDisconnect := false));
    StateKeepsDiscipline(renewed, Error);
    StateKeepsDiscipline(renewed, Connecting);
    var connecting := SetConnectionState(renewed, Connecting);
    ReportKeepsDiscipline(connecting.Did(ProtocolStopped), env.stopping, |env.stopping|);
    var stopped := if connecting.protocol then Stop(connecting, env.stopping).(protocol := false) else connecting;
    StateKeepsDiscipline(stopped, Error);
    UnlessErrorDisciplined(connecting, env.stopping, stopped);
    ReportKeepsDiscipline(stopped.(protocol := true).Did(ProtocolStarted), env.starting, |env.starting|);
    StateKeepsDiscipline(Start(stopped.(protocol := true), env.starting), Error);
  }

  /** Replacing the protocol object keeps the discipline, because the old one's errors are scheduled too. */
  lemma UnlessErrorDisciplined(connecting: Client, stopping: seq<Vpn>, stopped: Client)
    requires stopped == if connecting.protocol then Stop(connecting, stopping).(protocol := false) else connecting
    requires ErrorIsRetried(connecting) && ConnectedIsSettled(connecting)
    requires !connecting.protocol ==> connecting.state != Error
    ensures ErrorIsRetried(stopped.(protocol := true)) && ConnectedIsSettled(stopped.(protocol := true))
  {
    if connecting.protocol {
      ReportKeepsDiscipline(connecting.Did(ProtocolStopped), stopping, |stopping|);
    }
  }

  lemma DisconnectIsDisciplined(c: Client, stopping: seq<Vpn>)
    ensures ErrorIsRetried(DisconnectFromVpn(c, stopping)) && ConnectedIsSettled(DisconnectFromVpn(c, stopping))
  {
    hide SetConnectionState, Report;
    var quiet := CancelReconnect(c.(userDisconnect := true));
    StateKeepsDiscipline(quiet, Disconnected);
    StateKeepsDiscipline(quiet, Disconnecting);
    StateKeepsProtocol(quiet, Disconnected);
    StateKeepsProtocol(quiet, Disconnecting);
    ReportKeepsDiscipline(SetConnectionState(quiet, Disconnecting).Did(ProtocolStopped), stopping, |stopping|);
  }

  /** The events that call reconnectToVpn. */
  predicate IsTrigger(e: Event) { e.RetryTimeout? || e.NetworkChanged? || e.Wakeup? }

  /** The event does not restart a protocol whose failing start reports Connected last. */
  predicate NoConnectedFailure(c: Client, e: Event) {
    IsTrigger(e) && MayRestart(c) && !e.restart.ok ==> !EndsWith(Reports(e.restart), Connected)
  }

  lemma EventKeepsDiscipline(c: Client, e: Event)
    requires ErrorIsRetried(c)
    ensures ErrorIsRetried(Next(c, e))
    ensures Enabled(c, e) && ConnectedIsSettled(c) && NoConnectedFailure(c, e) ==> ConnectedIsSettled(Next(c, e))
  {
    hide SetConnectionState, Restart, ConnectToVpn, DisconnectFromVpn;
    match e
    case Connect(env) => ConnectIsDisciplined(c, env);
    case Disconnect(stopping) => DisconnectIsDisciplined(c, stopping);
    case ProtocolState(state) => StateKeepsDiscipline(c, state);
    case RetryTimeout(env) =>
      RestartIsDisciplined(c.(retryTimer := false), env);
      RestartEndsExactly(c.(retryTimer := false), env);
    case NetworkChanged(env) =>
      RestartIsDisciplined(c, env);
      RestartEndsExactly(c, env);
    case Wakeup(env) =>
      RestartIsDisciplined(c, env);
      RestartEndsExactly(c, env);
  }

  /**
   Retry discipline: in every reachable state, an Error with a protocol and no
   user disconnect has the retry timer armed; and as long as no failing start
   ends in Connected, Connected means timer off and zero attempts.
   */
  lemma {:induction false} RunsAreDisciplined(c: Client, events: seq<Event>, n: nat)
    requires n <= |events| && Initial(c) && Legal(c, events)
    ensures ErrorIsRetried(Run(c, events, n))
    ensures (forall i :: 0 <= i < n ==> NoConnectedFailure(Run(c, events, i), events[i]))
              ==> ConnectedIsSettled(Run(c, events, n))
  {
    hide Next, NoConnectedFailure;
    if n > 0 {
      RunsAreDisciplined(c, events, n-1);
      EventKeepsDiscipline(Run(c, events, n-1), events[n-1]);
    }
  }

  /** A restart leaves Connected settled if and only if it did not fail after reporting Connected last. */
  lemma RestartSettlesExactly(c: Client, env: RestartEnv)
    requires MayRestart(c)
    ensures ConnectedIsSettled(ReconnectToVpn(c, env)) <==> env.ok || !EndsWith(Reports(env), Connected)
  {
    hide Restart;
    RestartIsDisciplined(c, env);
    RestartEndsExactly(c, env);
  }

  // ---------------------------------------------------------------- delays

  /** One, two, five and fifteen seconds, and then thirty for ever. */
  lemma DelayOfEachAttempt(attempt: nat)
    ensures ReconnectDelayMsec(attempt) ==
            if attempt == 0 then 1_000 else if attempt == 1 then 2_000 else if attempt == 2 then 5_000
            else if attempt == 3 then 15_000 else 30_000
  {
    assert DELAYS_SEC == [1, 2, 5, 15, 30];
  }

  lemma DelayGrows(a: nat, b: nat)
    requires a <= b
    ensures ReconnectDelayMsec(a) <= ReconnectDelayMsec(b)
    ensures ReconnectDelayMsec(a) in {1000, 2000, 5000, 15000, 30000}
  {
    assert DELAYS_SEC == [1, 2, 5, 15, 30];
  }

  lemma {:induction false} ReportsCount(c: Client, states: seq<Vpn>, n: nat)
    requires n <= |states|
    ensures Report(c, states, n).attempt == if Connected in states[..n] then 0 else c.attempt
    ensures Report(c, states, n).userDisconnect == c.userDisconnect
  {
    if n > 0 {
      ReportsCount(c, states, n-1);
      assert states[..n] == states[..n-1] + [states[n-1]];
    }
  }

  /**
   The attempts are counted exactly: one more for every restart, from the start
   again once Connected was reported, and by a connect or a disconnect.
   */
  lemma AttemptsCountExactly(c: Client, e: Event)
    ensures Next(c, e).attempt ==
            match e
            case Connect(_) => 0
            case Disconnect(_) => 0
            case ProtocolState(state) => if state == Connected then 0 else c.attempt
            case _ =>
              if !MayRestart(c) then c.attempt
              else if Connected in Reports(e.restart) then 0
              else c.attempt + 1
  {
    hide Report;
    match e
    case Connect(env) => ConnectCounts(c, env);
    case Disconnect(stopping) =>
      var quiet := CancelReconnect(c.(userDisconnect := true));
      var moved := SetConnectionState(quiet, Disconnecting);
      ReportsCount(moved.Did(ProtocolStopped), stopping, |stopping|);
    case ProtocolState(state) =>
    case RetryTimeout(env) => RestartCounts(c.(retryTimer := false), env);
    case NetworkChanged(env) => RestartCounts(c, env);
    case Wakeup(env) => RestartCounts(c, env);
  }

  lemma ConnectCounts(c: Client, env: ConnectEnv)
    ensures ConnectToVpn(c, env).attempt == 0
  {
    hide Report;
    var connecting := SetConnectionState(CancelReconnect(c.(userDisconnect := false)), Connecting);
    ReportsCount(connecting.Did(ProtocolStopped), env.stopping, |env.stopping|);
    var stopped := if connecting.protocol then Stop(connecting, env.stopping).(protocol := false) else connecting;
    ReportsCount(stopped.(protocol := true).Did(ProtocolStarted), env.starting, |env.starting|);
  }

  lemma RestartCounts(c: Client, env: RestartEnv)
    ensures ReconnectToVpn(c, env).attempt ==
            if !MayRestart(c) then c.attempt else if Connected in Reports(env) then 0 else c.attempt + 1
    ensures MayRestart(c) ==> !Restart(c, env).userDisconnect
  {
    hide Report;
    var moved := SetConnectionState(c.(attempt := c.attempt + 1), Reconnecting);
    ReportsCount(moved.Did(ProtocolStopped), env.stopping, |env.stopping|);
    ReportsCount(Stop(moved, env.stopping).Did(ProtocolStarted), env.starting, |env.starting|);
    assert env.stopping[..|env.stopping|] == env.stopping && env.starting[..|env.starting|] == env.starting;
  }

  /** A restart whose start fails waits as long as its number among the attempts asks for. */
  lemma FailedRestartWaits(c: Client, env: RestartEnv)
    requires MayRestart(c) && !env.ok && Connected !in Reports(env)
    ensures var d := ReconnectToVpn(c, env);
            d.retryTimer && d.acts != [] && d.acts[|d.acts|-1]
            == TimerStarted(if c.attempt == 0 then 2_000 else if c.attempt == 1 then 5_000
                            else if c.attempt == 2 then 15_000 else 30_000)
  {
    hide Restart;
    RestartCounts(c, env);
    DelayOfEachAttempt(c.attempt + 1);
  }

  /** No cancellation among the acts from i on. */
  predicate NoResetFrom(acts: seq<Act>, i: nat)
    requires i <= |acts|
  {
    forall j :: i <= j < |acts| ==> !acts[j].Cancelled?
  }

  predicate NoResetBetween(acts: seq<Act>, i: nat, j: nat)
    requires i < j <= |acts|
  {
    forall k :: i < k < j ==> !acts[k].Cancelled?
  }

  /** Delays since the last reset never exceed the one the attempt counter now stands for. */
  ghost predicate DelaysBounded(c: Client) {
    forall i :: 0 <= i < |c.acts| && c.acts[i].TimerStarted? && NoResetFrom(c.acts, i)
      ==> c.acts[i].delayMsec <= ReconnectDelayMsec(c.attempt)
  }

  /** Between resets successive delays do not shrink, and all come from the table. */
  ghost predicate DelaysGrow(acts: seq<Act>) {
    && (forall i :: 0 <= i < |acts| && acts[i].TimerStarted? ==> acts[i].delayMsec in {1000, 2000, 5000, 15000, 30000})
    && (forall i, j :: 0 <= i < j < |acts| && acts[i].TimerStarted?
                        && acts[j].TimerStarted? && NoResetBetween(acts, i, j)
          ==> acts[i].delayMsec <= acts[j].delayMsec)
  }

  ghost predicate Paced(c: Client) { DelaysBounded(c) && DelaysGrow(c.acts) }

  lemma PacedAfterPlainAct(c: Client, a: Act)
    requires Paced(c) && !a.TimerStarted?
    ensures Paced(c.Did(a))
  {
    var d := c.Did(a);
    forall i | 0 <= i < |d.acts| && d.acts[i].TimerStarted? && NoResetFrom(d.acts, i)
      ensures d.acts[i].delayMsec <= ReconnectDelayMsec(d.attempt)
    {
      assert c.acts[i] == d.acts[i];
      assert NoResetFrom(c.acts, i) by {
        forall j | i <= j < |c.acts| ensures !c.acts[j].Cancelled? { assert c.acts[j] == d.acts[j]; }
      }
    }
    GrowthWithin(c.acts, d.acts);
  }

  /** Adding an act that starts no timer adds no new pair of delays. */
  lemma GrowthWithin(acts: seq<Act>, more: seq<Act>)
    requires DelaysGrow(acts) && |more| == |acts| + 1 && more[..|acts|] == acts && !more[|acts|].TimerStarted?
    ensures DelaysGrow(more)
  {
    forall i | 0 <= i < |more| && more[i].TimerStarted? ensures more[i].delayMsec in {1000, 2000, 5000, 15000, 30000} {
      assert acts[i] == more[i];
    }
    forall i, j | 0 <= i < j < |more| && more[i].TimerStarted? && more[j].TimerStarted?
          && NoResetBetween(more, i, j)
      ensures more[i].delayMsec <= more[j].delayMsec
    {
      assert acts[i] == more[i] && acts[j] == more[j];
      forall k | i < k < j ensures !acts[k].Cancelled? { assert acts[k] == more[k]; }
    }
  }

  lemma PacedAfterSchedule(c: Client)
    requires Paced(c)
    ensures Paced(ScheduleReconnect(c))
  {
    var d := ScheduleReconnect(c);
    if !c.userDisconnect {
      var n := |c.acts|;
      assert d.acts[..n] == c.acts && forall i :: 0 <= i < n ==> d.acts[i] == c.acts[i];
      DelayGrows(c.attempt, c.attempt);
      forall i | 0 <= i < n && c.acts[i].TimerStarted? && forall k :: i < k < n ==> !c.acts[k].Cancelled?
        ensures c.acts[i].delayMsec <= d.acts[n].delayMsec
      {
        assert NoResetFrom(c.acts, i);
      }
      forall i, j | 0 <= i < j < |d.acts| && d.acts[i].TimerStarted? && d.acts[j].TimerStarted?
            && NoResetBetween(d.acts, i, j)
        ensures d.acts[i].delayMsec <= d.acts[j].delayMsec
      {
        forall k | i < k < j && k < n ensures !c.acts[k].Cancelled? { assert d.acts[k] == c.acts[k]; }
      }
      forall i | 0 <= i < |d.acts| && d.acts[i].TimerStarted? && NoResetFrom(d.acts, i)
        ensures d.acts[i].delayMsec <= ReconnectDelayMsec(d.attempt)
      {
        if i < n {
          forall j | i <= j < n ensures !c.acts[j].Cancelled? { assert d.acts[j] == c.acts[j]; }
          assert NoResetFrom(c.acts, i);
        }
      }
    }
  }

  /** A cancellation ends the stretch, so the counter may start over. */
  lemma PacedAfterCancel(c: Client)
    requires DelaysGrow(c.acts)
    ensures Paced(CancelReconnect(c))
  {
    var d := CancelReconnect(c);
    assert d.acts[|c.acts|].Cancelled? && d.acts[..|c.acts|] == c.acts;
    GrowthWithin(c.acts, d.acts);
  }

  lemma PacedAfterCount(c: Client)
    requires Paced(c)
    ensures Paced(c.(attempt := c.attempt + 1))
  {
    DelayGrows(c.attempt, c.attempt + 1);
    var d := c.(attempt := c.attempt + 1);
    forall i | 0 <= i < |d.acts| && d.acts[i].TimerStarted? && NoResetFrom(d.acts, i)
      ensures d.acts[i].delayMsec <= ReconnectDelayMsec(d.attempt)
    {
      assert NoResetFrom(c.acts, i);
    }
  }

  lemma PacedAfterState(c: Client, state: Vpn)
    requires Paced(c)
    ensures Paced(SetConnectionState(c, state))
  {
    hide DelaysGrow;
    var moved := c.(state := state);
    assert DelaysBounded(moved) by { hide ReconnectDelayMsec; }
    PacedAfterCancel(moved);
    PacedAfterSchedule(moved);
  }

  lemma {:induction false} PacedAfterReport(c: Client, states: seq<Vpn>, n: nat)
    requires n <= |states| && Paced(c)
    ensures Paced(Report(c, states, n))
  {
    hide SetConnectionState, Paced;
    if n > 0 {
      PacedAfterReport(c, states, n-1);
      PacedAfterState(Report(c, states, n-1), states[n-1]);
    }
  }

  /** Only the counter and the acts matter for the pace. */
  lemma PacedIgnores(c: Client, d: Client)
    requires Paced(c) && d.acts == c.acts && d.attempt == c.attempt
    ensures Paced(d)
  {
  }

  lemma PacedAfterRestart(c: Client, env: RestartEnv)
    requires Paced(c)
    ensures Paced(ReconnectToVpn(c, env))
  {
    hide SetConnectionState, Report, Paced;
    var counted := c.(attempt := c.attempt + 1);
    PacedAfterCount(c);
    PacedAfterState(counted, Reconnecting);
    var moved := SetConnectionState(counted, Reconnecting);
    PacedAfterPlainAct(moved, ProtocolStopped);
    PacedAfterReport(moved.Did(ProtocolStopped), env.stopping, |env.stopping|);
    var stopped := Stop(moved, env.stopping);
    PacedAfterPlainAct(stopped, ProtocolStarted);
    PacedAfterReport(stopped.Did(ProtocolStarted), env.starting, |env.starting|);
    PacedAfterSchedule(Restart(c, env));
  }

  lemma PacedAfterConnect(c: Client, env: ConnectEnv)
    requires Paced(c)
    ensures Paced(ConnectToVpn(c, env))
  {
    hide SetConnectionState, Report;
    var renewed := CancelReconnect(c.(userDisconnect := false));
    PacedAfterCancel(c.(userDisconnect := false));
    PacedAfterState(renewed, Error);
    PacedAfterState(renewed, Connecting);
    hide Paced, CancelReconnect;
    var connecting := SetConnectionState(renewed, Connecting);
    PacedAfterPlainAct(connecting, ProtocolStopped);
    PacedAfterReport(connecting.Did(ProtocolStopped), env.stopping, |env.stopping|);
    var halted := Stop(connecting, env.stopping);
    PacedIgnores(halted, halted.(protocol := false));
    var stopped := if connecting.protocol then halted.(protocol := false) else connecting;
    PacedAfterState(stopped, Error);
    PacedIgnores(stopped, stopped.(protocol := true));
    PacedAfterPlainAct(stopped.(protocol := true), ProtocolStarted);
    PacedAfterReport(stopped.(protocol := true).Did(ProtocolStarted), env.starting, |env.starting|);
    PacedAfterState(Start(stopped.(protocol := true), env.starting), Error);
  }

  lemma PacedAfterDisconnect(c: Client, stopping: seq<Vpn>)
    requires Paced(c)
    ensures Paced(DisconnectFromVpn(c, stopping))
  {
    hide SetConnectionState, Report;
    var quiet := CancelReconnect(c.(userDisconnect := true));
    PacedAfterCancel(c.(userDisconnect := true));
    PacedAfterState(quiet, Disconnected);
    PacedAfterState(quiet, Disconnecting);
    hide Paced, CancelReconnect;
    var moved := SetConnectionState(quiet, Disconnecting);
    PacedAfterPlainAct(moved, ProtocolStopped);
    PacedAfterReport(moved.Did(ProtocolStopped), stopping, |stopping|);
    PacedIgnores(Stop(moved, stopping), Stop(moved, stopping).(protocol := false));
  }

  lemma PacedAfterEvent(c: Client, e: Event)
    requires Paced(c)
    ensures Paced(Next(c, e))
  {
    hide SetConnectionState, ReconnectToVpn, ConnectToVpn, DisconnectFromVpn, Paced;
    match e
    case Connect(env) => PacedAfterConnect(c, env);
    case Disconnect(stopping) => PacedAfterDisconnect(c, stopping);
    case RetryTimeout(env) =>
      PacedIgnores(c, c.(retryTimer := false));
      PacedAfterRestart(c.(retryTimer := false), env);
    case NetworkChanged(env) => PacedAfterRestart(c, env);
    case Wakeup(env) => PacedAfterRestart(c, env);
    case ProtocolState(state) => PacedAfterState(c, state);
  }

  /**
   In every run, the delays between two resets are non-decreasing and every
   delay is one of 1, 2, 5, 15 and 30 seconds.
   */
  lemma {:induction false} DelaysGrowBetweenResets(c: Client, events: seq<Event>, n: nat)
    requires n <= |events| && Initial(c)
    ensures DelaysGrow(Run(c, events, n).acts) && Paced(Run(c, events, n))
  {
    if n > 0 {
      DelaysGrowBetweenResets(c, events, n-1);
      PacedAfterEvent(Run(c, events, n-1), events[n-1]);
    }
  }
}
