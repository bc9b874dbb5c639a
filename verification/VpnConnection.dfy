/**
 The connection object with its slots, each proved against its step function.
 */
module VpnConnection {
  import opened Reconnect

  class VpnConnection {
    var connectionState: Vpn
    var reconnectTimer: bool
    var reconnectAttempt: nat
    var userInitiatedDisconnect: bool
    var vpnProtocol: bool
    ghost var acts: seq<Act>

    ghost function State(): Client
      reads this
    {
      Client(connectionState, reconnectTimer, reconnectAttempt, userInitiatedDisconnect, vpnProtocol, acts)
    }

    constructor (uninitialised: Vpn)
      ensures Initial(State()) && connectionState == uninitialised
    {
      connectionState := uninitialised;
      reconnectTimer, reconnectAttempt := false, 0;
      userInitiatedDisconnect, vpnProtocol := false, false;
      acts := [];
    }

    method DelayMsec() returns (msec: int)
      ensures msec == ReconnectDelayMsec(reconnectAttempt)
    {
      var delaysSec := [1, 2, 5, 15, 30];
      var index := if reconnectAttempt < |delaysSec| then reconnectAttempt else |delaysSec| - 1;
      assert delaysSec == DELAYS_SEC;
      msec := delaysSec[index] * 1000;
    }

    method ScheduleReconnect()
      modifies this
      ensures State() == Reconnect.ScheduleReconnect(old(State()))
    {
      if userInitiatedDisconnect {
        return;
      }
      var delay := DelayMsec();
      reconnectTimer := true;
      acts := acts + [TimerStarted(delay)];
    }

    method CancelReconnect()
      modifies this
      ensures State() == Reconnect.CancelReconnect(old(State()))
    {
      reconnectTimer := false;
      reconnectAttempt := 0;
      acts := acts + [Cancelled];
    }

    method SetConnectionState(state: Vpn)
      modifies this
      ensures State() == Reconnect.SetConnectionState(old(State()), state)
    {
      if state == Disconnected && connectionState == Reconnecting {
        return;
      }
      var previous := connectionState;
      connectionState := state;
      if state == Connected {
        CancelReconnect();
        return;
      }
      if userInitiatedDisconnect {
        return;
      }
      if state == Disconnected && previous == Connected {
        ScheduleReconnect();
      } else if state == Error {
        ScheduleReconnect();
      }
    }

    /** The protocol reports its states one after the other. */
    method ReportStates(states: seq<Vpn>)
      modifies this
      ensures State() == Report(old(State()), states, |states|)
    {
      for i := 0 to |states|
        invariant State() == Report(old(State()), states, i)
      {
        SetConnectionState(states[i]);
      }
    }

    method ConnectToVpn(env: ConnectEnv)
      modifies this
      ensures State() == Reconnect.ConnectToVpn(old(State()), env)
    {
      hide Reconnect.SetConnectionState;
      userInitiatedDisconnect := false;
      CancelReconnect();
      if !env.repositories {
        SetConnectionState(Error);
        return;
      }
      SetConnectionState(Connecting);
      if vpnProtocol {
        acts := acts + [ProtocolStopped];
        ReportStates(env.stopping);
        vpnProtocol := false;
      }
      vpnProtocol := env.factory;
      if !env.factory {
        SetConnectionState(Error);
        return;
      }
      acts := acts + [ProtocolStarted];
      ReportStates(env.starting);
      if !env.ok {
        SetConnectionState(Error);
      }
    }

    method ReconnectToVpn(env: RestartEnv)
      modifies this
      ensures State() == Reconnect.ReconnectToVpn(old(State()), env)
    {
      hide Reconnect.SetConnectionState;
      if !vpnProtocol {
        return;
      }
      if connectionState == Disconnecting || connectionState == Reconnecting {
        return;
      }
      if userInitiatedDisconnect {
        return;
      }
      reconnectAttempt := reconnectAttempt + 1;
      SetConnectionState(Reconnecting);
      acts := acts + [ProtocolStopped];
      ReportStates(env.stopping);
      acts := acts + [ProtocolStarted];
      ReportStates(env.starting);
      if !env.ok {
        ScheduleReconnect();
      }
    }

    /** The single-shot retry timer fires. */
    method OnReconnectTimer(env: RestartEnv)
      requires reconnectTimer
      modifies this
      ensures State() == Next(old(State()), RetryTimeout(env))
    {
      reconnectTimer := false;
      ReconnectToVpn(env);
    }

    method DisconnectFromVpn(stopping: seq<Vpn>)
      modifies this
      ensures State() == Reconnect.DisconnectFromVpn(old(State()), stopping)
    {
      hide Reconnect.SetConnectionState;
      userInitiatedDisconnect := true;
      CancelReconnect();
      if !vpnProtocol {
        SetConnectionState(Disconnected);
        return;
      }
      SetConnectionState(Disconnecting);
      acts := acts + [ProtocolStopped];
      ReportStates(stopping);
      vpnProtocol := false;
    }
  }
}
