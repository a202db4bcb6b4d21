/// The manager of gateway handlers: it starts, restarts and stops them as rows of the gateway table
/// are inserted, updated and deleted.
module GatewayManager {
  import opened Common

  type Id = nat
  type Time = int

  /// A row of the gateway table. The five fields that a connection depends on come first.
  datatype Gateway = Gateway(
    address: string,
    port: int,
    enabled: bool,
    clientCert: Option<Bytes>,
    clientKey: Option<Bytes>,
    location: Id,
    name: string,
    connectedAt: Option<Time>,
    disconnectedAt: Option<Time>,
    certificateSerial: Option<string>,
    certificateExpiry: Option<Time>,
    version: Option<string>,
    modifiedAt: Time,
    modifiedBy: string,
    clientCertExpiry: Option<Time>)
  {
    predicate IsConnected() {
      Common.IsConnected(connectedAt, disconnectedAt)
    }
  }

  predicate NeedsRestart(before: Gateway, after: Gateway) {
    || before.address != after.address
    || before.port != after.port
    || before.enabled != after.enabled
    || before.clientCert != after.clientCert
    || before.clientKey != after.clientKey
  }

  /// The same connection: what a handler writes itself (its version and its times), and what is
  /// recorded about the gateway otherwise, plays no part.
  predicate SameConnection(g: Gateway, h: Gateway) {
    g == h.(location := g.location, name := g.name, connectedAt := g.connectedAt, disconnectedAt := g.disconnectedAt,
            certificateSerial := g.certificateSerial, certificateExpiry := g.certificateExpiry, version := g.version,
            modifiedAt := g.modifiedAt, modifiedBy := g.modifiedBy, clientCertExpiry := g.clientCertExpiry)
  }

  /// A handler, with the row it was built from.
  datatype Handler = Handler(gateway: Id, row: Gateway, aborted: bool)

  /// The handle the manager keeps, with a copy of the row for later comparisons.
  datatype Handle = Handle(handler: Id, snapshot: Gateway)

  datatype State = State(handles: map<Id, Handle>, handlers: map<Id, Handler>, nextHandler: Id)

  datatype Operation = Insert | Update | Delete

  /// What reading the row of a notification gives.
  datatype Reading = Found(row: Gateway) | Missing | Failed

  /// A notification with what its processing meets: the row, the clock, and whether the row's
  /// address makes a URL.
  datatype Notification = Notification(operation: Operation, gateway: Id, reading: Reading, clock: Time, urlValid: bool)

  /// A run ends when a handler cannot be built.
  datatype Outcome = Running(state: State) | Stopped(state: State)

  function StartHandler(s: State, gateway: Id, row: Gateway, urlValid: bool): Outcome {
    if !urlValid then Stopped(s)
    else
      Running(State(s.handles[gateway := Handle(s.nextHandler, row)],
                    s.handlers[s.nextHandler := Handler(gateway, row, false)], s.nextHandler + 1))
  }

  function AbortHandler(handlers: map<Id, Handler>, handler: Id): map<Id, Handler> {
    if handler in handlers then handlers[handler := handlers[handler].(aborted := true)] else handlers
  }

  function StopHandler(s: State, gateway: Id): State {
    if gateway !in s.handles then s
    else State(s.handles - {gateway}, AbortHandler(s.handlers, s.handles[gateway].handler), s.nextHandler)
  }

  function MarkDisconnected(row: Gateway, clock: Time): Gateway {
    if row.IsConnected() then row.(disconnectedAt := Some(clock)) else row
  }

  function Process(s: State, n: Notification): Outcome {
    match n.operation
    case Insert =>
      if n.reading.Found? && n.reading.row.enabled then StartHandler(s, n.gateway, n.reading.row, n.urlValid)
      else Running(s)
    case Update =>
      if !n.reading.Found? then Running(s)
      else
        var row := n.reading.row;
        if n.gateway in s.handles && !NeedsRestart(s.handles[n.gateway].snapshot, row) then
          Running(s.(handles := s.handles[n.gateway := s.handles[n.gateway].(snapshot := row)]))
        else
          var stopped := StopHandler(s, n.gateway);
          if row.enabled then StartHandler(stopped, n.gateway, MarkDisconnected(row, n.clock), n.urlValid)
          else Running(stopped)
    case Delete => Running(StopHandler(s, n.gateway))
  }

  // ---------------------------------------------------------------------------------------------
  // The manager
  // ---------------------------------------------------------------------------------------------

  class Manager {
    var handles: map<Id, Handle>
    var handlers: map<Id, Handler>
    var nextHandler: Id

    constructor ()
      ensures Snapshot() == State(map[], map[], 0)
    {
      handles, handlers, nextHandler := map[], map[], 0;
    }

    function Snapshot(): State
      reads this
    {
      State(handles, handlers, nextHandler)
    }

    method RunHandler(gateway: Id, row: Gateway, urlValid: bool) returns (ok: bool)
      modifies this
      ensures (if ok then Running(Snapshot()) else Stopped(Snapshot()))
           == StartHandler(old(Snapshot()), gateway, row, urlValid)
    {
      if !urlValid {
        return false;
      }
      handlers := handlers[nextHandler := Handler(gateway, row, false)];
      handles := handles[gateway := Handle(nextHandler, row)];
      nextHandler := nextHandler + 1;
      return true;
    }

    method AbortGateway(gateway: Id)
      modifies this`handles, this`handlers
      ensures Snapshot() == StopHandler(old(Snapshot()), gateway)
    {
      if gateway in handles {
        var handler := handles[gateway].handler;
        handles := handles - {gateway};
        if handler in handlers {
          handlers := handlers[handler := handlers[handler].(aborted := true)];
        }
      }
    }

    method HandleNotification(n: Notification) returns (ok: bool)
      modifies this
      ensures (if ok then Running(Snapshot()) else Stopped(Snapshot())) == Process(old(Snapshot()), n)
    {
      match n.operation {
        case Insert =>
          if n.reading.Found? && n.reading.row.enabled {
            ok := RunHandler(n.gateway, n.reading.row, n.urlValid);
            return;
          }
        case Update =>
          if n.reading.Found? {
            var row := n.reading.row;
            var restart := n.gateway !in handles || NeedsRestart(handles[n.gateway].snapshot, row);
            if restart {
              AbortGateway(n.gateway);
              if row.IsConnected() {
                row := row.(disconnectedAt := Some(n.clock));
              }
              if row.enabled {
                ok := RunHandler(n.gateway, row, n.urlValid);
                return;
              }
            } else {
              handles := handles[n.gateway := handles[n.gateway].(snapshot := row)];
            }
          }
        case Delete =>
          AbortGateway(n.gateway);
      }
      return true;
    }

    /// Starts the handlers of the enabled gateways and then follows the notifications.
    method Run(gateways: seq<(Id, Gateway, bool)>, notifications: seq<Notification>) returns (handled: nat, ok: bool)
      modifies this
      ensures handled <= |notifications|
      ensures var started := StartAll(old(Snapshot()), gateways);
              if started.Stopped? then !ok && handled == 0 && Snapshot() == started.state
              else (if ok then Running(Snapshot()) else Stopped(Snapshot())) == Follow(started.state, notifications[..handled])
                   && (ok ==> handled == |notifications|)
    {
      handled := 0;
      ok := true;
      for i := 0 to |gateways|
        invariant ok && Running(Snapshot()) == StartAll(old(Snapshot()), gateways[..i])
      {
        var (gateway, row, urlValid) := gateways[i];
        assert gateways[..i + 1][..i] == gateways[..i];
        if row.enabled {
          ok := RunHandler(gateway, row, urlValid);
          if !ok {
            StartFails(old(Snapshot()), gateways, i + 1);
            return;
          }
        }
      }
      assert gateways[..|gateways|] == gateways;
      ghost var started := Snapshot();
      while handled < |notifications|
        invariant handled <= |notifications| && ok
        invariant Running(Snapshot()) == Follow(started, notifications[..handled])
      {
        ok := HandleNotification(notifications[handled]);
        assert notifications[..handled + 1][..handled] == notifications[..handled];
        handled := handled + 1;
        if !ok {
          return;
        }
      }
    }
  }

  function StartAll(s: State, gateways: seq<(Id, Gateway, bool)>): Outcome {
    if gateways == [] then Running(s)
    else
      var n := |gateways| - 1;
      var before := StartAll(s, gateways[..n]);
      if before.Stopped? || !gateways[n].1.enabled then before
      else StartHandler(before.state, gateways[n].0, gateways[n].1, gateways[n].2)
  }

  lemma {:induction false} StartFails(s: State, gateways: seq<(Id, Gateway, bool)>, i: nat)
    requires i <= |gateways| && StartAll(s, gateways[..i]).Stopped?
    ensures StartAll(s, gateways) == StartAll(s, gateways[..i])
    decreases |gateways|
  {
    if i == |gateways| {
      assert gateways[..i] == gateways;
    } else {
      var n := |gateways| - 1;
      assert gateways[..n][..i] == gateways[..i];
      StartFails(s, gateways[..n], i);
    }
  }

  function Follow(s: State, notifications: seq<Notification>): Outcome {
    if notifications == [] then Running(s)
    else
      var n := |notifications| - 1;
      var before := Follow(s, notifications[..n]);
      if before.Stopped? then before else Process(before.state, notifications[n])
  }
}
