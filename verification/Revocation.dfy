/// From the sweep to the gateway: what the deauthorizations a sweep sends do to the peers of a
/// location's gateway, once its handler has passed them on; and that the sweep deauthorizes peers by
/// the same rule by which the handler grants them.
module Revocation {
  import opened Common
  import D = SessionDomain
  import S = SessionSweep
  import L = SessionLaws
  import U = UpdateStream
  import P = PeerTable
  import X = SessionDecisions
  import Y = StreamDecisions

  /// A command of the sweep as the handler receives it; `keyOf` gives the public key of a device.
  function Received(c: S.Command, keyOf: D.Id -> string): U.Arrival {
    U.Arrival(U.VpnSessionDeauthorized(c.location, U.Device(c.device.name, keyOf(c.device.id))), None, true)
  }

  function AllReceived(commands: seq<S.Command>, keyOf: D.Id -> string): seq<U.Arrival> {
    if commands == [] then []
    else
      var n := |commands| - 1;
      AllReceived(commands[..n], keyOf) + [Received(commands[n], keyOf)]
  }

  /// The gateway of a location, after its handler has passed on the commands.
  function GatewayAfter(location: D.Id, held: U.Held, g: P.Gateway, commands: seq<S.Command>, keyOf: D.Id -> string): P.Gateway {
    P.Replay(g, U.Responses(location, held, AllReceived(commands, keyOf)))
  }

  predicate Revokes(commands: seq<S.Command>, keyOf: D.Id -> string, location: D.Id, key: string) {
    exists i :: 0 <= i < |commands| && commands[i].location == location && keyOf(commands[i].device.id) == key
  }

  lemma RevokesNext(commands: seq<S.Command>, keyOf: D.Id -> string, location: D.Id, key: string)
    requires commands != []
    ensures var n := |commands| - 1;
            Revokes(commands, keyOf, location, key) <==>
            || Revokes(commands[..n], keyOf, location, key)
            || (commands[n].location == location && keyOf(commands[n].device.id) == key)
  {
    var n := |commands| - 1;
    if Revokes(commands[..n], keyOf, location, key) {
      var i :| 0 <= i < n && commands[..n][i].location == location && keyOf(commands[..n][i].device.id) == key;
      assert commands[i] == commands[..n][i];
    }
    if i :| 0 <= i < n && commands[i].location == location && keyOf(commands[i].device.id) == key {
      assert commands[..n][i] == commands[i];
    }
  }

  lemma GatewayNext(location: D.Id, held: U.Held, g: P.Gateway, commands: seq<S.Command>, keyOf: D.Id -> string)
    requires commands != []
    ensures var n := |commands| - 1;
            var before := U.HeldAfter(location, held, AllReceived(commands[..n], keyOf));
            GatewayAfter(location, held, g, commands, keyOf) ==
            P.Replay(GatewayAfter(location, held, g, commands[..n], keyOf),
                     U.Respond(location, before, Received(commands[n], keyOf).command))
  {
    hide U.Respond, P.Replay, U.HeldAfter, Received;
    var n := |commands| - 1;
    var init, arrivals := AllReceived(commands[..n], keyOf), AllReceived(commands, keyOf);
    assert arrivals[..|arrivals| - 1] == init;
    P.ReplayConcat(g, U.Responses(location, held, init),
                   U.Respond(location, U.HeldAfter(location, held, init), arrivals[|arrivals| - 1].command));
  }

  lemma OneRevocation(location: D.Id, held: U.Held, g: P.Gateway, c: S.Command, keyOf: D.Id -> string, key: string)
    ensures Lookup(P.Replay(g, U.Respond(location, held, Received(c, keyOf).command)).peers, key)
         == if c.location == location && keyOf(c.device.id) == key then None else Lookup(g.peers, key)
  {
    P.RespondEffect(location, held, Received(c, keyOf).command, g, key);
  }

  lemma NothingRevoked(location: D.Id, held: U.Held, g: P.Gateway, keyOf: D.Id -> string, key: string)
    ensures GatewayAfter(location, held, g, [], keyOf) == g && !Revokes([], keyOf, location, key)
  {
  }

  lemma {:induction false} RevokedAreRemoved(location: D.Id, held: U.Held, g: P.Gateway, commands: seq<S.Command>,
                                            keyOf: D.Id -> string, key: string)
    ensures Lookup(GatewayAfter(location, held, g, commands, keyOf).peers, key)
         == if Revokes(commands, keyOf, location, key) then None else Lookup(g.peers, key)
  {
    hide GatewayAfter, Revokes, U.HeldAfter, U.Respond, P.Replay, AllReceived, Received;
    if commands == [] {
      NothingRevoked(location, held, g, keyOf, key);
    } else {
      var n := |commands| - 1;
      var before := U.HeldAfter(location, held, AllReceived(commands[..n], keyOf));
      RevokedAreRemoved(location, held, g, commands[..n], keyOf, key);
      RevokesNext(commands, keyOf, location, key);
      GatewayNext(location, held, g, commands, keyOf);
      OneRevocation(location, before, GatewayAfter(location, held, g, commands[..n], keyOf), commands[n], keyOf, key);
    }
  }

  /// A session the sweep closes whose peer its location's gateway was authorized to have.
  predicate ClosedHere(dir: D.Directory, db: D.Db, at: D.Time, s: D.Id, location: D.Id) {
    S.Due(dir, db, at, s) && S.Deauthorizes(dir, db.sessions[s]) && db.sessions[s].location == location
  }

  /// A sweep takes off the gateway of a location exactly the peers of the sessions it closes there,
  /// and leaves every other peer as it was.
  lemma SweepRevokesExactly(dir: D.Directory, db: D.Db, at: D.Time, stamp: D.Id -> D.Time, db': D.Db,
                            events: seq<D.Event>, commands: seq<S.Command>,
                            location: D.Id, held: U.Held, g: P.Gateway, keyOf: D.Id -> string, key: string)
    requires dir.Valid() && db.Valid() && S.Sweep(dir, db, at, stamp, db', events, commands)
    ensures Lookup(GatewayAfter(location, held, g, commands, keyOf).peers, key)
         == if exists s :: ClosedHere(dir, db, at, s, location) && keyOf(db.sessions[s].device) == key then None
            else Lookup(g.peers, key)
  {
    hide S.Sweep, S.Closes, S.Deauthorizes, GatewayAfter;
    L.SweepDeauthorizes(dir, db, at, stamp, db', events, commands);
    RevokedAreRemoved(location, held, g, commands, keyOf, key);
    if Revokes(commands, keyOf, location, key) {
      var i :| 0 <= i < |commands| && commands[i].location == location && keyOf(commands[i].device.id) == key;
      assert commands[i] in commands;
      var s :| S.Due(dir, db, at, s) && S.PeerOf(dir, db.sessions[s], commands[i]);
      assert ClosedHere(dir, db, at, s, location);
    }
    if s :| ClosedHere(dir, db, at, s, location) && keyOf(db.sessions[s].device) == key {
      var command := S.Deauthorize(location, dir.devices[db.sessions[s].device]);
      assert command in multiset(commands);
      var i :| 0 <= i < |commands| && commands[i] == command;
      assert Revokes(commands, keyOf, location, key);
    }
  }

  // ---------------------------------------------------------------------------------------------
  // The sweep's rule
  // ---------------------------------------------------------------------------------------------

  /// With the location's mode in force, the handler and the sweep agree exactly if there is
  /// multi-factor authentication or the look-up's answer is right; a look-up that failed counts as
  /// an answer of none.
  lemma RulesAgreeExactly(dir: D.Directory, location: D.Id, network: U.Network, postures: Option<bool>)
    requires dir.Valid() && location in dir.locations && network.mfaMode == dir.locations[location].mfaMode
    ensures (Y.NeedsSession(network, postures) <==> X.Authorizing(dir, location)) <==>
            network.mfaMode != Disabled || (postures == Some(true) <==> location in dir.postures)
    ensures U.Initially(network, postures).required <==> Y.NeedsSession(network, postures)
    ensures dir.AuthorizationRequired(dir.locations[location]) <==> X.Authorizing(dir, location)
  {
  }

  /// So the sweep deauthorizes the peer of a session it closes exactly if the handler of its location
  /// gives peers to authorized sessions only.
  lemma SweepCutsWhereKeyed(dir: D.Directory, db: D.Db, at: D.Time, stamp: D.Id -> D.Time, db': D.Db,
                            events: seq<D.Event>, commands: seq<S.Command>, s: D.Id,
                            first: U.Network, answered: Option<bool>, arrivals: seq<U.Arrival>, i: nat,
                            network: U.Network, postures: Option<bool>)
    requires dir.Valid() && db.Valid() && S.Sweep(dir, db, at, stamp, db', events, commands) && X.Overdue(dir, db, at, s)
    requires i <= |arrivals| && Y.InForce(db.sessions[s].location, first, answered, arrivals, i, network, postures)
    requires network.mfaMode == dir.locations[db.sessions[s].location].mfaMode
    requires postures == Some(db.sessions[s].location in dir.postures)
    ensures db.sessions[s].device in dir.devices
    ensures var row := db.sessions[s];
            multiset(commands)[S.Deauthorize(row.location, dir.devices[row.device])]
            == if U.HeldAfter(row.location, U.Initially(first, answered), arrivals[..i]).required then 1 else 0
  {
    hide S.Sweep, Y.InForce;
    X.OverdueIsClosed(dir, db, at, stamp, db', events, commands, s);
    Y.HeldExactly(db.sessions[s].location, first, answered, arrivals, i, network, postures);
  }
}
