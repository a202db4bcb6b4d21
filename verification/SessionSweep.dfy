/// The sweep that disconnects sessions without a recent handshake, and sessions that were
/// authorized but never connected.
module SessionSweep {
  import opened Common
  import opened SessionDomain
  import opened SessionCache

  /// What the sweep sends to the gateways.
  datatype Command = Deauthorize(location: Id, device: Device)

  /// The channel to the gateways.
  class CommandChannel {
    var sent: seq<Command>

    method Send(command: Command, open: bool) returns (ok: bool)
      modifies this
      ensures ok == open
      ensures sent == old(sent) + if open then [command] else []
    {
      ok := open;
      if open {
        sent := sent + [command];
      }
    }
  }

  // ---------------------------------------------------------------------------------------------
  // Which sessions are closed
  // ---------------------------------------------------------------------------------------------

  /// Connected, and every handshake on record is older than the location's threshold. A session
  /// without statistics has no handshake to compare and is not inactive.
  predicate Inactive(db: Db, location: Location, at: Time, row: SessionRow) {
    && row.location == location.id && row.state == Connected
    && (exists i :: 0 <= i < |db.stats| && db.stats[i].session == row.id)
    && (forall i :: 0 <= i < |db.stats| && db.stats[i].session == row.id ==>
          at - db.stats[i].latestHandshake > location.disconnectThreshold * MICROS_PER_SECOND)
  }

  predicate NeverConnected(location: Location, at: Time, row: SessionRow) {
    row.location == location.id && row.state == New
    && at - row.createdAt > location.disconnectThreshold * MICROS_PER_SECOND
  }

  predicate Closes(dir: Directory, db: Db, at: Time, row: SessionRow) {
    row.location in dir.locations
    && var location := dir.locations[row.location];
       Inactive(db, location, at, row) || (dir.AuthorizationRequired(location) && NeverConnected(location, at, row))
  }

  /// A session the sweep at this time closes.
  predicate Due(dir: Directory, db: Db, at: Time, s: Id) {
    s in db.sessions && Closes(dir, db, at, db.sessions[s])
  }

  predicate Deauthorizes(dir: Directory, row: SessionRow) {
    row.location in dir.locations && dir.AuthorizationRequired(dir.locations[row.location])
  }

  // ---------------------------------------------------------------------------------------------
  // What a sweep does
  // ---------------------------------------------------------------------------------------------

  function ClosedRow(row: SessionRow, stamp: Time): SessionRow {
    row.(state := Disconnected, disconnectedAt := Some(stamp))
  }

  function CloseAll(db: Db, closed: set<Id>, stamp: Id -> Time): Db {
    db.(sessions := map s | s in db.sessions ::
          if s in closed then ClosedRow(db.sessions[s], stamp(s)) else db.sessions[s])
  }

  /// The events about one session, in order.
  function EventsOf(events: seq<Event>, s: Id): seq<Event> {
    if events == [] then []
    else
      var n := |events| - 1;
      EventsOf(events[..n], s) + if events[n].session == s then [events[n]] else []
  }

  lemma EventsOfAppend(events: seq<Event>, e: Event, s: Id)
    ensures EventsOf(events + [e], s) == EventsOf(events, s) + if e.session == s then [e] else []
  {
    assert (events + [e])[..|events|] == events;
  }

  /// The rows an event names are there.
  predicate HasContext(dir: Directory, row: SessionRow) {
    row.location in dir.locations && row.user in dir.users && row.device in dir.devices
  }

  function DisconnectedEvent(dir: Directory, row: SessionRow, stamp: Time): Event
    requires HasContext(dir, row)
  {
    Event(row.id, DisconnectedKind(row.mfa), stamp, dir.locations[row.location], dir.users[row.user],
          dir.devices[row.device], None)
  }

  /// The events of the closed sessions: one for a session that had connected, none for the others.
  ghost predicate EventsFit(dir: Directory, db: Db, closed: set<Id>, stamp: Id -> Time, events: seq<Event>) {
    forall s ::
      if s in closed && s in db.sessions && HasContext(dir, db.sessions[s]) && db.sessions[s].connectedAt.Some?
      then EventsOf(events, s) == [DisconnectedEvent(dir, db.sessions[s], stamp(s))]
      else EventsOf(events, s) == []
  }

  ghost predicate ClosedPeer(dir: Directory, db: Db, closed: set<Id>, command: Command) {
    exists s :: s in closed && s in db.sessions && PeerOf(dir, db.sessions[s], command)
  }

  predicate PeerOf(dir: Directory, row: SessionRow, command: Command) {
    && Deauthorizes(dir, row) && command.location == row.location
    && row.device in dir.devices && dir.devices[row.device] == command.device
  }

  /// One command for each closed session of a location that authorizes peers, and no other.
  ghost predicate CommandsFit(dir: Directory, db: Db, closed: set<Id>, commands: seq<Command>) {
    forall c :: multiset(commands)[c] == if ClosedPeer(dir, db, closed, c) then 1 else 0
  }

  /// A sweep that commits.
  ghost predicate Sweep(dir: Directory, db: Db, at: Time, stamp: Id -> Time, db': Db,
                        events: seq<Event>, commands: seq<Command>) {
    var closed := set s | s in db.sessions && Due(dir, db, at, s);
    && db' == CloseAll(db, closed, stamp)
    && (forall s :: s in closed ==> HasContext(dir, db.sessions[s]))
    && EventsFit(dir, db, closed, stamp, events)
    && CommandsFit(dir, db, closed, commands)
  }

  /// What makes closing one session fail, and with it the whole sweep.
  predicate CannotClose(dir: Directory, row: SessionRow, eventsOpen: bool, gatewayOpen: bool) {
    || row.user !in dir.users
    || row.device !in dir.devices
    || (Deauthorizes(dir, row) && !gatewayOpen)
    || (row.connectedAt.Some? && !eventsOpen)
  }

  /// Its deauthorization is sent even so.
  predicate StillDeauthorizes(dir: Directory, row: SessionRow, gatewayOpen: bool) {
    HasContext(dir, row) && Deauthorizes(dir, row) && gatewayOpen
  }

  function CloseError(dir: Directory, row: SessionRow, eventsOpen: bool, gatewayOpen: bool): Option<Error> {
    if row.user !in dir.users then Some(UserMissing(row.user))
    else if row.device !in dir.devices then Some(DeviceMissing(row.device))
    else if Deauthorizes(dir, row) && !gatewayOpen then Some(GatewayChannelClosed)
    else if row.connectedAt.Some? && !eventsOpen then Some(EventChannelClosed)
    else None
  }

  /// A sweep that fails at session `s` after it had closed some others: what was sent by then. The
  /// events are those of the closed sessions; the commands may be one further.
  ghost predicate Broken(dir: Directory, db: Db, at: Time, stamp: Id -> Time, eventsOpen: bool, gatewayOpen: bool,
                         closed: set<Id>, s: Id, events: seq<Event>, commands: seq<Command>) {
    && Due(dir, db, at, s) && s !in closed && CannotClose(dir, db.sessions[s], eventsOpen, gatewayOpen)
    && (forall t :: t in closed ==> Due(dir, db, at, t) && !CannotClose(dir, db.sessions[t], eventsOpen, gatewayOpen))
    && EventsFit(dir, db, closed, stamp, events)
    && CommandsFit(dir, db, if StillDeauthorizes(dir, db.sessions[s], gatewayOpen) then closed + {s} else closed, commands)
  }

  // ---------------------------------------------------------------------------------------------
  // The loops
  // ---------------------------------------------------------------------------------------------

  /// How far a sweep has come when it has closed these sessions of the database it found.
  ghost predicate Progress(dir: Directory, db: Db, at: Time, stamp: Id -> Time, closed: set<Id>,
                           db': Db, events: seq<Event>, commands: seq<Command>) {
    && db' == CloseAll(db, closed, stamp)
    && (forall s :: s in closed ==> Due(dir, db, at, s) && HasContext(dir, db.sessions[s]))
    && EventsFit(dir, db, closed, stamp, events)
    && CommandsFit(dir, db, closed, commands)
  }

  /// Progress, with the channels as they were before the sweep and as they are now.
  ghost predicate Since(dir: Directory, db: Db, at: Time, stamp: Id -> Time, closed: set<Id>, db': Db,
                        events: seq<Event>, events': seq<Event>, commands: seq<Command>, commands': seq<Command>) {
    && events <= events' && commands <= commands'
    && Progress(dir, db, at, stamp, closed, db', events'[|events|..], commands'[|commands|..])
  }

  lemma Advance(dir: Directory, found: Db, at: Time, stamp: Id -> Time, closed: set<Id>, s: Id,
                events: seq<Event>, sent: seq<Event>, sent': seq<Event>,
                commands: seq<Command>, ordered: seq<Command>, ordered': seq<Command>, db: Db, db': Db)
    requires dir.Valid() && found.Valid()
    requires Since(dir, found, at, stamp, closed, db, events, sent, commands, ordered)
    requires Due(dir, found, at, s) && HasContext(dir, found.sessions[s]) && s !in closed
    requires var row := found.sessions[s];
             && db' == db.Put(s, ClosedRow(row, stamp(s)))
             && sent' == sent + (if row.connectedAt.Some? then [DisconnectedEvent(dir, row, stamp(s))] else [])
             && ordered' == ordered + (if Deauthorizes(dir, row) then [Deauthorize(row.location, dir.devices[row.device])] else [])
    ensures Since(dir, found, at, stamp, closed + {s}, db', events, sent', commands, ordered')
  {
    var row := found.sessions[s];
    var event := if row.connectedAt.Some? then [DisconnectedEvent(dir, row, stamp(s))] else [];
    var command := if Deauthorizes(dir, row) then [Deauthorize(row.location, dir.devices[row.device])] else [];
    CloseOneMore(dir, found, at, stamp, closed, sent[|events|..], ordered[|commands|..], s);
    CloseAllPut(found, closed, stamp, s);
    SliceAppend(events, sent, event);
    SliceAppend(commands, ordered, command);
  }

  lemma BreakOff(dir: Directory, found: Db, at: Time, stamp: Id -> Time, closed: set<Id>, s: Id,
                 events: seq<Event>, sent: seq<Event>, commands: seq<Command>, ordered: seq<Command>,
                 ordered': seq<Command>, db: Db, eventsOpen: bool, gatewayOpen: bool)
    requires dir.Valid() && found.Valid()
    requires Since(dir, found, at, stamp, closed, db, events, sent, commands, ordered)
    requires Due(dir, found, at, s) && s !in closed && CannotClose(dir, found.sessions[s], eventsOpen, gatewayOpen)
    requires forall t :: t in closed ==> !CannotClose(dir, found.sessions[t], eventsOpen, gatewayOpen)
    requires var row := found.sessions[s];
             ordered' == ordered + if StillDeauthorizes(dir, row, gatewayOpen)
                                   then [Deauthorize(row.location, dir.devices[row.device])] else []
    ensures events <= sent && commands <= ordered'
    ensures Broken(dir, found, at, stamp, eventsOpen, gatewayOpen, closed, s, sent[|events|..], ordered'[|commands|..])
  {
    var row := found.sessions[s];
    var command := if StillDeauthorizes(dir, row, gatewayOpen)
                   then [Deauthorize(row.location, dir.devices[row.device])] else [];
    SliceAppend(commands, ordered, command);
    if StillDeauthorizes(dir, row, gatewayOpen) {
      OneMoreCommand(dir, found, at, closed, ordered[|commands|..], s);
    } else {
      assert ordered[|commands|..] + [] == ordered[|commands|..];
    }
  }

  lemma SliceAppend<T>(base: seq<T>, all: seq<T>, tail: seq<T>)
    requires base <= all
    ensures base <= all + tail && (all + tail)[|base|..] == all[|base|..] + tail
  {
  }

  lemma CloseAllPut(db: Db, closed: set<Id>, stamp: Id -> Time, s: Id)
    requires s in db.sessions
    ensures CloseAll(db, closed + {s}, stamp) == CloseAll(db, closed, stamp).Put(s, ClosedRow(db.sessions[s], stamp(s)))
  {
  }

  lemma CloseNone(dir: Directory, db: Db, at: Time, stamp: Id -> Time)
    ensures Progress(dir, db, at, stamp, {}, db, [], [])
  {
  }

  lemma CloseOneMore(dir: Directory, db: Db, at: Time, stamp: Id -> Time, closed: set<Id>,
                     events: seq<Event>, commands: seq<Command>, s: Id)
    requires dir.Valid() && db.Valid()
    requires Progress(dir, db, at, stamp, closed, CloseAll(db, closed, stamp), events, commands)
    requires Due(dir, db, at, s) && HasContext(dir, db.sessions[s]) && s !in closed
    ensures var row := db.sessions[s];
            Progress(dir, db, at, stamp, closed + {s}, CloseAll(db, closed + {s}, stamp),
                     events + (if row.connectedAt.Some? then [DisconnectedEvent(dir, row, stamp(s))] else []),
                     commands + (if Deauthorizes(dir, row) then [Deauthorize(row.location, dir.devices[row.device])] else []))
  {
    OneMoreEvent(dir, db, stamp, closed, events, s);
    OneMoreCommand(dir, db, at, closed, commands, s);
  }

  lemma OneMoreEvent(dir: Directory, db: Db, stamp: Id -> Time, closed: set<Id>, events: seq<Event>, s: Id)
    requires db.Valid() && EventsFit(dir, db, closed, stamp, events)
    requires s in db.sessions && HasContext(dir, db.sessions[s]) && s !in closed
    ensures var row := db.sessions[s];
            EventsFit(dir, db, closed + {s}, stamp,
                      events + (if row.connectedAt.Some? then [DisconnectedEvent(dir, row, stamp(s))] else []))
  {
    var row := db.sessions[s];
    assert EventsOf(events, s) == [];
    if row.connectedAt.Some? {
      var event := DisconnectedEvent(dir, row, stamp(s));
      forall t { EventsOfAppend(events, event, t); }
    } else {
      assert events + [] == events;
    }
  }

  lemma OneMoreCommand(dir: Directory, db: Db, at: Time, closed: set<Id>, commands: seq<Command>, s: Id)
    requires dir.Valid() && db.Valid() && CommandsFit(dir, db, closed, commands)
    requires forall t :: t in closed ==> Due(dir, db, at, t)
    requires Due(dir, db, at, s) && HasContext(dir, db.sessions[s]) && s !in closed
    ensures var row := db.sessions[s];
            CommandsFit(dir, db, closed + {s},
                        commands + (if Deauthorizes(dir, row) then [Deauthorize(row.location, dir.devices[row.device])] else []))
  {
    var row := db.sessions[s];
    var command := Deauthorize(row.location, dir.devices[row.device]);
    var commands' := commands + if Deauthorizes(dir, row) then [command] else [];
    forall c ensures multiset(commands')[c] == if ClosedPeer(dir, db, closed + {s}, c) then 1 else 0 {
      OnePeer(dir, db, at, closed, s, c);
    }
  }

  /// Sessions that are due are active, so no two of them have the same peer.
  lemma OnePeer(dir: Directory, db: Db, at: Time, closed: set<Id>, s: Id, c: Command)
    requires dir.Valid() && db.Valid() && Due(dir, db, at, s) && s !in closed
    requires forall t :: t in closed ==> Due(dir, db, at, t)
    ensures ClosedPeer(dir, db, closed + {s}, c) <==> ClosedPeer(dir, db, closed, c) || PeerOf(dir, db.sessions[s], c)
    ensures PeerOf(dir, db.sessions[s], c) ==> !ClosedPeer(dir, db, closed, c)
  {
    var row := db.sessions[s];
    assert s in closed + {s};
    forall t | t in closed
      ensures t in closed + {s}
      ensures !(PeerOf(dir, row, c) && PeerOf(dir, db.sessions[t], c))
    {
      assert db.sessions[t].ActiveFor(row.location, row.device) ==> t == s;
    }
  }

  /// The rows that a query selects, each once and in no particular order.
  ghost predicate Selects(db: Db, rows: seq<SessionRow>, pick: SessionRow -> bool) {
    && (forall i :: 0 <= i < |rows| ==> rows[i].id in db.sessions && db.sessions[rows[i].id] == rows[i] && pick(rows[i]))
    && (forall i, j :: 0 <= i < j < |rows| ==> rows[i].id != rows[j].id)
    && (forall s :: s in db.sessions && pick(db.sessions[s]) ==> db.sessions[s] in rows)
  }

  method SelectRows(db: Db, pick: SessionRow -> bool) returns (rows: seq<SessionRow>)
    requires forall s :: s in db.sessions ==> db.sessions[s].id == s
    ensures Selects(db, rows, pick)
  {
    rows := [];
    var pending := db.sessions.Keys;
    while pending != {}
      invariant pending <= db.sessions.Keys
      invariant forall i :: 0 <= i < |rows| ==>
                  rows[i].id in db.sessions.Keys - pending && db.sessions[rows[i].id] == rows[i] && pick(rows[i])
      invariant forall i, j :: 0 <= i < j < |rows| ==> rows[i].id != rows[j].id
      invariant forall s :: s in db.sessions.Keys - pending && pick(db.sessions[s]) ==> db.sessions[s] in rows
      decreases |pending|
    {
      var s :| s in pending;
      if pick(db.sessions[s]) {
        rows := rows + [db.sessions[s]];
      }
      pending := pending - {s};
    }
  }

  method AllLocations(dir: Directory) returns (rows: seq<Location>)
    requires dir.Valid()
    ensures forall i :: 0 <= i < |rows| ==> rows[i].id in dir.locations && dir.locations[rows[i].id] == rows[i]
    ensures forall l :: l in dir.locations ==> dir.locations[l] in rows
    ensures forall i, j :: 0 <= i < j < |rows| ==> rows[i].id != rows[j].id
  {
    rows := [];
    var pending := dir.locations.Keys;
    while pending != {}
      invariant pending <= dir.locations.Keys
      invariant forall i :: 0 <= i < |rows| ==>
                  rows[i].id in dir.locations.Keys - pending && dir.locations[rows[i].id] == rows[i]
      invariant forall l :: l in dir.locations.Keys - pending ==> dir.locations[l] in rows
      invariant forall i, j :: 0 <= i < j < |rows| ==> rows[i].id != rows[j].id
      decreases |pending|
    {
      var l :| l in pending;
      rows := rows + [dir.locations[l]];
      pending := pending - {l};
    }
  }

  function IdsOf(rows: seq<SessionRow>): (ids: set<Id>)
    ensures forall i :: 0 <= i < |rows| ==> rows[i].id in ids
    ensures forall s :: s in ids ==> exists i :: 0 <= i < |rows| && rows[i].id == s
  {
    if rows == [] then {}
    else
      var n := |rows| - 1;
      IdsOf(rows[..n]) + {rows[n].id}
  }

  /// One sweep: its transaction, its channels, and what it has closed so far.
  class SweepRun {
    const tx: Transaction
    const at: Time
    const stamp: Id -> Time
    const eventsOpen: bool
    const gatewayOpen: bool
    const events: EventChannel
    const commands: CommandChannel
    ghost const found: Db
    ghost const eventsBefore: seq<Event>
    ghost const commandsBefore: seq<Command>
    ghost var closed: set<Id>

    constructor (tx: Transaction, at: Time, stamp: Id -> Time, events: EventChannel, eventsOpen: bool,
                 commands: CommandChannel, gatewayOpen: bool)
      requires tx.dir.Valid() && tx.db.Valid()
      ensures this.tx == tx && this.at == at && this.stamp == stamp
      ensures this.events == events && this.eventsOpen == eventsOpen
      ensures this.commands == commands && this.gatewayOpen == gatewayOpen
      ensures found == tx.db && eventsBefore == events.sent && commandsBefore == commands.sent
      ensures closed == {} && Valid()
    {
      CloseNone(tx.dir, tx.db, at, stamp);
      this.tx, this.at, this.stamp := tx, at, stamp;
      this.events, this.eventsOpen, this.commands, this.gatewayOpen := events, eventsOpen, commands, gatewayOpen;
      found, eventsBefore, commandsBefore, closed := tx.db, events.sent, commands.sent, {};
    }

    ghost predicate Valid()
      reads this, tx, events, commands
    {
      && tx.dir.Valid() && found.Valid()
      && Since(tx.dir, found, at, stamp, closed, tx.db, eventsBefore, events.sent, commandsBefore, commands.sent)
      && (forall s :: s in closed ==> !CannotClose(tx.dir, found.sessions[s], eventsOpen, gatewayOpen))
    }

    /// One session could not be closed.
    ghost predicate Stopped()
      reads this, events, commands
    {
      && eventsBefore <= events.sent && commandsBefore <= commands.sent
      && exists s :: Broken(tx.dir, found, at, stamp, eventsOpen, gatewayOpen, closed, s,
                            events.sent[|eventsBefore|..], commands.sent[|commandsBefore|..])
    }

    /// Marks one session as disconnected and sends what follows from that.
    method DisconnectSession(row: SessionRow, location: Location, authorizationRequired: bool)
      returns (error: Option<Error>)
      requires row.location in tx.dir.locations && location == tx.dir.locations[row.location]
      requires location.id == row.location && authorizationRequired == tx.dir.AuthorizationRequired(location)
      modifies tx`db, events, commands
      ensures error == CloseError(tx.dir, row, eventsOpen, gatewayOpen)
      ensures error.Some? <==> CannotClose(tx.dir, row, eventsOpen, gatewayOpen)
      ensures error.None? ==> HasContext(tx.dir, row)
      ensures tx.db == old(tx.db).Put(row.id, ClosedRow(row, stamp(row.id)))
      ensures events.sent == old(events.sent) +
                               (if error.None? && row.connectedAt.Some?
                                then [DisconnectedEvent(tx.dir, row, stamp(row.id))] else [])
      ensures commands.sent == old(commands.sent) +
                                 (if StillDeauthorizes(tx.dir, row, gatewayOpen)
                                  then [Deauthorize(row.location, tx.dir.devices[row.device])] else [])
    {
      var wasConnected := row.connectedAt.Some?;
      tx.db := tx.db.Put(row.id, row.(disconnectedAt := Some(stamp(row.id)), state := Disconnected));
      if row.user !in tx.dir.users {
        return Some(UserMissing(row.user));
      }
      if row.device !in tx.dir.devices {
        return Some(DeviceMissing(row.device));
      }
      var device := tx.dir.devices[row.device];
      if authorizationRequired {
        var ok := commands.Send(Deauthorize(location.id, device), gatewayOpen);
        if !ok {
          return Some(GatewayChannelClosed);
        }
      }
      if wasConnected {
        var event := Event(row.id, DisconnectedKind(row.mfa), stamp(row.id), location, tx.dir.users[row.user], device, None);
        var ok := events.Send(event, eventsOpen);
        if !ok {
          return Some(EventChannelClosed);
        }
      }
      return None;
    }

    /// Disconnecting a session that is due brings the sweep one session further.
    method DisconnectNext(row: SessionRow, location: Location, authorizationRequired: bool)
      returns (error: Option<Error>)
      requires Valid()
      requires Due(tx.dir, found, at, row.id) && row == found.sessions[row.id] && row.id !in closed
      requires row.location in tx.dir.locations && location == tx.dir.locations[row.location]
      requires authorizationRequired == tx.dir.AuthorizationRequired(location)
      modifies this`closed, tx`db, events, commands
      ensures error.None? ==> Valid() && closed == old(closed) + {row.id}
      ensures error.Some? ==> Stopped()
      ensures error.Some? <==> CannotClose(tx.dir, row, eventsOpen, gatewayOpen)
    {
      ghost var before, sent, ordered := tx.db, events.sent, commands.sent;
      error := DisconnectSession(row, location, authorizationRequired);
      if error.None? {
        Advance(tx.dir, found, at, stamp, closed, row.id, eventsBefore, sent, events.sent,
                commandsBefore, ordered, commands.sent, before, tx.db);
        closed := closed + {row.id};
      } else {
        BreakOff(tx.dir, found, at, stamp, closed, row.id, eventsBefore, sent, commandsBefore, ordered, commands.sent,
                 before, eventsOpen, gatewayOpen);
        assert events.sent == sent;
      }
    }

    method DisconnectAll(rows: seq<SessionRow>, location: Location, authorizationRequired: bool)
      returns (error: Option<Error>)
      requires Valid()
      requires location.id in tx.dir.locations && location == tx.dir.locations[location.id]
      requires authorizationRequired == tx.dir.AuthorizationRequired(location)
      requires forall i :: 0 <= i < |rows| ==> Pending(rows[i], location)
      requires forall i, j :: 0 <= i < j < |rows| ==> rows[i].id != rows[j].id
      modifies this`closed, tx`db, events, commands
      ensures error.None? ==> Valid() && closed == old(closed) + IdsOf(rows)
      ensures error.Some? ==> Stopped()
      ensures error.Some? <==> exists i :: 0 <= i < |rows| && CannotClose(tx.dir, rows[i], eventsOpen, gatewayOpen)
    {
      hide EventsFit, CommandsFit, Db.UniqueActive, CannotClose, CloseAll, Closes;
      for i := 0 to |rows|
        invariant Valid()
        invariant closed == old(closed) + IdsOf(rows[..i])
        invariant forall j :: 0 <= j < i ==> !CannotClose(tx.dir, rows[j], eventsOpen, gatewayOpen)
      {
        error := DisconnectNext(rows[i], location, authorizationRequired);
        if error.Some? {
          return;
        }
        assert rows[..i + 1][..i] == rows[..i];
      }
      assert rows[..|rows|] == rows;
      return None;
    }

    /// A row that is due, at this location, and not closed yet.
    ghost predicate Pending(row: SessionRow, location: Location)
      reads this
    {
      Due(tx.dir, found, at, row.id) && row == found.sessions[row.id] && row.location == location.id && row.id !in closed
    }

    /// The sessions of a location that are inactive. Those already closed are at other locations,
    /// so the query finds what the database held before the sweep.
    method GetAllInactive(location: Location) returns (rows: seq<SessionRow>)
      requires Valid()
      requires location.id in tx.dir.locations && location == tx.dir.locations[location.id]
      requires forall s :: s in closed ==> found.sessions[s].location != location.id
      ensures forall i :: 0 <= i < |rows| ==> Pending(rows[i], location)
      ensures forall i, j :: 0 <= i < j < |rows| ==> rows[i].id != rows[j].id
      ensures IdsOf(rows) == InactiveAt(location)
    {
      hide EventsFit, CommandsFit, Db.UniqueActive, CannotClose;
      var db := tx.db;
      rows := SelectRows(db, row => Inactive(db, location, at, row));
      forall s | s in found.sessions && found.sessions[s].location == location.id
        ensures db.sessions[s] == found.sessions[s]
      {
      }
      assert forall s :: s in InactiveAt(location) ==> db.sessions[s] in rows;
    }

    method GetNeverConnected(location: Location) returns (rows: seq<SessionRow>)
      requires Valid()
      requires location.id in tx.dir.locations && location == tx.dir.locations[location.id]
      requires tx.dir.AuthorizationRequired(location)
      requires forall s :: s in closed && found.sessions[s].location == location.id ==> found.sessions[s].state == Connected
      ensures forall i :: 0 <= i < |rows| ==> Pending(rows[i], location)
      ensures forall i, j :: 0 <= i < j < |rows| ==> rows[i].id != rows[j].id
      ensures IdsOf(rows) == UnusedAt(location)
    {
      hide EventsFit, CommandsFit, Db.UniqueActive, CannotClose;
      var db := tx.db;
      rows := SelectRows(db, row => NeverConnected(location, at, row));
      forall s | s in found.sessions && found.sessions[s].location == location.id && found.sessions[s].state == New
        ensures db.sessions[s] == found.sessions[s]
      {
      }
      assert forall s :: s in UnusedAt(location) ==> db.sessions[s] in rows;
    }

    ghost function InactiveAt(location: Location): set<Id>
      reads this
    {
      set s | s in found.sessions && Inactive(found, location, at, found.sessions[s])
    }

    ghost function UnusedAt(location: Location): set<Id>
      reads this
    {
      set s | s in found.sessions && NeverConnected(location, at, found.sessions[s])
    }

    /// Everything that is due at one location.
    method SweepLocation(location: Location) returns (error: Option<Error>)
      requires Valid()
      requires location.id in tx.dir.locations && location == tx.dir.locations[location.id]
      requires forall s :: s in closed ==> found.sessions[s].location != location.id
      modifies this`closed, tx`db, events, commands
      ensures error.None? ==> Valid() && closed == old(closed) + DueAt(location)
      ensures error.Some? ==> Stopped()
      ensures error.Some? <==>
                exists s :: s in DueAt(location) && CannotClose(tx.dir, found.sessions[s], eventsOpen, gatewayOpen)
    {
      hide EventsFit, CommandsFit, Db.UniqueActive, CannotClose, CloseAll;
      var authorizationRequired := tx.dir.AuthorizationRequired(location);
      var inactive := GetAllInactive(location);
      error := DisconnectAll(inactive, location, authorizationRequired);
      FailsAmong(inactive, InactiveAt(location));
      if error.Some? {
        return;
      }
      if authorizationRequired {
        var unused := GetNeverConnected(location);
        error := DisconnectAll(unused, location, authorizationRequired);
        FailsAmong(unused, UnusedAt(location));
      }
    }

    /// A list of rows holds one that cannot be closed exactly when its set of ids does.
    lemma FailsAmong(rows: seq<SessionRow>, ids: set<Id>)
      requires ids == IdsOf(rows)
      requires forall i :: 0 <= i < |rows| ==> rows[i].id in found.sessions && rows[i] == found.sessions[rows[i].id]
      ensures (exists i :: 0 <= i < |rows| && CannotClose(tx.dir, rows[i], eventsOpen, gatewayOpen)) <==>
              exists s :: s in ids && s in found.sessions && CannotClose(tx.dir, found.sessions[s], eventsOpen, gatewayOpen)
    {
    }

    ghost function DueAt(location: Location): set<Id>
      reads this
    {
      InactiveAt(location) + if tx.dir.AuthorizationRequired(location) then UnusedAt(location) else {}
    }

    /// All locations in turn, until one session cannot be closed.
    method SweepAll() returns (error: Option<Error>)
      requires Valid() && closed == {}
      modifies this`closed, tx`db, events, commands
      ensures error.None? ==> Valid() && closed == AllDue()
      ensures error.Some? ==> Stopped()
      ensures error.Some? <==>
                exists s :: s in AllDue() && CannotClose(tx.dir, found.sessions[s], eventsOpen, gatewayOpen)
    {
      var locations := AllLocations(tx.dir);
      for k := 0 to |locations|
        invariant Valid()
        invariant forall s :: s in closed <==>
                    s in AllDue() && exists j :: 0 <= j < k && locations[j].id == found.sessions[s].location
      {
        ghost var before := closed;
        error := SweepLocation(locations[k]);
        DueHere(locations[k]);
        if error.Some? {
          return;
        }
      }
      assert forall s :: s in AllDue() ==> tx.dir.locations[found.sessions[s].location] in locations;
      return None;
    }

    lemma DueHere(location: Location)
      requires tx.dir.Valid() && location.id in tx.dir.locations && location == tx.dir.locations[location.id]
      ensures forall s :: s in DueAt(location) <==> s in AllDue() && found.sessions[s].location == location.id
    {
    }

    ghost function AllDue(): set<Id> {
      set s | s in found.sessions && Due(tx.dir, found, at, s)
    }
  }

  /// The sweep as one transaction: it commits, or the first session that cannot be closed rolls
  /// it back. What was sent by then, for the sessions closed before it, stays sent.
  method UpdateInactiveSessionStatus(tx: Transaction, at: Time, stamp: Id -> Time, events: EventChannel,
                                     eventsOpen: bool, commands: CommandChannel, gatewayOpen: bool)
    returns (error: Option<Error>)
    requires tx.dir.Valid() && tx.db.Valid()
    modifies tx`db, events, commands
    ensures error.None? ==>
              && old(events.sent) <= events.sent && old(commands.sent) <= commands.sent
              && Sweep(tx.dir, old(tx.db), at, stamp, tx.db, events.sent[|old(events.sent)|..],
                       commands.sent[|old(commands.sent)|..])
    ensures error.Some? ==>
              && tx.db == old(tx.db) && old(events.sent) <= events.sent && old(commands.sent) <= commands.sent
              && exists closed, s :: Broken(tx.dir, tx.db, at, stamp, eventsOpen, gatewayOpen, closed, s,
                                            events.sent[|old(events.sent)|..], commands.sent[|old(commands.sent)|..])
    ensures error.Some? <==>
              exists s :: Due(tx.dir, old(tx.db), at, s)
                       && CannotClose(tx.dir, old(tx.db).sessions[s], eventsOpen, gatewayOpen)
  {
    var committed := tx.db;
    var run := new SweepRun(tx, at, stamp, events, eventsOpen, commands, gatewayOpen);
    error := run.SweepAll();
    if error.Some? {
      tx.db := committed;
    }
  }
}
