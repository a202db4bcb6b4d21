/// The session manager's batch: one transaction and one write-through cache of sessions, devices,
/// users, locations and latest statistics. Every method is proved to do what the uncached
/// functions of SessionDomain do.
module SessionCache {
  import opened Common
  import opened SessionDomain
  import opened SessionRows

  /// The open database transaction of a batch; `start` is the length of the statistics log when it
  /// was opened.
  class Transaction {
    const dir: Directory
    ghost const start: nat
    var db: Db

    constructor (dir: Directory, db: Db)
      ensures this.dir == dir && this.db == db && start == |db.stats|
    {
      this.dir, this.db, start := dir, db, |db.stats|;
    }

    method FindActiveSession(location: Id, device: Id) returns (row: Option<SessionRow>)
      requires db.Valid()
      ensures IsActiveSession(db, location, device, row)
    {
      row := None;
      if s :| s in db.sessions && db.sessions[s].ActiveFor(location, device) {
        row := Some(db.sessions[s]);
      }
    }

    /// One row for each gateway that reported on the session; which of several rows collected
    /// at the same time it is, the contract leaves open.
    method FindLatestStats(session: Id) returns (rows: map<Id, StatsRow>)
      ensures forall g :: g in rows ==> IsNewest(db.stats, session, g, rows[g])
      ensures forall i :: 0 <= i < |db.stats| && db.stats[i].session == session ==> db.stats[i].gateway in rows
    {
      rows := map[];
      for i := 0 to |db.stats|
        invariant forall g :: g in rows ==> IsNewest(db.stats[..i], session, g, rows[g])
        invariant forall j :: 0 <= j < i && db.stats[j].session == session ==> db.stats[j].gateway in rows
      {
        var row := db.stats[i];
        assert db.stats[..i + 1] == db.stats[..i] + [row];
        if row.session == session && (row.gateway !in rows || rows[row.gateway].collectedAt <= row.collectedAt) {
          rows := rows[row.gateway := row];
        }
      }
      assert db.stats[..|db.stats|] == db.stats;
    }
  }

  /// The channel on which session events leave the manager.
  class EventChannel {
    var sent: seq<Event>

    method Send(event: Event, open: bool) returns (ok: bool)
      modifies this
      ensures ok == open
      ensures sent == old(sent) + if open then [event] else []
    {
      ok := open;
      if open {
        sent := sent + [event];
      }
    }
  }

  /// The cached state of one session.
  class SessionState {
    const sessionId: Id
    const context: Option<EventContext>
    var state: SessionPhase
    var lastStats: map<Id, Totals>

    constructor (row: SessionRow, context: Option<EventContext>)
      ensures sessionId == row.id && state == row.state && this.context == context && lastStats == map[]
    {
      sessionId, state, this.context, lastStats := row.id, row.state, context, map[];
    }

    /// The cache entry agrees with the active session of the location and device.
    ghost predicate Mirrors(dir: Directory, db: Db, start: nat, location: Id, device: Id)
      reads this
    {
      && sessionId in db.sessions
      && db.sessions[sessionId].ActiveFor(location, device)
      && db.sessions[sessionId].state == state
      && (state == New ==> device in dir.devices && context.Some?
                           && context == FindContext(dir, location, dir.devices[device], db.sessions[sessionId].mfa))
      && Remembers(db.stats, start, sessionId, lastStats)
    }

    method UpdateLast(stats: StatsRow)
      modifies this`lastStats
      ensures lastStats == old(lastStats)[stats.gateway := stats.Summary()]
    {
      lastStats := lastStats[stats.gateway := stats.Summary()];
    }

    method UpdateStats(tx: Transaction, a: Arrival, events: EventChannel) returns (error: Option<Error>)
      modifies this`state, this`lastStats, tx`db, events
      ensures var o := RecordStats(old(tx.db), a, sessionId, old(state), context,
                                   Lookup(old(lastStats), a.update.gateway));
              tx.db == o.db && events.sent == old(events.sent) + o.events && error == o.error
      ensures error.None? ==>
                lastStats == old(lastStats)[a.update.gateway :=
                  StatsFor(sessionId, a.update, Lookup(old(lastStats), a.update.gateway)).Summary()]
      ensures error.Some? ==> lastStats == old(lastStats)
      ensures state == if old(state) == New && sessionId in old(tx.db).sessions && context.Some?
                       then Connected else old(state)
      ensures forall l, d :: old(Mirrors(tx.dir, tx.db, tx.start, l, d)) ==> Mirrors(tx.dir, tx.db, tx.start, l, d)
    {
      var u := a.update;
      if state == New {
        if context.None? {
          return Some(EventContextMissing(sessionId));
        }
        if sessionId !in tx.db.sessions {
          return Some(SessionMissing(sessionId));
        }
        var row := tx.db.sessions[sessionId];
        row := row.(state := Connected, connectedAt := Some(u.latestHandshake));
        tx.db := tx.db.Put(sessionId, row);
        state := Connected;
        var ok := events.Send(ConnectedEvent(sessionId, context.value, u), a.channelOpen);
        if !ok {
          return Some(EventChannelClosed);
        }
      }
      var last := Lookup(lastStats, u.gateway);
      if last.Some? && !Accepts(last.value, u) {
        return Some(OutOfOrder);
      }
      var stats := StatsFor(sessionId, u, last);
      if Remembers(tx.db.stats, tx.start, sessionId, lastStats) {
        RememberAccepted(tx.db.stats, tx.start, sessionId, u, lastStats);
      }
      tx.db := tx.db.(stats := tx.db.stats + [stats]);
      UpdateLast(stats);
      return None;
    }
  }

  /// State for all locations, kept for one batch.
  class ActiveSessionsMap {
    var sessions: map<Id, map<Id, SessionState>>
    var locations: map<Id, Location>
    var users: map<Id, User>
    var devices: map<string, Device>

    constructor ()
      ensures sessions == map[] && locations == map[] && users == map[] && devices == map[]
    {
      sessions, locations, users, devices := map[], map[], map[], map[];
    }

    ghost predicate Has(location: Id, device: Id)
      reads this
    {
      location in sessions && device in sessions[location]
    }

    ghost function Objects(): set<SessionState>
      reads this
    {
      set l, d | l in sessions && d in sessions[l] :: sessions[l][d]
    }

    /// Whatever is cached is what the database would answer, and every session of which the batch has
    /// stored statistics is cached.
    ghost predicate Valid(dir: Directory, db: Db, start: nat)
      reads this, Objects()
    {
      && dir.Valid() && db.Valid()
      && (forall l :: l in locations ==> l in dir.locations && locations[l] == dir.locations[l])
      && (forall u :: u in users ==> u in dir.users && users[u] == dir.users[u])
      && (forall k :: k in devices ==> dir.FindDevice(k) == Some(devices[k]))
      && (forall l, d :: Has(l, d) ==> sessions[l][d].Mirrors(dir, db, start, l, d))
      && (forall i :: start <= i < |db.stats| ==> Holds(db.sessions[db.stats[i].session]))
    }

    /// The session of this row is cached.
    ghost predicate Holds(row: SessionRow)
      reads this
    {
      Has(row.location, row.device) && sessions[row.location][row.device].sessionId == row.id
    }

    method GetUser(tx: Transaction, user: Id) returns (row: Option<User>)
      requires Valid(tx.dir, tx.db, tx.start)
      modifies this`users
      ensures Valid(tx.dir, tx.db, tx.start)
      ensures row == Lookup(tx.dir.users, user)
    {
      if user !in users {
        if user !in tx.dir.users {
          return None;
        }
        users := users[user := tx.dir.users[user]];
      }
      return Some(users[user]);
    }

    method GetDevice(tx: Transaction, pubkey: string) returns (row: Option<Device>)
      requires Valid(tx.dir, tx.db, tx.start)
      modifies this`devices
      ensures Valid(tx.dir, tx.db, tx.start)
      ensures row == tx.dir.FindDevice(pubkey)
    {
      if pubkey !in devices {
        var found := tx.dir.FindDevice(pubkey);
        if found.None? {
          return None;
        }
        devices := devices[pubkey := found.value];
      }
      return Some(devices[pubkey]);
    }

    method GetLocation(tx: Transaction, location: Id) returns (row: Option<Location>)
      requires Valid(tx.dir, tx.db, tx.start)
      modifies this`locations
      ensures Valid(tx.dir, tx.db, tx.start)
      ensures row == Lookup(tx.dir.locations, location)
    {
      if location !in locations {
        if location !in tx.dir.locations {
          return None;
        }
        locations := locations[location := tx.dir.locations[location]];
      }
      return Some(locations[location]);
    }

    /// The sessions of one location, or an empty map for a location not seen yet.
    function SessionsAt(location: Id): map<Id, SessionState>
      reads this
    {
      if location in sessions then sessions[location] else map[]
    }

    /// Puts a session into the map. The map it goes into holds none for the device yet.
    method PutSession(dir: Directory, ghost db: Db, ghost start: nat, location: Id, device: Id, session: SessionState)
      requires Valid(dir, db, start) && !Has(location, device)
      requires session.Mirrors(dir, db, start, location, device)
      modifies this`sessions
      ensures Valid(dir, db, start)
      ensures Has(location, device) && sessions[location][device] == session
      ensures Objects() <= old(Objects()) + {session}
    {
      hide SessionState.Mirrors, Db.Valid, Directory.Valid;
      var there := SessionsAt(location);
      assert device !in there;
      sessions := sessions[location := there[device := session]];
      assert forall l, d :: Has(l, d) && !(l == location && d == device) ==>
               old(Has(l, d)) && sessions[l][d] == old(sessions)[l][d];
    }

    /// The session of a peer: from the cache, else from the database. `active` is the database's
    /// answer to the query, which a cache hit does not ask.
    method TryGetPeerSession(tx: Transaction, location: Id, pubkey: string)
      returns (session: SessionState?, error: Option<Error>, ghost active: Option<SessionRow>)
      requires Valid(tx.dir, tx.db, tx.start)
      modifies this
      ensures Valid(tx.dir, tx.db, tx.start)
      ensures fresh(Objects() - old(Objects()))
      ensures var device := tx.dir.FindDevice(pubkey);
              if device.None? then session == null && error == Some(DeviceKeyUnknown(pubkey))
              else Found(tx.dir, tx.db, tx.start, location, device.value, session, error, active)
    {
      session, error, active := null, None, None;
      var found := GetDevice(tx, pubkey);
      if found.None? {
        return null, Some(DeviceKeyUnknown(pubkey)), None;
      }
      var device := found.value;
      var inBatch := location in sessions && device.id in sessions[location];
      if inBatch {
        session := sessions[location][device.id];
        assert session.Mirrors(tx.dir, tx.db, tx.start, location, device.id);
        active := Some(tx.db.sessions[session.sessionId]);
      } else {
        session, error, active := FetchPeerSession(tx, location, device);
      }
    }

    /// What looking for a device's session may return, given the database's answer.
    ghost predicate Found(dir: Directory, db: Db, start: nat, location: Id, device: Device,
                          session: SessionState?, error: Option<Error>, active: Option<SessionRow>)
      reads this
    {
      && IsActiveSession(db, location, device.id, active)
      && if active.None? then
           session == null && error.None? && !Has(location, device.id)
         else
           var context := FindContext(dir, location, device, active.value.mfa);
           if active.value.state == New && context.None? then
             && session == null && error == Some(ContextError(dir, location, device))
             && Untouched(db, start, active.value.id)
           else
             && error.None? && session != null
             && Has(location, device.id) && sessions[location][device.id] == session
             && session.sessionId == active.value.id
             && (active.value.state == New ==> session.context == context)
    }

    /// The batch has stored no statistics of a session.
    static ghost predicate Untouched(db: Db, start: nat, session: Id) {
      forall i :: start <= i < |db.stats| ==> db.stats[i].session != session
    }

    /// A session that is not cached.
    lemma NotCached(dir: Directory, db: Db, start: nat, row: SessionRow)
      requires Valid(dir, db, start) && !Has(row.location, row.device)
      requires row.id in db.sessions && db.sessions[row.id] == row
      ensures Untouched(db, start, row.id)
    {
    }

    method FetchPeerSession(tx: Transaction, location: Id, device: Device)
      returns (session: SessionState?, error: Option<Error>, ghost active: Option<SessionRow>)
      requires Valid(tx.dir, tx.db, tx.start) && !Has(location, device.id)
      requires device.id in tx.dir.devices && tx.dir.devices[device.id] == device
      modifies this
      ensures Valid(tx.dir, tx.db, tx.start)
      ensures fresh(Objects() - old(Objects()))
      ensures Found(tx.dir, tx.db, tx.start, location, device, session, error, active)
    {
      session, error := null, None;
      var row := tx.FindActiveSession(location, device.id);
      active := row;
      if row.None? {
        return;
      }
      NotCached(tx.dir, tx.db, tx.start, row.value);
      var context := None;
      if row.value.state == New {
        context, error := LoadContext(tx, location, device, row.value.mfa);
        if error.Some? {
          return;
        }
      }
      hide FindContext, ContextError, Db.Valid, Directory.Valid;
      session := CacheSession(tx, row.value, context);
    }

    /// Loads a session and puts it into the map.
    method CacheSession(tx: Transaction, row: SessionRow, context: Option<EventContext>) returns (session: SessionState)
      requires Valid(tx.dir, tx.db, tx.start) && !Has(row.location, row.device) && row.state != Disconnected
      requires row.id in tx.db.sessions && tx.db.sessions[row.id] == row && Untouched(tx.db, tx.start, row.id)
      requires row.state == New ==>
                 && row.device in tx.dir.devices && context.Some?
                 && context == FindContext(tx.dir, row.location, tx.dir.devices[row.device], row.mfa)
      modifies this`sessions
      ensures Valid(tx.dir, tx.db, tx.start)
      ensures fresh(Objects() - old(Objects()))
      ensures Has(row.location, row.device) && sessions[row.location][row.device] == session
      ensures session.sessionId == row.id && session.context == context
    {
      hide Remembers, Untouched, FindContext;
      session := LoadSession(tx, row, context);
      assert session.Mirrors(tx.dir, tx.db, tx.start, row.location, row.device);
      hide SessionState.Mirrors;
      PutSession(tx.dir, tx.db, tx.start, row.location, row.device, session);
    }

    /// What the event about a new session will say. The user is looked up first.
    method LoadContext(tx: Transaction, location: Id, device: Device, mfa: bool)
      returns (context: Option<EventContext>, error: Option<Error>)
      requires Valid(tx.dir, tx.db, tx.start)
      modifies this`users, this`locations
      ensures Valid(tx.dir, tx.db, tx.start)
      ensures context == FindContext(tx.dir, location, device, mfa)
      ensures error == if context.Some? then None else Some(ContextError(tx.dir, location, device))
    {
      var user := GetUser(tx, device.userId);
      if user.None? {
        return None, Some(UserMissing(device.userId));
      }
      var place := GetLocation(tx, location);
      if place.None? {
        return None, Some(LocationMissing(location));
      }
      return Some(EventContext(place.value, user.value, device, mfa)), None;
    }

    /// A new cache entry, with the latest statistics of every gateway.
    method LoadSession(tx: Transaction, row: SessionRow, context: Option<EventContext>) returns (session: SessionState)
      requires Untouched(tx.db, tx.start, row.id)
      ensures fresh(session)
      ensures session.sessionId == row.id && session.state == row.state && session.context == context
      ensures Remembers(tx.db.stats, tx.start, row.id, session.lastStats)
    {
      session := new SessionState(row, context);
      var latest := tx.FindLatestStats(row.id);
      var pending := latest.Keys;
      while pending != {}
        invariant pending <= latest.Keys
        invariant session.state == row.state
        invariant session.lastStats.Keys == latest.Keys - pending
        invariant forall g :: g in session.lastStats ==> session.lastStats[g] == latest[g].Summary()
        decreases |pending|
      {
        var g :| g in pending;
        assert latest[g].gateway == g;
        session.UpdateLast(latest[g]);
        pending := pending - {g};
      }
      RememberLoaded(tx.db.stats, tx.start, row.id, session.lastStats);
    }

    /// Opens a session for a device that has none, if its location allows that and its handshake
    /// is recent enough.
    method TryAddNewSession(tx: Transaction, a: Arrival, ghost device: Device, events: EventChannel)
      returns (session: SessionState?, error: Option<Error>)
      requires Valid(tx.dir, tx.db, tx.start) && tx.dir.FindDevice(a.update.pubkey) == Some(device)
      requires !Has(a.update.location, device.id) && IsActiveSession(tx.db, a.update.location, device.id, None)
      modifies this, tx`db, events
      ensures Valid(tx.dir, tx.db, tx.start)
      ensures fresh(Objects() - old(Objects()))
      ensures var c := CreateSession(tx.dir, old(tx.db), a, device);
              && tx.db == c.outcome.db && events.sent == old(events.sent) + c.outcome.events && error == c.outcome.error
              && if c.session.None? then session == null
                 else
                   && session != null && fresh(session)
                   && Has(a.update.location, device.id) && sessions[a.update.location][device.id] == session
                   && session.sessionId == c.session.value && session.state == Connected && session.lastStats == map[]
    {
      hide SessionState.Mirrors, Admit, IsActiveSession, Db.Valid, Directory.Valid;
      session, error := null, None;
      var admission := TryAdmit(tx, a, device);
      if admission.Refused? {
        error := admission.error;
        return;
      }
      var context := admission.context;
      var row := NewSession(tx.db.nextId, a.update.location, context.user.id, context.device.id, a.createdAt,
                            Some(a.update.latestHandshake), false);
      var added := InsertSession(tx, row, context);
      var ok := events.Send(ConnectedEvent(row.id, context, a.update), a.channelOpen);
      if ok {
        session := added;
      } else {
        error := Some(EventChannelClosed);
      }
    }

    /// The checks before a session is opened, and the rows its event will name.
    method TryAdmit(tx: Transaction, a: Arrival, ghost device: Device) returns (admission: Admission)
      requires Valid(tx.dir, tx.db, tx.start) && tx.dir.FindDevice(a.update.pubkey) == Some(device)
      modifies this`locations, this`devices, this`users
      ensures Valid(tx.dir, tx.db, tx.start)
      ensures admission == Admit(tx.dir, a, device)
      ensures admission.Admitted? ==> admission.context.device == device
    {
      var u := a.update;
      var place := GetLocation(tx, u.location);
      if place.None? {
        return Refused(Some(LocationMissing(u.location)));
      }
      if place.value.mfaMode != Disabled {
        return Refused(None);
      }
      if a.now - u.latestHandshake > place.value.disconnectThreshold * MICROS_PER_SECOND {
        return Refused(None);
      }
      var found := GetDevice(tx, u.pubkey);
      var user := GetUser(tx, found.value.userId);
      if user.None? {
        return Refused(Some(UserMissing(found.value.userId)));
      }
      return Admitted(EventContext(place.value, user.value, found.value, false));
    }

    /// Stores a new row and caches it.
    method InsertSession(tx: Transaction, row: SessionRow, context: EventContext) returns (session: SessionState)
      requires Valid(tx.dir, tx.db, tx.start) && !Has(row.location, row.device)
      requires row.id == tx.db.nextId && row.state == Connected
      requires IsActiveSession(tx.db, row.location, row.device, None)
      modifies this`sessions, tx`db
      ensures Valid(tx.dir, tx.db, tx.start) && tx.db == old(tx.db).Insert(row)
      ensures fresh(session) && fresh(Objects() - old(Objects()))
      ensures Has(row.location, row.device) && sessions[row.location][row.device] == session
      ensures session.sessionId == row.id && session.state == Connected && session.lastStats == map[]
    {
      ghost var before := tx.db;
      tx.db := tx.db.Insert(row);
      session := new SessionState(row, Some(context));
      InsertedIsNew(before, row);
      forall l, d | Has(l, d) ensures sessions[l][d].Mirrors(tx.dir, tx.db, tx.start, l, d) {
        MirrorsOther(sessions[l][d], tx.dir, before, tx.db, tx.start, row.id, l, d);
      }
      assert session.Mirrors(tx.dir, tx.db, tx.start, row.location, row.device);
      hide SessionState.Mirrors, Db.UniqueActive, IsActiveSession, Remembers;
      PutSession(tx.dir, tx.db, tx.start, row.location, row.device, session);
    }

    /// A row inserted where none was active: the constraints hold, nothing else changes, and there are
    /// no statistics of it yet.
    static lemma InsertedIsNew(db: Db, row: SessionRow)
      requires db.Valid() && row.id == db.nextId && row.state == Connected
      requires IsActiveSession(db, row.location, row.device, None)
      ensures db.Insert(row).Valid() && TouchesOnly(db, db.Insert(row), row.id)
      ensures forall start :: Remembers(db.stats, start, row.id, map[])
    {
    }

    /// The session of a new statistics row is cached, as were those of the others.
    lemma HoldsStill(db: Db, db': Db, start: nat, changed: Id)
      requires db.Valid() && db'.Valid() && TouchesOnly(db, db', changed)
      requires changed in db.sessions && changed in db'.sessions && Holds(db'.sessions[changed])
      requires forall i :: start <= i < |db.stats| ==> Holds(db.sessions[db.stats[i].session])
      ensures forall i :: start <= i < |db'.stats| ==> Holds(db'.sessions[db'.stats[i].session])
    {
      hide Holds, Db.UniqueActive;
      forall i | start <= i < |db'.stats| ensures Holds(db'.sessions[db'.stats[i].session]) {
        var s := db'.stats[i].session;
        if s != changed {
          assert Lookup(db'.sessions, s) == Lookup(db.sessions, s);
          assert i < |db.stats| && db'.stats[i] == db.stats[i];
        }
      }
    }

    /// A change to one session leaves the cache entries of the others right.
    lemma MirrorsOther(session: SessionState, dir: Directory, db: Db, db': Db, start: nat, changed: Id,
                       location: Id, device: Id)
      requires session.Mirrors(dir, db, start, location, device)
      requires TouchesOnly(db, db', changed) && session.sessionId != changed
      ensures session.Mirrors(dir, db', start, location, device)
    {
      RememberOthers(db, db', start, changed, session.sessionId, session.lastStats);
      assert Lookup(db'.sessions, session.sessionId) == Lookup(db.sessions, session.sessionId);
    }
  }

  /// One message against the cache does what an empty cache would do.
  method ProcessSingleMessage(tx: Transaction, cache: ActiveSessionsMap, a: Arrival, events: EventChannel)
    returns (error: Option<Error>)
    requires cache.Valid(tx.dir, tx.db, tx.start)
    modifies cache, cache.Objects(), tx`db, events
    ensures cache.Valid(tx.dir, tx.db, tx.start)
    ensures fresh(cache.Objects() - old(cache.Objects()))
    ensures old(events.sent) <= events.sent
    ensures StepIn(tx.dir, old(tx.db), tx.start, a, Outcome(tx.db, events.sent[|old(events.sent)|..], error))
  {
    var u := a.update;
    var session, failure, active := cache.TryGetPeerSession(tx, u.location, u.pubkey);
    if failure.Some? {
      StepRefused(tx.dir, tx.db, tx.start, a, active, failure.value);
      assert events.sent[|events.sent|..] == [];
      return failure;
    }
    ghost var device := tx.dir.FindDevice(u.pubkey).value;
    if session == null {
      error := ProcessFirstMessage(tx, cache, a, device, events);
    } else {
      ghost var before, last, context := tx.db, Lookup(session.lastStats, u.gateway), session.context;
      error := UpdateCached(tx, cache, a, device, session, events);
      StepExisting(tx.dir, before, tx.start, a, device, active.value, context, last,
                   Outcome(tx.db, events.sent[|old(events.sent)|..], error));
    }
  }

  /// A message for a device that has no active session.
  method ProcessFirstMessage(tx: Transaction, cache: ActiveSessionsMap, a: Arrival, ghost device: Device,
                             events: EventChannel)
    returns (error: Option<Error>)
    requires cache.Valid(tx.dir, tx.db, tx.start) && tx.dir.FindDevice(a.update.pubkey) == Some(device)
    requires !cache.Has(a.update.location, device.id)
    requires IsActiveSession(tx.db, a.update.location, device.id, None)
    modifies cache, tx`db, events
    ensures cache.Valid(tx.dir, tx.db, tx.start)
    ensures fresh(cache.Objects() - old(cache.Objects()))
    ensures old(events.sent) <= events.sent
    ensures StepIn(tx.dir, old(tx.db), tx.start, a, Outcome(tx.db, events.sent[|old(events.sent)|..], error))
  {
    hide StepIn, CreateSession, RecordStats, AppendStats, IsActiveSession, ActiveSessionsMap.Valid, Directory.FindDevice;
    hide SessionState.Mirrors, Db.Valid, Directory.Valid;
    ghost var before, sent := tx.db, events.sent;
    ghost var c := CreateSession(tx.dir, before, a, device);
    var session, failure := cache.TryAddNewSession(tx, a, device, events);
    error := failure;
    if session != null {
      error := UpdateCached(tx, cache, a, device, session, events);
      RecordCreated(c, a, session.context, tx.db, events.sent[|sent + c.outcome.events|..], error);
    }
    StepCreated(tx.dir, before, tx.start, a, device, Outcome(tx.db, events.sent[|sent|..], error));
  }

  /// The first statistics of a session that was just opened.
  lemma RecordCreated(c: Creation, a: Arrival, context: Option<EventContext>, db: Db, added: seq<Event>, error: Option<Error>)
    requires c.session.Some?
    requires RecordStats(c.outcome.db, a, c.session.value, Connected, context, None) == Outcome(db, added, error)
    ensures AppendStats(c.outcome.db, c.outcome.events, a, c.session.value, None)
         == Outcome(db, c.outcome.events + added, error)
  {
  }

  // The three ways in which a step comes about, each from the answers that were given.

  lemma StepRefused(dir: Directory, db: Db, start: nat, a: Arrival, active: Option<SessionRow>, error: Error)
    requires var device := dir.FindDevice(a.update.pubkey);
             if device.None? then error == DeviceKeyUnknown(a.update.pubkey)
             else
               && active.Some? && active.value.state == New
               && IsActiveSession(db, a.update.location, device.value.id, active)
               && FindContext(dir, a.update.location, device.value, active.value.mfa).None?
               && error == ContextError(dir, a.update.location, device.value)
               && ActiveSessionsMap.Untouched(db, start, active.value.id)
    ensures StepIn(dir, db, start, a, Outcome(db, [], Some(error)))
  {
    if dir.FindDevice(a.update.pubkey).None? {
      assert Answers(dir, db, a.update, None, None);
    } else {
      SomeLatest(db.stats, active.value.id, a.update.gateway);
      var last :| IsLatest(db.stats, active.value.id, a.update.gateway, last);
      assert Answers(dir, db, a.update, active, last);
    }
  }

  lemma StepExisting(dir: Directory, db: Db, start: nat, a: Arrival, device: Device, row: SessionRow,
                     context: Option<EventContext>, last: Option<Totals>, o: Outcome)
    requires dir.FindDevice(a.update.pubkey) == Some(device)
    requires IsActiveSession(db, a.update.location, device.id, Some(row))
    requires Recalls(db.stats, start, row.id, a.update.gateway, last)
    requires row.state == New ==> context.Some? && context == FindContext(dir, a.update.location, device, row.mfa)
    requires o == RecordStats(db, a, row.id, row.state, context, last)
    ensures StepIn(dir, db, start, a, o)
  {
    assert Answers(dir, db, a.update, Some(row), last);
    assert o == Process(dir, db, a, Some(row), last);
  }

  lemma StepCreated(dir: Directory, db: Db, start: nat, a: Arrival, device: Device, o: Outcome)
    requires dir.FindDevice(a.update.pubkey) == Some(device)
    requires IsActiveSession(db, a.update.location, device.id, None)
    requires var c := CreateSession(dir, db, a, device);
             o == if c.session.None? then c.outcome
                  else AppendStats(c.outcome.db, c.outcome.events, a, c.session.value, None)
    ensures StepIn(dir, db, start, a, o)
  {
    assert Answers(dir, db, a.update, None, None);
    assert o == Process(dir, db, a, None, None);
  }

  /// Updating a cached session keeps the whole cache right.
  method UpdateCached(tx: Transaction, cache: ActiveSessionsMap, a: Arrival, ghost device: Device,
                      session: SessionState, events: EventChannel)
    returns (error: Option<Error>)
    requires cache.Valid(tx.dir, tx.db, tx.start) && cache.Has(a.update.location, device.id)
    requires cache.sessions[a.update.location][device.id] == session
    modifies session, tx`db, events
    ensures cache.Valid(tx.dir, tx.db, tx.start)
    ensures var o := RecordStats(old(tx.db), a, session.sessionId, old(session.state), session.context,
                                 Lookup(old(session.lastStats), a.update.gateway));
            tx.db == o.db && events.sent == old(events.sent) + o.events && error == o.error
  {
    ghost var before := tx.db;
    assert session.Mirrors(tx.dir, tx.db, tx.start, a.update.location, device.id);
    RecordKeepsValid(tx.db, a, session.sessionId, session.context, Lookup(session.lastStats, a.update.gateway));
    hide RecordStats, Db.Valid, Directory.Valid, IsActiveSession;
    forall l, d | cache.Has(l, d) ensures cache.sessions[l][d].Mirrors(tx.dir, tx.db, tx.start, l, d) { }
    error := session.UpdateStats(tx, a, events);
    forall l, d | cache.Has(l, d) ensures cache.sessions[l][d].Mirrors(tx.dir, tx.db, tx.start, l, d) {
      var other := cache.sessions[l][d];
      if other != session {
        cache.MirrorsOther(other, tx.dir, before, tx.db, tx.start, session.sessionId, l, d);
      }
    }
    hide SessionState.Mirrors;
    cache.HoldsStill(before, tx.db, tx.start, session.sessionId);
  }

  /// The outcomes of some updates, and the database and the events they led to.
  ghost predicate LedTo(dir: Directory, db: Db, arrivals: seq<Arrival>, outcomes: seq<Outcome>,
                        db': Db, events: seq<Event>) {
    && Batch(dir, db, arrivals, outcomes)
    && db' == DbAfter(db, outcomes, |outcomes|)
    && events == Emitted(outcomes)
  }

  lemma EmittedAppend(outcomes: seq<Outcome>, o: Outcome)
    ensures Emitted(outcomes + [o]) == Emitted(outcomes) + o.events
  {
    assert (outcomes + [o])[..|outcomes|] == outcomes;
  }

  lemma BatchAppend(dir: Directory, start: Db, arrivals: seq<Arrival>, i: nat, outcomes: seq<Outcome>, o: Outcome)
    requires i < |arrivals| && Batch(dir, start, arrivals[..i], outcomes)
    requires StepIn(dir, DbAfter(start, outcomes, i), |start.stats|, arrivals[i], o)
    ensures Batch(dir, start, arrivals[..i + 1], outcomes + [o])
  {
    hide StepIn;
    forall j | 0 <= j <= i
      ensures StepIn(dir, DbAfter(start, outcomes + [o], j), |start.stats|, arrivals[..i + 1][j], (outcomes + [o])[j])
    {
      assert DbAfter(start, outcomes + [o], j) == DbAfter(start, outcomes, j);
      if j < i {
        assert arrivals[..i + 1][j] == arrivals[..i][j];
      }
    }
  }

  lemma OneMoreOutcome(dir: Directory, start: Db, arrivals: seq<Arrival>, i: nat, outcomes: seq<Outcome>, o: Outcome,
                       mid: Db, before: seq<Event>, sent: seq<Event>, sent': seq<Event>)
    requires i < |arrivals| && before <= sent <= sent' && o.events == sent'[|sent|..]
    requires LedTo(dir, start, arrivals[..i], outcomes, mid, sent[|before|..])
    requires StepIn(dir, mid, |start.stats|, arrivals[i], o)
    ensures LedTo(dir, start, arrivals[..i + 1], outcomes + [o], o.db, sent'[|before|..])
  {
    hide StepIn, Emitted;
    EmittedAppend(outcomes, o);
    BatchAppend(dir, start, arrivals, i, outcomes, o);
    hide Batch;
    assert sent'[|before|..] == sent[|before|..] + o.events;
  }

  /// One more message of a batch: its error is only logged.
  method ProcessNext(tx: Transaction, cache: ActiveSessionsMap, arrivals: seq<Arrival>, i: nat, events: EventChannel,
                     ghost start: Db, ghost before: seq<Event>, ghost outcomes: seq<Outcome>)
    returns (ghost outcomes': seq<Outcome>)
    requires i < |arrivals| && cache.Valid(tx.dir, tx.db, tx.start) && before <= events.sent
    requires tx.start == |start.stats|
    requires LedTo(tx.dir, start, arrivals[..i], outcomes, tx.db, events.sent[|before|..])
    modifies cache, cache.Objects(), tx`db, events
    ensures cache.Valid(tx.dir, tx.db, tx.start) && before <= events.sent
    ensures fresh(cache.Objects() - old(cache.Objects()))
    ensures LedTo(tx.dir, start, arrivals[..i + 1], outcomes', tx.db, events.sent[|before|..])
  {
    ghost var mid, sent := tx.db, events.sent;
    var error := ProcessSingleMessage(tx, cache, arrivals[i], events);
    ghost var o := Outcome(tx.db, events.sent[|sent|..], error);
    OneMoreOutcome(tx.dir, start, arrivals, i, outcomes, o, mid, before, sent, events.sent);
    outcomes' := outcomes + [o];
  }

  /// A batch with one cache gives what the uncached process gives, from the first message to the
  /// last and whatever errors the messages meet. The transaction is committed by the caller.
  method ProcessMessageBatch(tx: Transaction, arrivals: seq<Arrival>, events: EventChannel)
    returns (ghost outcomes: seq<Outcome>)
    requires tx.dir.Valid() && tx.db.Valid() && tx.start == |tx.db.stats|
    modifies tx`db, events
    ensures tx.db.Valid()
    ensures old(events.sent) <= events.sent
    ensures LedTo(tx.dir, old(tx.db), arrivals, outcomes, tx.db, events.sent[|old(events.sent)|..])
  {
    var cache := new ActiveSessionsMap();
    ghost var start, before := tx.db, events.sent;
    outcomes := [];
    assert LedTo(tx.dir, start, arrivals[..0], [], tx.db, events.sent[|before|..]);
    for i := 0 to |arrivals|
      invariant cache.Valid(tx.dir, tx.db, tx.start) && fresh(cache.Objects())
      invariant before <= events.sent
      invariant LedTo(tx.dir, start, arrivals[..i], outcomes, tx.db, events.sent[|before|..])
    {
      outcomes := ProcessNext(tx, cache, arrivals, i, events, start, before, outcomes);
    }
    assert arrivals[..|arrivals|] == arrivals;
  }
}
