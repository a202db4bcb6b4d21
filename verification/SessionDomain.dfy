/// VPN session rows, statistics rows, and what one peer-stats update does to them when nothing
/// is cached: every lookup is answered by the database.
module SessionDomain {
  import opened Common

  type Id = nat

  /// Microseconds, the resolution of the stored timestamps.
  type Time = int

  const MICROS_PER_SECOND := 1_000_000
  const TWO_TO_63 := 0x8000_0000_0000_0000
  const TWO_TO_64 := 0x1_0000_0000_0000_0000

  type u64 = x: int | 0 <= x < TWO_TO_64

  /// `x as i64`: counters from 2^63 on come out negative.
  function AsI64(x: u64): int {
    if x < TWO_TO_63 then x else x - TWO_TO_64
  }

  /// The two's complement result of an `i64` subtraction.
  function WrapI64(x: int): int {
    (x + TWO_TO_63) % TWO_TO_64 - TWO_TO_63
  }

  // ---------------------------------------------------------------------------------------------
  // Rows that a batch never changes
  // ---------------------------------------------------------------------------------------------

  datatype Location = Location(id: Id, mfaMode: MfaMode, disconnectThreshold: int)
  {
    predicate MfaEnabled() {
      mfaMode != Disabled
    }
  }

  datatype User = User(id: Id, name: string)

  datatype Device = Device(id: Id, userId: Id, name: string)

  /// The tables of locations, users, devices and posture checks, with the index on device keys.
  datatype Directory = Directory(
    locations: map<Id, Location>,
    users: map<Id, User>,
    devices: map<Id, Device>,
    deviceKeys: map<string, Id>,
    postures: set<Id>)
  {
    /// Each row is stored under its own primary key.
    ghost predicate Valid() {
      && (forall l :: l in locations ==> locations[l].id == l)
      && (forall u :: u in users ==> users[u].id == u)
      && (forall d :: d in devices ==> devices[d].id == d)
    }

    function FindDevice(pubkey: string): Option<Device> {
      if pubkey in deviceKeys then Lookup(devices, deviceKeys[pubkey]) else None
    }

    predicate AuthorizationRequired(location: Location) {
      location.MfaEnabled() || location.id in postures
    }
  }

  // ---------------------------------------------------------------------------------------------
  // Rows that a batch writes
  // ---------------------------------------------------------------------------------------------

  datatype SessionPhase = New | Connected | Disconnected

  datatype SessionRow = SessionRow(
    id: Id,
    location: Id,
    user: Id,
    device: Id,
    createdAt: Time,
    connectedAt: Option<Time>,
    disconnectedAt: Option<Time>,
    mfa: bool,
    state: SessionPhase)
  {
    predicate ActiveFor(l: Id, d: Id) {
      location == l && device == d && state != Disconnected
    }
  }

  /// A row not yet stored: it is connected exactly when it has a connection time.
  function NewSession(id: Id, location: Id, user: Id, device: Id, createdAt: Time,
                      connectedAt: Option<Time>, mfa: bool): SessionRow {
    SessionRow(id, location, user, device, createdAt, connectedAt, None, mfa,
               if connectedAt.Some? then Connected else New)
  }

  datatype Endpoint = Endpoint(ip: string, port: nat)

  datatype StatsRow = StatsRow(
    session: Id,
    gateway: Id,
    collectedAt: Time,
    latestHandshake: Time,
    endpoint: Endpoint,
    totalUpload: int,
    totalDownload: int,
    uploadDiff: int,
    downloadDiff: int)
  {
    predicate Of(s: Id, g: Id) {
      session == s && gateway == g
    }

    function Summary(): Totals {
      Totals(collectedAt, latestHandshake, totalUpload, totalDownload)
    }
  }

  /// The part of a statistics row that the next update of the same gateway is compared with.
  datatype Totals = Totals(collectedAt: Time, latestHandshake: Time, upload: int, download: int)

  /// What a deletion takes along: a gateway its statistics; sessions, which are purged or go with
  /// their device, user or location, theirs.
  datatype Removal = OfGateway(gateway: Id) | OfSessions(sessions: set<Id>)
  {
    predicate Takes(row: StatsRow) {
      match this
      case OfGateway(g) => row.gateway == g
      case OfSessions(ids) => row.session in ids
    }
  }

  function Survivors(stats: seq<StatsRow>, r: Removal): seq<StatsRow> {
    if stats == [] then []
    else
      var n := |stats| - 1;
      Survivors(stats[..n], r) + if r.Takes(stats[n]) then [] else [stats[n]]
  }

  datatype Db = Db(sessions: map<Id, SessionRow>, stats: seq<StatsRow>, nextId: Id)
  {
    /// What the primary key, the foreign key of the statistics and the partial unique index on
    /// active sessions enforce.
    ghost predicate Valid() {
      && (forall s :: s in sessions ==> sessions[s].id == s && s < nextId)
      && (forall i :: 0 <= i < |stats| ==> stats[i].session in sessions)
      && UniqueActive()
    }

    /// At most one active session for a location and a device.
    ghost predicate UniqueActive() {
      forall s, t ::
        (&& s in sessions && t in sessions && sessions[s].state != Disconnected
         && sessions[t].ActiveFor(sessions[s].location, sessions[s].device)) ==> s == t
    }

    function Put(s: Id, row: SessionRow): Db {
      this.(sessions := sessions[s := row])
    }

    function Insert(row: SessionRow): Db
    {
      Put(nextId, row).(nextId := nextId + 1)
    }

    function Without(r: Removal): Db {
      Db(if r.OfSessions? then sessions - r.sessions else sessions, Survivors(stats, r), nextId)
    }

    /// The sessions a removal takes, as they were.
    function Taken(r: Removal): map<Id, SessionRow> {
      if r.OfSessions? then map s | s in sessions && s in r.sessions :: sessions[s] else map[]
    }
  }

  /// The answer to "the active session of this device in this location".
  ghost predicate IsActiveSession(db: Db, location: Id, device: Id, answer: Option<SessionRow>) {
    match answer
    case None => forall s :: s in db.sessions ==> !db.sessions[s].ActiveFor(location, device)
    case Some(row) => row.id in db.sessions && db.sessions[row.id] == row && row.ActiveFor(location, device)
  }

  /// A row of the session and gateway that was collected last. The query orders by collection
  /// time alone, so any of several rows collected at the same time may come first.
  predicate IsNewest(stats: seq<StatsRow>, s: Id, g: Id, row: StatsRow) {
    && row in stats && row.Of(s, g)
    && (forall i :: 0 <= i < |stats| && stats[i].Of(s, g) ==> stats[i].collectedAt <= row.collectedAt)
  }

  /// The answer to "the latest statistics of this session and gateway".
  ghost predicate IsLatest(stats: seq<StatsRow>, s: Id, g: Id, answer: Option<Totals>) {
    match answer
    case None => forall i :: 0 <= i < |stats| ==> !stats[i].Of(s, g)
    case Some(totals) => exists row :: IsNewest(stats, s, g, row) && row.Summary() == totals
  }

  /// A row of the session and gateway after which the log has no other.
  predicate IsLastRow(stats: seq<StatsRow>, s: Id, g: Id, i: nat)
    requires i < |stats|
  {
    stats[i].Of(s, g) && (forall j :: i < j < |stats| ==> !stats[j].Of(s, g))
  }

  /// The answer a batch has at hand: one of the database's, and once the batch has itself stored a
  /// row of the session and gateway, the last of those. Its own rows are those from `start` on.
  ghost predicate Recalls(stats: seq<StatsRow>, start: nat, s: Id, g: Id, answer: Option<Totals>) {
    && IsLatest(stats, s, g, answer)
    && (forall i :: start <= i < |stats| && IsLastRow(stats, s, g, i) ==> answer == Some(stats[i].Summary()))
  }

  // ---------------------------------------------------------------------------------------------
  // Messages, events and errors
  // ---------------------------------------------------------------------------------------------

  datatype PeerStatsUpdate = PeerStatsUpdate(
    location: Id,
    gateway: Id,
    pubkey: string,
    collectedAt: Time,
    endpoint: Endpoint,
    upload: u64,
    download: u64,
    latestHandshake: Time)

  /// An update with what its surroundings answer while it is processed: the clock when its age
  /// is checked, the clock when a row is created, and whether the event channel has a receiver.
  datatype Arrival = Arrival(update: PeerStatsUpdate, now: Time, createdAt: Time, channelOpen: bool)

  datatype EventKind = ClientConnected | ClientDisconnected | MfaClientConnected | MfaClientDisconnected

  function ConnectedKind(mfa: bool): EventKind {
    if mfa then MfaClientConnected else ClientConnected
  }

  function DisconnectedKind(mfa: bool): EventKind {
    if mfa then MfaClientDisconnected else ClientDisconnected
  }

  /// `session` says which session an event is about; the other fields are those of the event.
  datatype Event = Event(
    session: Id,
    kind: EventKind,
    timestamp: Time,
    location: Location,
    user: User,
    device: Device,
    publicIp: Option<string>)

  datatype EventContext = EventContext(location: Location, user: User, device: Device, mfa: bool)

  function ConnectedEvent(session: Id, c: EventContext, u: PeerStatsUpdate): Event {
    Event(session, ConnectedKind(c.mfa), u.latestHandshake, c.location, c.user, c.device, Some(u.endpoint.ip))
  }

  datatype Error =
    | UserMissing(user: Id)
    | DeviceMissing(device: Id)
    | DeviceKeyUnknown(pubkey: string)
    | LocationMissing(location: Id)
    | SessionMissing(session: Id)
    | EventContextMissing(session: Id)
    | OutOfOrder
    | EventChannelClosed
    | GatewayChannelClosed

  // ---------------------------------------------------------------------------------------------
  // One update, nothing cached
  // ---------------------------------------------------------------------------------------------

  /// An update may follow totals that are no newer and no larger in any respect.
  predicate Accepts(last: Totals, u: PeerStatsUpdate) {
    && u.collectedAt >= last.collectedAt
    && u.latestHandshake >= last.latestHandshake
    && AsI64(u.upload) >= last.upload
    && AsI64(u.download) >= last.download
  }

  function StatsFor(session: Id, u: PeerStatsUpdate, last: Option<Totals>): StatsRow {
    StatsRow(session, u.gateway, u.collectedAt, u.latestHandshake, u.endpoint,
             AsI64(u.upload), AsI64(u.download),
             if last.Some? then WrapI64(AsI64(u.upload) - last.value.upload) else 0,
             if last.Some? then WrapI64(AsI64(u.download) - last.value.download) else 0)
  }

  /// The database afterwards, the events sent, and the error, if any. An error does not undo
  /// what was already written.
  datatype Outcome = Outcome(db: Db, events: seq<Event>, error: Option<Error>)

  function AppendStats(db: Db, events: seq<Event>, a: Arrival, session: Id, last: Option<Totals>): Outcome {
    if last.Some? && !Accepts(last.value, a.update) then
      Outcome(db, events, Some(OutOfOrder))
    else
      Outcome(db.(stats := db.stats + [StatsFor(session, a.update, last)]), events, None)
  }

  function RecordStats(db: Db, a: Arrival, session: Id, phase: SessionPhase,
                       context: Option<EventContext>, last: Option<Totals>): Outcome {
    if phase != New then
      AppendStats(db, [], a, session, last)
    else if context.None? then
      Outcome(db, [], Some(EventContextMissing(session)))
    else if session !in db.sessions then
      Outcome(db, [], Some(SessionMissing(session)))
    else
      var connected := db.Put(session, db.sessions[session].(
                                state := Connected, connectedAt := Some(a.update.latestHandshake)));
      if !a.channelOpen then
        Outcome(connected, [], Some(EventChannelClosed))
      else
        AppendStats(connected, [ConnectedEvent(session, context.value, a.update)], a, session, last)
  }

  datatype Admission = Refused(error: Option<Error>) | Admitted(context: EventContext)

  /// A device without an active session may get one, unless its location has multi-factor
  /// authentication or the handshake is too old.
  function Admit(dir: Directory, a: Arrival, device: Device): Admission {
    var u := a.update;
    if u.location !in dir.locations then
      Refused(Some(LocationMissing(u.location)))
    else
      var location := dir.locations[u.location];
      if location.mfaMode != Disabled then
        Refused(None)
      else if a.now - u.latestHandshake > location.disconnectThreshold * MICROS_PER_SECOND then
        Refused(None)
      else if device.userId !in dir.users then
        Refused(Some(UserMissing(device.userId)))
      else
        Admitted(EventContext(location, dir.users[device.userId], device, false))
  }

  datatype Creation = Creation(outcome: Outcome, session: Option<Id>)

  /// An admitted device's session is connected from the start.
  function CreateSession(dir: Directory, db: Db, a: Arrival, device: Device): Creation {
    match Admit(dir, a, device)
    case Refused(error) => Creation(Outcome(db, [], error), None)
    case Admitted(context) =>
      var u := a.update;
      var row := NewSession(db.nextId, u.location, context.user.id, device.id, a.createdAt,
                            Some(u.latestHandshake), false);
      if a.channelOpen then
        Creation(Outcome(db.Insert(row), [ConnectedEvent(row.id, context, u)], None), Some(row.id))
      else
        Creation(Outcome(db.Insert(row), [], Some(EventChannelClosed)), None)
  }

  /// What an event says about a device in a location, if the rows it needs exist.
  function FindContext(dir: Directory, location: Id, device: Device, mfa: bool): Option<EventContext> {
    if device.userId in dir.users && location in dir.locations then
      Some(EventContext(dir.locations[location], dir.users[device.userId], device, mfa))
    else
      None
  }

  /// The error for a missing context: the user is looked up first.
  function ContextError(dir: Directory, location: Id, device: Device): Error {
    if device.userId !in dir.users then UserMissing(device.userId) else LocationMissing(location)
  }

  /// What one update does, given the answers of the two queries.
  function Process(dir: Directory, db: Db, a: Arrival, active: Option<SessionRow>, last: Option<Totals>): Outcome {
    match dir.FindDevice(a.update.pubkey)
    case None => Outcome(db, [], Some(DeviceKeyUnknown(a.update.pubkey)))
    case Some(device) =>
      match active
      case None =>
        var c := CreateSession(dir, db, a, device);
        if c.session.None? then c.outcome
        else AppendStats(c.outcome.db, c.outcome.events, a, c.session.value, None)
      case Some(row) =>
        var context := FindContext(dir, a.update.location, device, row.mfa);
        if row.state == New && context.None? then
          Outcome(db, [], Some(ContextError(dir, a.update.location, device)))
        else
          RecordStats(db, a, row.id, row.state, context, last)
  }

  /// The answers the two queries may give for an update.
  ghost predicate Answers(dir: Directory, db: Db, u: PeerStatsUpdate,
                          active: Option<SessionRow>, last: Option<Totals>) {
    var device := dir.FindDevice(u.pubkey);
    device.Some? ==>
      && IsActiveSession(db, u.location, device.value.id, active)
      && (active.Some? ==> IsLatest(db.stats, active.value.id, u.gateway, last))
  }

  /// One update processed with an empty cache.
  ghost predicate Step(dir: Directory, db: Db, a: Arrival, o: Outcome) {
    exists active, last ::
      Answers(dir, db, a.update, active, last) && o == Process(dir, db, a, active, last)
  }

  /// A list of updates, each processed with an empty cache, one after the other. An update's
  /// error is logged and swallowed.
  ghost predicate Trail(dir: Directory, db: Db, arrivals: seq<Arrival>, outcomes: seq<Outcome>) {
    && |outcomes| == |arrivals|
    && (forall i :: 0 <= i < |arrivals| ==> Step(dir, DbAfter(db, outcomes, i), arrivals[i], outcomes[i]))
  }

  /// One update of a batch that began when the log had `start` rows.
  ghost predicate StepIn(dir: Directory, db: Db, start: nat, a: Arrival, o: Outcome) {
    exists active, last ::
      && Answers(dir, db, a.update, active, last)
      && (active.Some? && dir.FindDevice(a.update.pubkey).Some? ==>
            Recalls(db.stats, start, active.value.id, a.update.gateway, last))
      && o == Process(dir, db, a, active, last)
  }

  /// A list of updates processed as one batch.
  ghost predicate Batch(dir: Directory, db: Db, arrivals: seq<Arrival>, outcomes: seq<Outcome>) {
    && |outcomes| == |arrivals|
    && (forall i :: 0 <= i < |arrivals| ==>
          StepIn(dir, DbAfter(db, outcomes, i), |db.stats|, arrivals[i], outcomes[i]))
  }

  /// The database after the first `n` of some updates.
  function DbAfter(db: Db, outcomes: seq<Outcome>, n: nat): Db
    requires n <= |outcomes|
  {
    if n == 0 then db else outcomes[n - 1].db
  }

  function Emitted(outcomes: seq<Outcome>): seq<Event> {
    if outcomes == [] then []
    else
      var n := |outcomes| - 1;
      Emitted(outcomes[..n]) + outcomes[n].events
  }
}
