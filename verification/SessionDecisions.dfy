/// What an update and a sweep decide about a session, told by the tables alone; and what follows for
/// where the sessions of a run come from.
module SessionDecisions {
  import opened Common
  import opened SessionDomain
  import opened SessionRows
  import opened SessionSweep
  import opened SessionLaws
  import opened SessionTraces
  import opened SessionSilence

  // ---------------------------------------------------------------------------------------------
  // An update of a device without an active session
  // ---------------------------------------------------------------------------------------------

  predicate HasKey(dir: Directory, device: Device, pubkey: string) {
    pubkey in dir.deviceKeys && dir.deviceKeys[pubkey] in dir.devices && device == dir.devices[dir.deviceKeys[pubkey]]
  }

  predicate SessionOf(db: Db, s: Id, location: Id, device: Id) {
    && s in db.sessions && db.sessions[s].location == location && db.sessions[s].device == device
    && db.sessions[s].state != Disconnected
  }

  /// The location asks for no more than a key, and the handshake is recent enough for it.
  predicate OpenTo(dir: Directory, a: Arrival) {
    && a.update.location in dir.locations
    && dir.locations[a.update.location].mfaMode == Disabled
    && a.now - a.update.latestHandshake <= dir.locations[a.update.location].disconnectThreshold * 1_000_000
  }

  /// The update is from a device without an active session that may have one.
  ghost predicate Opens(dir: Directory, db: Db, a: Arrival, device: Device) {
    && HasKey(dir, device, a.update.pubkey)
    && (forall s :: !SessionOf(db, s, a.update.location, device.id))
    && OpenTo(dir, a) && device.userId in dir.users
  }

  /// `as i64`, told by its result: congruent, and in range.
  predicate SignedAs(x: u64, y: int) {
    (y - x) % 0x1_0000_0000_0000_0000 == 0 && -0x8000_0000_0000_0000 <= y < 0x8000_0000_0000_0000
  }

  predicate Carries(row: StatsRow, s: Id, u: PeerStatsUpdate) {
    && row.session == s && row.gateway == u.gateway && row.endpoint == u.endpoint
    && row.collectedAt == u.collectedAt && row.latestHandshake == u.latestHandshake
    && SignedAs(u.upload, row.totalUpload) && SignedAs(u.download, row.totalDownload)
  }

  lemma CastsWrap(x: u64, y: int)
    ensures AsI64(x) == y <==> SignedAs(x, y)
    ensures -0x8000_0000_0000_0000 <= WrapI64(y) < 0x8000_0000_0000_0000
    ensures (WrapI64(y) - y) % 0x1_0000_0000_0000_0000 == 0
  {
    assert (y + TWO_TO_63) % TWO_TO_64 == y + TWO_TO_63 - (y + TWO_TO_63) / TWO_TO_64 * TWO_TO_64;
  }

  lemma ActiveIsSession(db: Db, location: Id, device: Id, active: Option<SessionRow>)
    requires IsActiveSession(db, location, device, active)
    ensures active.Some? ==> SessionOf(db, active.value.id, location, device)
  {
  }

  /// An update stores a session exactly if its device has none and may have one.
  lemma StepOpensExactly(dir: Directory, db: Db, a: Arrival, o: Outcome)
    requires dir.Valid() && db.Valid() && Step(dir, db, a, o)
    ensures db.nextId in o.db.sessions <==> exists device :: Opens(dir, db, a, device)
    ensures db.nextId !in o.db.sessions ==> o.db.sessions.Keys == db.sessions.Keys
  {
    var active, last :| Answers(dir, db, a.update, active, last) && o == Process(dir, db, a, active, last);
    var device := dir.FindDevice(a.update.pubkey);
    if device.Some? {
      ActiveIsSession(db, a.update.location, device.value.id, active);
      if active.None? {
        assert Opens(dir, db, a, device.value) <==> OpenTo(dir, a) && device.value.userId in dir.users;
      }
    }
  }

  /// The session is the device owner's, connected since the handshake and not by a login; it is
  /// reported, and its first statistics stored, if the event channel has a receiver.
  lemma OpenedSession(dir: Directory, db: Db, a: Arrival, o: Outcome, device: Device)
    requires dir.Valid() && db.Valid() && Step(dir, db, a, o) && Opens(dir, db, a, device)
    ensures var u := a.update;
            && o.db.sessions == db.sessions[db.nextId := SessionRow(db.nextId, u.location, device.userId, device.id, a.createdAt,
                                                                   Some(u.latestHandshake), None, false, Connected)]
            && o.db.nextId == db.nextId + 1
            && if a.channelOpen then
                 && o.error == None
                 && o.events == [Event(db.nextId, ClientConnected, u.latestHandshake, dir.locations[u.location],
                                       dir.users[device.userId], device, Some(u.endpoint.ip))]
                 && |o.db.stats| == |db.stats| + 1 && o.db.stats[..|db.stats|] == db.stats
                 && Carries(o.db.stats[|db.stats|], db.nextId, u)
                 && o.db.stats[|db.stats|].uploadDiff == 0 == o.db.stats[|db.stats|].downloadDiff
               else o.error == Some(EventChannelClosed) && o.events == [] && o.db.stats == db.stats
  {
    CastsWrap(a.update.upload, AsI64(a.update.upload));
    CastsWrap(a.update.download, AsI64(a.update.download));
    var active, last :| Answers(dir, db, a.update, active, last) && o == Process(dir, db, a, active, last);
    ActiveIsSession(db, a.update.location, device.id, active);
    assert dir.users[device.userId].id == device.userId;
  }

  /// What an update does that finds no session and opens none: nothing, and with which error.
  lemma RefusedUpdate(dir: Directory, db: Db, a: Arrival, o: Outcome)
    requires dir.Valid() && db.Valid() && Step(dir, db, a, o)
    ensures (forall device :: !HasKey(dir, device, a.update.pubkey)) ==>
              o == Outcome(db, [], Some(DeviceKeyUnknown(a.update.pubkey)))
    ensures forall device | HasKey(dir, device, a.update.pubkey) && !Opens(dir, db, a, device)
                            && (forall s :: !SessionOf(db, s, a.update.location, device.id)) ::
              o == Outcome(db, [], if a.update.location !in dir.locations then Some(LocationMissing(a.update.location))
                                   else if OpenTo(dir, a) then Some(UserMissing(device.userId)) else None)
  {
    var active, last :| Answers(dir, db, a.update, active, last) && o == Process(dir, db, a, active, last);
    var device := dir.FindDevice(a.update.pubkey);
    if device.Some? {
      assert HasKey(dir, device.value, a.update.pubkey);
      ActiveIsSession(db, a.update.location, device.value.id, active);
    }
  }

  // ---------------------------------------------------------------------------------------------
  // An update of an active session
  // ---------------------------------------------------------------------------------------------

  /// A row collected last among those of a session and a gateway, or none if there is none.
  ghost predicate LastCollected(stats: seq<StatsRow>, s: Id, g: Id, last: Option<StatsRow>) {
    match last
    case None => forall i :: 0 <= i < |stats| ==> !(stats[i].session == s && stats[i].gateway == g)
    case Some(row) =>
      && row in stats && row.session == s && row.gateway == g
      && (forall i :: 0 <= i < |stats| && stats[i].session == s && stats[i].gateway == g ==>
            stats[i].collectedAt <= row.collectedAt)
  }

  /// The update is not behind the row in any respect; `up` and `down` are its counters as stored.
  predicate NotBehind(row: StatsRow, u: PeerStatsUpdate, up: int, down: int) {
    && row.collectedAt <= u.collectedAt && row.latestHandshake <= u.latestHandshake
    && row.totalUpload <= up && row.totalDownload <= down
  }

  /// The difference of two stored counters, as an `i64`.
  predicate Difference(diff: int, total: int, before: int) {
    (diff - (total - before)) % 0x1_0000_0000_0000_0000 == 0 && -0x8000_0000_0000_0000 <= diff < 0x8000_0000_0000_0000
  }

  /// The statistics afterwards, given the row the update was compared with: one row more with its
  /// differences to that row, or, if the update is behind it, the same and an error.
  ghost predicate Logged(db: Db, u: PeerStatsUpdate, s: Id, last: Option<StatsRow>, o: Outcome) {
    && LastCollected(db.stats, s, u.gateway, last)
    && forall up, down | SignedAs(u.upload, up) && SignedAs(u.download, down) ::
         if last.Some? && !NotBehind(last.value, u, up, down) then
           o.db.stats == db.stats && o.error == Some(OutOfOrder)
         else
           && o.error == None && |o.db.stats| == |db.stats| + 1 && o.db.stats[..|db.stats|] == db.stats
           && var row := o.db.stats[|db.stats|];
              && Carries(row, s, u)
              && if last.None? then row.uploadDiff == 0 == row.downloadDiff
                 else Difference(row.uploadDiff, up, last.value.totalUpload)
                      && Difference(row.downloadDiff, down, last.value.totalDownload)
  }

  lemma AppendIsLogged(db: Db, db': Db, events: seq<Event>, a: Arrival, s: Id, last: Option<Totals>)
    returns (row: Option<StatsRow>)
    requires IsLatest(db.stats, s, a.update.gateway, last) && db'.stats == db.stats
    ensures Logged(db, a.update, s, row, AppendStats(db', events, a, s, last))
  {
    row := None;
    if last.Some? {
      var newest :| IsNewest(db.stats, s, a.update.gateway, newest) && newest.Summary() == last.value;
      row := Some(newest);
    }
    var u := a.update;
    forall up, down | SignedAs(u.upload, up) && SignedAs(u.download, down)
      ensures up == AsI64(u.upload) && down == AsI64(u.download)
    {
      CastsWrap(u.upload, up);
      CastsWrap(u.download, down);
    }
    CastsWrap(u.upload, AsI64(u.upload));
    CastsWrap(u.download, AsI64(u.download));
    if last.Some? {
      CastsWrap(u.upload, AsI64(u.upload) - last.value.upload);
      CastsWrap(u.download, AsI64(u.download) - last.value.download);
    }
    hide AsI64, WrapI64, SignedAs;
  }

  /// An update of a session that has connected changes no session and reports nothing; its figures
  /// are compared with a row collected last.
  lemma ConnectedUpdate(dir: Directory, db: Db, a: Arrival, o: Outcome, device: Device, s: Id)
    returns (last: Option<StatsRow>)
    requires dir.Valid() && db.Valid() && Step(dir, db, a, o) && HasKey(dir, device, a.update.pubkey)
    requires SessionOf(db, s, a.update.location, device.id) && db.sessions[s].state == Connected
    ensures o.db.sessions == db.sessions && o.db.nextId == db.nextId && o.events == []
    ensures Logged(db, a.update, s, last, o)
  {
    var active, totals :| Answers(dir, db, a.update, active, totals) && o == Process(dir, db, a, active, totals);
    assert active == Some(db.sessions[s]);
    last := AppendIsLogged(db, db, [], a, s, totals);
  }

  /// An update of a new session connects it at the handshake, whatever becomes of the figures, if the
  /// user and the location are there. It is reported by how it was authorized, and the figures are
  /// compared and stored only if it could be.
  lemma NewUpdate(dir: Directory, db: Db, a: Arrival, o: Outcome, device: Device, s: Id)
    returns (last: Option<StatsRow>)
    requires dir.Valid() && db.Valid() && Step(dir, db, a, o) && HasKey(dir, device, a.update.pubkey)
    requires SessionOf(db, s, a.update.location, device.id) && db.sessions[s].state == New
    ensures var u, row := a.update, db.sessions[s];
            if device.userId !in dir.users then o == Outcome(db, [], Some(UserMissing(device.userId)))
            else if u.location !in dir.locations then o == Outcome(db, [], Some(LocationMissing(u.location)))
            else
              && o.db.sessions == db.sessions[s := row.(state := Connected, connectedAt := Some(u.latestHandshake))]
              && o.db.nextId == db.nextId
              && if a.channelOpen then
                   && o.events == [Event(s, if row.mfa then MfaClientConnected else ClientConnected, u.latestHandshake,
                                         dir.locations[u.location], dir.users[device.userId], device, Some(u.endpoint.ip))]
                   && Logged(db, u, s, last, o)
                 else o.events == [] && o.db.stats == db.stats && o.error == Some(EventChannelClosed)
  {
    var active, totals :| Answers(dir, db, a.update, active, totals) && o == Process(dir, db, a, active, totals);
    var row := db.sessions[s];
    assert active == Some(row);
    last := None;
    if device.userId in dir.users && a.update.location in dir.locations && a.channelOpen {
      var connected := db.Put(s, row.(state := Connected, connectedAt := Some(a.update.latestHandshake)));
      var context := FindContext(dir, a.update.location, device, row.mfa).value;
      last := AppendIsLogged(db, connected, [ConnectedEvent(s, context, a.update)], a, s, totals);
    }
  }

  // ---------------------------------------------------------------------------------------------
  // Where the sessions of a run come from
  // ---------------------------------------------------------------------------------------------

  /// The action stores a session of this number: a login, or an update of a device without an active
  /// session that may have one.
  ghost predicate Stores(s: System, action: Action, x: Id, location: Id, mfa: bool) {
    && x == s.db.nextId
    && match action
       case Authorize(row) => row.location == location && row.mfa == mfa
       case Receive(dir, a) => a.update.location == location && !mfa && exists device :: Opens(dir, s.db, a, device)
       case _ => false
  }

  lemma NextStores(s: System, action: Action, s': System, x: Id)
    requires s.Valid() && Next(s, action, s') && s.RowOf(x).None? && s'.RowOf(x).Some?
    ensures Stores(s, action, x, s'.RowOf(x).value.location, s'.RowOf(x).value.mfa)
  {
    match action
    case Receive(dir, a) =>
      var o :| Step(dir, s.db, a, o) && s' == s.AfterUpdate(o);
      ReceiveStores(dir, s.db, a, o, x);
    case SweepAt(dir, at, stamp) => SweepStoresNone(s, dir, at, stamp, s', x);
    case Authorize(row) =>
    case Revoke(session, endedAt) =>
    case Remove(r) => RemovalEvolves(s, r);
  }

  lemma SweepStoresNone(s: System, dir: Directory, at: Time, stamp: Id -> Time, s': System, x: Id)
    requires Next(s, SweepAt(dir, at, stamp), s')
    ensures s.RowOf(x).None? ==> s'.RowOf(x).None?
  {
    var events, ordered :| Sweep(dir, s.db, at, stamp, s'.db, events, ordered) && s' == s.AfterSweep(s'.db, events, ordered);
  }

  lemma ReceiveStores(dir: Directory, db: Db, a: Arrival, o: Outcome, x: Id)
    requires dir.Valid() && db.Valid() && Step(dir, db, a, o) && x !in db.sessions && x in o.db.sessions
    ensures x == db.nextId && o.db.sessions[x].location == a.update.location && !o.db.sessions[x].mfa
    ensures exists device :: Opens(dir, db, a, device)
  {
    StepOpensExactly(dir, db, a, o);
    hide Opens, Step;
    if device :| Opens(dir, db, a, device) {
      OpenedSession(dir, db, a, o, device);
    }
  }

  /// Every session of a run was there at its start, or was stored by a login or by an update that
  /// could open one, with the location and the kind of authorization it still has.
  lemma {:induction false} SessionOrigin(states: seq<System>, actions: seq<Action>, i: nat, x: Id)
    requires IsRun(states, actions) && states[0].Valid() && i < |states|
    requires states[i].RowOf(x).Some? && states[0].RowOf(x).None?
    ensures |states| == |actions| + 1
    ensures exists j: nat :: j < i && Stores(states[j], actions[j], x, states[i].RowOf(x).value.location, states[i].RowOf(x).value.mfa)
  {
    hide Next, Stores, SystemEvolves, Evolves, System.Valid;
    RunLength(states, actions);
    NextOfRun(states, actions, i - 1);
    RunEvolves(states, actions, i - 1, i - 1);
    var s, s' := states[i - 1], states[i];
    if s.RowOf(x).Some? {
      SessionOrigin(states, actions, i - 1, x);
      NextKeepsOrigin(s, actions[i - 1], s', x);
    } else {
      NextStores(s, actions[i - 1], s', x);
    }
  }

  lemma NextKeepsOrigin(s: System, action: Action, s': System, x: Id)
    requires s.Valid() && Next(s, action, s') && s.RowOf(x).Some?
    ensures s'.RowOf(x).Some? && s'.RowOf(x).value.location == s.RowOf(x).value.location
    ensures s'.RowOf(x).value.mfa == s.RowOf(x).value.mfa
  {
    hide Next;
    NextEvolves(s, action, s');
  }

  /// No update meets the location without multi-factor authentication.
  predicate AsksForMore(actions: seq<Action>, i: nat, location: Id)
    requires i <= |actions|
  {
    forall j :: 0 <= j < i && actions[j].Receive? && location in actions[j].dir.locations ==>
      actions[j].dir.locations[location].mfaMode != Disabled
  }

  /// So the sessions of a location that always has multi-factor authentication, and all sessions
  /// marked as using it, were there at the start or come from a login.
  lemma MfaSessionsAreAuthorized(states: seq<System>, actions: seq<Action>, i: nat, x: Id)
    requires IsRun(states, actions) && states[0].Valid() && i < |states| && states[i].RowOf(x).Some?
    requires states[0].RowOf(x).None? && |states| == |actions| + 1
    requires states[i].RowOf(x).value.mfa || AsksForMore(actions, i, states[i].RowOf(x).value.location)
    ensures exists j: nat :: j < i && actions[j].Authorize? && states[j].db.nextId == x
  {
    SessionOrigin(states, actions, i, x);
    hide IsRun, System.Valid;
    var row := states[i].RowOf(x).value;
    var j: nat :| j < i && Stores(states[j], actions[j], x, row.location, row.mfa);
    if actions[j].Receive? {
      UpdatesStoreOpenly(states[j], actions[j], x, row.location, row.mfa);
    }
  }

  lemma UpdatesStoreOpenly(s: System, action: Action, x: Id, location: Id, mfa: bool)
    requires Stores(s, action, x, location, mfa) && action.Receive?
    ensures !mfa && location in action.dir.locations && action.dir.locations[location].mfaMode == Disabled
  {
    var device :| Opens(action.dir, s.db, action.arrival, device);
  }

  // ---------------------------------------------------------------------------------------------
  // Which sessions a sweep closes
  // ---------------------------------------------------------------------------------------------

  /// Peers are authorized at runtime: by multi-factor authentication or by a posture check.
  predicate Authorizing(dir: Directory, location: Id) {
    location in dir.locations && (dir.locations[location].mfaMode != Disabled || location in dir.postures)
  }

  /// A connected session is overdue if it was heard of and no handshake is recent; a new one if its
  /// location authorizes at runtime and its creation is not recent; an ended one never is.
  predicate Overdue(dir: Directory, db: Db, at: Time, s: Id) {
    && s in db.sessions && db.sessions[s].location in dir.locations
    && match db.sessions[s].state
       case New =>
         && Authorizing(dir, db.sessions[s].location)
         && at - db.sessions[s].createdAt > dir.locations[db.sessions[s].location].disconnectThreshold * 1_000_000
       case Connected => HasStats(db.stats, s) && !Recent(dir, db, at, s)
       case Disconnected => false
  }

  lemma DueExactly(dir: Directory, db: Db, at: Time, s: Id)
    requires dir.Valid() && db.Valid()
    ensures Due(dir, db, at, s) <==> Overdue(dir, db, at, s)
  {
    if ConnectedAt(dir, db, s) {
      if Due(dir, db, at, s) {
        assert !Recent(dir, db, at, s) && HasStats(db.stats, s);
      } else {
        ConnectedIsRecentOrSilent(dir, db, at, s);
      }
    }
  }

  /// What a sweep does about a session that is overdue: it is closed, reported if it had connected,
  /// and its peer deauthorized once where that is done at runtime.
  lemma OverdueIsClosed(dir: Directory, db: Db, at: Time, stamp: Id -> Time, db': Db,
                        events: seq<Event>, commands: seq<Command>, s: Id)
    requires dir.Valid() && db.Valid() && Sweep(dir, db, at, stamp, db', events, commands) && Overdue(dir, db, at, s)
    ensures var row := db.sessions[s];
            && row.user in dir.users && row.device in dir.devices
            && s in db'.sessions && db'.sessions[s] == row.(state := Disconnected, disconnectedAt := Some(stamp(s)))
            && EventsOf(events, s) == (if row.connectedAt.None? then [] else
                 [Event(s, if row.mfa then MfaClientDisconnected else ClientDisconnected, stamp(s),
                        dir.locations[row.location], dir.users[row.user], dir.devices[row.device], None)])
            && multiset(commands)[Deauthorize(row.location, dir.devices[row.device])]
               == if Authorizing(dir, row.location) then 1 else 0
  {
    var row := db.sessions[s];
    DueExactly(dir, db, at, s);
    DueIsActive(dir, db, at, s);
    ClosedHasContext(dir, db, at, stamp, db', events, commands, s);
    hide Overdue;
    var c := Deauthorize(row.location, dir.devices[row.device]);
    SweepEvents(dir, db, at, stamp, db', events, commands, s);
    SweepCompletes(dir, db, at, stamp, db', events, commands);
    SweepDeauthorizes(dir, db, at, stamp, db', events, commands);
    hide Sweep, Due;
    assert Deauthorizes(dir, row) <==> Authorizing(dir, row.location);
    if c in commands {
      CommandsForPeer(dir, db, at, stamp, db', events, commands, s, c);
    }
  }

  /// A session that is not overdue is left as it was; nothing is sent about it or, as long as it is
  /// active, about its peer.
  lemma OthersAreLeft(dir: Directory, db: Db, at: Time, stamp: Id -> Time, db': Db,
                      events: seq<Event>, commands: seq<Command>, s: Id)
    requires dir.Valid() && db.Valid() && Sweep(dir, db, at, stamp, db', events, commands)
    requires s in db.sessions && !Overdue(dir, db, at, s)
    ensures s in db'.sessions && db'.sessions[s] == db.sessions[s] && EventsOf(events, s) == []
    ensures db.sessions[s].state != Disconnected ==> forall c :: c in commands ==>
              !(c.location == db.sessions[s].location && c.device.id == db.sessions[s].device)
  {
    DueExactly(dir, db, at, s);
    SweepCompletes(dir, db, at, stamp, db', events, commands);
    NoSweepEvents(dir, db, at, stamp, db', events, commands, s);
    hide Sweep, Due, Overdue;
    var row := db.sessions[s];
    forall c | row.state != Disconnected && c in commands && c.location == row.location && c.device.id == row.device
      ensures false
    {
      CommandsForPeer(dir, db, at, stamp, db', events, commands, s, c);
    }
  }

  lemma ClosedHasContext(dir: Directory, db: Db, at: Time, stamp: Id -> Time, db': Db,
                         events: seq<Event>, commands: seq<Command>, s: Id)
    requires Sweep(dir, db, at, stamp, db', events, commands) && Due(dir, db, at, s)
    ensures HasContext(dir, db.sessions[s])
  {
  }

  /// A command for an active session's peer is there only if that session is due.
  lemma CommandsForPeer(dir: Directory, db: Db, at: Time, stamp: Id -> Time, db': Db,
                        events: seq<Event>, commands: seq<Command>, s: Id, c: Command)
    requires dir.Valid() && db.Valid() && Sweep(dir, db, at, stamp, db', events, commands)
    requires s in db.sessions && db.sessions[s].state != Disconnected
    requires c in commands && c.location == db.sessions[s].location && c.device.id == db.sessions[s].device
    ensures Due(dir, db, at, s) && Deauthorizes(dir, db.sessions[s])
  {
    SweepDeauthorizes(dir, db, at, stamp, db', events, commands);
    hide Sweep;
    var t :| t in db.sessions && Due(dir, db, at, t) && PeerOf(dir, db.sessions[t], c);
    DueIsActive(dir, db, at, t);
    assert db.sessions[t].ActiveFor(db.sessions[s].location, db.sessions[s].device);
  }

  // ---------------------------------------------------------------------------------------------
  // Deauthorizations over a run
  // ---------------------------------------------------------------------------------------------

  /// The action is a sweep that finds a session with this peer overdue where peers are authorized at
  /// runtime.
  ghost predicate Cuts(s: System, action: Action, c: Command) {
    action.SweepAt? && exists x :: Overdue(action.dir, s.db, action.at, x) && HasPeer(action.dir, s.db.sessions[x], c)
  }

  predicate HasPeer(dir: Directory, row: SessionRow, c: Command) {
    && Authorizing(dir, row.location) && c.location == row.location
    && row.device in dir.devices && c.device == dir.devices[row.device]
  }

  lemma SweepCuts(s: System, dir: Directory, at: Time, stamp: Id -> Time, s': System, c: Command)
    requires s.Valid() && Next(s, SweepAt(dir, at, stamp), s')
    ensures multiset(s'.commands)[c] == multiset(s.commands)[c] + if Cuts(s, SweepAt(dir, at, stamp), c) then 1 else 0
  {
    var events, ordered :| Sweep(dir, s.db, at, stamp, s'.db, events, ordered) && s' == s.AfterSweep(s'.db, events, ordered);
    ClosedPeersExactly(dir, s.db, at, stamp, s'.db, events, ordered, c);
    hide Sweep, Overdue, HasPeer;
  }

  lemma ClosedPeersExactly(dir: Directory, db: Db, at: Time, stamp: Id -> Time, db': Db,
                           events: seq<Event>, commands: seq<Command>, c: Command)
    requires dir.Valid() && db.Valid() && Sweep(dir, db, at, stamp, db', events, commands)
    ensures multiset(commands)[c] == if exists x :: Overdue(dir, db, at, x) && HasPeer(dir, db.sessions[x], c) then 1 else 0
  {
    var closed := set s | s in db.sessions && Due(dir, db, at, s);
    assert multiset(commands)[c] == if ClosedPeer(dir, db, closed, c) then 1 else 0;
    hide Sweep, Due;
    forall x ensures x in closed <==> Overdue(dir, db, at, x) {
      DueExactly(dir, db, at, x);
      assert Overdue(dir, db, at, x) ==> x in db.sessions;
    }
    forall x | x in closed ensures PeerOf(dir, db.sessions[x], c) <==> HasPeer(dir, db.sessions[x], c) {
      assert db.sessions[x].location in dir.locations ==> dir.locations[db.sessions[x].location].id == db.sessions[x].location;
    }
    hide Overdue, PeerOf, HasPeer;
  }

  /// How many of the first i actions cut a peer off.
  ghost function TimesCut(states: seq<System>, actions: seq<Action>, i: nat, c: Command): nat
    requires i <= |actions| < |states|
  {
    if i == 0 then 0 else TimesCut(states, actions, i - 1, c) + if Cuts(states[i - 1], actions[i - 1], c) then 1 else 0
  }

  /// Over a run a deauthorization is sent exactly once for each sweep that finds a session with the peer
  /// overdue, and never otherwise.
  lemma {:induction false} RunCutsExactly(states: seq<System>, actions: seq<Action>, i: nat, c: Command)
    requires IsRun(states, actions) && states[0].Valid() && i < |states|
    ensures |states| == |actions| + 1
    ensures multiset(states[i].commands)[c] == multiset(states[0].commands)[c] + TimesCut(states, actions, i, c)
  {
    hide Next, System.Valid, Cuts, SystemEvolves;
    RunLength(states, actions);
    if i > 0 {
      var s, action, s' := states[i - 1], actions[i - 1], states[i];
      RunCutsExactly(states, actions, i - 1, c);
      RunEvolves(states, actions, i - 1, i - 1);
      NextOfRun(states, actions, i - 1);
      NextCuts(s, action, s', c);
    }
  }

  lemma NextCuts(s: System, action: Action, s': System, c: Command)
    requires s.Valid() && Next(s, action, s')
    ensures multiset(s'.commands)[c] == multiset(s.commands)[c] + if Cuts(s, action, c) then 1 else 0
  {
    match action
    case SweepAt(dir, at, stamp) => SweepCuts(s, dir, at, stamp, s', c);
    case _ =>
  }

  // ---------------------------------------------------------------------------------------------
  // Kinds of events
  // ---------------------------------------------------------------------------------------------

  /// Where the events are explained, each tells by its kind whether its session used multi-factor
  /// authentication, and a session's first event is a connection and its second a disconnection.
  lemma KindsTell(s: System, id: Id, i: nat)
    requires Explained(s) && i < |EventsOf(s.trace, id)|
    ensures var e := EventsOf(s.trace, id)[i];
            && s.RowOf(id).Some? && i < 2
            && e.kind == (if s.RowOf(id).value.mfa
                          then (if i == 0 then MfaClientConnected else MfaClientDisconnected)
                          else (if i == 0 then ClientConnected else ClientDisconnected))
            && Some(e.timestamp) == if i == 0 then s.RowOf(id).value.connectedAt else s.RowOf(id).value.disconnectedAt
  {
    assert ExplainsAll(s.RowOf(id), EventsOf(s.trace, id));
  }

  // ---------------------------------------------------------------------------------------------
  // Sweeps that fail
  // ---------------------------------------------------------------------------------------------

  /// Closing a session fails for the first of four reasons, in this order.
  lemma CloseFailsExactly(dir: Directory, row: SessionRow, eventsOpen: bool, gatewayOpen: bool)
    requires row.location in dir.locations && dir.locations[row.location].id == row.location
    ensures var error, cut := CloseError(dir, row, eventsOpen, gatewayOpen), Authorizing(dir, row.location) && !gatewayOpen;
            && (error == Some(UserMissing(row.user)) <==> row.user !in dir.users)
            && (error == Some(DeviceMissing(row.device)) <==> row.user in dir.users && row.device !in dir.devices)
            && (error == Some(GatewayChannelClosed) <==> row.user in dir.users && row.device in dir.devices && cut)
            && (error == Some(EventChannelClosed) <==>
                  row.user in dir.users && row.device in dir.devices && !cut && row.connectedAt.Some? && !eventsOpen)
            && (error.None? <==> !CannotClose(dir, row, eventsOpen, gatewayOpen))
  {
  }
}
