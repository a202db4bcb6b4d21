/// Runs of the session manager: updates, sweeps, and what other components do to sessions in
/// between; and the events a session gives rise to over such a run.
module SessionTraces {
  import opened Common
  import opened SessionDomain
  import opened SessionRows
  import opened SessionSweep
  import opened SessionLaws

  /// The committed database, the sessions that were removed from it, as they were then, and everything
  /// sent so far.
  datatype System = System(db: Db, gone: map<Id, SessionRow>, trace: seq<Event>, commands: seq<Command>)
  {
    /// The row of a session, or the one it had when it was removed.
    function RowOf(s: Id): Option<SessionRow> {
      if s in db.sessions then Some(db.sessions[s]) else Lookup(gone, s)
    }

    /// Numbers of sessions are not used again.
    ghost predicate Valid() {
      && db.Valid()
      && (forall s :: s in gone ==> gone[s].id == s && s < db.nextId && s !in db.sessions)
    }

    function AfterUpdate(o: Outcome): System {
      this.(db := o.db, trace := trace + o.events)
    }

    function AfterSweep(db': Db, events: seq<Event>, ordered: seq<Command>): System {
      this.(db := db', trace := trace + events, commands := commands + ordered)
    }
  }

  /// The tables of an action are those of its moment; they may change from one action to the next.
  datatype Action =
    | Receive(dir: Directory, arrival: Arrival)
    | SweepAt(dir: Directory, at: Time, stamp: Id -> Time)
    /// A completed login stores a new session for a device that has no active one.
    | Authorize(row: SessionRow)
    /// Another component ends an active session, and reports that on its own channel.
    | Revoke(session: Id, endedAt: Time)
    /// A gateway or sessions are deleted.
    | Remove(removal: Removal)

  ghost predicate Next(s: System, action: Action, s': System) {
    match action
    case Receive(dir, a) =>
      dir.Valid() && exists o :: Step(dir, s.db, a, o) && s' == s.AfterUpdate(o)
    case SweepAt(dir, at, stamp) =>
      dir.Valid() && exists events, ordered ::
        Sweep(dir, s.db, at, stamp, s'.db, events, ordered) && s' == s.AfterSweep(s'.db, events, ordered)
    case Authorize(row) =>
      && row == NewSession(s.db.nextId, row.location, row.user, row.device, row.createdAt, None, row.mfa)
      && IsActiveSession(s.db, row.location, row.device, None)
      && s' == s.(db := s.db.Insert(row))
    case Revoke(session, endedAt) =>
      && session in s.db.sessions && s.db.sessions[session].state != Disconnected
      && s' == s.(db := s.db.Put(session, ClosedRow(s.db.sessions[session], endedAt)))
    case Remove(r) =>
      s' == s.(db := s.db.Without(r), gone := s.gone + s.db.Taken(r))
  }

  ghost predicate IsRun(states: seq<System>, actions: seq<Action>) {
    && |states| == |actions| + 1
    && (forall i :: 0 <= i < |actions| ==> Next(states[i], actions[i], states[i + 1]))
  }

  // ---------------------------------------------------------------------------------------------
  // Rows over a run
  // ---------------------------------------------------------------------------------------------

  /// A session goes from new to connected to disconnected, or from new to disconnected. Nothing
  /// else about it changes, except that connecting and disconnecting are dated.
  predicate Evolves(before: SessionRow, after: SessionRow) {
    && after == before.(state := after.state, connectedAt := after.connectedAt, disconnectedAt := after.disconnectedAt)
    && (before.state == Disconnected ==> after == before)
    && (before.state == Connected ==> after.state != New && after.connectedAt == before.connectedAt)
    && (after.state == before.state ==> after == before)
    && (after.state == Connected && before.state == New ==> after.connectedAt.Some? && after.disconnectedAt == before.disconnectedAt)
    && (after.state == Disconnected && before.state != Disconnected ==> after.disconnectedAt.Some?)
  }

  ghost predicate AllEvolve(db: Db, db': Db) {
    forall s :: s in db.sessions ==> s in db'.sessions && Evolves(db.sessions[s], db'.sessions[s])
  }

  /// Every session of the system evolves, and one that was removed stays as it was.
  ghost predicate SystemEvolves(s: System, s': System) {
    && (forall x :: s.RowOf(x).Some? ==> s'.RowOf(x).Some? && Evolves(s.RowOf(x).value, s'.RowOf(x).value))
    && (forall x :: x in s.gone ==> s'.RowOf(x) == s.RowOf(x))
  }

  /// A change of the database that removes nothing.
  lemma DbEvolves(s: System, s': System)
    requires s.Valid() && s'.db.Valid() && AllEvolve(s.db, s'.db) && s'.gone == s.gone && s.db.nextId <= s'.db.nextId
    requires forall x :: x in s'.db.sessions ==> x in s.db.sessions || x == s.db.nextId
    ensures s'.Valid() && SystemEvolves(s, s')
  {
    hide Evolves, Db.Valid;
    forall x | x in s.gone ensures s'.RowOf(x) == s.RowOf(x) {
    }
    forall x | x in s.gone ensures Evolves(s.gone[x], s.gone[x]) {
      StaysItself(s.gone[x]);
    }
  }

  lemma StaysItself(row: SessionRow)
    ensures Evolves(row, row)
  {
  }

  lemma RemovalEvolves(s: System, r: Removal)
    requires s.Valid()
    ensures var s' := s.(db := s.db.Without(r), gone := s.gone + s.db.Taken(r));
            s'.Valid() && SystemEvolves(s, s') && forall x :: s'.RowOf(x) == s.RowOf(x)
  {
    RemovalKeepsValid(s.db, r);
    hide Evolves, Survivors, Db.UniqueActive;
    var s' := s.(db := s.db.Without(r), gone := s.gone + s.db.Taken(r));
    forall x ensures s'.RowOf(x) == s.RowOf(x) {
    }
    forall x | s.RowOf(x).Some? ensures Evolves(s.RowOf(x).value, s.RowOf(x).value) {
      StaysItself(s.RowOf(x).value);
    }
  }

  lemma NextEvolves(s: System, action: Action, s': System)
    requires s.Valid() && Next(s, action, s')
    ensures s'.Valid() && SystemEvolves(s, s')
  {
    hide System.Valid, SystemEvolves;
    ValidDb(s);
    match action
    case Receive(dir, a) =>
      hide Step, Db.Valid;
      var o :| Step(dir, s.db, a, o) && s' == s.AfterUpdate(o);
      StepKeepsValid(dir, s.db, a, o);
      StepEvolves(dir, s.db, a, o);
      DbEvolves(s, s');
    case SweepAt(dir, at, stamp) =>
      SweepEvolves(s, dir, at, stamp, s');
    case Authorize(row) =>
      AuthorizeEvolves(s, row);
    case Revoke(session, endedAt) =>
      RevokeEvolves(s, session, endedAt);
    case Remove(r) =>
      RemovalEvolves(s, r);
  }

  lemma ValidDb(s: System)
    requires s.Valid()
    ensures s.db.Valid()
  {
  }

  lemma SweepEvolves(s: System, dir: Directory, at: Time, stamp: Id -> Time, s': System)
    requires s.Valid() && Next(s, SweepAt(dir, at, stamp), s')
    ensures s'.Valid() && SystemEvolves(s, s')
  {
    var events, ordered :| Sweep(dir, s.db, at, stamp, s'.db, events, ordered) && s' == s.AfterSweep(s'.db, events, ordered);
    SweepCompletes(dir, s.db, at, stamp, s'.db, events, ordered);
    hide Sweep, SystemEvolves;
    DbEvolves(s, s');
  }

  lemma AuthorizeEvolves(s: System, row: SessionRow)
    requires s.Valid() && IsActiveSession(s.db, row.location, row.device, None)
    requires row == NewSession(s.db.nextId, row.location, row.user, row.device, row.createdAt, None, row.mfa)
    ensures var s' := s.(db := s.db.Insert(row)); s'.Valid() && SystemEvolves(s, s')
  {
    hide SystemEvolves;
    DbEvolves(s, s.(db := s.db.Insert(row)));
  }

  lemma RevokeEvolves(s: System, session: Id, endedAt: Time)
    requires s.Valid() && session in s.db.sessions && s.db.sessions[session].state != Disconnected
    ensures var s' := s.(db := s.db.Put(session, ClosedRow(s.db.sessions[session], endedAt)));
            s'.Valid() && SystemEvolves(s, s')
  {
    hide SystemEvolves;
    DbEvolves(s, s.(db := s.db.Put(session, ClosedRow(s.db.sessions[session], endedAt))));
  }

  lemma StepEvolves(dir: Directory, db: Db, a: Arrival, o: Outcome)
    requires db.Valid() && Step(dir, db, a, o)
    ensures AllEvolve(db, o.db)
    ensures db.nextId <= o.db.nextId && forall x :: x in o.db.sessions ==> x in db.sessions || x == db.nextId
  {
    var active, last :| Answers(dir, db, a.update, active, last) && o == Process(dir, db, a, active, last);
    var device := dir.FindDevice(a.update.pubkey);
    if device.Some? && active.Some? {
      var context := FindContext(dir, a.update.location, device.value, active.value.mfa);
      RecordEvolves(db, a, active.value.id, context, last);
    }
  }

  lemma RecordEvolves(db: Db, a: Arrival, s: Id, context: Option<EventContext>, last: Option<Totals>)
    requires s in db.sessions && db.sessions[s].state != Disconnected
    ensures AllEvolve(db, RecordStats(db, a, s, db.sessions[s].state, context, last).db)
  {
  }

  lemma EvolvesFurther(a: SessionRow, b: SessionRow, c: SessionRow)
    requires Evolves(a, b) && Evolves(b, c)
    ensures Evolves(a, c)
  {
  }

  lemma AllEvolveFurther(a: Db, b: Db, c: Db)
    requires AllEvolve(a, b) && AllEvolve(b, c)
    ensures AllEvolve(a, c)
  {
    hide Evolves;
    forall s | s in a.sessions ensures s in c.sessions && Evolves(a.sessions[s], c.sessions[s]) {
      EvolvesFurther(a.sessions[s], b.sessions[s], c.sessions[s]);
    }
  }

  lemma StaysAsItIs(db: Db)
    ensures AllEvolve(db, db)
  {
  }

  lemma SystemEvolvesFurther(a: System, b: System, c: System)
    requires SystemEvolves(a, b) && SystemEvolves(b, c) && a.gone.Keys <= b.gone.Keys
    ensures SystemEvolves(a, c)
  {
    hide Evolves;
    forall x | a.RowOf(x).Some? ensures c.RowOf(x).Some? && Evolves(a.RowOf(x).value, c.RowOf(x).value) {
      EvolvesFurther(a.RowOf(x).value, b.RowOf(x).value, c.RowOf(x).value);
    }
  }

  lemma SystemStays(s: System)
    ensures SystemEvolves(s, s)
  {
  }

  lemma NextKeepsGone(s: System, action: Action, s': System)
    requires Next(s, action, s')
    ensures s.gone.Keys <= s'.gone.Keys
  {
    hide Step, Sweep;
  }

  /// Over a whole run the constraints hold, and every session evolves, up to its removal.
  lemma {:induction false} RunEvolves(states: seq<System>, actions: seq<Action>, i: nat, j: nat)
    requires IsRun(states, actions) && states[0].Valid() && i <= j < |states|
    ensures states[j].Valid() && SystemEvolves(states[i], states[j]) && states[i].gone.Keys <= states[j].gone.Keys
    decreases j
  {
    hide Next, SystemEvolves, System.Valid;
    if i < j {
      RunEvolves(states, actions, i, j - 1);
      NextEvolves(states[j - 1], actions[j - 1], states[j]);
      NextKeepsGone(states[j - 1], actions[j - 1], states[j]);
      SystemEvolvesFurther(states[i], states[j - 1], states[j]);
    } else {
      SystemStays(states[j]);
      if j > 0 {
        RunEvolves(states, actions, j - 1, j - 1);
        NextEvolves(states[j - 1], actions[j - 1], states[j]);
      }
    }
  }

  // ---------------------------------------------------------------------------------------------
  // Events over a run
  // ---------------------------------------------------------------------------------------------

  predicate ReportsConnected(row: SessionRow, e: Event) {
    e.session == row.id && e.kind == ConnectedKind(row.mfa) && row.connectedAt == Some(e.timestamp)
  }

  predicate ReportsDisconnected(row: SessionRow, e: Event) {
    e.session == row.id && e.kind == DisconnectedKind(row.mfa) && row.disconnectedAt == Some(e.timestamp)
  }

  /// The events of a session are none, one Connected, or one Connected and then one Disconnected,
  /// of the session's own kind and with the times of its row. There is a Connected event exactly
  /// when the session has a connection time, and a Disconnected event only once it has ended.
  predicate Explains(row: SessionRow, events: seq<Event>) {
    && |events| <= 2
    && (events != [] <==> row.connectedAt.Some?)
    && (row.state == New ==> row.connectedAt.None?)
    && (row.state == Connected ==> row.connectedAt.Some? && |events| == 1)
    && (|events| >= 1 ==> ReportsConnected(row, events[0]))
    && (|events| == 2 ==> ReportsDisconnected(row, events[1]))
  }

  /// Events without a row have no explanation.
  predicate ExplainsAll(row: Option<SessionRow>, events: seq<Event>) {
    if row.Some? then Explains(row.value, events) else events == []
  }

  /// Every session's part of the trace is explained by its row, or the one it had when it was removed;
  /// nothing is sent about others.
  ghost predicate Explained(s: System) {
    s.Valid() && forall id :: ExplainsAll(s.RowOf(id), EventsOf(s.trace, id))
  }

  lemma {:induction false} EventsOfConcat(first: seq<Event>, second: seq<Event>, s: Id)
    ensures EventsOf(first + second, s) == EventsOf(first, s) + EventsOf(second, s)
  {
    if second == [] {
      assert first + second == first;
    } else {
      var n := |second| - 1;
      assert (first + second)[..|first| + n] == first + second[..n];
      EventsOfConcat(first, second[..n], s);
    }
  }

  /// An update connects at most one session, and reports exactly that one if it can.
  ghost predicate Connects(db: Db, o: Outcome, x: Id) {
    && x in o.db.sessions && o.db.sessions == db.sessions[x := o.db.sessions[x]]
    && (x in db.sessions ==> db.sessions[x].state == New)
    && o.db.sessions[x].state == Connected && o.db.sessions[x].connectedAt.Some?
    && if o.error == Some(EventChannelClosed) then o.events == []
       else |o.events| == 1 && ReportsConnected(o.db.sessions[x], o.events[0])
  }

  /// The update would connect this session: the device's active one, if it is new and the rows its
  /// event needs are there, or a session to be opened, if it has none and may get one.
  ghost predicate WouldConnect(dir: Directory, db: Db, a: Arrival, x: Id) {
    var device := dir.FindDevice(a.update.pubkey);
    device.Some? &&
    if x == db.nextId then
      IsActiveSession(db, a.update.location, device.value.id, None) && Admit(dir, a, device.value).Admitted?
    else
      && x in db.sessions && db.sessions[x].ActiveFor(a.update.location, device.value.id)
      && db.sessions[x].state == New
      && FindContext(dir, a.update.location, device.value, db.sessions[x].mfa).Some?
  }

  ghost predicate Connecting(dir: Directory, db: Db, a: Arrival) {
    exists x :: WouldConnect(dir, db, a, x)
  }

  /// An update connects the session it would connect, and no other.
  lemma StepConnects(dir: Directory, db: Db, a: Arrival, o: Outcome)
    returns (x: Option<Id>)
    requires dir.Valid() && db.Valid() && Step(dir, db, a, o)
    ensures match x
            case Some(id) => WouldConnect(dir, db, a, id) && Connects(db, o, id)
            case None => !Connecting(dir, db, a) && o.db.sessions == db.sessions && o.events == []
    ensures o.error == Some(EventChannelClosed) <==> x.Some? && !a.channelOpen
  {
    var active, last :| Answers(dir, db, a.update, active, last) && o == Process(dir, db, a, active, last);
    x := None;
    var device := dir.FindDevice(a.update.pubkey);
    if device.Some? && active.Some? {
      if active.value.state == New && FindContext(dir, a.update.location, device.value, active.value.mfa).Some? {
        x := Some(active.value.id);
      }
    } else if device.Some? && Admit(dir, a, device.value).Admitted? {
      x := Some(db.nextId);
    }
  }

  lemma ConnectedExplains(row: SessionRow, added: seq<Event>)
    requires row.state == Connected && row.connectedAt.Some?
    requires added == [] || (|added| == 1 && ReportsConnected(row, added[0]))
    ensures Explains(row, added) <==> added != []
    ensures forall e :: e in added ==> e.session == row.id
  {
  }

  lemma NothingYet(s: System, id: Id)
    requires Explained(s) && id !in s.gone && (id in s.db.sessions ==> s.db.sessions[id].state == New)
    ensures EventsOf(s.trace, id) == []
  {
    assert ExplainsAll(s.RowOf(id), EventsOf(s.trace, id));
  }

  lemma EventsOfOne(trace: seq<Event>, added: seq<Event>, x: Id, id: Id)
    requires |added| <= 1 && forall e :: e in added ==> e.session == x
    ensures EventsOf(trace + added, id) == EventsOf(trace, id) + if id == x then added else []
  {
    if added == [] {
      assert trace + added == trace;
    } else {
      assert added == [added[0]] && added[0] in added;
      EventsOfAppend(trace, added[0], id);
    }
  }

  lemma ReportedExplained(s: System, db: Db, events: seq<Event>, x: Id)
    requires Explained(s) && s.(db := db).Valid()
    requires x in db.sessions && db.sessions == s.db.sessions[x := db.sessions[x]]
    requires EventsOf(s.trace, x) == [] && Explains(db.sessions[x], events)
    requires |events| <= 1 && forall e :: e in events ==> e.session == x
    ensures Explained(s.(db := db, trace := s.trace + events))
  {
    hide Explains, EventsOf, Db.Valid;
    var s' := s.(db := db, trace := s.trace + events);
    forall id ensures ExplainsAll(s'.RowOf(id), EventsOf(s'.trace, id)) {
      EventsOfOne(s.trace, events, x, id);
      if id == x {
        assert [] + events == events;
      } else {
        assert EventsOf(s.trace, id) + [] == EventsOf(s.trace, id);
        assert s'.RowOf(id) == s.RowOf(id) && ExplainsAll(s.RowOf(id), EventsOf(s.trace, id));
      }
    }
  }

  lemma ConnectsExplained(s: System, o: Outcome, x: Id)
    requires Explained(s) && s.(db := o.db).Valid() && Connects(s.db, o, x)
    ensures Explained(s.AfterUpdate(o)) <==> o.error != Some(EventChannelClosed)
  {
    var row := o.db.sessions[x];
    NothingYet(s, x);
    ConnectedExplains(row, o.events);
    assert row.id == x;
    if o.error == Some(EventChannelClosed) {
      assert s.trace + o.events == s.trace;
      assert !ExplainsAll(s.AfterUpdate(o).RowOf(x), EventsOf(s.trace, x));
    } else {
      hide Explains, EventsOf, Db.Valid;
      ReportedExplained(s, o.db, o.events, x);
    }
  }

  /// An update keeps the trace explained exactly if the event channel has a receiver or there is no
  /// session that the update would connect.
  lemma ReceiveExplained(dir: Directory, s: System, a: Arrival, o: Outcome)
    requires dir.Valid() && Explained(s) && Step(dir, s.db, a, o)
    ensures Explained(s.AfterUpdate(o)) <==> a.channelOpen || !Connecting(dir, s.db, a)
    ensures !a.channelOpen && Connecting(dir, s.db, a) ==>
              exists x :: Unreported(s.AfterUpdate(o), x)
  {
    hide Step, Explains, EventsOf, Connects, WouldConnect;
    StepKeepsValid(dir, s.db, a, o);
    StepEvolves(dir, s.db, a, o);
    var x := StepConnects(dir, s.db, a, o);
    hide Db.Valid;
    if x.Some? {
      ConnectsExplained(s, o, x.value);
      if !a.channelOpen {
        ConnectsUnreported(s, o, x.value);
      }
    } else {
      assert s.trace + o.events == s.trace;
      forall id ensures s.AfterUpdate(o).RowOf(id) == s.RowOf(id) {
      }
    }
  }

  /// A session that has connected, and whose part of the trace does not begin with its connection.
  ghost predicate Unreported(s: System, x: Id) {
    && s.RowOf(x).Some? && s.RowOf(x).value.connectedAt.Some? && s.RowOf(x).value.state != New
    && (EventsOf(s.trace, x) == [] || EventsOf(s.trace, x)[0].kind == DisconnectedKind(s.RowOf(x).value.mfa))
  }

  lemma ConnectsUnreported(s: System, o: Outcome, x: Id)
    requires Explained(s) && Connects(s.db, o, x) && o.error == Some(EventChannelClosed) && x !in s.gone
    ensures Unreported(s.AfterUpdate(o), x)
  {
    NothingYet(s, x);
    assert s.trace + o.events == s.trace;
  }

  lemma UnreportedUnexplained(s: System, x: Id)
    requires Unreported(s, x)
    ensures !Explained(s)
  {
    assert !ExplainsAll(s.RowOf(x), EventsOf(s.trace, x));
  }

  /// A connection that was not reported never is.
  lemma UnreportedStays(s: System, action: Action, s': System, x: Id)
    requires s.Valid() && Next(s, action, s') && Unreported(s, x)
    ensures Unreported(s', x)
  {
    NextEvolves(s, action, s');
    NothingMoreReported(s, action, s', x);
    hide Next, EventsOf, System.Valid;
    assert Evolves(s.RowOf(x).value, s'.RowOf(x).value);
  }

  /// What an action adds about a session that has connected is nothing or its end.
  lemma NothingMoreReported(s: System, action: Action, s': System, x: Id)
    requires s.Valid() && Next(s, action, s') && s.RowOf(x).Some? && s.RowOf(x).value.state != New
    ensures var before, after := EventsOf(s.trace, x), EventsOf(s'.trace, x);
            after == before || exists e: Event :: after == before + [e] && e.kind == DisconnectedKind(s.RowOf(x).value.mfa)
  {
    match action
    case Receive(dir, a) =>
      hide Step;
      var o :| Step(dir, s.db, a, o) && s' == s.AfterUpdate(o);
      NotReported(dir, s, a, o, x);
    case SweepAt(dir, at, stamp) =>
      hide Sweep;
      var events, ordered :| Sweep(dir, s.db, at, stamp, s'.db, events, ordered) && s' == s.AfterSweep(s'.db, events, ordered);
      EventsOfConcat(s.trace, events, x);
      if Due(dir, s.db, at, x) {
        SweepEvents(dir, s.db, at, stamp, s'.db, events, ordered, x);
      } else {
        NoSweepEvents(dir, s.db, at, stamp, s'.db, events, ordered, x);
        assert EventsOf(s.trace, x) + [] == EventsOf(s.trace, x);
      }
    case _ =>
  }

  lemma NotReported(dir: Directory, s: System, a: Arrival, o: Outcome, x: Id)
    requires dir.Valid() && s.Valid() && Step(dir, s.db, a, o) && s.RowOf(x).Some? && s.RowOf(x).value.state != New
    ensures EventsOf(s.trace + o.events, x) == EventsOf(s.trace, x)
  {
    hide Step;
    var y := StepConnects(dir, s.db, a, o);
    StepKeepsValid(dir, s.db, a, o);
    if y.Some? {
      assert y.value != x && o.db.sessions[y.value].id == y.value;
      hide EventsOf, Db.Valid;
      EventsOfOne(s.trace, o.events, y.value, x);
      assert EventsOf(s.trace, x) + [] == EventsOf(s.trace, x);
    } else {
      assert s.trace + o.events == s.trace;
    }
  }

  lemma SweepExplained(dir: Directory, s: System, at: Time, stamp: Id -> Time, s': System,
                       events: seq<Event>, commands: seq<Command>)
    requires dir.Valid() && Explained(s) && Sweep(dir, s.db, at, stamp, s'.db, events, commands)
    requires s' == s.AfterSweep(s'.db, events, commands)
    ensures Explained(s')
  {
    hide Sweep, Explains, Due, EventsOf, ClosedRow, HasContext, DisconnectedEvent;
    SweepCompletes(dir, s.db, at, stamp, s'.db, events, commands);
    hide Db.Valid;
    forall id ensures ExplainsAll(s'.RowOf(id), EventsOf(s'.trace, id)) {
      EventsOfConcat(s.trace, events, id);
      DueIsActive(dir, s.db, at, id);
      assert ExplainsAll(s.RowOf(id), EventsOf(s.trace, id));
      if Due(dir, s.db, at, id) {
        SweepEvents(dir, s.db, at, stamp, s'.db, events, commands, id);
        CloseExplains(dir, s.db.sessions[id], EventsOf(s.trace, id), stamp(id), EventsOf(events, id));
      } else {
        NoSweepEvents(dir, s.db, at, stamp, s'.db, events, commands, id);
        assert EventsOf(s.trace, id) + [] == EventsOf(s.trace, id);
        assert s'.RowOf(id) == s.RowOf(id);
      }
    }
  }

  lemma DueIsActive(dir: Directory, db: Db, at: Time, s: Id)
    ensures Due(dir, db, at, s) ==> s in db.sessions && db.sessions[s].state != Disconnected
  {
  }

  lemma CloseExplains(dir: Directory, row: SessionRow, before: seq<Event>, stamp: Time, added: seq<Event>)
    requires Explains(row, before) && row.state != Disconnected
    requires if row.connectedAt.Some? then HasContext(dir, row) && added == [DisconnectedEvent(dir, row, stamp)]
             else added == []
    ensures Explains(ClosedRow(row, stamp), before + added)
  {
  }

  lemma NoSweepEvents(dir: Directory, db: Db, at: Time, stamp: Id -> Time, db': Db,
                      events: seq<Event>, commands: seq<Command>, s: Id)
    requires Sweep(dir, db, at, stamp, db', events, commands) && !Due(dir, db, at, s)
    ensures EventsOf(events, s) == []
  {
  }

  lemma SweepEvents(dir: Directory, db: Db, at: Time, stamp: Id -> Time, db': Db,
                    events: seq<Event>, commands: seq<Command>, s: Id)
    requires Sweep(dir, db, at, stamp, db', events, commands) && Due(dir, db, at, s)
    ensures if db.sessions[s].connectedAt.Some?
            then HasContext(dir, db.sessions[s]) && EventsOf(events, s) == [DisconnectedEvent(dir, db.sessions[s], stamp(s))]
            else EventsOf(events, s) == []
  {
  }

  /// No update of this action connects a session while the event channel has no receiver.
  ghost predicate Heard(s: System, action: Action) {
    action.Receive? ==> action.arrival.channelOpen || !Connecting(action.dir, s.db, action.arrival)
  }

  lemma NextExplained(s: System, action: Action, s': System)
    requires Explained(s) && Next(s, action, s')
    ensures if Heard(s, action) then Explained(s') else exists x :: Unreported(s', x)
  {
    match action
    case Receive(dir, a) =>
      hide Step, Explained, Connecting, Unreported;
      var o :| Step(dir, s.db, a, o) && s' == s.AfterUpdate(o);
      ReceiveExplained(dir, s, a, o);
    case SweepAt(dir, at, stamp) =>
      hide Sweep, Explained;
      var events, ordered :| Sweep(dir, s.db, at, stamp, s'.db, events, ordered) && s' == s.AfterSweep(s'.db, events, ordered);
      SweepExplained(dir, s, at, stamp, s', events, ordered);
    case _ =>
      SilentlyExplained(s, action, s');
  }

  /// An action that sends no event.
  lemma SilentlyExplained(s: System, action: Action, s': System)
    requires Explained(s) && Next(s, action, s') && !action.Receive? && !action.SweepAt?
    ensures Explained(s')
  {
    NextEvolves(s, action, s');
    hide System.Valid, EventsOf;
    forall id ensures ExplainsAll(s'.RowOf(id), EventsOf(s'.trace, id)) {
      assert ExplainsAll(s.RowOf(id), EventsOf(s.trace, id));
      SilentRows(s, action, s', id);
    }
  }

  lemma SilentRows(s: System, action: Action, s': System, id: Id)
    requires s.Valid() && Next(s, action, s') && !action.Receive? && !action.SweepAt?
    ensures s'.trace == s.trace
    ensures || s'.RowOf(id) == s.RowOf(id)
            || (s.RowOf(id).None? && s'.RowOf(id).value.state == New && s'.RowOf(id).value.connectedAt.None?)
            || (s.RowOf(id).Some? && s.RowOf(id).value.state != Disconnected && action.Revoke?
                && s'.RowOf(id) == Some(ClosedRow(s.RowOf(id).value, action.endedAt)))
  {
    match action
    case Remove(r) => RemovalEvolves(s, r);
    case _ =>
  }

  /// The events of every session are explained by its row exactly if no update of the run connected
  /// a session while the event channel had no receiver.
  lemma {:induction false} RunExplained(states: seq<System>, actions: seq<Action>, i: nat)
    requires IsRun(states, actions) && Explained(states[0]) && i < |states|
    ensures Explained(states[i]) <==> forall j :: 0 <= j < i ==> Heard(states[j], actions[j])
    ensures Explained(states[i]) || exists x :: Unreported(states[i], x)
  {
    hide Explained, Next, Heard, Unreported;
    if i > 0 {
      var s, action, s' := states[i - 1], actions[i - 1], states[i];
      RunExplained(states, actions, i - 1);
      if Explained(s) {
        NextExplained(s, action, s');
      } else {
        var x :| Unreported(s, x);
        ExplainedIsValid(states[0]);
        RunEvolves(states, actions, i - 1, i - 1);
        UnreportedStays(s, action, s', x);
      }
      if x :| Unreported(s', x) {
        UnreportedUnexplained(s', x);
      }
    }
  }

  lemma ExplainedIsValid(s: System)
    requires Explained(s)
    ensures s.Valid()
  {
  }

  /// The system after the first `i` messages of a batch.
  function During(s: System, outcomes: seq<Outcome>, i: nat): System
    requires i <= |outcomes|
  {
    s.(db := DbAfter(s.db, outcomes, i), trace := s.trace + Emitted(outcomes[..i]))
  }

  /// A batch is a run of as many actions as it has messages.
  lemma BatchIsRun(dir: Directory, s: System, arrivals: seq<Arrival>, outcomes: seq<Outcome>)
    requires dir.Valid() && Trail(dir, s.db, arrivals, outcomes)
    ensures IsRun(seq(|outcomes| + 1, i requires 0 <= i <= |outcomes| => During(s, outcomes, i)),
                  seq(|arrivals|, i requires 0 <= i < |arrivals| => Receive(dir, arrivals[i])))
    ensures During(s, outcomes, 0) == s
    ensures During(s, outcomes, |outcomes|).trace == s.trace + Emitted(outcomes)
  {
    forall i | 0 <= i < |arrivals|
      ensures Next(During(s, outcomes, i), Receive(dir, arrivals[i]), During(s, outcomes, i + 1))
    {
      NextDuring(dir, s, arrivals, outcomes, i);
    }
    assert s.trace + [] == s.trace;
    assert outcomes[..|outcomes|] == outcomes;
  }

  lemma NextDuring(dir: Directory, s: System, arrivals: seq<Arrival>, outcomes: seq<Outcome>, i: nat)
    requires dir.Valid() && Trail(dir, s.db, arrivals, outcomes) && i < |arrivals|
    ensures Next(During(s, outcomes, i), Receive(dir, arrivals[i]), During(s, outcomes, i + 1))
  {
    var o := outcomes[i];
    assert Step(dir, DbAfter(s.db, outcomes, i), arrivals[i], o);
    EmittedNext(s.trace, outcomes, i);
    StepIsNext(dir, During(s, outcomes, i), arrivals[i], o);
  }

  lemma EmittedNext(trace: seq<Event>, outcomes: seq<Outcome>, i: nat)
    requires i < |outcomes|
    ensures trace + Emitted(outcomes[..i + 1]) == trace + Emitted(outcomes[..i]) + outcomes[i].events
  {
    assert outcomes[..i + 1][..i] == outcomes[..i];
  }

  lemma StepIsNext(dir: Directory, s: System, a: Arrival, o: Outcome)
    requires dir.Valid() && Step(dir, s.db, a, o)
    ensures Next(s, Receive(dir, a), s.AfterUpdate(o))
  {
  }
}
