/// Connected sessions without statistics: how they arise, how they end, and that no sweep finds them.
module SessionSilence {
  import opened Common
  import opened SessionDomain
  import opened SessionRows
  import opened SessionSweep
  import opened SessionLaws
  import opened SessionTraces
  import opened TransferLaws

  predicate HasStats(stats: seq<StatsRow>, s: Id) {
    exists i :: 0 <= i < |stats| && stats[i].session == s
  }

  predicate Silent(db: Db, s: Id) {
    s in db.sessions && db.sessions[s].state == Connected && !HasStats(db.stats, s)
  }

  /// No session has statistics before it connects.
  ghost predicate StatsFollow(db: Db) {
    forall s :: s in db.sessions && db.sessions[s].state == New ==> !HasStats(db.stats, s)
  }

  /// A silent session is due at no time.
  lemma SilentIsNeverDue(dir: Directory, db: Db, at: Time, s: Id)
    requires db.Valid() && Silent(db, s)
    ensures !Due(dir, db, at, s)
  {
    if db.sessions[s].location in dir.locations {
      var location := dir.locations[db.sessions[s].location];
      forall i | 0 <= i < |db.stats| ensures db.stats[i].session != db.sessions[s].id || db.sessions[s].id != s {
        assert db.stats[i].session == s ==> HasStats(db.stats, s);
      }
    }
  }

  // ---------------------------------------------------------------------------------------------
  // How silence begins and ends
  // ---------------------------------------------------------------------------------------------

  /// An update connects the session, and the event channel has no receiver; or a gateway is deleted
  /// from which all statistics of the session, which is connected, came.
  ghost predicate Silences(s: System, action: Action, x: Id) {
    || (action.Receive? && !action.arrival.channelOpen && WouldConnect(action.dir, s.db, action.arrival, x))
    || (action.Remove? && action.removal.OfGateway? && HeardOnlyFrom(s.db, x, action.removal.gateway))
  }

  predicate HeardOnlyFrom(db: Db, x: Id, gateway: Id) {
    && x in db.sessions && db.sessions[x].state == Connected && HasStats(db.stats, x)
    && (forall i :: 0 <= i < |db.stats| && db.stats[i].session == x ==> db.stats[i].gateway == gateway)
  }

  /// An update of the session's own device and location, the end of the session elsewhere, or its
  /// removal.
  ghost predicate Ends(s: System, action: Action, x: Id) {
    || (action.Receive? && IsSessionOf(action.dir, s.db, action.arrival.update, x))
    || (action.Revoke? && action.session == x)
    || (action.Remove? && action.removal.OfSessions? && x in action.removal.sessions)
  }

  /// What a removal leaves of a session's statistics.
  lemma RemovalSpares(db: Db, r: Removal, x: Id)
    ensures Silent(db.Without(r), x) <==>
            || (r.OfGateway? && HeardOnlyFrom(db, x, r.gateway))
            || (Silent(db, x) && !(r.OfSessions? && x in r.sessions))
    ensures HasStats(db.Without(r).stats, x) ==> HasStats(db.stats, x)
  {
    var stats, stats' := db.stats, db.Without(r).stats;
    forall i | 0 <= i < |stats'| ensures stats'[i] in stats && !r.Takes(stats'[i]) {
      SurvivorsAre(stats, r, stats'[i]);
    }
    forall i | 0 <= i < |stats| && !r.Takes(stats[i]) ensures stats[i] in stats' {
      SurvivorsAre(stats, r, stats[i]);
    }
    hide Survivors;
    assert HasStats(stats', x) <==> exists i :: 0 <= i < |stats| && stats[i].session == x && !r.Takes(stats[i]) by {
      if i :| 0 <= i < |stats| && stats[i].session == x && !r.Takes(stats[i]) {
        var j :| 0 <= j < |stats'| && stats'[j] == stats[i];
      }
      if HasStats(stats', x) {
        var j :| 0 <= j < |stats'| && stats'[j].session == x;
        var i :| 0 <= i < |stats| && stats[i] == stats'[j];
      }
    }
  }

  /// What an update does to the statistics, according to what it does to the sessions: one that
  /// connects a session stores its first row if the connection can be reported, and one of a silent
  /// session stores its first row in any case.
  lemma StepSounds(dir: Directory, db: Db, a: Arrival, o: Outcome, x: Id)
    requires dir.Valid() && db.Valid() && StatsFollow(db) && Step(dir, db, a, o)
    ensures WouldConnect(dir, db, a, x) ==>
              && x in o.db.sessions && o.db.sessions[x].state == Connected
              && (HasStats(o.db.stats, x) <==> a.channelOpen)
    ensures Silent(db, x) && IsSessionOf(dir, db, a.update, x) ==> HasStats(o.db.stats, x)
  {
    var active, last :| Answers(dir, db, a.update, active, last) && o == Process(dir, db, a, active, last);
    var device := dir.FindDevice(a.update.pubkey);
    if device.Some? {
      if active.Some? {
        var row := active.value;
        assert x in db.sessions && db.sessions[x].ActiveFor(a.update.location, device.value.id) ==> x == row.id;
        if x == row.id && (row.state == New || Silent(db, x)) {
          NoStatsNoTotals(db.stats, x, a.update.gateway, last);
          AppendedIsHeard(db.stats, StatsFor(x, a.update, last));
        }
      } else {
        NoStatsYet(db);
        AppendedIsHeard(db.stats, StatsFor(db.nextId, a.update, None));
      }
    }
  }

  lemma NoStatsNoTotals(stats: seq<StatsRow>, s: Id, g: Id, last: Option<Totals>)
    requires !HasStats(stats, s) && IsLatest(stats, s, g, last)
    ensures last.None?
  {
  }

  lemma NoStatsYet(db: Db)
    requires db.Valid()
    ensures !HasStats(db.stats, db.nextId)
  {
  }

  lemma AppendedIsHeard(stats: seq<StatsRow>, row: StatsRow)
    ensures HasStats(stats + [row], row.session)
    ensures forall s :: s != row.session ==> (HasStats(stats + [row], s) <==> HasStats(stats, s))
  {
    var stats' := stats + [row];
    assert stats'[|stats|] == row;
    forall s | HasStats(stats, s) ensures HasStats(stats', s) {
      var i :| 0 <= i < |stats| && stats[i].session == s;
      assert stats'[i] == stats[i];
    }
  }

  /// An update leaves the statistics of all sessions but its device's alone.
  lemma StepSpares(dir: Directory, db: Db, a: Arrival, o: Outcome, x: Id)
    requires dir.Valid() && db.Valid() && Step(dir, db, a, o)
    requires !WouldConnect(dir, db, a, x) && !IsSessionOf(dir, db, a.update, x)
    ensures HasStats(o.db.stats, x) <==> HasStats(db.stats, x)
    ensures Lookup(o.db.sessions, x) == Lookup(db.sessions, x)
  {
    hide Step, WouldConnect;
    var y := StepConnects(dir, db, a, o);
    var added := StepAppends(dir, db, a, o);
    if added.Some? {
      var (s, last) := added.value;
      AppendedIsHeard(db.stats, StatsFor(s, a.update, last));
      AppendedIsOwn(dir, db, a, o, s, last);
    }
  }

  lemma AppendedIsOwn(dir: Directory, db: Db, a: Arrival, o: Outcome, s: Id, last: Option<Totals>)
    requires dir.Valid() && db.Valid() && Step(dir, db, a, o)
    requires o.db.stats == db.stats + [StatsFor(s, a.update, last)]
    ensures IsSessionOf(dir, db, a.update, s) || WouldConnect(dir, db, a, s)
  {
    var active, last' :| Answers(dir, db, a.update, active, last') && o == Process(dir, db, a, active, last');
    assert o.db.stats[|db.stats|] == StatsFor(s, a.update, last);
  }

  /// Where silence comes from and where it ends, over one action.
  lemma NextSilent(s: System, action: Action, s': System, x: Id)
    requires s.db.Valid() && StatsFollow(s.db) && Next(s, action, s')
    ensures Silent(s'.db, x) <==> Silences(s, action, x) || (Silent(s.db, x) && !Ends(s, action, x))
  {
    match action
    case Receive(dir, a) =>
      hide Step, WouldConnect, IsSessionOf, HasStats, StatsFollow, Db.Valid;
      var o :| Step(dir, s.db, a, o) && s' == s.AfterUpdate(o);
      StepSounds(dir, s.db, a, o, x);
      if !WouldConnect(dir, s.db, a, x) {
        if IsSessionOf(dir, s.db, a.update, x) {
          StepSoundsOwn(dir, s.db, a, o, x);
        } else {
          StepSpares(dir, s.db, a, o, x);
        }
      } else {
        ConnectsFromNew(dir, s.db, a, x);
      }
    case SweepAt(dir, at, stamp) =>
      var events, ordered :| Sweep(dir, s.db, at, stamp, s'.db, events, ordered) && s' == s.AfterSweep(s'.db, events, ordered);
      SweepSpares(dir, s.db, at, stamp, s'.db, events, ordered, x);
    case Authorize(row) =>
      NoStatsYet(s.db);
    case Revoke(session, endedAt) =>
    case Remove(r) =>
      RemovalSpares(s.db, r, x);
  }

  lemma ConnectsFromNew(dir: Directory, db: Db, a: Arrival, x: Id)
    requires db.Valid() && WouldConnect(dir, db, a, x)
    ensures !Silent(db, x)
  {
  }

  /// An update of a connected session that has statistics leaves it with some.
  lemma StepSoundsOwn(dir: Directory, db: Db, a: Arrival, o: Outcome, x: Id)
    requires dir.Valid() && db.Valid() && StatsFollow(db) && Step(dir, db, a, o)
    requires IsSessionOf(dir, db, a.update, x) && !WouldConnect(dir, db, a, x)
    ensures !Silent(o.db, x)
  {
    hide Step;
    StepSounds(dir, db, a, o, x);
    var y := StepConnects(dir, db, a, o);
    var added := StepAppends(dir, db, a, o);
    if added.Some? {
      AppendedIsHeard(db.stats, StatsFor(added.value.0, a.update, added.value.1));
    }
  }

  lemma SweepSpares(dir: Directory, db: Db, at: Time, stamp: Id -> Time, db': Db,
                    events: seq<Event>, commands: seq<Command>, x: Id)
    requires dir.Valid() && db.Valid() && Sweep(dir, db, at, stamp, db', events, commands)
    ensures Silent(db', x) <==> Silent(db, x)
  {
    hide Sweep, Closes;
    SweepCompletes(dir, db, at, stamp, db', events, commands);
    if Silent(db, x) {
      SilentIsNeverDue(dir, db, at, x);
    }
  }

  lemma NextStatsFollow(s: System, action: Action, s': System)
    requires s.db.Valid() && StatsFollow(s.db) && Next(s, action, s')
    ensures StatsFollow(s'.db)
  {
    match action
    case Receive(dir, a) =>
      var o :| Step(dir, s.db, a, o) && s' == s.AfterUpdate(o);
      StepStatsFollow(dir, s.db, a, o);
    case SweepAt(dir, at, stamp) =>
      var events, ordered :| Sweep(dir, s.db, at, stamp, s'.db, events, ordered) && s' == s.AfterSweep(s'.db, events, ordered);
      SweepCompletes(dir, s.db, at, stamp, s'.db, events, ordered);
    case Authorize(row) =>
      NoStatsYet(s.db);
    case Revoke(session, endedAt) =>
    case Remove(r) =>
      forall x { RemovalSpares(s.db, r, x); }
  }

  lemma StepStatsFollow(dir: Directory, db: Db, a: Arrival, o: Outcome)
    requires dir.Valid() && db.Valid() && StatsFollow(db) && Step(dir, db, a, o)
    ensures StatsFollow(o.db)
  {
    var y := StepConnects(dir, db, a, o);
    var added := StepAppends(dir, db, a, o);
    hide Step, WouldConnect, Db.Valid, IsLatest;
    if added.Some? {
      var (s, last) := added.value;
      AppendedIsHeard(db.stats, StatsFor(s, a.update, last));
      AppendedIsConnected(dir, db, a, o, s, last);
    }
  }

  lemma AppendedIsConnected(dir: Directory, db: Db, a: Arrival, o: Outcome, s: Id, last: Option<Totals>)
    requires dir.Valid() && db.Valid() && Step(dir, db, a, o)
    requires o.db.stats == db.stats + [StatsFor(s, a.update, last)]
    ensures s in o.db.sessions && o.db.sessions[s].state != New
  {
    var active, last' :| Answers(dir, db, a.update, active, last') && o == Process(dir, db, a, active, last');
    assert o.db.stats[|db.stats|] == StatsFor(s, a.update, last);
  }

  lemma {:induction false} RunStatsFollow(states: seq<System>, actions: seq<Action>, i: nat)
    requires IsRun(states, actions) && states[0].Valid() && StatsFollow(states[0].db) && i < |states|
    ensures states[i].db.Valid() && StatsFollow(states[i].db)
  {
    hide *;
    RunLength(states, actions);
    RunEvolves(states, actions, i, i);
    ValidDb(states[i]);
    if i > 0 {
      RunStatsFollow(states, actions, i - 1);
      NextOfRun(states, actions, i - 1);
      NextStatsFollow(states[i - 1], actions[i - 1], states[i]);
    }
  }

  ghost predicate Unended(states: seq<System>, actions: seq<Action>, from: nat, to: nat, x: Id)
    requires |states| > |actions| >= to
  {
    forall k :: from <= k < to ==> !Ends(states[k], actions[k], x)
  }

  /// The session fell silent at some action before i, or was silent from the start, and that has not
  /// ended.
  ghost predicate StillSilent(states: seq<System>, actions: seq<Action>, i: nat, x: Id)
    requires |states| > |actions| >= i
  {
    || (Silent(states[0].db, x) && Unended(states, actions, 0, i, x))
    || exists j: nat :: j < i && Silences(states[j], actions[j], x) && Unended(states, actions, j + 1, i, x)
  }

  lemma UnendedFurther(states: seq<System>, actions: seq<Action>, from: nat, i: nat, x: Id)
    requires |states| > |actions| > i >= from
    ensures Unended(states, actions, from, i + 1, x) <==>
            Unended(states, actions, from, i, x) && !Ends(states[i], actions[i], x)
  {
  }

  lemma StaysSilent(states: seq<System>, actions: seq<Action>, i: nat, x: Id)
    requires |states| > |actions| > i
    requires Silences(states[i], actions[i], x) || (StillSilent(states, actions, i, x) && !Ends(states[i], actions[i], x))
    ensures StillSilent(states, actions, i + 1, x)
  {
    hide Silent, Silences, Ends;
    if Silences(states[i], actions[i], x) {
      assert Unended(states, actions, i + 1, i + 1, x);
    } else if Silent(states[0].db, x) && Unended(states, actions, 0, i, x) {
      UnendedFurther(states, actions, 0, i, x);
    } else {
      var j: nat :| j < i && Silences(states[j], actions[j], x) && Unended(states, actions, j + 1, i, x);
      UnendedFurther(states, actions, j + 1, i, x);
    }
  }

  lemma WasSilent(states: seq<System>, actions: seq<Action>, i: nat, x: Id)
    requires |states| > |actions| > i && StillSilent(states, actions, i + 1, x)
    ensures Silences(states[i], actions[i], x) || (StillSilent(states, actions, i, x) && !Ends(states[i], actions[i], x))
  {
    hide Silent, Silences, Ends;
    if Silent(states[0].db, x) && Unended(states, actions, 0, i + 1, x) {
      UnendedFurther(states, actions, 0, i, x);
    } else {
      var j: nat :| j < i + 1 && Silences(states[j], actions[j], x) && Unended(states, actions, j + 1, i + 1, x);
      if j < i {
        UnendedFurther(states, actions, j + 1, i, x);
      }
    }
  }

  /// Over a run: a session is silent exactly if it fell silent, by an update that connected it while
  /// the event channel had no receiver or by the deletion of the only gateway it was heard from, or
  /// was silent from the start, and since then there was no update of its device and location and no
  /// end to it.
  lemma {:induction false} RunSilent(states: seq<System>, actions: seq<Action>, i: nat, x: Id)
    requires IsRun(states, actions) && states[0].Valid() && StatsFollow(states[0].db) && i < |states|
    ensures Silent(states[i].db, x) <==> StillSilent(states, actions, i, x)
  {
    hide *;
    RunLength(states, actions);
    if i == 0 {
      SilentAtStart(states, actions, x);
    } else {
      RunSilent(states, actions, i - 1, x);
      RunStatsFollow(states, actions, i - 1);
      NextOfRun(states, actions, i - 1);
      NextSilent(states[i - 1], actions[i - 1], states[i], x);
      OneMoreAction(states, actions, i - 1, x);
    }
  }

  lemma RunLength(states: seq<System>, actions: seq<Action>)
    requires IsRun(states, actions)
    ensures |states| == |actions| + 1
  {
  }

  lemma NextOfRun(states: seq<System>, actions: seq<Action>, i: nat)
    requires IsRun(states, actions) && i < |actions|
    ensures |states| == |actions| + 1 && Next(states[i], actions[i], states[i + 1])
  {
    hide Next;
  }

  lemma SilentAtStart(states: seq<System>, actions: seq<Action>, x: Id)
    requires |states| > |actions|
    ensures StillSilent(states, actions, 0, x) <==> Silent(states[0].db, x)
  {
    hide Silent, Ends;
  }

  lemma OneMoreAction(states: seq<System>, actions: seq<Action>, i: nat, x: Id)
    requires |states| > |actions| > i
    ensures StillSilent(states, actions, i + 1, x) <==>
            Silences(states[i], actions[i], x) || (StillSilent(states, actions, i, x) && !Ends(states[i], actions[i], x))
  {
    hide *;
    if StillSilent(states, actions, i + 1, x) {
      WasSilent(states, actions, i, x);
    } else if Silences(states[i], actions[i], x) || (StillSilent(states, actions, i, x) && !Ends(states[i], actions[i], x)) {
      StaysSilent(states, actions, i, x);
    }
  }

  // ---------------------------------------------------------------------------------------------
  // What a sweep leaves behind
  // ---------------------------------------------------------------------------------------------

  /// The session has a handshake within its location's threshold.
  predicate Recent(dir: Directory, db: Db, at: Time, s: Id) {
    && s in db.sessions && db.sessions[s].location in dir.locations
    && exists i :: 0 <= i < |db.stats| && db.stats[i].session == s
                   && at - db.stats[i].latestHandshake
                      <= dir.locations[db.sessions[s].location].disconnectThreshold * 1_000_000
  }

  predicate ConnectedAt(dir: Directory, db: Db, s: Id) {
    s in db.sessions && db.sessions[s].state == Connected && db.sessions[s].location in dir.locations
  }

  /// After a sweep every connected session has a recent handshake, exactly if none was silent before.
  lemma SweepLeavesRecentExactly(dir: Directory, db: Db, at: Time, stamp: Id -> Time, db': Db,
                                 events: seq<Event>, commands: seq<Command>)
    requires dir.Valid() && db.Valid() && Sweep(dir, db, at, stamp, db', events, commands)
    ensures (forall s :: ConnectedAt(dir, db', s) ==> Recent(dir, db', at, s)) <==>
            (forall s :: ConnectedAt(dir, db, s) ==> !Silent(db, s))
  {
    SweepCompletes(dir, db, at, stamp, db', events, commands);
    hide Sweep;
    forall s | ConnectedAt(dir, db', s) ensures Recent(dir, db', at, s) <==> !Silent(db', s) {
      ConnectedIsRecentOrSilent(dir, db', at, s);
    }
    forall s ensures ConnectedAt(dir, db, s) && Silent(db, s) <==> ConnectedAt(dir, db', s) && Silent(db', s) {
      if Silent(db, s) {
        SilentIsNeverDue(dir, db, at, s);
      }
    }
  }

  lemma ConnectedIsRecentOrSilent(dir: Directory, db: Db, at: Time, s: Id)
    requires dir.Valid() && db.Valid() && ConnectedAt(dir, db, s) && !Due(dir, db, at, s)
    ensures Recent(dir, db, at, s) <==> !Silent(db, s)
  {
    var row := db.sessions[s];
    var location := dir.locations[row.location];
    assert !Inactive(db, location, at, row);
    if HasStats(db.stats, s) {
      var i :| 0 <= i < |db.stats| && db.stats[i].session == row.id
               && !(at - db.stats[i].latestHandshake > location.disconnectThreshold * MICROS_PER_SECOND);
    }
  }
}
