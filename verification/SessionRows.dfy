/// What writing one session leaves alone, and the constraints that every write keeps.
module SessionRows {
  import opened Common
  import opened SessionDomain

  /// The remembered totals are what a batch that began with `start` rows has at hand.
  ghost predicate Remembers(stats: seq<StatsRow>, start: nat, session: Id, totals: map<Id, Totals>) {
    forall g :: Recalls(stats, start, session, g, Lookup(totals, g))
  }

  /// Only the row of one session changes, and at most one statistics row of it is added.
  ghost predicate TouchesOnly(db: Db, db': Db, session: Id) {
    && (forall s :: s != session ==> Lookup(db'.sessions, s) == Lookup(db.sessions, s))
    && (db'.stats == db.stats || exists row: StatsRow :: row.session == session && db'.stats == db.stats + [row])
  }

  /// The query always has an answer.
  lemma {:induction false} SomeLatest(stats: seq<StatsRow>, s: Id, g: Id)
    ensures exists answer :: IsLatest(stats, s, g, answer)
  {
    if stats == [] {
      assert IsLatest(stats, s, g, None);
    } else {
      var n := |stats| - 1;
      var init, row := stats[..n], stats[n];
      assert stats == init + [row];
      SomeLatest(init, s, g);
      var answer :| IsLatest(init, s, g, answer);
      if !row.Of(s, g) {
        LatestOfOthers(init, row, s, g, answer);
        assert IsLatest(stats, s, g, answer);
      } else if answer.None? || answer.value.collectedAt <= row.collectedAt {
        assert IsNewest(stats, s, g, row);
        assert IsLatest(stats, s, g, Some(row.Summary()));
      } else {
        var newest :| IsNewest(init, s, g, newest) && newest.Summary() == answer.value;
        assert IsNewest(stats, s, g, newest);
        assert IsLatest(stats, s, g, answer);
      }
    }
  }

  /// Statistics of one session do not change what is latest for another.
  lemma LatestOfOthers(stats: seq<StatsRow>, row: StatsRow, s: Id, g: Id, answer: Option<Totals>)
    requires !row.Of(s, g)
    requires IsLatest(stats, s, g, answer)
    ensures IsLatest(stats + [row], s, g, answer)
  {
    if answer.Some? {
      var newest :| IsNewest(stats, s, g, newest) && newest.Summary() == answer.value;
      assert IsNewest(stats + [row], s, g, newest);
    }
  }

  /// An accepted update is the latest of its gateway, whichever answer it was compared with.
  lemma AcceptedIsLatest(stats: seq<StatsRow>, session: Id, u: PeerStatsUpdate, last: Option<Totals>)
    requires IsLatest(stats, session, u.gateway, last)
    requires last.Some? ==> Accepts(last.value, u)
    ensures IsLatest(stats + [StatsFor(session, u, last)], session, u.gateway,
                     Some(StatsFor(session, u, last).Summary()))
  {
    var row := StatsFor(session, u, last);
    assert (stats + [row])[|stats|] == row;
    assert IsNewest(stats + [row], session, u.gateway, row);
  }

  lemma RecallsOthers(stats: seq<StatsRow>, row: StatsRow, start: nat, s: Id, g: Id, answer: Option<Totals>)
    requires !row.Of(s, g) && Recalls(stats, start, s, g, answer)
    ensures Recalls(stats + [row], start, s, g, answer)
  {
    LatestOfOthers(stats, row, s, g, answer);
    var stats' := stats + [row];
    forall i | start <= i < |stats'| && IsLastRow(stats', s, g, i) ensures answer == Some(stats'[i].Summary()) {
      assert stats'[i] == stats[i];
      forall j | i < j < |stats| ensures !stats[j].Of(s, g) {
        assert stats'[j] == stats[j];
      }
      assert IsLastRow(stats, s, g, i);
    }
  }

  lemma RecallsAppended(stats: seq<StatsRow>, row: StatsRow, start: nat, s: Id, g: Id)
    requires row.Of(s, g) && IsLatest(stats + [row], s, g, Some(row.Summary()))
    ensures Recalls(stats + [row], start, s, g, Some(row.Summary()))
  {
    assert (stats + [row])[|stats|] == row;
  }

  /// What is remembered of one session is not touched by what is written about another.
  lemma RememberOthers(db: Db, db': Db, start: nat, session: Id, other: Id, totals: map<Id, Totals>)
    requires TouchesOnly(db, db', session) && other != session
    requires Remembers(db.stats, start, other, totals)
    ensures Remembers(db'.stats, start, other, totals)
  {
    if db'.stats != db.stats {
      var row: StatsRow :| row.session == session && db'.stats == db.stats + [row];
      forall g ensures Recalls(db'.stats, start, other, g, Lookup(totals, g)) {
        RecallsOthers(db.stats, row, start, other, g, Lookup(totals, g));
      }
    }
  }

  /// Putting an accepted update in the place of its gateway's totals keeps what is remembered right
  /// for every gateway, whichever answer the update was compared with.
  lemma RememberAccepted(stats: seq<StatsRow>, start: nat, session: Id, u: PeerStatsUpdate, totals: map<Id, Totals>)
    requires Remembers(stats, start, session, totals)
    requires u.gateway in totals ==> Accepts(totals[u.gateway], u)
    ensures var row := StatsFor(session, u, Lookup(totals, u.gateway));
            Remembers(stats + [row], start, session, totals[u.gateway := row.Summary()])
  {
    var row := StatsFor(session, u, Lookup(totals, u.gateway));
    var totals' := totals[u.gateway := row.Summary()];
    assert Recalls(stats, start, session, u.gateway, Lookup(totals, u.gateway));
    AcceptedIsLatest(stats, session, u, Lookup(totals, u.gateway));
    RecallsAppended(stats, row, start, session, u.gateway);
    forall g | g != u.gateway ensures Recalls(stats + [row], start, session, g, Lookup(totals', g)) {
      RecallsOthers(stats, row, start, session, g, Lookup(totals, g));
    }
  }

  /// A session of which the batch has stored nothing is remembered as the database answers.
  lemma RememberLoaded(stats: seq<StatsRow>, start: nat, session: Id, totals: map<Id, Totals>)
    requires forall g :: IsLatest(stats, session, g, Lookup(totals, g))
    requires forall i :: start <= i < |stats| ==> stats[i].session != session
    ensures Remembers(stats, start, session, totals)
  {
  }

  lemma RecordKeepsValid(db: Db, a: Arrival, session: Id, context: Option<EventContext>, last: Option<Totals>)
    requires db.Valid() && session in db.sessions && db.sessions[session].state != Disconnected
    ensures var o := RecordStats(db, a, session, db.sessions[session].state, context, last);
            o.db.Valid() && TouchesOnly(db, o.db, session)
  {
  }

  /// The insert cannot violate the unique index, because no session was active.
  lemma CreateKeepsValid(dir: Directory, db: Db, a: Arrival, device: Device)
    requires dir.Valid() && db.Valid() && IsActiveSession(db, a.update.location, device.id, None)
    ensures var c := CreateSession(dir, db, a, device);
            c.outcome.db.Valid() && TouchesOnly(db, c.outcome.db, db.nextId)
  {
  }

  lemma {:induction false} SurvivorsAre(stats: seq<StatsRow>, r: Removal, row: StatsRow)
    ensures row in Survivors(stats, r) <==> row in stats && !r.Takes(row)
  {
    if stats != [] {
      var n := |stats| - 1;
      assert stats == stats[..n] + [stats[n]];
      SurvivorsAre(stats[..n], r, row);
    }
  }

  /// Statistics go with their session, so a removal keeps the constraints.
  lemma RemovalKeepsValid(db: Db, r: Removal)
    requires db.Valid()
    ensures db.Without(r).Valid()
  {
    var db' := db.Without(r);
    forall i | 0 <= i < |db'.stats| ensures db'.stats[i].session in db'.sessions {
      SurvivorsAre(db.stats, r, db'.stats[i]);
    }
  }
}
