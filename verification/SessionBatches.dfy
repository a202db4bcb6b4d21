/// One stream of updates cut into batches in different ways.
module SessionBatches {
  import opened Common
  import opened SessionDomain
  import opened SessionRows
  import opened SessionLaws
  import opened SessionTraces
  import opened TransferLaws

  function Flat<T>(parts: seq<seq<T>>): seq<T> {
    if parts == [] then [] else Flat(parts[..|parts| - 1]) + parts[|parts| - 1]
  }

  /// The database after some batches.
  function AfterBatches(db: Db, outcomes: seq<seq<Outcome>>): Db {
    if outcomes == [] then db
    else
      var n := |outcomes| - 1;
      DbAfter(AfterBatches(db, outcomes[..n]), outcomes[n], |outcomes[n]|)
  }

  /// Batches one after the other, each with a cache of its own.
  ghost predicate Batched(dir: Directory, db: Db, batches: seq<seq<Arrival>>, outcomes: seq<seq<Outcome>>) {
    |outcomes| == |batches| &&
    (batches == [] ||
     var n := |batches| - 1;
     && Batched(dir, db, batches[..n], outcomes[..n])
     && Batch(dir, AfterBatches(db, outcomes[..n]), batches[n], outcomes[n]))
  }

  /// Batches one after the other are a trail of the whole stream.
  lemma {:induction false} BatchedIsTrail(dir: Directory, db: Db, batches: seq<seq<Arrival>>, outcomes: seq<seq<Outcome>>)
    requires Batched(dir, db, batches, outcomes)
    ensures Trail(dir, db, Flat(batches), Flat(outcomes))
    ensures AfterBatches(db, outcomes) == DbAfter(db, Flat(outcomes), |Flat(outcomes)|)
  {
    hide Trail, Batch;
    if batches == [] {
      NoTrail(dir, db);
    } else {
      var n := |batches| - 1;
      var mid := AfterBatches(db, outcomes[..n]);
      BatchedIsTrail(dir, db, batches[..n], outcomes[..n]);
      BatchIsTrail(dir, mid, batches[n], outcomes[n]);
      OneMoreTrail(dir, db, Flat(batches[..n]), batches[n], Flat(outcomes[..n]), outcomes[n]);
    }
  }

  lemma NoTrail(dir: Directory, db: Db)
    ensures Trail(dir, db, [], [])
  {
  }

  lemma OneMoreTrail(dir: Directory, db: Db, first: seq<Arrival>, second: seq<Arrival>,
                     outcomes: seq<Outcome>, outcomes': seq<Outcome>)
    requires Trail(dir, db, first, outcomes)
    requires Trail(dir, DbAfter(db, outcomes, |outcomes|), second, outcomes')
    ensures Trail(dir, db, first + second, outcomes + outcomes')
    ensures DbAfter(db, outcomes + outcomes', |outcomes + outcomes'|)
         == DbAfter(DbAfter(db, outcomes, |outcomes|), outcomes', |outcomes'|)
  {
    TrailLength(dir, db, first, outcomes);
    TrailLength(dir, DbAfter(db, outcomes, |outcomes|), second, outcomes');
    hide Trail;
    var all := outcomes + outcomes';
    assert all[..|first|] == outcomes && all[|first|..] == outcomes';
    DbAfterFirst(db, outcomes, outcomes');
    TrailJoin(dir, db, first, second, all);
  }

  lemma DbAfterFirst(db: Db, first: seq<Outcome>, second: seq<Outcome>)
    ensures DbAfter(db, first + second, |first|) == DbAfter(db, first, |first|)
    ensures DbAfter(db, first + second, |first + second|) == DbAfter(DbAfter(db, first, |first|), second, |second|)
  {
  }

  // ---------------------------------------------------------------------------------------------
  // Updates that do not clash
  // ---------------------------------------------------------------------------------------------

  function Figures(u: PeerStatsUpdate): Totals {
    Totals(u.collectedAt, u.latestHandshake, u.upload, u.download)
  }

  /// Two updates of one device, location and gateway, collected at the same time.
  predicate SameMoment(dir: Directory, u: PeerStatsUpdate, v: PeerStatsUpdate) {
    var d, e := dir.FindDevice(u.pubkey), dir.FindDevice(v.pubkey);
    && d.Some? && e.Some? && d.value.id == e.value.id
    && u.location == v.location && u.gateway == v.gateway && u.collectedAt == v.collectedAt
  }

  /// The counters are below 2^63, and no update contradicts a stored row or an update of the stream
  /// that was collected at the very same time. It can be told before the stream is processed.
  ghost predicate Clashless(dir: Directory, db: Db, arrivals: seq<Arrival>) {
    && (forall i :: 0 <= i < |arrivals| ==> Unclashing(dir, db, arrivals[i].update))
    && (forall i, j :: 0 <= i < j < |arrivals| && SameMoment(dir, arrivals[i].update, arrivals[j].update) ==>
          Figures(arrivals[i].update) == Figures(arrivals[j].update))
  }

  /// A row that an update of the stream stored.
  predicate StoredBy(dir: Directory, db: Db, u: PeerStatsUpdate, row: StatsRow) {
    && row.gateway == u.gateway && row.Summary() == Figures(u)
    && dir.FindDevice(u.pubkey).Some? && row.session in db.sessions
    && db.sessions[row.session].location == u.location
    && db.sessions[row.session].device == dir.FindDevice(u.pubkey).value.id
  }

  /// Every row was there before, or an update of the stream stored it.
  ghost predicate Traced(dir: Directory, db: Db, arrivals: seq<Arrival>, n: nat, db': Db)
    requires n <= |arrivals|
  {
    && AllEvolve(db, db')
    && (forall i :: 0 <= i < |db'.stats| ==>
          db'.stats[i] in db.stats || exists j :: 0 <= j < n && StoredBy(dir, db', arrivals[j].update, db'.stats[i]))
  }

  lemma StepTraced(dir: Directory, db: Db, arrivals: seq<Arrival>, n: nat, mid: Db, o: Outcome)
    requires dir.Valid() && mid.Valid() && n < |arrivals| && Small(arrivals[n].update)
    requires Traced(dir, db, arrivals, n, mid) && Step(dir, mid, arrivals[n], o)
    ensures Traced(dir, db, arrivals, n + 1, o.db)
  {
    var u := arrivals[n].update;
    StepEvolves(dir, mid, arrivals[n], o);
    AllEvolveFurther(db, mid, o.db);
    var added := StepAppends(dir, mid, arrivals[n], o);
    if added.Some? {
      StoredByStep(dir, mid, arrivals[n], o, added.value.0, added.value.1);
    }
    hide Step, AllEvolve, Directory.Valid, Db.Valid, IsLatest, StatsFor;
    forall i | 0 <= i < |o.db.stats|
      ensures o.db.stats[i] in db.stats || exists j :: 0 <= j < n + 1 && StoredBy(dir, o.db, arrivals[j].update, o.db.stats[i])
    {
      if i < |mid.stats| {
        assert o.db.stats[i] == mid.stats[i];
        if mid.stats[i] !in db.stats {
          var j :| 0 <= j < n && StoredBy(dir, mid, arrivals[j].update, mid.stats[i]);
          StoredStays(dir, mid, o.db, arrivals[j].update, mid.stats[i]);
        }
      } else {
        assert StoredBy(dir, o.db, u, o.db.stats[i]);
      }
    }
  }

  lemma StoredStays(dir: Directory, db: Db, db': Db, u: PeerStatsUpdate, row: StatsRow)
    requires AllEvolve(db, db') && StoredBy(dir, db, u, row)
    ensures StoredBy(dir, db', u, row)
  {
  }

  lemma StoredByStep(dir: Directory, db: Db, a: Arrival, o: Outcome, s: Id, last: Option<Totals>)
    requires dir.Valid() && db.Valid() && Small(a.update) && Step(dir, db, a, o)
    requires o.db.stats == db.stats + [StatsFor(s, a.update, last)]
    ensures StoredBy(dir, o.db, a.update, StatsFor(s, a.update, last))
  {
    var active, last' :| Answers(dir, db, a.update, active, last') && o == Process(dir, db, a, active, last');
    assert o.db.stats[|db.stats|] == StatsFor(s, a.update, last);
  }

  lemma {:induction false} TrailTraced(dir: Directory, db: Db, arrivals: seq<Arrival>, outcomes: seq<Outcome>, n: nat)
    requires dir.Valid() && db.Valid() && Trail(dir, db, arrivals, outcomes) && n <= |arrivals|
    requires forall i :: 0 <= i < |arrivals| ==> Small(arrivals[i].update)
    ensures Traced(dir, db, arrivals, n, DbAfter(db, outcomes, n))
  {
    hide Step, Small, AllEvolve, StoredBy, Directory.Valid, Db.Valid;
    if n == 0 {
      StaysAsItIs(db);
    } else {
      hide Traced;
      assert Step(dir, DbAfter(db, outcomes, n - 1), arrivals[n - 1], outcomes[n - 1]);
      hide Trail;
      TrailTraced(dir, db, arrivals, outcomes, n - 1);
      TrailKeepsValid(dir, db, arrivals, outcomes, n - 1);
      StepTraced(dir, db, arrivals, n - 1, DbAfter(db, outcomes, n - 1), outcomes[n - 1]);
    }
  }

  /// In a stream without clashes, no update clashes with the log it meets.
  lemma ClashlessAlong(dir: Directory, db: Db, arrivals: seq<Arrival>, outcomes: seq<Outcome>, n: nat)
    requires dir.Valid() && db.Valid() && Trail(dir, db, arrivals, outcomes) && n < |arrivals|
    requires Clashless(dir, db, arrivals)
    ensures Unclashing(dir, DbAfter(db, outcomes, n), arrivals[n].update)
  {
    var u, db' := arrivals[n].update, DbAfter(db, outcomes, n);
    assert forall i :: 0 <= i < |arrivals| ==> Unclashing(dir, db, arrivals[i].update);
    TrailTraced(dir, db, arrivals, outcomes, n);
    hide Trail;
    forall i | 0 <= i < |db'.stats| && db'.stats[i].gateway == u.gateway
               && db'.stats[i].collectedAt == u.collectedAt && IsSessionOf(dir, db', u, db'.stats[i].session)
      ensures db'.stats[i].Summary() == Figures(u)
    {
      var row := db'.stats[i];
      if row in db.stats {
        SessionBefore(dir, db, db', u, row.session);
      } else {
        var j :| 0 <= j < n && StoredBy(dir, db', arrivals[j].update, row);
        assert SameMoment(dir, arrivals[j].update, u);
      }
    }
  }

  lemma SessionBefore(dir: Directory, db: Db, db': Db, u: PeerStatsUpdate, s: Id)
    requires AllEvolve(db, db') && s in db.sessions && IsSessionOf(dir, db', u, s)
    ensures IsSessionOf(dir, db, u, s)
  {
    assert Evolves(db.sessions[s], db'.sessions[s]);
  }

  /// However a stream without clashes is cut into batches, the outcome of every update, the events
  /// and the database at the end are the same.
  lemma BatchingIrrelevant(dir: Directory, db: Db, batches: seq<seq<Arrival>>, outcomes: seq<seq<Outcome>>,
                           batches': seq<seq<Arrival>>, outcomes': seq<seq<Outcome>>)
    requires dir.Valid() && db.Valid() && Conserved(db) && Clashless(dir, db, Flat(batches))
    requires Batched(dir, db, batches, outcomes) && Batched(dir, db, batches', outcomes')
    requires Flat(batches) == Flat(batches')
    ensures Flat(outcomes) == Flat(outcomes')
    ensures AfterBatches(db, outcomes) == AfterBatches(db, outcomes')
    ensures Emitted(Flat(outcomes)) == Emitted(Flat(outcomes'))
    ensures Conserved(AfterBatches(db, outcomes))
  {
    var arrivals, flat, flat' := Flat(batches), Flat(outcomes), Flat(outcomes');
    BatchedIsTrail(dir, db, batches, outcomes);
    BatchedIsTrail(dir, db, batches', outcomes');
    TrailLength(dir, db, arrivals, flat);
    TrailLength(dir, db, arrivals, flat');
    hide Trail, Batched, Clashless, Conserved, Unclashing;
    forall i | 0 <= i < |arrivals| ensures Unclashing(dir, DbAfter(db, flat, i), arrivals[i].update) {
      ClashlessAlong(dir, db, arrivals, flat, i);
    }
    TrailDeterministic(dir, db, arrivals, flat, flat', |arrivals|);
    assert flat == flat';
  }
}
