/// Conservation of transfer: along the log of a session and a gateway the stored differences add up
/// to the growth of the counters, over any number of updates, batches and sweeps.
module TransferLaws {
  import opened Common
  import opened SessionDomain
  import opened SessionRows
  import opened SessionSweep
  import opened SessionLaws
  import opened SessionTraces

  // ---------------------------------------------------------------------------------------------
  // The log of one session and one gateway
  // ---------------------------------------------------------------------------------------------

  function RowsOf(stats: seq<StatsRow>, s: Id, g: Id): seq<StatsRow> {
    if stats == [] then []
    else
      var n := |stats| - 1;
      RowsOf(stats[..n], s, g) + if stats[n].Of(s, g) then [stats[n]] else []
  }

  lemma RowsOfAppend(stats: seq<StatsRow>, row: StatsRow, s: Id, g: Id)
    ensures RowsOf(stats + [row], s, g) == RowsOf(stats, s, g) + if row.Of(s, g) then [row] else []
  {
    assert (stats + [row])[..|stats|] == stats;
  }

  lemma {:induction false} RowsOfMembers(stats: seq<StatsRow>, s: Id, g: Id, row: StatsRow)
    ensures row in RowsOf(stats, s, g) <==> row in stats && row.Of(s, g)
  {
    if stats != [] {
      var n := |stats| - 1;
      assert stats == stats[..n] + [stats[n]];
      RowsOfMembers(stats[..n], s, g, row);
    }
  }

  /// A row continues another: nothing decreases, and the differences are those of the totals.
  predicate Follows(prev: StatsRow, row: StatsRow) {
    && prev.collectedAt <= row.collectedAt
    && prev.latestHandshake <= row.latestHandshake
    && prev.totalUpload <= row.totalUpload
    && prev.totalDownload <= row.totalDownload
    && row.uploadDiff == row.totalUpload - prev.totalUpload
    && row.downloadDiff == row.totalDownload - prev.totalDownload
  }

  predicate Chain(rows: seq<StatsRow>) {
    && (rows != [] ==> rows[0].uploadDiff == 0 && rows[0].downloadDiff == 0)
    && (forall i :: 0 < i < |rows| ==> Follows(rows[i - 1], rows[i]))
  }

  function Uploaded(rows: seq<StatsRow>): int {
    if rows == [] then 0 else Uploaded(rows[..|rows| - 1]) + rows[|rows| - 1].uploadDiff
  }

  function Downloaded(rows: seq<StatsRow>): int {
    if rows == [] then 0 else Downloaded(rows[..|rows| - 1]) + rows[|rows| - 1].downloadDiff
  }

  /// What the log of a session and a gateway says: no difference is negative, the differences add
  /// up to the last total minus the first, and nothing ever decreases.
  lemma {:induction false} Conservation(rows: seq<StatsRow>)
    requires Chain(rows) && rows != []
    ensures Uploaded(rows) == rows[|rows| - 1].totalUpload - rows[0].totalUpload
    ensures Downloaded(rows) == rows[|rows| - 1].totalDownload - rows[0].totalDownload
    ensures forall i :: 0 <= i < |rows| ==> rows[i].uploadDiff >= 0 && rows[i].downloadDiff >= 0
    ensures forall i, j :: 0 <= i <= j < |rows| ==>
              && rows[i].collectedAt <= rows[j].collectedAt
              && rows[i].latestHandshake <= rows[j].latestHandshake
              && rows[i].totalUpload <= rows[j].totalUpload
              && rows[i].totalDownload <= rows[j].totalDownload
  {
    var n := |rows| - 1;
    if n > 0 {
      var init := rows[..n];
      Conservation(init);
      assert Follows(rows[n - 1], rows[n]);
    } else {
      assert rows[..0] == [];
    }
  }

  /// The last row of a log is one of the newest.
  lemma LastIsNewest(stats: seq<StatsRow>, s: Id, g: Id)
    requires var rows := RowsOf(stats, s, g); Chain(rows) && rows != []
    ensures var rows := RowsOf(stats, s, g); IsNewest(stats, s, g, rows[|rows| - 1])
  {
    var rows := RowsOf(stats, s, g);
    var last := rows[|rows| - 1];
    Conservation(rows);
    RowsOfMembers(stats, s, g, last);
    forall i | 0 <= i < |stats| && stats[i].Of(s, g) ensures stats[i].collectedAt <= last.collectedAt {
      RowsOfMembers(stats, s, g, stats[i]);
    }
  }

  // ---------------------------------------------------------------------------------------------
  // Rows collected at the same time
  // ---------------------------------------------------------------------------------------------

  /// The rows among which the query for the latest may choose report the same figures.
  ghost predicate TiesAgree(stats: seq<StatsRow>, s: Id, g: Id) {
    forall p, q :: IsNewest(stats, s, g, p) && IsNewest(stats, s, g, q) ==> p.Summary() == q.Summary()
  }

  predicate InRange(row: StatsRow) {
    0 <= row.totalUpload < TWO_TO_63 && 0 <= row.totalDownload < TWO_TO_63
  }

  predicate AllInRange(stats: seq<StatsRow>) {
    forall i :: 0 <= i < |stats| ==> InRange(stats[i])
  }

  predicate Small(u: PeerStatsUpdate) {
    u.upload < TWO_TO_63 && u.download < TWO_TO_63
  }

  /// The cast and the subtraction are exact for counters below 2^63, and only for them.
  lemma CastExact(x: u64, last: int)
    requires 0 <= last < TWO_TO_63
    ensures AsI64(x) == x <==> x < TWO_TO_63
    ensures x < TWO_TO_63 ==> WrapI64(AsI64(x) - last) == x - last
    ensures x >= TWO_TO_63 ==> AsI64(x) < last
  {
  }

  lemma AcceptedContinues(stats: seq<StatsRow>, s: Id, u: PeerStatsUpdate, last: Option<Totals>)
    requires Chain(RowsOf(stats, s, u.gateway)) && AllInRange(stats) && Small(u)
    requires TiesAgree(stats, s, u.gateway) && IsLatest(stats, s, u.gateway, last)
    requires last.Some? ==> Accepts(last.value, u)
    ensures Chain(RowsOf(stats + [StatsFor(s, u, last)], s, u.gateway))
    ensures InRange(StatsFor(s, u, last))
  {
    var g := u.gateway;
    var rows, row := RowsOf(stats, s, g), StatsFor(s, u, last);
    RowsOfAppend(stats, row, s, g);
    if rows == [] {
      if last.Some? {
        var newest :| IsNewest(stats, s, g, newest);
        RowsOfMembers(stats, s, g, newest);
      }
    } else {
      var prev := rows[|rows| - 1];
      LastIsNewest(stats, s, g);
      assert last.Some?;
      var newest :| IsNewest(stats, s, g, newest) && newest.Summary() == last.value;
      assert prev.Summary() == last.value;
      CastExact(u.upload, prev.totalUpload);
      CastExact(u.download, prev.totalDownload);
      assert Follows(prev, row);
    }
  }

  /// Exactly when the newest rows agree, no choice among them can break the log: whatever row is
  /// taken for the latest, every update that it accepts continues the log.
  lemma TiesAgreeExactly(stats: seq<StatsRow>, s: Id, g: Id)
    requires Chain(RowsOf(stats, s, g)) && AllInRange(stats)
    ensures TiesAgree(stats, s, g) <==> forall u, last | CouldFollow(stats, s, g, u, last) ::
              Chain(RowsOf(stats + [StatsFor(s, u, last)], s, g))
  {
    if TiesAgree(stats, s, g) {
      forall u, last | CouldFollow(stats, s, g, u, last)
        ensures Chain(RowsOf(stats + [StatsFor(s, u, last)], s, g))
      {
        AcceptedContinues(stats, s, u, last);
      }
    }
    if forall u, last | CouldFollow(stats, s, g, u, last) :: Chain(RowsOf(stats + [StatsFor(s, u, last)], s, g)) {
      forall p, q | IsNewest(stats, s, g, p) && IsNewest(stats, s, g, q) ensures p.Summary() == q.Summary() {
        AgreesWithLast(stats, s, g, p);
        AgreesWithLast(stats, s, g, q);
      }
    }
  }

  ghost predicate CouldFollow(stats: seq<StatsRow>, s: Id, g: Id, u: PeerStatsUpdate, last: Option<Totals>) {
    u.gateway == g && Small(u) && IsLatest(stats, s, g, last) && (last.Some? ==> Accepts(last.value, u))
  }

  /// A newest row that differs from the last one accepts an update that breaks the log.
  lemma AgreesWithLast(stats: seq<StatsRow>, s: Id, g: Id, p: StatsRow)
    requires Chain(RowsOf(stats, s, g)) && AllInRange(stats) && IsNewest(stats, s, g, p)
    requires forall u, last | CouldFollow(stats, s, g, u, last) :: Chain(RowsOf(stats + [StatsFor(s, u, last)], s, g))
    ensures var rows := RowsOf(stats, s, g); rows != [] && p.Summary() == rows[|rows| - 1].Summary()
  {
    var rows := RowsOf(stats, s, g);
    RowsOfMembers(stats, s, g, p);
    var r := rows[|rows| - 1];
    RowsOfMembers(stats, s, g, r);
    LastIsNewest(stats, s, g);
    Conservation(rows);
    var u := PeerStatsUpdate(0, g, "", r.collectedAt, Endpoint("", 0), r.totalUpload, r.totalDownload, p.latestHandshake);
    var last := Some(p.Summary());
    assert IsLatest(stats, s, g, last);
    assert CouldFollow(stats, s, g, u, last);
    var row := StatsFor(s, u, last);
    RowsOfAppend(stats, row, s, g);
    CastExact(u.upload, p.totalUpload);
    CastExact(u.download, p.totalDownload);
    assert Follows((rows + [row])[|rows| - 1], (rows + [row])[|rows|]);
  }

  // ---------------------------------------------------------------------------------------------
  // Over a run
  // ---------------------------------------------------------------------------------------------

  ghost predicate Conserved(db: Db) {
    && AllInRange(db.stats)
    && (forall s, g :: Chain(RowsOf(db.stats, s, g)))
    && (forall s, g :: TiesAgree(db.stats, s, g))
  }

  /// An update with small counters that does not contradict a stored row of its device's session
  /// and its gateway collected at the very same time.
  ghost predicate Unclashing(dir: Directory, db: Db, u: PeerStatsUpdate) {
    && Small(u)
    && (forall i :: 0 <= i < |db.stats| && db.stats[i].gateway == u.gateway
                    && db.stats[i].collectedAt == u.collectedAt && IsSessionOf(dir, db, u, db.stats[i].session) ==>
          db.stats[i].Summary() == Totals(u.collectedAt, u.latestHandshake, u.upload, u.download))
  }

  predicate IsSessionOf(dir: Directory, db: Db, u: PeerStatsUpdate, s: Id) {
    var device := dir.FindDevice(u.pubkey);
    device.Some? && s in db.sessions && db.sessions[s].ActiveFor(u.location, device.value.id)
  }

  /// The statistics row an update adds, if it adds one.
  lemma StepAppends(dir: Directory, db: Db, a: Arrival, o: Outcome)
    returns (added: Option<(Id, Option<Totals>)>)
    requires dir.Valid() && db.Valid() && Step(dir, db, a, o)
    ensures match added
            case None => o.db.stats == db.stats
            case Some((s, last)) =>
              && o.db.stats == db.stats + [StatsFor(s, a.update, last)]
              && IsLatest(db.stats, s, a.update.gateway, last)
              && (last.Some? ==> Accepts(last.value, a.update))
              && (s in db.sessions ==> IsSessionOf(dir, db, a.update, s))
  {
    var active, last :| Answers(dir, db, a.update, active, last) && o == Process(dir, db, a, active, last);
    var device := dir.FindDevice(a.update.pubkey);
    added := None;
    if o.db.stats != db.stats {
      added := if active.Some? then Some((active.value.id, last)) else Some((db.nextId, None));
    }
  }

  /// Rows of the same session and gateway collected at the same time report the same figures.
  predicate AgreesWith(stats: seq<StatsRow>, row: StatsRow) {
    forall i :: 0 <= i < |stats| ==>
      stats[i].Of(row.session, row.gateway) && stats[i].collectedAt == row.collectedAt ==>
        stats[i].Summary() == row.Summary()
  }

  lemma TiesStayAgreed(stats: seq<StatsRow>, row: StatsRow, s: Id, g: Id)
    requires TiesAgree(stats, s, g)
    requires AgreesWith(stats, row)
    ensures TiesAgree(stats + [row], s, g)
  {
    var stats' := stats + [row];
    forall p, q | IsNewest(stats', s, g, p) && IsNewest(stats', s, g, q) ensures p.Summary() == q.Summary() {
      NewestBefore(stats, row, s, g, p);
      NewestBefore(stats, row, s, g, q);
    }
  }

  lemma NewestBefore(stats: seq<StatsRow>, row: StatsRow, s: Id, g: Id, p: StatsRow)
    requires IsNewest(stats + [row], s, g, p)
    ensures p == row || IsNewest(stats, s, g, p)
    ensures row.Of(s, g) ==> row.collectedAt <= p.collectedAt
  {
    var stats' := stats + [row];
    assert stats'[|stats|] == row;
    forall i | 0 <= i < |stats| && stats[i].Of(s, g) ensures stats[i].collectedAt <= p.collectedAt {
      assert stats'[i] == stats[i];
    }
  }

  lemma StepConserves(dir: Directory, db: Db, a: Arrival, o: Outcome)
    requires dir.Valid() && db.Valid() && Conserved(db) && Step(dir, db, a, o) && Unclashing(dir, db, a.update)
    ensures Conserved(o.db)
  {
    hide Step;
    var added := StepAppends(dir, db, a, o);
    if added.Some? {
      var (x, last) := added.value;
      var row := StatsFor(x, a.update, last);
      AcceptedContinues(db.stats, x, a.update, last);
      SameTimeSameFigures(dir, db, a.update, row);
      AppendConserves(db, o.db, row);
    }
  }

  lemma SameTimeSameFigures(dir: Directory, db: Db, u: PeerStatsUpdate, row: StatsRow)
    requires db.Valid() && Unclashing(dir, db, u)
    requires row.gateway == u.gateway && row.Summary() == Totals(u.collectedAt, u.latestHandshake, u.upload, u.download)
    requires row.session in db.sessions ==> IsSessionOf(dir, db, u, row.session)
    ensures AgreesWith(db.stats, row)
  {
  }

  lemma AppendConserves(db: Db, db': Db, row: StatsRow)
    requires Conserved(db) && db'.stats == db.stats + [row] && InRange(row)
    requires Chain(RowsOf(db'.stats, row.session, row.gateway))
    requires AgreesWith(db.stats, row)
    ensures Conserved(db')
  {
    forall s, g ensures Chain(RowsOf(db'.stats, s, g)) && TiesAgree(db'.stats, s, g) {
      RowsOfAppend(db.stats, row, s, g);
      TiesStayAgreed(db.stats, row, s, g);
    }
  }

  /// A removal takes a log as a whole or not at all.
  lemma {:induction false} SurvivingLog(stats: seq<StatsRow>, r: Removal, s: Id, g: Id)
    ensures RowsOf(Survivors(stats, r), s, g)
         == if (r.OfGateway? && g == r.gateway) || (r.OfSessions? && s in r.sessions) then [] else RowsOf(stats, s, g)
  {
    if stats != [] {
      var n := |stats| - 1;
      SurvivingLog(stats[..n], r, s, g);
      if !r.Takes(stats[n]) {
        RowsOfAppend(Survivors(stats[..n], r), stats[n], s, g);
      } else {
        assert Survivors(stats, r) == Survivors(stats[..n], r);
      }
      RowsOfAppend(stats[..n], stats[n], s, g);
      assert stats == stats[..n] + [stats[n]];
    }
  }

  lemma RemovalConserves(db: Db, r: Removal)
    requires Conserved(db)
    ensures Conserved(db.Without(r))
  {
    var stats, stats' := db.stats, db.Without(r).stats;
    forall row ensures row in stats' <==> row in stats && !r.Takes(row) {
      SurvivorsAre(stats, r, row);
    }
    hide Survivors;
    forall i | 0 <= i < |stats'| ensures InRange(stats'[i]) {
      assert stats'[i] in stats;
    }
    forall s, g ensures Chain(RowsOf(stats', s, g)) && TiesAgree(stats', s, g) {
      SurvivingLog(stats, r, s, g);
      SurvivingTies(stats, stats', r, s, g);
    }
  }

  lemma SurvivingTies(stats: seq<StatsRow>, stats': seq<StatsRow>, r: Removal, s: Id, g: Id)
    requires TiesAgree(stats, s, g) && forall row :: row in stats' <==> row in stats && !r.Takes(row)
    ensures TiesAgree(stats', s, g)
  {
    forall p | IsNewest(stats', s, g, p) ensures IsNewest(stats, s, g, p) {
      forall i | 0 <= i < |stats| && stats[i].Of(s, g) ensures stats[i].collectedAt <= p.collectedAt {
        assert stats[i] in stats && (r.Takes(stats[i]) <==> r.Takes(p));
        assert stats[i] in stats';
      }
    }
  }

  /// Over any run whose updates do not clash, in whatever batches they come and whatever is removed,
  /// every log of a session and a gateway stays a chain, to which Conservation applies.
  lemma {:induction false} RunConserves(states: seq<System>, actions: seq<Action>, i: nat)
    requires IsRun(states, actions) && states[0].Valid() && Conserved(states[0].db) && i < |states|
    requires forall j :: 0 <= j < |actions| && actions[j].Receive? ==>
               Unclashing(actions[j].dir, states[j].db, actions[j].arrival.update)
    ensures Conserved(states[i].db)
  {
    hide Next, Conserved, Unclashing, System.Valid, SystemEvolves;
    if i > 0 {
      RunConserves(states, actions, i - 1);
      RunEvolves(states, actions, i - 1, i - 1);
      ValidDb(states[i - 1]);
      NextConserves(states[i - 1], actions[i - 1], states[i]);
    }
  }

  lemma NextConserves(s: System, action: Action, s': System)
    requires s.db.Valid() && Conserved(s.db) && Next(s, action, s')
    requires action.Receive? ==> Unclashing(action.dir, s.db, action.arrival.update)
    ensures Conserved(s'.db)
  {
    match action
    case Receive(dir, a) =>
      hide Step, Conserved, Unclashing;
      var o :| Step(dir, s.db, a, o) && s' == s.AfterUpdate(o);
      StepConserves(dir, s.db, a, o);
    case Remove(r) =>
      RemovalConserves(s.db, r);
    case _ =>
      hide Step;
      assert s'.db.stats == s.db.stats;
  }

  // ---------------------------------------------------------------------------------------------
  // One outcome
  // ---------------------------------------------------------------------------------------------

  /// Where the newest rows agree, an update has one outcome only.
  lemma StepDeterministic(dir: Directory, db: Db, a: Arrival, o: Outcome, o': Outcome)
    requires db.Valid() && Step(dir, db, a, o) && Step(dir, db, a, o')
    requires Conserved(db)
    ensures o == o'
  {
    var active, last :| Answers(dir, db, a.update, active, last) && o == Process(dir, db, a, active, last);
    var active', last' :| Answers(dir, db, a.update, active', last') && o' == Process(dir, db, a, active', last');
    var device := dir.FindDevice(a.update.pubkey);
    if device.Some? {
      if active.Some? && active'.Some? {
        assert active == active';
        LatestDeterministic(db.stats, active.value.id, a.update.gateway, last, last');
      }
    }
  }

  lemma LatestDeterministic(stats: seq<StatsRow>, s: Id, g: Id, last: Option<Totals>, last': Option<Totals>)
    requires IsLatest(stats, s, g, last) && IsLatest(stats, s, g, last') && TiesAgree(stats, s, g)
    ensures last == last'
  {
  }

  /// An update of this session, from this gateway and with this device key.
  predicate UpdateOf(db: Db, u: PeerStatsUpdate, s: Id, g: Id, pubkey: string) {
    u.gateway == g && u.pubkey == pubkey && s in db.sessions && u.location == db.sessions[s].location
  }

  /// Two outcomes that such an update may have.
  ghost predicate Outcomes(dir: Directory, db: Db, s: Id, g: Id, pubkey: string, a: Arrival, o: Outcome, o': Outcome) {
    UpdateOf(db, a.update, s, g, pubkey) && Step(dir, db, a, o) && Step(dir, db, a, o')
  }

  /// And only there: the updates of a connected session have one outcome each exactly if its newest
  /// rows agree.
  lemma StepDeterministicExactly(dir: Directory, db: Db, s: Id, g: Id, pubkey: string)
    requires dir.Valid() && db.Valid() && AllInRange(db.stats)
    requires s in db.sessions && db.sessions[s].state == Connected
    requires dir.FindDevice(pubkey).Some? && dir.FindDevice(pubkey).value.id == db.sessions[s].device
    ensures TiesAgree(db.stats, s, g) <==>
            forall a, o, o' | Outcomes(dir, db, s, g, pubkey, a, o, o') :: o == o'
  {
    if TiesAgree(db.stats, s, g) {
      forall a, o, o' | Outcomes(dir, db, s, g, pubkey, a, o, o') ensures o == o' {
        var last := StepOfSession(dir, db, a, o, s);
        var last' := StepOfSession(dir, db, a, o', s);
        LatestDeterministic(db.stats, s, g, last, last');
      }
    }
    if forall a, o, o' | Outcomes(dir, db, s, g, pubkey, a, o, o') :: o == o' {
      forall p, q | IsNewest(db.stats, s, g, p) && IsNewest(db.stats, s, g, q) ensures p.Summary() == q.Summary() {
        hide Step, IsNewest, AllInRange, Db.Valid;
        var a := Telling(db, s, g, pubkey, p, q);
        StepAfter(dir, db, a, s, p);
        StepAfter(dir, db, a, s, q);
        InRangeOf(db.stats, s, g, p);
        InRangeOf(db.stats, s, g, q);
        assert Outcomes(dir, db, s, g, pubkey, a, AppendStats(db, [], a, s, Some(p.Summary())),
                        AppendStats(db, [], a, s, Some(q.Summary())));
        TellsApart(db, a, s, p, q);
      }
    }
  }

  lemma StepOfSession(dir: Directory, db: Db, a: Arrival, o: Outcome, s: Id) returns (last: Option<Totals>)
    requires db.Valid() && Step(dir, db, a, o)
    requires s in db.sessions && db.sessions[s].state == Connected && IsSessionOf(dir, db, a.update, s)
    ensures IsLatest(db.stats, s, a.update.gateway, last) && o == AppendStats(db, [], a, s, last)
  {
    var active, last' :| Answers(dir, db, a.update, active, last') && o == Process(dir, db, a, active, last');
    assert active == Some(db.sessions[s]);
    last := last';
  }

  lemma StepAfter(dir: Directory, db: Db, a: Arrival, s: Id, p: StatsRow)
    requires db.Valid() && IsNewest(db.stats, s, a.update.gateway, p)
    requires s in db.sessions && db.sessions[s].state == Connected && IsSessionOf(dir, db, a.update, s)
    ensures Step(dir, db, a, AppendStats(db, [], a, s, Some(p.Summary())))
  {
    assert IsLatest(db.stats, s, a.update.gateway, Some(p.Summary()));
    assert Answers(dir, db, a.update, Some(db.sessions[s]), Some(p.Summary()));
  }

  lemma InRangeOf(stats: seq<StatsRow>, s: Id, g: Id, p: StatsRow)
    requires AllInRange(stats) && IsNewest(stats, s, g, p)
    ensures InRange(p)
  {
  }

  function Max(x: int, y: int): int { if x < y then y else x }

  function Min(x: int, y: int): int { if x < y then x else y }

  /// An update that tells two rows of equal time apart: both accept it if their totals differ, and
  /// only one if they differ in the handshake alone.
  function Telling(db: Db, s: Id, g: Id, pubkey: string, p: StatsRow, q: StatsRow): Arrival
    requires s in db.sessions
  {
    var same := p.totalUpload == q.totalUpload && p.totalDownload == q.totalDownload;
    var upload, download := Max(p.totalUpload, q.totalUpload), Max(p.totalDownload, q.totalDownload);
    Arrival(
      PeerStatsUpdate(db.sessions[s].location, g, pubkey, Max(p.collectedAt, q.collectedAt), Endpoint("", 0),
                      if 0 <= upload < TWO_TO_63 then upload else 0,
                      if 0 <= download < TWO_TO_63 then download else 0,
                      if same then Min(p.latestHandshake, q.latestHandshake) else Max(p.latestHandshake, q.latestHandshake)),
      0, 0, true)
  }

  lemma TellsApart(db: Db, a: Arrival, s: Id, p: StatsRow, q: StatsRow)
    requires s in db.sessions && a == Telling(db, s, a.update.gateway, a.update.pubkey, p, q)
    requires InRange(p) && InRange(q) && p.collectedAt == q.collectedAt
    requires AppendStats(db, [], a, s, Some(p.Summary())) == AppendStats(db, [], a, s, Some(q.Summary()))
    ensures p.Summary() == q.Summary()
  {
    var o, o' := AppendStats(db, [], a, s, Some(p.Summary())), AppendStats(db, [], a, s, Some(q.Summary()));
    var u := a.update;
    CastExact(u.upload, p.totalUpload);
    CastExact(u.upload, q.totalUpload);
    CastExact(u.download, p.totalDownload);
    CastExact(u.download, q.totalDownload);
    if o.error.None? {
      assert o.db.stats[|db.stats|] == StatsFor(s, u, Some(p.Summary()));
      assert o'.db.stats[|db.stats|] == StatsFor(s, u, Some(q.Summary()));
    }
  }

  /// So a batch, however its messages are cached, has the outcomes of the uncached process: both
  /// are trails, and there is only one.
  lemma {:induction false} TrailDeterministic(dir: Directory, db: Db, arrivals: seq<Arrival>,
                                              outcomes: seq<Outcome>, outcomes': seq<Outcome>, n: nat)
    requires dir.Valid() && db.Valid() && Conserved(db) && n <= |arrivals|
    requires Trail(dir, db, arrivals, outcomes) && Trail(dir, db, arrivals, outcomes')
    requires forall i :: 0 <= i < |arrivals| ==> Unclashing(dir, DbAfter(db, outcomes, i), arrivals[i].update)
    ensures forall i :: 0 <= i < n ==> outcomes[i] == outcomes'[i]
    ensures Conserved(DbAfter(db, outcomes, n))
  {
    hide Step, Trail, Conserved, Unclashing, Db.Valid, Directory.Valid;
    TrailLength(dir, db, arrivals, outcomes);
    TrailLength(dir, db, arrivals, outcomes');
    if n > 0 {
      TrailDeterministic(dir, db, arrivals, outcomes, outcomes', n - 1);
      var mid := DbAfter(db, outcomes, n - 1);
      assert DbAfter(db, outcomes', n - 1) == mid;
      StepOfTrail(dir, db, arrivals, outcomes, n - 1);
      StepOfTrail(dir, db, arrivals, outcomes', n - 1);
      TrailKeepsValid(dir, db, arrivals, outcomes, n - 1);
      StepDeterministic(dir, mid, arrivals[n - 1], outcomes[n - 1], outcomes'[n - 1]);
      StepConserves(dir, mid, arrivals[n - 1], outcomes[n - 1]);
    }
  }
}
