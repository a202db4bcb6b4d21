/// A small setting, and what happens in it: two rows of one time count traffic twice if a batch ends
/// after them, and a closed event channel hides a connection.
module SessionExamples {
  import opened Common
  import opened SessionDomain
  import opened SessionSweep
  import opened SessionTraces
  import opened SessionSilence
  import opened SessionBatches
  import opened TransferLaws

  const OFFICE := Location(1, Disabled, 180)
  const ALICE := User(1, "alice")
  const LAPTOP := Device(1, 1, "laptop")
  const TABLES := Directory(map[1 := OFFICE], map[1 := ALICE], map[1 := LAPTOP], map["key" := 1], {})
  const EMPTY := Db(map[], [], 0)
  const HOME := Endpoint("", 0)

  /// The laptop's traffic as reported at some time; its handshake was at time 5.
  function Report(collectedAt: Time, upload: u64, channelOpen: bool): Arrival {
    Arrival(PeerStatsUpdate(1, 1, "key", collectedAt, HOME, upload, 0, 5), 5, 5, channelOpen)
  }

  /// The session the laptop gets.
  const SESSION := SessionRow(0, 1, 1, 1, 5, Some(5), None, false, Connected)

  const OPENED := ConnectedEvent(0, EventContext(OFFICE, ALICE, LAPTOP, false), Report(7, 100, true).update)

  function Row(collectedAt: Time, upload: int, diff: int): StatsRow {
    StatsRow(0, 1, collectedAt, 5, HOME, upload, 0, diff, 0)
  }

  function Log(stats: seq<StatsRow>): Db { Db(map[0 := SESSION], stats, 1) }

  lemma TablesAreValid()
    ensures TABLES.Valid() && EMPTY.Valid() && TABLES.FindDevice("key") == Some(LAPTOP)
    ensures Admit(TABLES, Report(7, 100, true), LAPTOP) == Admitted(EventContext(OFFICE, ALICE, LAPTOP, false))
    ensures Admit(TABLES, Report(7, 100, false), LAPTOP) == Admitted(EventContext(OFFICE, ALICE, LAPTOP, false))
  {
  }

  /// The first report opens the session.
  lemma FirstReport(channelOpen: bool, o: Outcome)
    ensures StepIn(TABLES, EMPTY, 0, Report(7, 100, channelOpen), o) <==>
            o == if channelOpen then Outcome(Log([Row(7, 100, 0)]), [OPENED], None)
                 else Outcome(Log([]), [], Some(EventChannelClosed))
  {
    TablesAreValid();
    var a := Report(7, 100, channelOpen);
    assert IsActiveSession(EMPTY, 1, 1, None);
    assert Answers(TABLES, EMPTY, a.update, None, None);
    assert [] + [Row(7, 100, 0)] == [Row(7, 100, 0)];
    assert map[][0 := SESSION] == map[0 := SESSION];
    assert OPENED == ConnectedEvent(0, EventContext(OFFICE, ALICE, LAPTOP, false), a.update);
    assert Process(TABLES, EMPTY, a, None, None)
        == if channelOpen then Outcome(Log([Row(7, 100, 0)]), [OPENED], None)
           else Outcome(Log([]), [], Some(EventChannelClosed));
  }

  /// A later report is compared with totals that the batch has at hand.
  lemma LaterReport(stats: seq<StatsRow>, start: nat, a: Arrival, o: Outcome)
    requires a.update.location == 1 && a.update.pubkey == "key"
    ensures StepIn(TABLES, Log(stats), start, a, o) <==>
            exists last :: Recalls(stats, start, 0, a.update.gateway, last) && o == AppendStats(Log(stats), [], a, 0, last)
  {
    TablesAreValid();
    var db := Log(stats);
    forall active | IsActiveSession(db, 1, 1, active) ensures active == Some(SESSION) {
      assert db.sessions[0].ActiveFor(1, 1);
    }
    if last :| Recalls(stats, start, 0, a.update.gateway, last) && o == AppendStats(db, [], a, 0, last) {
      assert Answers(TABLES, db, a.update, Some(SESSION), last);
      assert o == Process(TABLES, db, a, Some(SESSION), last);
    }
    if StepIn(TABLES, db, start, a, o) {
      var active, last :| Answers(TABLES, db, a.update, active, last)
                          && (active.Some? ==> Recalls(stats, start, active.value.id, a.update.gateway, last))
                          && o == Process(TABLES, db, a, active, last);
      assert active == Some(SESSION);
    }
  }

  const TIED := [Row(7, 100, 0), Row(7, 150, 50)]

  /// In the batch that stored them, the later of two rows of one time is at hand; in the next batch
  /// either may be.
  lemma AtHand(last: Option<Totals>)
    ensures Recalls(TIED, 0, 0, 1, last) <==> last == Some(TIED[1].Summary())
    ensures Recalls(TIED, 2, 0, 1, last) <==> last == Some(TIED[0].Summary()) || last == Some(TIED[1].Summary())
    ensures Recalls([TIED[0]], 0, 0, 1, last) <==> last == Some(TIED[0].Summary())
  {
    assert IsNewest(TIED, 0, 1, TIED[0]) && IsNewest(TIED, 0, 1, TIED[1]);
    assert IsLastRow(TIED, 0, 1, 1);
    assert IsNewest([TIED[0]], 0, 1, TIED[0]) && IsLastRow([TIED[0]], 0, 1, 0);
  }

  /// The outcomes of three reports, the second collected at the time of the first, the third compared
  /// with a row that counted the given upload.
  function Told(counted: int): seq<Outcome> {
    [Outcome(Log([TIED[0]]), [OPENED], None), Outcome(Log(TIED), [], None),
     Outcome(Log(TIED + [Row(8, 160, 160 - counted)]), [], None)]
  }

  const REPORTS := [Report(7, 100, true), Report(7, 150, true), Report(8, 160, true)]

  /// Three reports of one device, from an empty database. In one batch the stored differences add up
  /// to the growth of the counter; with a batch ending before the third report they may not, and 50
  /// bytes are counted twice.
  lemma TieCountsTwice()
    ensures forall outcomes :: Batch(TABLES, EMPTY, REPORTS, outcomes) <==> outcomes == Told(150)
    ensures Batched(TABLES, EMPTY, [REPORTS[..2], REPORTS[2..]], [Told(100)[..2], Told(100)[2..]])
    ensures Uploaded(RowsOf(Told(150)[2].db.stats, 0, 1)) == 160 - 100
    ensures Uploaded(RowsOf(Told(100)[2].db.stats, 0, 1)) == 160 - 100 + 50
  {
    forall outcomes ensures Batch(TABLES, EMPTY, REPORTS, outcomes) <==> outcomes == Told(150) {
      OneBatch(outcomes);
    }
    TwoBatches();
    Sum(150);
    Sum(100);
  }

  lemma SecondReport(o: Outcome)
    ensures StepIn(TABLES, Log([TIED[0]]), 0, REPORTS[1], o) <==> o == Told(150)[1]
  {
    LaterReport([TIED[0]], 0, REPORTS[1], o);
    forall last { AtHand(last); }
    var last := Some(TIED[0].Summary());
    assert [TIED[0]] + [TIED[1]] == TIED;
    assert AppendStats(Log([TIED[0]]), [], REPORTS[1], 0, last) == Told(150)[1];
  }

  lemma ThirdReport(o: Outcome)
    ensures StepIn(TABLES, Log(TIED), 0, REPORTS[2], o) <==> o == Told(150)[2]
    ensures StepIn(TABLES, Log(TIED), 2, REPORTS[2], o) <==> o == Told(100)[2] || o == Told(150)[2]
  {
    LaterReport(TIED, 0, REPORTS[2], o);
    LaterReport(TIED, 2, REPORTS[2], o);
    Compared(0);
    Compared(1);
    hide StepIn, Recalls, AppendStats, Told, Row, Report;
    AtHand(Some(TIED[0].Summary()));
    AtHand(Some(TIED[1].Summary()));
    forall last { AtHand(last); }
  }

  lemma Compared(i: nat)
    requires i < 2
    ensures AppendStats(Log(TIED), [], REPORTS[2], 0, Some(TIED[i].Summary())) == Told(TIED[i].totalUpload)[2]
    ensures TIED[0].totalUpload == 100 && TIED[1].totalUpload == 150
  {
  }

  lemma OneBatch(outcomes: seq<Outcome>)
    ensures Batch(TABLES, EMPTY, REPORTS, outcomes) <==> outcomes == Told(150)
  {
    hide StepIn;
    if |outcomes| == 3 {
      FirstReport(true, outcomes[0]);
      SecondReport(outcomes[1]);
      ThirdReport(outcomes[2]);
      assert DbAfter(EMPTY, outcomes, 0) == EMPTY;
      if Batch(TABLES, EMPTY, REPORTS, outcomes) {
        assert StepIn(TABLES, DbAfter(EMPTY, outcomes, 0), 0, REPORTS[0], outcomes[0]);
        assert StepIn(TABLES, DbAfter(EMPTY, outcomes, 1), 0, REPORTS[1], outcomes[1]);
        assert StepIn(TABLES, DbAfter(EMPTY, outcomes, 2), 0, REPORTS[2], outcomes[2]);
        assert outcomes == Told(150);
      }
    }
  }

  lemma TwoBatches()
    ensures Batched(TABLES, EMPTY, [REPORTS[..2], REPORTS[2..]], [Told(100)[..2], Told(100)[2..]])
  {
    hide StepIn;
    var first, second := Told(100)[..2], Told(100)[2..];
    FirstReport(true, first[0]);
    SecondReport(first[1]);
    ThirdReport(second[0]);
    assert Batch(TABLES, EMPTY, REPORTS[..2], first);
    assert AfterBatches(EMPTY, [first]) == Log(TIED) by {
      assert [first][..0] == [];
    }
    assert Batch(TABLES, Log(TIED), REPORTS[2..], second);
    assert Batched(TABLES, EMPTY, [REPORTS[..2]], [first]) by {
      assert [REPORTS[..2]][..0] == [] && [first][..0] == [];
    }
    assert [REPORTS[..2], REPORTS[2..]][..1] == [REPORTS[..2]] && [first, second][..1] == [first];
  }

  lemma Sum(counted: int)
    ensures Uploaded(RowsOf(Told(counted)[2].db.stats, 0, 1)) == 50 + 160 - counted
  {
    var row := Row(8, 160, 160 - counted);
    RowsOfAppend([], TIED[0], 0, 1);
    RowsOfAppend([TIED[0]], TIED[1], 0, 1);
    RowsOfAppend(TIED, row, 0, 1);
    assert [] + [TIED[0]] == [TIED[0]] && [TIED[0]] + [TIED[1]] == TIED;
    hide RowsOf;
    UploadedAppend([], TIED[0]);
    UploadedAppend([TIED[0]], TIED[1]);
    UploadedAppend(TIED, row);
  }

  lemma UploadedAppend(rows: seq<StatsRow>, row: StatsRow)
    ensures Uploaded(rows + [row]) == Uploaded(rows) + row.uploadDiff
  {
    assert (rows + [row])[..|rows|] == rows;
  }

  /// The first report, with the event channel closed: a connected session of which nothing was said,
  /// which no sweep will find inactive.
  lemma ClosedChannelHides() returns (o: Outcome)
    ensures Step(TABLES, EMPTY, Report(7, 100, false), o)
    ensures WouldConnect(TABLES, EMPTY, Report(7, 100, false), 0)
    ensures o.events == [] && Silent(o.db, 0) && Unreported(System(o.db, map[], [], []), 0)
    ensures forall at :: !Due(TABLES, o.db, at, 0)
  {
    TablesAreValid();
    o := Outcome(Log([]), [], Some(EventChannelClosed));
    FirstReport(false, o);
    forall at ensures !Due(TABLES, o.db, at, 0) {
      SilentIsNeverDue(TABLES, o.db, at, 0);
    }
  }

  /// The first report with the event channel open, and then the gateway it came from deleted: the
  /// connection was reported, and no sweep will find the session inactive all the same.
  lemma DeletedGatewayHides() returns (s: System, s': System)
    ensures Next(System(EMPTY, map[], [], []), Receive(TABLES, Report(7, 100, true)), s)
    ensures Next(s, Remove(OfGateway(1)), s')
    ensures Explained(s') && s'.trace == [OPENED]
    ensures !Silent(s.db, 0) && Silent(s'.db, 0) && forall at :: !Due(TABLES, s'.db, at, 0)
  {
    TablesAreValid();
    var start := System(EMPTY, map[], [], []);
    var o := Outcome(Log([TIED[0]]), [OPENED], None);
    FirstReport(true, o);
    StepIsNext(TABLES, start, Report(7, 100, true), o);
    s := start.AfterUpdate(o);
    assert [] + [OPENED] == [OPENED];
    NothingIsExplained();
    NextExplained(start, Receive(TABLES, Report(7, 100, true)), s);
    s' := s.(db := s.db.Without(OfGateway(1)));
    assert Survivors([TIED[0]], OfGateway(1)) == [] by {
      assert [TIED[0]][..0] == [];
    }
    assert s.gone + s.db.Taken(OfGateway(1)) == s.gone;
    assert HasStats(s.db.stats, 0) by {
      assert s.db.stats[0].session == 0;
    }
    SilentlyExplained(s, Remove(OfGateway(1)), s');
    forall at ensures !Due(TABLES, s'.db, at, 0) {
      SilentIsNeverDue(TABLES, s'.db, at, 0);
    }
  }

  lemma NothingIsExplained()
    ensures Explained(System(EMPTY, map[], [], []))
  {
  }
}
