/// What holds of the uncached process itself, and so of every batch: the constraints it keeps, the
/// errors it cannot meet; and what a sweep achieves.
module SessionLaws {
  import opened Common
  import opened SessionDomain
  import opened SessionRows
  import opened SessionSweep

  /// An update keeps the constraints of the database, and never meets the two errors that stand
  /// for a fault in the manager's own bookkeeping.
  lemma StepKeepsValid(dir: Directory, db: Db, a: Arrival, o: Outcome)
    requires dir.Valid() && db.Valid() && Step(dir, db, a, o)
    ensures o.db.Valid()
    ensures o.error.Some? ==> !o.error.value.EventContextMissing? && !o.error.value.SessionMissing?
  {
    var active, last :| Answers(dir, db, a.update, active, last) && o == Process(dir, db, a, active, last);
    var device := dir.FindDevice(a.update.pubkey);
    if device.Some? {
      if active.None? {
        CreateKeepsValid(dir, db, a, device.value);
      } else {
        RecordKeepsValid(db, a, active.value.id, FindContext(dir, a.update.location, device.value, active.value.mfa), last);
      }
    }
  }

  lemma {:induction false} TrailKeepsValid(dir: Directory, db: Db, arrivals: seq<Arrival>, outcomes: seq<Outcome>, n: nat)
    requires dir.Valid() && db.Valid() && Trail(dir, db, arrivals, outcomes) && n <= |outcomes|
    ensures DbAfter(db, outcomes, n).Valid()
  {
    if n > 0 {
      TrailKeepsValid(dir, db, arrivals, outcomes, n - 1);
      StepKeepsValid(dir, DbAfter(db, outcomes, n - 1), arrivals[n - 1], outcomes[n - 1]);
    }
  }

  /// What a batch has at hand is an answer the database may give, so a batch is a trail.
  lemma BatchIsTrail(dir: Directory, db: Db, arrivals: seq<Arrival>, outcomes: seq<Outcome>)
    requires Batch(dir, db, arrivals, outcomes)
    ensures Trail(dir, db, arrivals, outcomes)
  {
    hide Answers, Recalls, Process;
    forall i | 0 <= i < |arrivals| ensures Step(dir, DbAfter(db, outcomes, i), arrivals[i], outcomes[i]) {
      assert StepIn(dir, DbAfter(db, outcomes, i), |db.stats|, arrivals[i], outcomes[i]);
    }
  }

  lemma TrailLength(dir: Directory, db: Db, arrivals: seq<Arrival>, outcomes: seq<Outcome>)
    requires Trail(dir, db, arrivals, outcomes)
    ensures |outcomes| == |arrivals|
  {
  }

  lemma StepOfTrail(dir: Directory, db: Db, arrivals: seq<Arrival>, outcomes: seq<Outcome>, i: nat)
    requires Trail(dir, db, arrivals, outcomes) && i < |arrivals|
    ensures |outcomes| == |arrivals| && Step(dir, DbAfter(db, outcomes, i), arrivals[i], outcomes[i])
  {
  }

  lemma TrailJoin(dir: Directory, db: Db, first: seq<Arrival>, second: seq<Arrival>, outcomes: seq<Outcome>)
    requires |outcomes| == |first| + |second|
    requires Trail(dir, db, first, outcomes[..|first|])
    requires Trail(dir, DbAfter(db, outcomes, |first|), second, outcomes[|first|..])
    ensures Trail(dir, db, first + second, outcomes)
  {
    hide Step;
    var n := |first|;
    var mid := DbAfter(db, outcomes, n);
    forall i | 0 <= i < |outcomes| ensures Step(dir, DbAfter(db, outcomes, i), (first + second)[i], outcomes[i]) {
      if i < n {
        assert outcomes[..n][i] == outcomes[i] && DbAfter(db, outcomes[..n], i) == DbAfter(db, outcomes, i);
      } else {
        assert outcomes[n..][i - n] == outcomes[i] && DbAfter(mid, outcomes[n..], i - n) == DbAfter(db, outcomes, i);
      }
    }
  }

  lemma {:induction false} EmittedConcat(first: seq<Outcome>, second: seq<Outcome>)
    ensures Emitted(first + second) == Emitted(first) + Emitted(second)
  {
    if second == [] {
      assert first + second == first;
    } else {
      var n := |second| - 1;
      assert (first + second)[..|first| + n] == first + second[..n];
      EmittedConcat(first, second[..n]);
    }
  }

  /// After a sweep nothing it should close is left, the constraints hold, and everything else is
  /// as it was.
  lemma SweepCompletes(dir: Directory, db: Db, at: Time, stamp: Id -> Time, db': Db,
                       events: seq<Event>, commands: seq<Command>)
    requires dir.Valid() && db.Valid() && Sweep(dir, db, at, stamp, db', events, commands)
    ensures db'.Valid() && db'.stats == db.stats && db'.sessions.Keys == db.sessions.Keys && db'.nextId == db.nextId
    ensures forall s :: !Due(dir, db', at, s)
    ensures forall s :: s in db.sessions && !Due(dir, db, at, s) ==> db'.sessions[s] == db.sessions[s]
    ensures forall s :: Due(dir, db, at, s) ==> db'.sessions[s] == ClosedRow(db.sessions[s], stamp(s))
  {
    forall s | s in db'.sessions ensures !Due(dir, db', at, s) {
      if db'.sessions[s] == db.sessions[s] {
        assert Due(dir, db', at, s) <==> Due(dir, db, at, s);
      }
    }
  }

  /// A second sweep at the same time changes nothing and sends nothing.
  lemma SweepIdempotent(dir: Directory, db: Db, at: Time, stamp: Id -> Time, db': Db,
                        events: seq<Event>, commands: seq<Command>,
                        stamp': Id -> Time, db'': Db, events': seq<Event>, commands': seq<Command>)
    requires dir.Valid() && db.Valid() && Sweep(dir, db, at, stamp, db', events, commands)
    requires Sweep(dir, db', at, stamp', db'', events', commands')
    ensures db'' == db' && events' == [] && commands' == []
  {
    SweepCompletes(dir, db, at, stamp, db', events, commands);
    NoEvents(events');
    NoCommands(commands');
  }

  lemma NoEvents(events: seq<Event>)
    ensures events == [] || exists s :: EventsOf(events, s) != []
  {
    if events != [] {
      var n := |events| - 1;
      assert EventsOf(events, events[n].session) != [];
    }
  }

  lemma NoCommands(commands: seq<Command>)
    ensures commands == [] || exists c :: multiset(commands)[c] != 0
  {
    if commands != [] {
      assert commands[0] in multiset(commands);
    }
  }

  /// Every session closed where peers are authorized at runtime has exactly one command sent for
  /// its peer, and every command is for such a session.
  lemma SweepDeauthorizes(dir: Directory, db: Db, at: Time, stamp: Id -> Time, db': Db,
                          events: seq<Event>, commands: seq<Command>)
    requires dir.Valid() && db.Valid() && Sweep(dir, db, at, stamp, db', events, commands)
    ensures forall s :: Due(dir, db, at, s) && Deauthorizes(dir, db.sessions[s]) ==>
              db.sessions[s].device in dir.devices &&
              multiset(commands)[Deauthorize(db.sessions[s].location, dir.devices[db.sessions[s].device])] == 1
    ensures forall c :: c in commands ==> exists s :: Due(dir, db, at, s) && PeerOf(dir, db.sessions[s], c)
  {
    var closed := set s | s in db.sessions && Due(dir, db, at, s);
    forall s | Due(dir, db, at, s) && Deauthorizes(dir, db.sessions[s])
      ensures db.sessions[s].device in dir.devices
      ensures multiset(commands)[Deauthorize(db.sessions[s].location, dir.devices[db.sessions[s].device])] == 1
    {
      assert s in closed;
      assert PeerOf(dir, db.sessions[s], Deauthorize(db.sessions[s].location, dir.devices[db.sessions[s].device]));
    }
    forall c | c in commands ensures exists s :: Due(dir, db, at, s) && PeerOf(dir, db.sessions[s], c) {
      assert c in multiset(commands);
      assert ClosedPeer(dir, db, closed, c);
    }
  }
}
