/// Handlers agree with the rows last read, over any run of notifications.
module ManagerLaws {
  import opened Common
  import opened GatewayManager

  /// What is known of each gateway from the notifications so far: the row last read.
  function Remember(rows: map<Id, Gateway>, n: Notification): map<Id, Gateway> {
    match n.operation
    case Delete => rows - {n.gateway}
    case _ => if n.reading.Found? then rows[n.gateway := n.reading.row] else rows
  }

  predicate Live(s: State, handler: Id) {
    handler in s.handlers && !s.handlers[handler].aborted
  }

  /// Each gateway whose row was last read enabled has one live handler, which was built from a row
  /// that agrees with it on the connection; no other gateway has one.
  ghost predicate Agrees(s: State, rows: map<Id, Gateway>) {
    && (forall h :: h in s.handlers ==> h < s.nextHandler)
    && (forall g :: g in s.handles ==>
          && Live(s, s.handles[g].handler) && s.handlers[s.handles[g].handler].gateway == g
          && SameConnection(s.handlers[s.handles[g].handler].row, s.handles[g].snapshot))
    && (forall h :: Live(s, h) ==> s.handlers[h].gateway in s.handles && s.handles[s.handlers[h].gateway].handler == h)
    && (forall g :: g in s.handles <==> g in rows && rows[g].enabled)
    && (forall g :: g in s.handles ==> SameConnection(s.handles[g].snapshot, rows[g]))
  }

  /// A row restarts the handler exactly if it differs in more than the ten fields that a connection
  /// does not depend on.
  lemma RestartMeansOtherConnection(g: Gateway, h: Gateway)
    ensures NeedsRestart(g, h) <==> !SameConnection(g, h)
  {
  }

  lemma StartAgrees(s: State, rows: map<Id, Gateway>, gateway: Id, built: Gateway, row: Gateway, urlValid: bool)
    requires Agrees(s, rows) && gateway !in s.handles && row.enabled && SameConnection(built, row)
    ensures var o := StartHandler(s, gateway, built, urlValid);
            o.Running? ==> Agrees(o.state, rows[gateway := row])
  {
  }

  lemma StopAgrees(s: State, rows: map<Id, Gateway>, gateway: Id)
    requires Agrees(s, rows)
    ensures Agrees(StopHandler(s, gateway), rows - {gateway})
  {
  }

  /// An Insert for a gateway that is already handled.
  predicate Reinserts(s: State, n: Notification) {
    n.operation == Insert && n.reading.Found? && n.gateway in s.handles
  }

  /// A notification keeps the agreement exactly when it does not insert a gateway that is handled.
  lemma ProcessAgreesExactly(s: State, rows: map<Id, Gateway>, n: Notification)
    requires Agrees(s, rows) && Process(s, n).Running?
    ensures Agrees(Process(s, n).state, Remember(rows, n)) <==> !Reinserts(s, n)
  {
    if Reinserts(s, n) {
      ReinsertBreaks(s, rows, n);
    } else {
      match n.operation
      case Insert =>
        if n.reading.Found? && n.reading.row.enabled {
          StartAgrees(s, rows, n.gateway, n.reading.row, n.reading.row, n.urlValid);
        }
      case Update => UpdateAgrees(s, rows, n);
      case Delete => StopAgrees(s, rows, n.gateway);
    }
  }

  /// It leaves the gateway with two live handlers, or with one although its row was read disabled.
  lemma ReinsertBreaks(s: State, rows: map<Id, Gateway>, n: Notification)
    requires Agrees(s, rows) && Process(s, n).Running? && Reinserts(s, n)
    ensures !Agrees(Process(s, n).state, Remember(rows, n))
    ensures n.reading.row.enabled ==>
              var s' := Process(s, n).state;
              exists h, k :: h != k && Live(s', h) && Live(s', k)
                             && s'.handlers[h].gateway == n.gateway && s'.handlers[k].gateway == n.gateway
  {
    var s' := Process(s, n).state;
    var h := s.handles[n.gateway].handler;
    if n.reading.row.enabled {
      assert Live(s', h) && Live(s', s.nextHandler) && s'.handlers[h].gateway == n.gateway;
    }
  }

  /// The row is not another connection: only the copy of it that is kept changes.
  lemma RefreshAgrees(s: State, rows: map<Id, Gateway>, gateway: Id, row: Gateway)
    requires Agrees(s, rows) && gateway in s.handles && SameConnection(s.handles[gateway].snapshot, row)
    ensures Agrees(s.(handles := s.handles[gateway := s.handles[gateway].(snapshot := row)]), rows[gateway := row])
  {
  }

  /// The handler is stopped, and another started if the row is enabled.
  lemma RestartAgrees(s: State, rows: map<Id, Gateway>, n: Notification, row: Gateway)
    requires Agrees(s, rows)
    ensures var stopped := StopHandler(s, n.gateway);
            if row.enabled then
              var o := StartHandler(stopped, n.gateway, MarkDisconnected(row, n.clock), n.urlValid);
              o.Running? ==> Agrees(o.state, rows[n.gateway := row])
            else Agrees(stopped, rows[n.gateway := row])
  {
    StopAgrees(s, rows, n.gateway);
    assert (rows - {n.gateway})[n.gateway := row] == rows[n.gateway := row];
    Unhandled(s, n.gateway);
    if row.enabled {
      hide Agrees, StopHandler, StartHandler;
      StartAgrees(StopHandler(s, n.gateway), rows - {n.gateway}, n.gateway, MarkDisconnected(row, n.clock), row, n.urlValid);
    } else {
      hide StopHandler;
      NotYetHandled(StopHandler(s, n.gateway), rows - {n.gateway}, n.gateway, row);
    }
  }

  lemma Unhandled(s: State, gateway: Id)
    ensures gateway !in StopHandler(s, gateway).handles
  {
  }

  lemma UpdateAgrees(s: State, rows: map<Id, Gateway>, n: Notification)
    requires Agrees(s, rows) && Process(s, n).Running? && n.operation == Update
    ensures Agrees(Process(s, n).state, Remember(rows, n))
  {
    hide Agrees, StopHandler, StartHandler, MarkDisconnected;
    if n.reading.Found? {
      var row := n.reading.row;
      if n.gateway in s.handles && !NeedsRestart(s.handles[n.gateway].snapshot, row) {
        RestartMeansOtherConnection(s.handles[n.gateway].snapshot, row);
        RefreshAgrees(s, rows, n.gateway, row);
      } else {
        RestartAgrees(s, rows, n, row);
      }
    }
  }

  function RememberAll(rows: map<Id, Gateway>, notifications: seq<Notification>): map<Id, Gateway> {
    if notifications == [] then rows
    else
      var n := |notifications| - 1;
      Remember(RememberAll(rows, notifications[..n]), notifications[n])
  }

  /// No notification inserts a gateway that is handled when it arrives.
  ghost predicate InsertsOnlyUnhandled(s: State, notifications: seq<Notification>) {
    forall i :: 0 <= i < |notifications| ==>
      var before := Follow(s, notifications[..i]);
      before.Running? ==> !Reinserts(before.state, notifications[i])
  }

  /// Over a whole run the handlers agree with the rows last read.
  lemma {:induction false} RunAgrees(s: State, rows: map<Id, Gateway>, notifications: seq<Notification>)
    requires Agrees(s, rows) && InsertsOnlyUnhandled(s, notifications)
    ensures var o := Follow(s, notifications);
            o.Running? ==> Agrees(o.state, RememberAll(rows, notifications))
  {
    if notifications != [] {
      var n := |notifications| - 1;
      var init := notifications[..n];
      forall i | 0 <= i < n ensures init[..i] == notifications[..i] && init[i] == notifications[i] {
      }
      RunAgrees(s, rows, init);
      var before := Follow(s, init);
      if Follow(s, notifications).Running? {
        ProcessAgreesExactly(before.state, RememberAll(rows, init), notifications[n]);
      }
    }
  }

  /// So a gateway never has two live handlers.
  lemma OneLiveHandler(s: State, rows: map<Id, Gateway>, notifications: seq<Notification>, h: Id, k: Id)
    requires Agrees(s, rows) && InsertsOnlyUnhandled(s, notifications) && Follow(s, notifications).Running?
    requires var s' := Follow(s, notifications).state;
             Live(s', h) && Live(s', k) && s'.handlers[h].gateway == s'.handlers[k].gateway
    ensures h == k
  {
    RunAgrees(s, rows, notifications);
  }

  /// The rows of a table, by id.
  function RowsById(gateways: seq<(Id, Gateway, bool)>): (rows: map<Id, Gateway>)
    ensures forall g :: g in rows ==> exists i :: 0 <= i < |gateways| && gateways[i].0 == g
  {
    if gateways == [] then map[]
    else
      var n := |gateways| - 1;
      RowsById(gateways[..n])[gateways[n].0 := gateways[n].1]
  }

  lemma NotYetHandled(s: State, rows: map<Id, Gateway>, gateway: Id, row: Gateway)
    requires Agrees(s, rows) && gateway !in rows
    ensures gateway !in s.handles && (!row.enabled ==> Agrees(s, rows[gateway := row]))
  {
  }

  lemma NothingAgrees()
    ensures Agrees(State(map[], map[], 0), map[])
  {
  }

  /// Starting up builds one handler for every enabled gateway of the table.
  lemma {:induction false} StartupAgrees(gateways: seq<(Id, Gateway, bool)>)
    requires forall i, j :: 0 <= i < j < |gateways| ==> gateways[i].0 != gateways[j].0
    ensures var o := StartAll(State(map[], map[], 0), gateways);
            o.Running? ==> Agrees(o.state, RowsById(gateways))
  {
    NothingAgrees();
    if gateways != [] {
      var n := |gateways| - 1;
      var init := gateways[..n];
      hide Agrees;
      StartupAgrees(init);
      var before := StartAll(State(map[], map[], 0), init);
      if before.Running? {
        NotYetHandled(before.state, RowsById(init), gateways[n].0, gateways[n].1);
        if gateways[n].1.enabled {
          StartAgrees(before.state, RowsById(init), gateways[n].0, gateways[n].1, gateways[n].1, gateways[n].2);
        }
      }
    }
  }

  /// What a handler writes to its row (its version, its connection times) never restarts it: the
  /// handlers stay as they are.
  lemma OwnWritesNeverRestart(s: State, rows: map<Id, Gateway>, n: Notification)
    requires Agrees(s, rows) && n.operation == Update && n.reading.Found?
    requires n.gateway in rows && SameConnection(n.reading.row, rows[n.gateway]) && n.reading.row.enabled
    ensures Process(s, n).Running? && Process(s, n).state.handlers == s.handlers
  {
    RestartMeansOtherConnection(s.handles[n.gateway].snapshot, n.reading.row);
  }

  /// A change of the connection stops the handler there was and, if the gateway is still enabled,
  /// starts another from the row just read.
  lemma OtherConnectionRestarts(s: State, rows: map<Id, Gateway>, n: Notification)
    requires Agrees(s, rows) && n.operation == Update && n.reading.Found? && n.gateway in s.handles
    requires !SameConnection(n.reading.row, rows[n.gateway])
    ensures var s' := Process(s, n).state;
            && !Live(s', s.handles[n.gateway].handler)
            && (Process(s, n).Stopped? <==> n.reading.row.enabled && !n.urlValid)
            && (Process(s, n).Running? ==>
                  if n.reading.row.enabled then
                    Live(s', s.nextHandler) && SameConnection(s'.handlers[s.nextHandler].row, n.reading.row)
                  else forall h :: Live(s', h) ==> s'.handlers[h].gateway != n.gateway)
  {
    RestartMeansOtherConnection(s.handles[n.gateway].snapshot, n.reading.row);
  }

  // ---------------------------------------------------------------------------------------------
  // One notification, by the rows alone
  // ---------------------------------------------------------------------------------------------

  /// The notification calls for a new handler: a row read enabled was inserted, or was updated where
  /// there is no handler or one with another connection.
  predicate CallsForHandler(s: State, n: Notification) {
    && n.reading.Found? && n.reading.row.enabled
    && (n.operation == Insert
        || (n.operation == Update
            && (n.gateway in s.handles ==> !SameConnection(s.handles[n.gateway].snapshot, n.reading.row))))
  }

  /// The run goes on unless a handler is called for whose address makes no URL.
  lemma StopsExactly(s: State, n: Notification)
    ensures Process(s, n).Stopped? <==> CallsForHandler(s, n) && !n.urlValid
  {
    if n.gateway in s.handles && n.reading.Found? {
      RestartMeansOtherConnection(s.handles[n.gateway].snapshot, n.reading.row);
    }
  }

  /// A gateway with a connection time that no disconnection followed.
  predicate LeftConnected(row: Gateway) {
    row.connectedAt.Some? && (row.disconnectedAt.Some? ==> row.disconnectedAt.value <= row.connectedAt.value)
  }

  /// A handler is built exactly when one is called for, from the row just read; an update marks it
  /// disconnected first if it was left connected.
  lemma HandlerBuiltExactly(s: State, n: Notification)
    requires s.nextHandler !in s.handlers && Process(s, n).Running?
    ensures var s' := Process(s, n).state;
            if CallsForHandler(s, n) then
              var row := if n.operation == Update && LeftConnected(n.reading.row)
                         then n.reading.row.(disconnectedAt := Some(n.clock)) else n.reading.row;
              && s'.nextHandler == s.nextHandler + 1 && s.nextHandler in s'.handlers
              && s'.handlers[s.nextHandler] == Handler(n.gateway, row, false)
              && n.gateway in s'.handles && s'.handles[n.gateway] == Handle(s.nextHandler, row)
            else s'.nextHandler == s.nextHandler && s'.handlers.Keys == s.handlers.Keys
  {
    if n.gateway in s.handles && n.reading.Found? {
      RestartMeansOtherConnection(s.handles[n.gateway].snapshot, n.reading.row);
    }
  }

  /// A notification about one gateway leaves the handlers of all others alone.
  lemma OtherGatewaysAreLeft(s: State, rows: map<Id, Gateway>, n: Notification, g: Id, h: Id)
    requires Agrees(s, rows) && g != n.gateway && h in s.handlers && s.handlers[h].gateway == g
    ensures var s' := Process(s, n).state;
            && Lookup(s'.handles, g) == Lookup(s.handles, g)
            && h in s'.handlers && s'.handlers[h] == s.handlers[h]
  {
    StopLeavesOthers(s, rows, n.gateway, g, h);
    StartLeavesOthers(s, n.gateway, g, h);
    StartLeavesOthers(StopHandler(s, n.gateway), n.gateway, g, h);
    hide Agrees, StopHandler, StartHandler, MarkDisconnected, NeedsRestart;
  }

  lemma StartLeavesOthers(s: State, gateway: Id, g: Id, h: Id)
    requires g != gateway && h in s.handlers && h != s.nextHandler
    ensures forall row, urlValid ::
              var s' := StartHandler(s, gateway, row, urlValid).state;
              Lookup(s'.handles, g) == Lookup(s.handles, g) && h in s'.handlers && s'.handlers[h] == s.handlers[h]
  {
  }

  lemma StopLeavesOthers(s: State, rows: map<Id, Gateway>, gateway: Id, g: Id, h: Id)
    requires Agrees(s, rows) && g != gateway && h in s.handlers && s.handlers[h].gateway == g
    ensures h != s.nextHandler && StopHandler(s, gateway).nextHandler == s.nextHandler
    ensures var s' := StopHandler(s, gateway);
            Lookup(s'.handles, g) == Lookup(s.handles, g) && h in s'.handlers && s'.handlers[h] == s.handlers[h]
  {
  }
}
