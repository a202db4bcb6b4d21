/// The handlers of one gateway, their delayed tasks and the flag they share, as objects: each stretch
/// of code between two awaits is a method that takes the step the laws of notifications are about.
module GatewayHandler {
  import opened Common
  import opened Notifications

  /// The flag shared by a gateway's handlers and their delayed tasks.
  class SharedFlag {
    const id: Id
    var state: Flag

    constructor (id: Id)
      ensures this.id == id && state == Flag(false, 0, 0, 0, 0)
    {
      this.id, state := id, Flag(false, 0, 0, 0, 0);
    }

    /// A task records its notification.
    method Record()
      modifies this
      ensures state == Store(old(state))
    {
      if state.set_ {
        state := state.(repeats := state.repeats + 1);
      }
      state := state.(set_ := true, disconnects := state.disconnects + 1);
    }

    method Take() returns (wasSet: bool)
      modifies this
      ensures wasSet == old(state).set_ && state == old(state).(set_ := false)
    {
      wasSet := state.set_;
      state := state.(set_ := false);
    }

    /// A reconnect consumes the flag, whether or not its notification is turned on.
    method Consume(reconnectEnabled: bool)
      modifies this
      ensures state == Swap(old(state), reconnectEnabled)
    {
      var wasSet := Take();
      if !wasSet {
        return;
      }
      if reconnectEnabled {
        state := state.(reconnects := state.reconnects + 1);
      } else {
        state := state.(muted := state.muted + 1);
      }
    }
  }

  class Connection {
    const id: Id
    const flag: SharedFlag
    var link: Link
    var pending: Option<Id>
    var point: Point
    var aborted: bool
    var events: seq<bool>
    ghost var toggles: seq<Toggle>

    constructor (id: Id, flag: SharedFlag, link: Link)
      ensures this.id == id && this.flag == flag && Snapshot() == NewHandler(flag.id, link)
    {
      this.id, this.flag, this.link := id, flag, link;
      pending, point, aborted, events, toggles := None, Idle, false, [], [];
    }

    ghost function Snapshot(): Handler
      reads this
    {
      Handler(flag.id, link, pending, point, aborted, events, toggles)
    }

    /// Up to the write that marks the gateway disconnected.
    method BeginDisconnection(clock: Time)
      requires point == Idle
      modifies this
      ensures Snapshot() == StartDisconnect(old(Snapshot()), clock)
    {
      if !link.IsConnected() {
        return;
      }
      link := link.(disconnectedAt := Some(clock));
      point := TouchingDisconnected;
    }

    /// From that write on.
    method EndDisconnection(runtime: Runtime, written: bool, notificationsEnabled: bool, threshold: int)
      requires point == TouchingDisconnected
      modifies this, runtime`tasks, runtime`nextId
      ensures var scheduled := written && notificationsEnabled;
              && Snapshot() == FinishDisconnect(old(Snapshot()), written, if scheduled then Some(old(runtime.nextId)) else None)
              && runtime.nextId == old(runtime.nextId) + (if scheduled then 1 else 0)
              && runtime.tasks == (if scheduled then
                   AbortTask(old(runtime.tasks), old(pending))[old(runtime.nextId) :=
                     Task(id, flag.id, Sleeping(runtime.now + Delay(threshold)), false)]
                 else old(runtime.tasks))
    {
      point, toggles := Idle, toggles + [Toggle(false, written)];
      if !written {
        return;
      }
      events := events + [false];
      if notificationsEnabled {
        ScheduleNotification(runtime, threshold);
      }
    }

    method ScheduleNotification(runtime: Runtime, threshold: int)
      modifies this`pending, runtime`tasks, runtime`nextId
      ensures pending == Some(old(runtime.nextId)) && runtime.nextId == old(runtime.nextId) + 1
      ensures runtime.tasks == AbortTask(old(runtime.tasks), old(pending))[old(runtime.nextId) :=
                                 Task(id, flag.id, Sleeping(runtime.now + Delay(threshold)), false)]
    {
      runtime.AbortPending(pending);
      var task := runtime.Spawn(Task(id, flag.id, Sleeping(runtime.now + Delay(threshold)), false));
      pending := Some(task);
    }

    /// Up to the write that marks the gateway connected: a pending notification is given up first.
    method BeginConnection(runtime: Runtime, clock: Time)
      requires point == Idle
      modifies this, runtime`tasks
      ensures Snapshot() == StartConnect(old(Snapshot()), clock)
      ensures runtime.tasks == AbortTask(old(runtime.tasks), old(pending))
    {
      runtime.AbortPending(pending);
      pending := None;
      point := TouchingConnected(link.IsConnected());
      link := link.(connectedAt := Some(clock));
    }

    method EndConnection(written: bool, reconnectEnabled: bool)
      requires point.TouchingConnected?
      modifies this, flag
      ensures Snapshot() == FinishConnect(old(Snapshot()), written)
      ensures flag.state == if written then Swap(old(flag.state), reconnectEnabled) else old(flag.state)
    {
      var wasConnected := point.wasConnected;
      point := Idle;
      if !wasConnected {
        toggles := toggles + [Toggle(true, written)];
      }
      if !written {
        return;
      }
      if !wasConnected {
        events := events + [true];
      }
      flag.Consume(reconnectEnabled);
    }
  }

  // ---------------------------------------------------------------------------------------------
  // What each step changes
  // ---------------------------------------------------------------------------------------------

  lemma AbortKeepsFlags(tasks: map<Id, Task>, task: Option<Id>)
    ensures var tasks' := AbortTask(tasks, task);
            forall t :: t in tasks' ==> t in tasks && tasks'[t].flag == tasks[t].flag
  {
  }

  lemma LoseMakes(w: World, h: Id, clock: Time)
    requires Enabled(w, Lose(h, clock))
    ensures h in w.handlers && w.handlers[h].point == Idle
    ensures Take(w, Lose(h, clock)) == w.(handlers := w.handlers[h := StartDisconnect(w.handlers[h], clock)])
  {
  }

  lemma LostMakes(w: World, h: Id, written: bool, enabled: bool, threshold: int)
    requires Enabled(w, Lost(h, written, enabled, threshold))
    ensures h in w.handlers && w.handlers[h].point == TouchingDisconnected
    ensures var scheduled := written && enabled;
            var handler := FinishDisconnect(w.handlers[h], written, if scheduled then Some(w.nextId) else None);
            var spawned := Task(h, w.handlers[h].flag, Sleeping(w.now + Delay(threshold)), false);
            Take(w, Lost(h, written, enabled, threshold)) ==
            w.(handlers := w.handlers[h := handler],
               tasks := if scheduled then AbortTask(w.tasks, w.handlers[h].pending)[w.nextId := spawned] else w.tasks,
               nextId := w.nextId + if scheduled then 1 else 0)
  {
  }

  lemma ReturnMakes(w: World, h: Id, clock: Time)
    requires Enabled(w, Return(h, clock))
    ensures h in w.handlers && w.handlers[h].point == Idle
    ensures Take(w, Return(h, clock)) ==
            w.(handlers := w.handlers[h := StartConnect(w.handlers[h], clock)],
               tasks := AbortTask(w.tasks, w.handlers[h].pending))
  {
  }

  lemma ReturnedMakes(w: World, h: Id, written: bool, reconnectEnabled: bool)
    requires Enabled(w, Returned(h, written, reconnectEnabled))
    ensures h in w.handlers && w.handlers[h].point.TouchingConnected? && w.handlers[h].flag in w.flags
    ensures var flag := w.handlers[h].flag;
            Take(w, Returned(h, written, reconnectEnabled)) ==
            w.(handlers := w.handlers[h := FinishConnect(w.handlers[h], written)],
               flags := w.flags[flag := if written then Swap(w.flags[flag], reconnectEnabled) else w.flags[flag]])
  {
    assert !written ==> w.flags[w.handlers[h].flag := w.flags[w.handlers[h].flag]] == w.flags;
  }

  lemma TaskMakes(w: World, step: Step)
    requires Enabled(w, step) && (step.Wake? || step.ReadGateway? || step.ReadLocation?)
    ensures step.task in w.tasks
    ensures var goesOn := match step case ReadGateway(_, disconnected) => disconnected case ReadLocation(_, found) => found
                                     case _ => true;
            var next := if step.Wake? then ReadingGateway else if step.ReadGateway? then ReadingLocation else Recording;
            Take(w, step) ==
            w.(tasks := if goesOn then w.tasks[step.task := w.tasks[step.task].(phase := next)] else w.tasks - {step.task})
  {
  }

  lemma RecordMakes(w: World, t: Id)
    requires Enabled(w, Record(t))
    ensures t in w.tasks && w.tasks[t].flag in w.flags
    ensures Take(w, Record(t)) ==
            w.(tasks := w.tasks - {t}, flags := w.flags[w.tasks[t].flag := Store(w.flags[w.tasks[t].flag])],
               recorded := w.recorded + {t})
  {
  }

  lemma BuildMakes(w: World, link: Link)
    ensures var flag := if w.current.Some? then w.current.value else w.nextId;
            Take(w, Build(link)) ==
            w.(current := Some(flag), handlers := w.handlers[w.nextId := NewHandler(flag, link)],
               flags := if w.current.Some? then w.flags else w.flags[flag := Flag(false, 0, 0, 0, 0)],
               nextId := w.nextId + 1)
  {
  }

  lemma ManagerMakes(w: World, h: Id)
    requires Enabled(w, AbortHandler(h))
    ensures h in w.handlers
    ensures Take(w, AbortHandler(h)) == w.(handlers := w.handlers[h := w.handlers[h].(aborted := true)])
  {
  }

  lemma DropMakes(w: World, h: Id)
    requires Enabled(w, DropHandler(h))
    ensures h in w.handlers
    ensures Take(w, DropHandler(h)) ==
            w.(tasks := AbortTask(w.tasks, w.handlers[h].pending), handlers := w.handlers - {h})
  {
  }

  /// The gateway's connections and flags with the spawned tasks. `current` is the flag the manager has
  /// on record; an earlier one may live on in handlers and tasks.
  class Runtime {
    var now: Time
    var current: Option<Id>
    var flags: map<Id, SharedFlag>
    var connections: map<Id, Connection>
    var tasks: map<Id, Task>
    ghost var recorded: set<Id>
    var nextId: Id

    constructor (now: Time)
      ensures Valid() && Snapshot() == World(now, None, map[], map[], map[], {}, 0)
      ensures fresh(flags.Values) && fresh(connections.Values)
    {
      this.now, current, flags, connections, tasks, recorded, nextId := now, None, map[], map[], map[], {}, 0;
    }

    /// Objects are on record under their own numbers, and every connection's flag and every task's is.
    ghost predicate Valid()
      reads this
    {
      && (forall f :: f in flags ==> flags[f].id == f && f < nextId)
      && (forall h :: h in connections ==>
            connections[h].id == h && h < nextId && Lookup(flags, connections[h].flag.id) == Some(connections[h].flag))
      && (forall t :: t in tasks ==> tasks[t].flag in flags)
      && (current.Some? ==> current.value in flags)
    }

    ghost function Snapshot(): World
      reads this, flags.Values, connections.Values
    {
      World(now, current, Flags(), Handlers(), tasks, recorded, nextId)
    }

    ghost function Flags(): map<Id, Flag>
      reads this`flags, flags.Values
    {
      map f | f in flags :: flags[f].state
    }

    ghost function Handlers(): map<Id, Handler>
      reads this`connections, connections.Values
    {
      map h | h in connections :: connections[h].Snapshot()
    }

    lemma OneHandler(before: map<Id, Handler>, h: Id)
      requires before.Keys == connections.Keys && h in connections
      requires forall k :: k in connections && k != h ==> connections[k].Snapshot() == before[k]
      ensures Handlers() == before[h := connections[h].Snapshot()]
    {
    }

    lemma OneFlag(before: map<Id, Flag>, f: Id)
      requires before.Keys == flags.Keys && f in flags
      requires forall g :: g in flags && g != f ==> flags[g].state == before[g]
      ensures Flags() == before[f := flags[f].state]
    {
    }

    method AbortPending(task: Option<Id>)
      modifies this`tasks
      ensures tasks == AbortTask(old(tasks), task)
    {
      if task.Some? && task.value in tasks {
        if tasks[task.value].phase == Recording {
          tasks := tasks[task.value := tasks[task.value].(aborted := true)];
        } else {
          tasks := tasks - {task.value};
        }
      }
    }

    method Spawn(task: Task) returns (id: Id)
      modifies this`tasks, this`nextId
      ensures id == old(nextId) && nextId == old(nextId) + 1 && tasks == old(tasks)[id := task]
    {
      id := nextId;
      tasks := tasks[id := task];
      nextId := nextId + 1;
    }

    // The handler's stretches.

    method LoseGateway(h: Id, clock: Time)
      requires Valid() && Enabled(Snapshot(), Lose(h, clock))
      modifies connections.Values
      ensures Valid() && Snapshot() == Take(old(Snapshot()), Lose(h, clock))
    {
      hide Take, Enabled, StartDisconnect, Runtime.Flags, Runtime.Handlers, Runtime.Valid;
      LoseMakes(Snapshot(), h, clock);
      BeginDisconnectionOf(h, clock);
    }

    method WroteDisconnection(h: Id, written: bool, enabled: bool, threshold: int)
      requires Valid() && Enabled(Snapshot(), Lost(h, written, enabled, threshold))
      modifies this`tasks, this`nextId, connections.Values
      ensures Valid() && Snapshot() == Take(old(Snapshot()), Lost(h, written, enabled, threshold))
    {
      hide Take, Enabled, FinishDisconnect, AbortTask, Delay, Runtime.Flags, Runtime.Handlers, Runtime.Valid;
      LostMakes(Snapshot(), h, written, enabled, threshold);
      EndDisconnectionOf(h, written, enabled, threshold);
    }

    method RegainGateway(h: Id, clock: Time)
      requires Valid() && Enabled(Snapshot(), Return(h, clock))
      modifies this`tasks, connections.Values
      ensures Valid() && Snapshot() == Take(old(Snapshot()), Return(h, clock))
    {
      hide Take, Enabled, StartConnect, AbortTask, Runtime.Flags, Runtime.Handlers, Runtime.Valid;
      ReturnMakes(Snapshot(), h, clock);
      BeginConnectionOf(h, clock);
    }

    method WroteConnection(h: Id, written: bool, reconnectEnabled: bool)
      requires Valid() && Enabled(Snapshot(), Returned(h, written, reconnectEnabled))
      modifies flags.Values, connections.Values
      ensures Valid() && Snapshot() == Take(old(Snapshot()), Returned(h, written, reconnectEnabled))
    {
      hide Take, Enabled, FinishConnect, Swap, Runtime.Flags, Runtime.Handlers, Runtime.Valid;
      ReturnedMakes(Snapshot(), h, written, reconnectEnabled);
      EndConnectionOf(h, written, reconnectEnabled);
    }

    // The same for the connection on record under a number: nothing else changes.

    method BeginDisconnectionOf(h: Id, clock: Time)
      requires Valid() && h in Handlers() && Handlers()[h].point == Idle
      modifies connections.Values
      ensures Valid() && Flags() == old(Flags())
      ensures Handlers() == old(Handlers())[h := StartDisconnect(old(Handlers())[h], clock)]
    {
      hide StartDisconnect, Runtime.Flags;
      ghost var before := Handlers();
      connections[h].BeginDisconnection(clock);
      OneHandler(before, h);
      hide Runtime.Handlers, Connection.Snapshot;
    }

    method EndDisconnectionOf(h: Id, written: bool, enabled: bool, threshold: int)
      requires Valid() && h in Handlers() && Handlers()[h].point == TouchingDisconnected
      modifies this`tasks, this`nextId, connections.Values
      ensures Valid() && Flags() == old(Flags())
      ensures var scheduled, before := written && enabled, old(Handlers())[h];
              && Handlers() == old(Handlers())[
                   h := FinishDisconnect(before, written, if scheduled then Some(old(nextId)) else None)]
              && nextId == old(nextId) + (if scheduled then 1 else 0)
              && tasks == (if scheduled then
                   AbortTask(old(tasks), before.pending)[old(nextId) :=
                     Task(h, before.flag, Sleeping(now + Delay(threshold)), false)]
                 else old(tasks))
    {
      hide FinishDisconnect, AbortTask, Delay, Runtime.Flags;
      ghost var before := Handlers();
      EndDisconnectionAt(h, written, enabled, threshold);
      OneHandler(before, h);
      hide Runtime.Handlers, Runtime.Valid;
    }

    method EndDisconnectionAt(h: Id, written: bool, enabled: bool, threshold: int)
      requires Valid() && h in connections && connections[h].point == TouchingDisconnected
      modifies this`tasks, this`nextId, connections[h]
      ensures Valid()
      ensures forall k :: k in connections && k != h ==> connections[k].Snapshot() == old(connections[k].Snapshot())
      ensures var scheduled, before := written && enabled, old(connections[h].Snapshot());
              && connections[h].Snapshot() == FinishDisconnect(before, written, if scheduled then Some(old(nextId)) else None)
              && nextId == old(nextId) + (if scheduled then 1 else 0)
              && tasks == (if scheduled then
                   AbortTask(old(tasks), before.pending)[old(nextId) :=
                     Task(h, before.flag, Sleeping(now + Delay(threshold)), false)]
                 else old(tasks))
    {
      hide FinishDisconnect, AbortTask, Delay;
      AbortKeepsFlags(tasks, connections[h].pending);
      connections[h].EndDisconnection(this, written, enabled, threshold);
    }

    method BeginConnectionOf(h: Id, clock: Time)
      requires Valid() && h in Handlers() && Handlers()[h].point == Idle
      modifies this`tasks, connections.Values
      ensures Valid() && Flags() == old(Flags())
      ensures Handlers() == old(Handlers())[h := StartConnect(old(Handlers())[h], clock)]
      ensures tasks == AbortTask(old(tasks), old(Handlers())[h].pending)
    {
      hide StartConnect, AbortTask, Runtime.Flags;
      ghost var before := Handlers();
      BeginConnectionAt(h, clock);
      OneHandler(before, h);
      hide Runtime.Handlers, Runtime.Valid;
    }

    method BeginConnectionAt(h: Id, clock: Time)
      requires Valid() && h in connections && connections[h].point == Idle
      modifies this`tasks, connections[h]
      ensures Valid() && connections[h].Snapshot() == StartConnect(old(connections[h].Snapshot()), clock)
      ensures forall k :: k in connections && k != h ==> connections[k].Snapshot() == old(connections[k].Snapshot())
      ensures tasks == AbortTask(old(tasks), old(connections[h].pending))
    {
      hide StartConnect, AbortTask;
      AbortKeepsFlags(tasks, connections[h].pending);
      connections[h].BeginConnection(this, clock);
    }

    method EndConnectionOf(h: Id, written: bool, reconnectEnabled: bool)
      requires Valid() && h in Handlers() && Handlers()[h].point.TouchingConnected? && Handlers()[h].flag in Flags()
      modifies flags.Values, connections.Values
      ensures Valid()
      ensures var before := old(Handlers())[h];
              && Handlers() == old(Handlers())[h := FinishConnect(before, written)]
              && Flags() == old(Flags())[before.flag :=
                   if written then Swap(old(Flags())[before.flag], reconnectEnabled) else old(Flags())[before.flag]]
    {
      hide FinishConnect, Swap;
      ghost var handlers, states := Handlers(), Flags();
      connections[h].EndConnection(written, reconnectEnabled);
      OneFlag(states, connections[h].flag.id);
      OneHandler(handlers, h);
      hide Runtime.Handlers, Runtime.Flags;
    }

    // The delayed task's stretches.

    method WakeTask(t: Id)
      requires Valid() && Enabled(Snapshot(), Wake(t))
      modifies this`tasks
      ensures Valid() && Snapshot() == Take(old(Snapshot()), Wake(t))
    {
      hide Take, Enabled, Runtime.Flags, Runtime.Handlers;
      TaskMakes(Snapshot(), Wake(t));
      tasks := tasks[t := tasks[t].(phase := ReadingGateway)];
    }

    method GatewayRead(t: Id, disconnected: bool)
      requires Valid() && Enabled(Snapshot(), ReadGateway(t, disconnected))
      modifies this`tasks
      ensures Valid() && Snapshot() == Take(old(Snapshot()), ReadGateway(t, disconnected))
    {
      hide Take, Enabled, Runtime.Flags, Runtime.Handlers;
      TaskMakes(Snapshot(), ReadGateway(t, disconnected));
      tasks := if disconnected then tasks[t := tasks[t].(phase := ReadingLocation)] else tasks - {t};
    }

    method LocationRead(t: Id, found: bool)
      requires Valid() && Enabled(Snapshot(), ReadLocation(t, found))
      modifies this`tasks
      ensures Valid() && Snapshot() == Take(old(Snapshot()), ReadLocation(t, found))
    {
      hide Take, Enabled, Runtime.Flags, Runtime.Handlers;
      TaskMakes(Snapshot(), ReadLocation(t, found));
      tasks := if found then tasks[t := tasks[t].(phase := Recording)] else tasks - {t};
    }

    method RecordNotification(t: Id)
      requires Valid() && Enabled(Snapshot(), Record(t))
      modifies this`tasks, this`recorded, flags.Values
      ensures Valid() && Snapshot() == Take(old(Snapshot()), Record(t))
    {
      hide Take, Enabled, Store, Runtime.Flags, Runtime.Handlers;
      RecordMakes(Snapshot(), t);
      SetFlag(tasks[t].flag);
      tasks := tasks - {t};
      recorded := recorded + {t};
    }

    method SetFlag(f: Id)
      requires Valid() && f in flags
      modifies flags.Values
      ensures Valid() && Handlers() == old(Handlers())
      ensures f in old(Flags()) && Flags() == old(Flags())[f := Store(old(Flags())[f])]
    {
      hide Store, Runtime.Handlers;
      ghost var before := Flags();
      flags[f].Record();
      OneFlag(before, f);
    }

    // The manager's part.

    method BuildHandler(link: Link)
      requires Valid()
      modifies this`current, this`flags, this`connections, this`nextId
      ensures Valid() && Snapshot() == Take(old(Snapshot()), Build(link))
    {
      hide Take, Enabled, Runtime.Flags, Runtime.Handlers;
      BuildMakes(Snapshot(), link);
      EnsureFlag();
      AddConnection(link);
    }

    /// The flag on record, or a new one under the next number.
    method EnsureFlag()
      requires Valid()
      modifies this`current, this`flags
      ensures current.Some? && current.value in flags && ValidNext()
      ensures var flag := if old(current).Some? then old(current).value else nextId;
              && current == Some(flag)
              && Flags() == (if old(current).Some? then old(Flags()) else old(Flags())[flag := Flag(false, 0, 0, 0, 0)])
    {
      hide Runtime.Handlers;
      if current.None? {
        ghost var before := Flags();
        var flag := new SharedFlag(nextId);
        flags := flags[nextId := flag];
        current := Some(nextId);
        assert Flags() == before[nextId := Flag(false, 0, 0, 0, 0)];
      }
    }

    /// Valid, but for a flag that may already have the next number.
    ghost predicate ValidNext()
      reads this
    {
      && (forall f :: f in flags ==> flags[f].id == f && f <= nextId)
      && (forall h :: h in connections ==>
            connections[h].id == h && h < nextId && Lookup(flags, connections[h].flag.id) == Some(connections[h].flag))
      && (forall t :: t in tasks ==> tasks[t].flag in flags)
    }

    method AddConnection(link: Link)
      requires current.Some? && current.value in flags && ValidNext()
      modifies this`connections, this`nextId
      ensures Valid() && nextId == old(nextId) + 1 && Flags() == old(Flags())
      ensures Handlers() == old(Handlers())[old(nextId) := NewHandler(current.value, link)]
    {
      hide Runtime.Flags;
      var connection := new Connection(nextId, flags[current.value], link);
      Register(connection);
      nextId := nextId + 1;
    }

    method Register(connection: Connection)
      requires connection.id !in connections
      modifies this`connections
      ensures connections == old(connections)[connection.id := connection]
      ensures Handlers() == old(Handlers())[connection.id := connection.Snapshot()]
    {
      ghost var before := Handlers();
      connections := connections[connection.id := connection];
      assert Handlers() == before[connection.id := connection.Snapshot()];
    }

    method AbortConnection(h: Id)
      requires Valid() && Enabled(Snapshot(), AbortHandler(h))
      modifies connections.Values
      ensures Valid() && Snapshot() == Take(old(Snapshot()), AbortHandler(h))
    {
      hide Take, Enabled, Runtime.Flags;
      ghost var before := Handlers();
      ManagerMakes(Snapshot(), h);
      connections[h].aborted := true;
      OneHandler(before, h);
      hide Runtime.Handlers;
    }

    method DropConnection(h: Id)
      requires Valid() && Enabled(Snapshot(), DropHandler(h))
      modifies this`tasks, this`connections
      ensures Valid() && Snapshot() == Take(old(Snapshot()), DropHandler(h))
    {
      hide Take, Enabled, AbortTask, Runtime.Flags, Runtime.Handlers;
      DropMakes(Snapshot(), h);
      PendingOf(h);
      AbortKeepsFlags(tasks, connections[h].pending);
      AbortPending(connections[h].pending);
      RemoveConnection(h);
    }

    lemma PendingOf(h: Id)
      requires h in Handlers()
      ensures h in connections && connections[h].pending == Handlers()[h].pending
    {
    }

    method RemoveConnection(h: Id)
      requires Valid()
      modifies this`connections
      ensures Valid() && Flags() == old(Flags()) && Handlers() == old(Handlers()) - {h}
    {
      hide Runtime.Flags;
      ghost var before := Handlers();
      connections := connections - {h};
      assert Handlers() == before - {h};
    }

    method ForgetGateway()
      requires Valid()
      modifies this`current
      ensures Valid() && Snapshot() == Take(old(Snapshot()), Forget)
    {
      hide Runtime.Flags, Runtime.Handlers;
      current := None;
    }
  }
}
