/// Disconnect and reconnect notifications of one gateway: handlers, their delayed tasks, and the
/// flag that outlives a handler, as steps that any scheduler may interleave.
module Notifications {
  import opened Common

  type Id = nat
  type Time = int

  // ---------------------------------------------------------------------------------------------
  // A handler between two awaits
  // ---------------------------------------------------------------------------------------------

  /// The connection times a handler holds in memory.
  datatype Link = Link(connectedAt: Option<Time>, disconnectedAt: Option<Time>)
  {
    predicate IsConnected() {
      Common.IsConnected(connectedAt, disconnectedAt)
    }
  }

  /// Where a handler waits: for messages, or for one of the two writes of its row.
  datatype Point = Idle | TouchingDisconnected | TouchingConnected(wasConnected: bool)

  /// A change of the in-memory connection, and whether its write succeeded and it was reported.
  datatype Toggle = Toggle(connected: bool, reported: bool)

  /// `events` are those sent (true for Connected), `toggles` records the changes behind them.
  datatype Handler = Handler(flag: Id, link: Link, pending: Option<Id>, point: Point, aborted: bool,
                             events: seq<bool>, toggles: seq<Toggle>)

  /// A handler as the manager builds it.
  function NewHandler(flag: Id, link: Link): Handler {
    Handler(flag, link, None, Idle, false, [], [])
  }

  /// The stream has ended. A handler that is not connected has nothing to do.
  function StartDisconnect(h: Handler, clock: Time): Handler {
    if h.link.IsConnected() then h.(link := h.link.(disconnectedAt := Some(clock)), point := TouchingDisconnected)
    else h
  }

  /// The write of the row is done: report and, if notifications are enabled, schedule one.
  function FinishDisconnect(h: Handler, written: bool, task: Option<Id>): Handler {
    var toggled := h.(point := Idle, toggles := h.toggles + [Toggle(false, written)]);
    if !written then toggled
    else toggled.(events := h.events + [false], pending := if task.Some? then task else h.pending)
  }

  /// The gateway has its configuration again. A pending notification is given up first.
  function StartConnect(h: Handler, clock: Time): Handler {
    h.(pending := None, point := TouchingConnected(h.link.IsConnected()), link := h.link.(connectedAt := Some(clock)))
  }

  function FinishConnect(h: Handler, written: bool): Handler
    requires h.point.TouchingConnected?
  {
    var idle := h.(point := Idle);
    if h.point.wasConnected then idle
    else idle.(toggles := h.toggles + [Toggle(true, written)], events := h.events + if written then [true] else [])
  }

  // ---------------------------------------------------------------------------------------------
  // The gateway as a whole
  // ---------------------------------------------------------------------------------------------

  /// A delayed task. It is parked while it sleeps, while it reads the gateway's row and while it reads
  /// the location's row. From the arrival of that row on it runs, until it has set the flag.
  datatype Phase = Sleeping(deadline: Time) | ReadingGateway | ReadingLocation | Recording

  datatype Task = Task(owner: Id, flag: Id, phase: Phase, aborted: bool)

  /// The flag, with counts of what went through it: disconnect notifications recorded, those
  /// recorded while the flag was set already, reconnect notifications sent, and flags consumed while
  /// reconnect notifications were turned off.
  datatype Flag = Flag(set_: bool, disconnects: nat, repeats: nat, reconnects: nat, muted: nat)

  datatype World = World(
    now: Time,
    current: Option<Id>,
    flags: map<Id, Flag>,
    handlers: map<Id, Handler>,
    tasks: map<Id, Task>,
    recorded: set<Id>,
    nextId: Id)

  /// Aborting a parked task ends it: it is not polled again. One that runs goes on to its next await.
  /// On the way to the two reads that is the same as ending at once, since nothing is done on it that
  /// others could see; but a task that has the location's row sets the flag first.
  function AbortTask(tasks: map<Id, Task>, task: Option<Id>): map<Id, Task> {
    if task.None? || task.value !in tasks then tasks
    else if tasks[task.value].phase != Recording then tasks - {task.value}
    else tasks[task.value := tasks[task.value].(aborted := true)]
  }

  function Abort(w: World, task: Option<Id>): World {
    w.(tasks := AbortTask(w.tasks, task))
  }

  function SetHandler(w: World, id: Id, h: Handler): World {
    w.(handlers := w.handlers[id := h])
  }

  const SECONDS_PER_MINUTE := 60

  /// The configured threshold in seconds; a negative one counts as none.
  function Delay(threshold: int): nat {
    SECONDS_PER_MINUTE * if threshold < 0 then 0 else threshold
  }

  datatype Step =
    | Tick(now: Time)
    /// The manager starts a handler, with the flag on record for the gateway or a new one.
    | Build(link: Link)
    | AbortHandler(handler: Id)
    /// An aborted handler is dropped, and its pending task aborted with it. It may go on until then,
    /// if the abort found it running.
    | DropHandler(handler: Id)
    /// The gateway is deleted: the manager forgets its flag.
    | Forget
    | Lose(handler: Id, clock: Time)
    | Lost(handler: Id, written: bool, enabled: bool, threshold: int)
    | Return(handler: Id, clock: Time)
    | Returned(handler: Id, written: bool, reconnectEnabled: bool)
    | Wake(task: Id)
    /// It reads the gateway's row: it goes on if the row is there and not connected.
    | ReadGateway(task: Id, disconnected: bool)
    | ReadLocation(task: Id, found: bool)
    | Record(task: Id)

  predicate Enabled(w: World, step: Step) {
    match step
    case Tick(now) => w.now <= now
    case Build(_) => true
    case AbortHandler(h) => h in w.handlers
    case DropHandler(h) => h in w.handlers && w.handlers[h].aborted
    case Forget => true
    case Lose(h, _) => h in w.handlers && w.handlers[h].point == Idle
    case Lost(h, _, _, _) => h in w.handlers && w.handlers[h].point == TouchingDisconnected
    case Return(h, _) => h in w.handlers && w.handlers[h].point == Idle
    case Returned(h, _, _) => h in w.handlers && w.handlers[h].point.TouchingConnected? && w.handlers[h].flag in w.flags
    case Wake(t) => t in w.tasks && w.tasks[t].phase.Sleeping? && w.tasks[t].phase.deadline <= w.now
    case ReadGateway(t, _) => t in w.tasks && w.tasks[t].phase == ReadingGateway
    case ReadLocation(t, _) => t in w.tasks && w.tasks[t].phase == ReadingLocation
    case Record(t) => t in w.tasks && w.tasks[t].phase == Recording && w.tasks[t].flag in w.flags
  }

  /// Recording a disconnect notification sets the flag.
  function Store(f: Flag): Flag {
    f.(set_ := true, disconnects := f.disconnects + 1, repeats := f.repeats + if f.set_ then 1 else 0)
  }

  /// Swapping the flag out: a set flag is worth one reconnect notification.
  function Swap(f: Flag, reconnectEnabled: bool): Flag {
    if !f.set_ then f
    else if reconnectEnabled then f.(set_ := false, reconnects := f.reconnects + 1)
    else f.(set_ := false, muted := f.muted + 1)
  }

  function Take(w: World, step: Step): World
    requires Enabled(w, step)
  {
    match step
    case Tick(now) => w.(now := now)
    case Build(link) =>
      if w.current.Some? then SetHandler(w, w.nextId, NewHandler(w.current.value, link)).(nextId := w.nextId + 1)
      else
        SetHandler(w, w.nextId, NewHandler(w.nextId, link)).(
          nextId := w.nextId + 1, current := Some(w.nextId), flags := w.flags[w.nextId := Flag(false, 0, 0, 0, 0)])
    case AbortHandler(h) => SetHandler(w, h, w.handlers[h].(aborted := true))
    case DropHandler(h) => Abort(w, w.handlers[h].pending).(handlers := w.handlers - {h})
    case Forget => w.(current := None)
    case Lose(h, clock) => SetHandler(w, h, StartDisconnect(w.handlers[h], clock))
    case Lost(h, written, enabled, threshold) =>
      if written && enabled then
        var w' := Abort(w, w.handlers[h].pending);
        SetHandler(w', h, FinishDisconnect(w.handlers[h], written, Some(w.nextId))).(
          tasks := w'.tasks[w.nextId := Task(h, w.handlers[h].flag, Sleeping(w.now + Delay(threshold)), false)],
          nextId := w.nextId + 1)
      else
        SetHandler(w, h, FinishDisconnect(w.handlers[h], written, None))
    case Return(h, clock) => SetHandler(Abort(w, w.handlers[h].pending), h, StartConnect(w.handlers[h], clock))
    case Returned(h, written, reconnectEnabled) =>
      var flag := w.handlers[h].flag;
      var w' := SetHandler(w, h, FinishConnect(w.handlers[h], written));
      if written then w'.(flags := w.flags[flag := Swap(w.flags[flag], reconnectEnabled)]) else w'
    case Wake(t) => w.(tasks := w.tasks[t := w.tasks[t].(phase := ReadingGateway)])
    case ReadGateway(t, disconnected) =>
      if disconnected then w.(tasks := w.tasks[t := w.tasks[t].(phase := ReadingLocation)])
      else w.(tasks := w.tasks - {t})
    case ReadLocation(t, found) =>
      if found then w.(tasks := w.tasks[t := w.tasks[t].(phase := Recording)])
      else w.(tasks := w.tasks - {t})
    case Record(t) =>
      var flag := w.tasks[t].flag;
      w.(tasks := w.tasks - {t}, flags := w.flags[flag := Store(w.flags[flag])], recorded := w.recorded + {t})
  }

  /// A run: one world after another, each by an enabled step.
  ghost predicate IsRun(worlds: seq<World>, steps: seq<Step>) {
    && |worlds| == |steps| + 1
    && (forall i :: 0 <= i < |steps| ==> Enabled(worlds[i], steps[i]) && worlds[i + 1] == Take(worlds[i], steps[i]))
  }
}
