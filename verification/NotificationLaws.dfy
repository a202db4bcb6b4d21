/// What holds over every interleaving of handlers, delayed tasks, late aborts and rebuilds.
module NotificationLaws {
  import opened Common
  import opened Notifications

  // ---------------------------------------------------------------------------------------------
  // Pairing
  // ---------------------------------------------------------------------------------------------

  /// Every disconnect notification recorded is outstanding, was answered by a reconnect
  /// notification, was answered while those were turned off, or repeats an outstanding one.
  predicate Balanced(f: Flag) {
    f.disconnects == f.reconnects + f.muted + f.repeats + if f.set_ then 1 else 0
  }

  ghost predicate Paired(w: World) {
    && (forall f :: f in w.flags ==> f < w.nextId && Balanced(w.flags[f]))
    && (forall h :: h in w.handlers ==> h < w.nextId && w.handlers[h].flag in w.flags)
    && (forall t :: t in w.tasks ==> t < w.nextId && w.tasks[t].flag in w.flags)
    && (w.current.Some? ==> w.current.value in w.flags)
  }

  lemma AbortKeepsPaired(w: World, task: Option<Id>)
    requires Paired(w)
    ensures Paired(Abort(w, task))
  {
  }

  lemma SetHandlerKeepsPaired(w: World, id: Id, h: Handler)
    requires Paired(w) && id < w.nextId && h.flag in w.flags
    ensures Paired(SetHandler(w, id, h))
  {
  }

  lemma SetFlagKeepsPaired(w: World, id: Id, f: Flag)
    requires Paired(w) && id < w.nextId && Balanced(f)
    ensures Paired(w.(flags := w.flags[id := f]))
  {
  }

  /// Steps of a task change its entry, remove it, or record its notification.
  lemma TaskStepKeepsPaired(w: World, step: Step)
    requires Paired(w) && Enabled(w, step)
    requires step.Wake? || step.ReadGateway? || step.ReadLocation? || step.Record?
    ensures Paired(Take(w, step))
  {
  }

  lemma LostKeepsPaired(w: World, step: Step)
    requires Paired(w) && Enabled(w, step) && step.Lost?
    ensures Paired(Take(w, step))
  {
    AbortKeepsPaired(w, w.handlers[step.handler].pending);
  }

  lemma StepKeepsPaired(w: World, step: Step)
    requires Paired(w) && Enabled(w, step)
    ensures Paired(Take(w, step))
  {
    match step
    case Lost(h, written, enabled, delay) => LostKeepsPaired(w, step);
    case Return(h, clock) =>
      AbortKeepsPaired(w, w.handlers[h].pending);
      SetHandlerKeepsPaired(Abort(w, w.handlers[h].pending), h, StartConnect(w.handlers[h], clock));
    case Returned(h, written, reconnectEnabled) =>
      var w' := SetHandler(w, h, FinishConnect(w.handlers[h], written));
      SetHandlerKeepsPaired(w, h, FinishConnect(w.handlers[h], written));
      SetFlagKeepsPaired(w', w.handlers[h].flag, Swap(w.flags[w.handlers[h].flag], reconnectEnabled));
    case DropHandler(h) => AbortKeepsPaired(w, w.handlers[h].pending);
    case Wake(_) => TaskStepKeepsPaired(w, step);
    case ReadGateway(_, _) => TaskStepKeepsPaired(w, step);
    case ReadLocation(_, _) => TaskStepKeepsPaired(w, step);
    case Record(_) => TaskStepKeepsPaired(w, step);
    case _ =>
  }

  /// In every run, reconnect notifications and an outstanding flag never outnumber the disconnect
  /// notifications recorded for the flag.
  lemma {:induction false} RunKeepsPaired(worlds: seq<World>, steps: seq<Step>, i: nat)
    requires IsRun(worlds, steps) && Paired(worlds[0]) && i < |worlds|
    ensures Paired(worlds[i])
    ensures forall f :: f in worlds[i].flags ==>
              worlds[i].flags[f].reconnects + (if worlds[i].flags[f].set_ then 1 else 0) <= worlds[i].flags[f].disconnects
  {
    if i > 0 {
      hide Enabled, Take;
      RunKeepsPaired(worlds, steps, i - 1);
      StepKeepsPaired(worlds[i - 1], steps[i - 1]);
    }
  }

  predicate Consumes(w: World, step: Step, flag: Id) {
    step.Returned? && step.written && step.handler in w.handlers && w.handlers[step.handler].flag == flag
  }

  /// An outstanding flag stays on record for the gateway, and set, over any number of steps other
  /// than a reconnect that consumes it and the deletion of the gateway. In particular a handler
  /// rebuilt in between gets that very flag.
  lemma {:induction false} OutstandingSurvives(worlds: seq<World>, steps: seq<Step>, i: nat, j: nat, flag: Id)
    requires IsRun(worlds, steps) && i <= j < |worlds|
    requires Outstanding(worlds[i], flag)
    requires forall k :: i <= k < j ==> !steps[k].Forget? && !Consumes(worlds[k], steps[k], flag)
    ensures Outstanding(worlds[j], flag)
    decreases j
  {
    if i < j {
      hide Paired, Take, Enabled, Outstanding, Consumes;
      OutstandingSurvives(worlds, steps, i, j - 1, flag);
      StepKeepsOutstanding(worlds[j - 1], steps[j - 1], flag);
    }
  }

  ghost predicate Outstanding(w: World, flag: Id) {
    w.current == Some(flag) && flag in w.flags && w.flags[flag].set_
  }

  lemma StepKeepsOutstanding(w: World, step: Step, flag: Id)
    requires Enabled(w, step) && Outstanding(w, flag) && !step.Forget? && !Consumes(w, step, flag)
    ensures Outstanding(Take(w, step), flag)
  {
  }

  lemma RebuildKeepsFlag(w: World, link: Link)
    requires w.current.Some?
    ensures var w' := Take(w, Build(link));
            && w.nextId in w'.handlers && w'.handlers[w.nextId].flag == w.current.value
            && w'.current == w.current && w'.flags == w.flags
  {
  }

  // ---------------------------------------------------------------------------------------------
  // Short outages
  // ---------------------------------------------------------------------------------------------

  /// A task that is over: its notification can never be recorded any more.
  predicate Gone(w: World, task: Id) {
    task < w.nextId && task !in w.tasks && task !in w.recorded
  }

  lemma {:induction false} GoneForever(worlds: seq<World>, steps: seq<Step>, task: Id, i: nat, j: nat)
    requires IsRun(worlds, steps) && i <= j < |worlds| && Gone(worlds[i], task)
    ensures Gone(worlds[j], task)
  {
    if i < j {
      hide Enabled, Take, Gone;
      GoneForever(worlds, steps, task, i, j - 1);
      StepKeepsGone(worlds[j - 1], steps[j - 1], task);
    }
  }

  lemma StepKeepsGone(w: World, step: Step, task: Id)
    requires Enabled(w, step) && Gone(w, task)
    ensures Gone(Take(w, step), task)
  {
  }

  ghost predicate Fresh(w: World) {
    forall t :: t in w.recorded ==> t < w.nextId && t !in w.tasks
  }

  lemma {:induction false} RunKeepsFresh(worlds: seq<World>, steps: seq<Step>, i: nat)
    requires IsRun(worlds, steps) && Paired(worlds[0]) && Fresh(worlds[0]) && i < |worlds|
    ensures Fresh(worlds[i])
  {
    if i > 0 {
      hide Enabled, Take, Fresh, Paired;
      RunKeepsFresh(worlds, steps, i - 1);
      RunKeepsPaired(worlds, steps, i - 1);
      StepKeepsFresh(worlds[i - 1], steps[i - 1]);
    }
  }

  lemma StepKeepsFresh(w: World, step: Step)
    requires Enabled(w, step) && Paired(w) && Fresh(w)
    ensures Fresh(Take(w, step))
  {
  }

  /// A gateway that is back before its pending task is due is never reported as down for that
  /// outage, whether or not its row can then be written.
  lemma ShortOutageIsSilent(worlds: seq<World>, steps: seq<Step>, i: nat, j: nat)
    requires IsRun(worlds, steps) && Paired(worlds[0]) && Fresh(worlds[0])
    requires i < |steps| && steps[i].Return? && i < j < |worlds|
    requires var h := worlds[i].handlers[steps[i].handler];
             && h.pending.Some? && h.pending.value in worlds[i].tasks
             && worlds[i].tasks[h.pending.value].phase.Sleeping?
             && worlds[i].now < worlds[i].tasks[h.pending.value].phase.deadline
    ensures Gone(worlds[j], worlds[i].handlers[steps[i].handler].pending.value)
  {
    RunKeepsPaired(worlds, steps, i);
    RunKeepsFresh(worlds, steps, i);
    var task := worlds[i].handlers[steps[i].handler].pending.value;
    assert worlds[i + 1] == Take(worlds[i], steps[i]);
    GoneForever(worlds, steps, task, i + 1, j);
  }

  /// Some continuation records the notification of a task.
  ghost predicate MayRecord(w: World, task: Id) {
    exists worlds: seq<World>, steps: seq<Step> :: IsRun(worlds, steps) && worlds[0] == w && task in worlds[|steps|].recorded
  }

  lemma RecordedMayRecord(w: World, task: Id)
    requires task in w.recorded
    ensures MayRecord(w, task)
  {
    assert IsRun([w], []);
  }

  lemma StepMayRecord(w: World, step: Step, task: Id)
    requires Enabled(w, step) && MayRecord(Take(w, step), task)
    ensures MayRecord(w, task)
  {
    hide Enabled, Take;
    var worlds: seq<World>, steps: seq<Step> :| IsRun(worlds, steps) && worlds[0] == Take(w, step) && task in worlds[|steps|].recorded;
    var worlds', steps' := [w] + worlds, [step] + steps;
    forall i | 0 <= i < |steps'|
      ensures Enabled(worlds'[i], steps'[i]) && worlds'[i + 1] == Take(worlds'[i], steps'[i])
    {
      if i > 0 {
        assert worlds'[i] == worlds[i - 1] && steps'[i] == steps[i - 1] && worlds'[i + 1] == worlds[i];
      }
    }
    assert IsRun(worlds', steps') && worlds'[|steps'|] == worlds[|steps|];
  }

  /// A gateway that is back is spared the report on its outage exactly if its pending task does not
  /// have the location's row yet: from then on the task sets the flag before an abort can stop it.
  lemma SilentExactly(w: World, h: Id, clock: Time)
    requires Paired(w) && Fresh(w) && Enabled(w, Return(h, clock))
    requires w.handlers[h].pending.Some? && w.handlers[h].pending.value in w.tasks
    ensures !MayRecord(Take(w, Return(h, clock)), w.handlers[h].pending.value) <==>
            w.tasks[w.handlers[h].pending.value].phase != Recording
  {
    var t := w.handlers[h].pending.value;
    var w' := Take(w, Return(h, clock));
    if w.tasks[t].phase != Recording {
      assert Gone(w', t);
      forall worlds: seq<World>, steps: seq<Step> | IsRun(worlds, steps) && worlds[0] == w'
        ensures t !in worlds[|steps|].recorded
      {
        GoneForever(worlds, steps, t, 0, |steps|);
      }
    } else {
      RecordedMayRecord(Take(w', Record(t)), t);
      StepMayRecord(w', Record(t), t);
    }
  }

  // ---------------------------------------------------------------------------------------------
  // Pending tasks
  // ---------------------------------------------------------------------------------------------

  /// After a handler marks itself disconnected it is so exactly when the clock has moved on since
  /// it connected: with an equal or earlier reading it still takes itself for connected.
  lemma StampDecides(h: Handler, clock: Time)
    requires h.link.IsConnected()
    ensures StartDisconnect(h, clock).link.IsConnected() <==> clock <= h.link.connectedAt.value
  {
  }

  /// The clock readings of a handler move forward at the steps that change its connection.
  predicate ClockAdvances(w: World, step: Step) {
    match step
    case Lose(h, clock) =>
      h in w.handlers && w.handlers[h].link.IsConnected() ==> w.handlers[h].link.connectedAt.value < clock
    case Return(h, clock) =>
      h in w.handlers && w.handlers[h].link.disconnectedAt.Some? ==> w.handlers[h].link.disconnectedAt.value <= clock
    case _ => true
  }

  /// A handler with a pending notification is not connected; while it writes a row it has none.
  predicate PendingMeansDown(h: Handler) {
    && (h.pending.Some? ==> !h.link.IsConnected())
    && (h.point.TouchingDisconnected? ==> !h.link.IsConnected() && h.pending.None?)
    && (h.point.TouchingConnected? ==> h.link.IsConnected() && h.pending.None?)
  }

  /// A task that was not aborted is the pending one of its handler.
  ghost predicate Owned(w: World) {
    && (forall h :: h in w.handlers ==> h < w.nextId && PendingMeansDown(w.handlers[h]))
    && (forall h :: h in w.handlers && w.handlers[h].pending.Some? ==> w.handlers[h].pending.value < w.nextId)
    && (forall t :: t in w.tasks ==> t < w.nextId)
    && (forall t :: t in w.tasks && !w.tasks[t].aborted ==>
          w.tasks[t].owner in w.handlers && w.handlers[w.tasks[t].owner].pending == Some(t))
  }

  lemma AbortKeepsOwned(w: World, h: Id)
    requires Owned(w) && h in w.handlers
    ensures var w' := Abort(w, w.handlers[h].pending);
            Owned(w') && forall t :: t in w'.tasks && !w'.tasks[t].aborted ==> w'.tasks[t].owner != h
  {
  }

  /// A handler without a live task may change, as long as it stays down while one is pending.
  lemma SetHandlerKeepsOwned(w: World, h: Id, handler: Handler)
    requires Owned(w) && h in w.handlers && PendingMeansDown(handler)
    requires handler.pending == w.handlers[h].pending ||
             (handler.pending.None? && forall t :: t in w.tasks && !w.tasks[t].aborted ==> w.tasks[t].owner != h)
    ensures Owned(SetHandler(w, h, handler))
  {
  }

  lemma TaskStepKeepsOwned(w: World, step: Step)
    requires Owned(w) && Enabled(w, step)
    requires step.Wake? || step.ReadGateway? || step.ReadLocation? || step.Record?
    ensures Owned(Take(w, step))
  {
  }

  lemma ManagerStepKeepsOwned(w: World, step: Step)
    requires Owned(w) && Enabled(w, step)
    requires step.Tick? || step.Build? || step.AbortHandler? || step.DropHandler? || step.Forget?
    ensures Owned(Take(w, step))
  {
    if step.DropHandler? {
      AbortKeepsOwned(w, step.handler);
    }
  }

  lemma LostKeepsOwned(w: World, step: Step)
    requires Owned(w) && Enabled(w, step) && step.Lost?
    ensures Owned(Take(w, step))
  {
    AbortKeepsOwned(w, step.handler);
  }

  lemma StepKeepsOwned(w: World, step: Step)
    requires Owned(w) && Enabled(w, step) && ClockAdvances(w, step)
    ensures Owned(Take(w, step))
  {
    match step
    case Lose(h, clock) => SetHandlerKeepsOwned(w, h, StartDisconnect(w.handlers[h], clock));
    case Lost(_, _, _, _) => LostKeepsOwned(w, step);
    case Return(h, clock) =>
      AbortKeepsOwned(w, h);
      SetHandlerKeepsOwned(Abort(w, w.handlers[h].pending), h, StartConnect(w.handlers[h], clock));
    case Returned(h, written, _) => SetHandlerKeepsOwned(w, h, FinishConnect(w.handlers[h], written));
    case Wake(_) => TaskStepKeepsOwned(w, step);
    case ReadGateway(_, _) => TaskStepKeepsOwned(w, step);
    case ReadLocation(_, _) => TaskStepKeepsOwned(w, step);
    case Record(_) => TaskStepKeepsOwned(w, step);
    case _ => ManagerStepKeepsOwned(w, step);
  }

  lemma {:induction false} RunKeepsOwned(worlds: seq<World>, steps: seq<Step>, i: nat)
    requires IsRun(worlds, steps) && Owned(worlds[0]) && i < |worlds|
    requires forall k :: 0 <= k < |steps| ==> ClockAdvances(worlds[k], steps[k])
    ensures Owned(worlds[i])
  {
    if i > 0 {
      hide Enabled, Take, Owned, ClockAdvances;
      RunKeepsOwned(worlds, steps, i - 1);
      StepKeepsOwned(worlds[i - 1], steps[i - 1]);
    }
  }

  predicate Live(w: World, t: Id) {
    t in w.tasks && !w.tasks[t].aborted
  }

  /// So a handler has at most one task that was not aborted, and scheduling a notification never
  /// finds one already pending.
  lemma OnePendingTask(worlds: seq<World>, steps: seq<Step>, i: nat)
    requires IsRun(worlds, steps) && Owned(worlds[0]) && i < |worlds|
    requires forall k :: 0 <= k < |steps| ==> ClockAdvances(worlds[k], steps[k])
    ensures forall t, u :: Live(worlds[i], t) && Live(worlds[i], u) ==>
              worlds[i].tasks[t].owner == worlds[i].tasks[u].owner ==> t == u
    ensures i < |steps| && steps[i].Lost? ==> worlds[i].handlers[steps[i].handler].pending.None?
  {
    RunKeepsOwned(worlds, steps, i);
  }

  /// With a clock that stands still between connecting and disconnecting, a second disconnect
  /// finds a notification pending.
  lemma TiedClockFindsPending(w: World, h: Id, clock: Time)
    requires h in w.handlers && w.handlers[h].point == Idle && w.handlers[h].link.connectedAt == Some(clock)
    requires w.handlers[h].link.IsConnected()
    ensures Enabled(w, Lose(h, clock))
    ensures var w1 := Take(w, Lose(h, clock)); Enabled(w1, Lost(h, true, true, 60))
    ensures var w2 := Take(Take(w, Lose(h, clock)), Lost(h, true, true, 60)); Enabled(w2, Lose(h, clock))
    ensures var w3 := Take(Take(Take(w, Lose(h, clock)), Lost(h, true, true, 60)), Lose(h, clock));
            Enabled(w3, Lost(h, true, true, 60)) && w3.handlers[h].pending == Some(w.nextId)
  {
  }

  // ---------------------------------------------------------------------------------------------
  // Connection events
  // ---------------------------------------------------------------------------------------------

  predicate Alternating(toggles: seq<Toggle>) {
    forall i :: 0 <= i < |toggles| - 1 ==> toggles[i].connected != toggles[i + 1].connected
  }

  predicate AlternatingEvents(events: seq<bool>) {
    forall i :: 0 <= i < |events| - 1 ==> events[i] != events[i + 1]
  }

  function Reported(toggles: seq<Toggle>): seq<bool> {
    if toggles == [] then []
    else
      var n := |toggles| - 1;
      Reported(toggles[..n]) + if toggles[n].reported then [toggles[n].connected] else []
  }

  predicate LastIs(toggles: seq<Toggle>, connected: bool) {
    toggles != [] ==> toggles[|toggles| - 1].connected == connected
  }

  /// The changes of a handler's connection alternate, its events are those reported, and the last
  /// change is the one in force.
  predicate History(h: Handler) {
    && Alternating(h.toggles)
    && h.events == Reported(h.toggles)
    && match h.point
       case Idle => LastIs(h.toggles, h.link.IsConnected())
       case TouchingDisconnected => !h.link.IsConnected() && LastIs(h.toggles, true)
       case TouchingConnected(was) => h.link.IsConnected() && LastIs(h.toggles, was)
  }

  lemma ReportedAppend(toggles: seq<Toggle>, t: Toggle)
    ensures Reported(toggles + [t]) == Reported(toggles) + if t.reported then [t.connected] else []
    ensures Alternating(toggles) && LastIs(toggles, !t.connected) ==> Alternating(toggles + [t])
  {
    assert (toggles + [t])[..|toggles|] == toggles;
  }

  lemma StartsKeepHistory(h: Handler, clock: Time)
    requires History(h) && h.point == Idle
    ensures (h.link.IsConnected() ==> h.link.connectedAt.value < clock) ==> History(StartDisconnect(h, clock))
    ensures (h.link.disconnectedAt.Some? ==> h.link.disconnectedAt.value <= clock) ==> History(StartConnect(h, clock))
  {
  }

  lemma FinishesKeepHistory(h: Handler, written: bool, task: Option<Id>)
    requires History(h)
    ensures h.point == TouchingDisconnected ==> History(FinishDisconnect(h, written, task))
    ensures h.point.TouchingConnected? ==> History(FinishConnect(h, written))
  {
    ReportedAppend(h.toggles, Toggle(false, written));
    ReportedAppend(h.toggles, Toggle(true, written));
  }

  ghost predicate Histories(w: World) {
    forall h :: h in w.handlers ==> History(w.handlers[h])
  }

  lemma StepKeepsHistory(w: World, step: Step)
    requires Histories(w) && Enabled(w, step) && ClockAdvances(w, step)
    ensures Histories(Take(w, step))
  {
    hide History, Abort, StartDisconnect, StartConnect, FinishDisconnect, FinishConnect;
    AbortLeavesHandlers(w);
    match step
    case Build(link) => NewHistory(link);
    case AbortHandler(h) => AbortedHistory(w.handlers[h]);
    case Lose(h, clock) => StartsKeepHistory(w.handlers[h], clock);
    case Return(h, clock) => StartsKeepHistory(w.handlers[h], clock);
    case Lost(h, written, _, _) =>
      FinishesKeepHistory(w.handlers[h], written, Some(w.nextId));
      FinishesKeepHistory(w.handlers[h], written, None);
    case Returned(h, written, _) => FinishesKeepHistory(w.handlers[h], written, None);
    case _ =>
  }

  lemma AbortLeavesHandlers(w: World)
    ensures forall task :: Abort(w, task).handlers == w.handlers
  {
  }

  lemma NewHistory(link: Link)
    ensures forall flag :: History(NewHandler(flag, link))
  {
  }

  lemma AbortedHistory(h: Handler)
    requires History(h)
    ensures History(h.(aborted := true))
  {
  }

  lemma {:induction false} RunKeepsHistory(worlds: seq<World>, steps: seq<Step>, i: nat)
    requires IsRun(worlds, steps) && i < |worlds|
    requires Histories(worlds[0])
    requires forall k :: 0 <= k < |steps| ==> ClockAdvances(worlds[k], steps[k])
    ensures Histories(worlds[i])
  {
    if i > 0 {
      hide Enabled, Take, Histories, ClockAdvances;
      RunKeepsHistory(worlds, steps, i - 1);
      StepKeepsHistory(worlds[i - 1], steps[i - 1]);
    }
  }

  /// Two reported changes with none reported in between.
  predicate Neighbours(toggles: seq<Toggle>, i: nat, j: nat) {
    && i < j < |toggles| && toggles[i].reported && toggles[j].reported
    && (forall k :: i < k < j ==> !toggles[k].reported)
  }

  lemma {:induction false} Parity(toggles: seq<Toggle>, i: nat, j: nat)
    requires Alternating(toggles) && i <= j < |toggles|
    ensures toggles[i].connected == toggles[j].connected <==> (j - i) % 2 == 0
  {
    if i < j {
      Parity(toggles, i, j - 1);
      assert toggles[j - 1].connected != toggles[j - 1 + 1].connected;
    }
  }

  /// The last reported change, if there is one, gave the last event.
  lemma {:induction false} LastReported(toggles: seq<Toggle>) returns (last: Option<nat>)
    ensures match last
            case None => Reported(toggles) == [] && forall k :: 0 <= k < |toggles| ==> !toggles[k].reported
            case Some(i) =>
              && i < |toggles| && toggles[i].reported
              && (forall k :: i < k < |toggles| ==> !toggles[k].reported)
              && Reported(toggles) != [] && Reported(toggles)[|Reported(toggles)| - 1] == toggles[i].connected
  {
    if toggles == [] {
      last := None;
    } else {
      var n := |toggles| - 1;
      if toggles[n].reported {
        last := Some(n);
      } else {
        last := LastReported(toggles[..n]);
        assert forall k :: 0 <= k < n ==> toggles[..n][k] == toggles[k];
      }
    }
  }

  /// Between any two neighbouring reported changes an even number went unreported.
  ghost predicate EvenGaps(toggles: seq<Toggle>) {
    forall i: nat, j: nat | Neighbours(toggles, i, j) :: (j - i - 1) % 2 == 0
  }

  lemma NeighboursBefore(toggles: seq<Toggle>, i: nat, j: nat)
    requires toggles != [] && j < |toggles| - 1
    ensures Neighbours(toggles[..|toggles| - 1], i, j) <==> Neighbours(toggles, i, j)
  {
  }

  /// The last change has no neighbour before it, or one.
  lemma NeighbourOfLast(toggles: seq<Toggle>, last: Option<nat>, i: nat)
    requires toggles != []
    requires var n := |toggles| - 1;
             match last
             case None => forall k :: 0 <= k < n ==> !toggles[k].reported
             case Some(p) => p < n && toggles[p].reported && forall k :: p < k < n ==> !toggles[k].reported
    ensures Neighbours(toggles, i, |toggles| - 1) <==> toggles[|toggles| - 1].reported && last == Some(i)
  {
  }

  lemma GapsNext(toggles: seq<Toggle>, last: Option<nat>)
    requires toggles != []
    requires var n := |toggles| - 1;
             match last
             case None => forall k :: 0 <= k < n ==> !toggles[k].reported
             case Some(p) => p < n && toggles[p].reported && forall k :: p < k < n ==> !toggles[k].reported
    ensures var n := |toggles| - 1;
            EvenGaps(toggles) <==>
            EvenGaps(toggles[..n]) && (toggles[n].reported && last.Some? ==> (n - last.value - 1) % 2 == 0)
  {
    var n := |toggles| - 1;
    forall i: nat, j: nat | j < n ensures Neighbours(toggles[..n], i, j) <==> Neighbours(toggles, i, j) {
      NeighboursBefore(toggles, i, j);
    }
    forall i: nat ensures Neighbours(toggles, i, n) <==> toggles[n].reported && last == Some(i) {
      NeighbourOfLast(toggles, last, i);
    }
    assert forall i: nat, j: nat | Neighbours(toggles[..n], i, j) :: j < n;
    assert forall i: nat, j: nat | Neighbours(toggles, i, j) :: j <= n;
    hide Neighbours;
  }

  /// The events of a handler alternate exactly when, between any two neighbouring ones, the writes
  /// that failed and so kept a change unreported are even in number.
  lemma {:induction false} EventsAlternateExactly(toggles: seq<Toggle>)
    requires Alternating(toggles)
    ensures AlternatingEvents(Reported(toggles)) <==> EvenGaps(toggles)
  {
    if toggles != [] {
      var n := |toggles| - 1;
      var init := toggles[..n];
      var events := Reported(init);
      EventsAlternateExactly(init);
      var last := LastReported(init);
      if last.Some? {
        Parity(toggles, last.value, n);
        AppendAlternates(events, toggles[n].connected);
      }
      assert forall k :: 0 <= k < n ==> init[k] == toggles[k];
      hide EvenGaps, Alternating, AlternatingEvents;
      GapsNext(toggles, last);
      if !toggles[n].reported {
        assert Reported(toggles) == events;
      } else if last.None? {
        assert Reported(toggles) == [toggles[n].connected];
        OneEventAlternates(toggles[n].connected);
      }
    }
  }

  lemma OneEventAlternates(e: bool)
    ensures AlternatingEvents([e]) && AlternatingEvents([])
  {
  }

  lemma AppendAlternates(events: seq<bool>, e: bool)
    requires events != []
    ensures AlternatingEvents(events + [e]) <==> AlternatingEvents(events) && events[|events| - 1] != e
  {
    var all := events + [e];
    if AlternatingEvents(all) {
      forall i | 0 <= i < |events| - 1 ensures events[i] != events[i + 1] {
        assert all[i] != all[i + 1];
      }
      assert all[|events| - 1] != all[|events| - 1 + 1];
    }
  }

  /// The world of one gateway, without tasks.
  function Alone(h: Handler): World {
    World(0, Some(0), map[0 := Flag(false, 0, 0, 0, 0)], map[0 := h], map[], {}, 1)
  }

  lemma AloneSteps(h: Handler, clock: Time, written: bool)
    requires h.flag == 0 && h.pending.None?
    ensures h.point == Idle ==> Enabled(Alone(h), Lose(0, clock)) && Enabled(Alone(h), Return(0, clock))
    ensures h.point == Idle ==> Take(Alone(h), Lose(0, clock)) == Alone(StartDisconnect(h, clock))
    ensures h.point == Idle ==> Take(Alone(h), Return(0, clock)) == Alone(StartConnect(h, clock))
    ensures h.point == TouchingDisconnected ==>
              && Enabled(Alone(h), Lost(0, written, false, 0))
              && Take(Alone(h), Lost(0, written, false, 0)) == Alone(FinishDisconnect(h, written, None))
    ensures h.point.TouchingConnected? ==>
              && Enabled(Alone(h), Returned(0, false, true))
              && Take(Alone(h), Returned(0, false, true)) == Alone(FinishConnect(h, false))
  {
    forall h' ensures map[0 := h][0 := h'] == map[0 := h'] {
    }
  }

  /// A connected handler that goes down, comes back without being able to write that, and goes down
  /// again.
  const REPEATING := [Lose(0, 1), Lost(0, true, false, 0), Return(0, 2), Returned(0, false, true),
                      Lose(0, 3), Lost(0, true, false, 0)]

  const DOWN := Toggle(false, true)

  /// The handler before each of these steps, and after the last.
  const DOWN_TWICE := [
    Handler(0, Link(Some(0), None), None, Idle, false, [], []),
    Handler(0, Link(Some(0), Some(1)), None, TouchingDisconnected, false, [], []),
    Handler(0, Link(Some(0), Some(1)), None, Idle, false, [false], [DOWN]),
    Handler(0, Link(Some(2), Some(1)), None, TouchingConnected(false), false, [false], [DOWN]),
    Handler(0, Link(Some(2), Some(1)), None, Idle, false, [false], [DOWN, Toggle(true, false)]),
    Handler(0, Link(Some(2), Some(3)), None, TouchingDisconnected, false, [false], [DOWN, Toggle(true, false)]),
    Handler(0, Link(Some(2), Some(3)), None, Idle, false, [false, false], [DOWN, Toggle(true, false), DOWN])]

  lemma HandlersRepeat()
    ensures StartDisconnect(DOWN_TWICE[0], 1) == DOWN_TWICE[1] && FinishDisconnect(DOWN_TWICE[1], true, None) == DOWN_TWICE[2]
    ensures StartConnect(DOWN_TWICE[2], 2) == DOWN_TWICE[3] && FinishConnect(DOWN_TWICE[3], false) == DOWN_TWICE[4]
    ensures StartDisconnect(DOWN_TWICE[4], 3) == DOWN_TWICE[5] && FinishDisconnect(DOWN_TWICE[5], true, None) == DOWN_TWICE[6]
  {
  }

  lemma StepRepeats(i: nat)
    requires i < 6
    ensures Enabled(Alone(DOWN_TWICE[i]), REPEATING[i])
    ensures Take(Alone(DOWN_TWICE[i]), REPEATING[i]) == Alone(DOWN_TWICE[i + 1])
  {
    hide Take, Enabled, StartDisconnect, FinishDisconnect, StartConnect, FinishConnect, Alone;
    HandlersRepeat();
    AloneSteps(DOWN_TWICE[i], if i == 0 then 1 else if i == 2 then 2 else 3, true);
  }

  lemma ClockRepeats(i: nat)
    requires i < 6
    ensures ClockAdvances(Alone(DOWN_TWICE[i]), REPEATING[i])
  {
  }

  /// With a clock that moves on at every step, it reports two disconnections in a row.
  lemma EventsRepeat() returns (worlds: seq<World>)
    ensures IsRun(worlds, REPEATING) && worlds[0] == Alone(NewHandler(0, Link(Some(0), None)))
    ensures forall k :: 0 <= k < |REPEATING| ==> ClockAdvances(worlds[k], REPEATING[k])
    ensures 0 in worlds[6].handlers && worlds[6].handlers[0].events == [false, false]
  {
    worlds := seq(7, i requires 0 <= i < 7 => Alone(DOWN_TWICE[i]));
    hide Take, Enabled, ClockAdvances;
    forall i | 0 <= i < 6
      ensures Enabled(worlds[i], REPEATING[i]) && worlds[i + 1] == Take(worlds[i], REPEATING[i])
      ensures ClockAdvances(worlds[i], REPEATING[i])
    {
      StepRepeats(i);
      ClockRepeats(i);
    }
  }

  /// If every write succeeds, a handler's events alternate.
  lemma WrittenEventsAlternate(h: Handler)
    requires History(h) && forall i :: 0 <= i < |h.toggles| ==> h.toggles[i].reported
    ensures AlternatingEvents(h.events)
  {
    EventsAlternateExactly(h.toggles);
    forall i: nat, j: nat | Neighbours(h.toggles, i, j) ensures (j - i - 1) % 2 == 0 {
      NeighboursTouch(h.toggles, i, j);
    }
  }

  lemma NeighboursTouch(toggles: seq<Toggle>, i: nat, j: nat)
    requires forall k :: 0 <= k < |toggles| ==> toggles[k].reported
    ensures Neighbours(toggles, i, j) ==> j == i + 1
  {
    if i + 1 < |toggles| {
      assert toggles[i + 1].reported;
    }
  }
}
