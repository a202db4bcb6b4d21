/// What each step does to a flag and what it counted, and what a delayed task went through before its
/// notification was recorded.
module NotificationCounts {
  import opened Common
  import opened Notifications
  import opened NotificationLaws

  // ---------------------------------------------------------------------------------------------
  // Counting what goes through a flag
  // ---------------------------------------------------------------------------------------------

  /// The step records a disconnect notification with the flag.
  predicate RecordsWith(w: World, step: Step, flag: Id) {
    step.Record? && step.task in w.tasks && w.tasks[step.task].flag == flag
  }

  /// A gateway is back and that could be written, while the flag of its handler is set.
  predicate Answers(w: World, step: Step, flag: Id) {
    Consumes(w, step, flag) && flag in w.flags && w.flags[flag].set_
  }

  predicate SendsReconnect(w: World, step: Step, flag: Id) {
    Answers(w, step, flag) && step.reconnectEnabled
  }

  predicate Swallows(w: World, step: Step, flag: Id) {
    Answers(w, step, flag) && !step.reconnectEnabled
  }

  /// A reconnect notification is sent, or kept back, exactly at a reconnect that finds the flag set
  /// while they are turned on, or off; the flag is set by recording and unset by either.
  lemma StepCountsExactly(w: World, step: Step, flag: Id)
    requires Paired(w) && Enabled(w, step) && flag in w.flags
    ensures flag in Take(w, step).flags
    ensures var f, f' := w.flags[flag], Take(w, step).flags[flag];
            && f'.reconnects == f.reconnects + (if SendsReconnect(w, step, flag) then 1 else 0)
            && f'.muted == f.muted + (if Swallows(w, step, flag) then 1 else 0)
            && f'.disconnects == f.disconnects + (if RecordsWith(w, step, flag) then 1 else 0)
            && f'.repeats == f.repeats + (if RecordsWith(w, step, flag) && f.set_ then 1 else 0)
            && f'.set_ == (RecordsWith(w, step, flag) || (f.set_ && !Answers(w, step, flag)))
  {
    if step.Record? {
      RecordCounts(w, step, flag);
    } else if step.Returned? {
      ReturnedCounts(w, step, flag);
    } else {
      OthersKeepFlags(w, step, flag);
    }
    hide Take, Enabled, Paired;
  }

  lemma RecordCounts(w: World, step: Step, flag: Id)
    requires Enabled(w, step) && step.Record? && flag in w.flags
    ensures flag in Take(w, step).flags
    ensures Take(w, step).flags[flag] == if RecordsWith(w, step, flag) then Store(w.flags[flag]) else w.flags[flag]
  {
  }

  lemma ReturnedCounts(w: World, step: Step, flag: Id)
    requires Enabled(w, step) && step.Returned? && flag in w.flags
    ensures flag in Take(w, step).flags
    ensures Take(w, step).flags[flag] ==
            if Consumes(w, step, flag) then Swap(w.flags[flag], step.reconnectEnabled) else w.flags[flag]
  {
  }

  lemma OthersKeepFlags(w: World, step: Step, flag: Id)
    requires Paired(w) && Enabled(w, step) && !step.Record? && !step.Returned? && flag in w.flags
    ensures flag in Take(w, step).flags && Take(w, step).flags[flag] == w.flags[flag]
  {
  }

  /// How many of the steps from i up to j are of a kind.
  ghost function Times(worlds: seq<World>, steps: seq<Step>, i: nat, j: nat, kind: (World, Step) -> bool): nat
    requires i <= j <= |steps| < |worlds|
    decreases j
  {
    if i == j then 0 else Times(worlds, steps, i, j - 1, kind) + if kind(worlds[j - 1], steps[j - 1]) then 1 else 0
  }

  /// Over any stretch of a run the counts of a flag grow by the steps that send, keep back and record.
  lemma {:induction false} RunCountsExactly(worlds: seq<World>, steps: seq<Step>, i: nat, j: nat, flag: Id)
    requires IsRun(worlds, steps) && Paired(worlds[0]) && i <= j < |worlds| && flag in worlds[i].flags
    ensures |worlds| == |steps| + 1 && flag in worlds[j].flags
    ensures worlds[j].flags[flag].reconnects ==
            worlds[i].flags[flag].reconnects + Times(worlds, steps, i, j, (w, step) => SendsReconnect(w, step, flag))
    ensures worlds[j].flags[flag].muted ==
            worlds[i].flags[flag].muted + Times(worlds, steps, i, j, (w, step) => Swallows(w, step, flag))
    ensures worlds[j].flags[flag].disconnects ==
            worlds[i].flags[flag].disconnects + Times(worlds, steps, i, j, (w, step) => RecordsWith(w, step, flag))
    decreases j
  {
    if i < j {
      hide Enabled, Take, Paired, SendsReconnect, Swallows, RecordsWith;
      RunCountsExactly(worlds, steps, i, j - 1, flag);
      RunKeepsPaired(worlds, steps, j - 1);
      StepCountsExactly(worlds[j - 1], steps[j - 1], flag);
    }
  }

  lemma {:induction false} NeverAndNot(worlds: seq<World>, steps: seq<Step>, i: nat, j: nat, kind: (World, Step) -> bool)
    requires i <= j <= |steps| < |worlds| && forall k :: i <= k < j ==> !kind(worlds[k], steps[k])
    ensures Times(worlds, steps, i, j, kind) == 0
    decreases j
  {
    if i < j {
      NeverAndNot(worlds, steps, i, j - 1, kind);
    }
  }

  /// While reconnect notifications are turned off none is sent; while they are on none is kept back.
  lemma SettingDecides(worlds: seq<World>, steps: seq<Step>, i: nat, j: nat, flag: Id, on: bool)
    requires IsRun(worlds, steps) && Paired(worlds[0]) && i <= j < |worlds| && flag in worlds[i].flags
    requires forall k :: i <= k < j && steps[k].Returned? ==> steps[k].reconnectEnabled == on
    ensures flag in worlds[j].flags
    ensures if on then worlds[j].flags[flag].muted == worlds[i].flags[flag].muted
            else worlds[j].flags[flag].reconnects == worlds[i].flags[flag].reconnects
  {
    RunCountsExactly(worlds, steps, i, j, flag);
    hide IsRun, Paired;
    if on {
      NeverAndNot(worlds, steps, i, j, (w, step) => Swallows(w, step, flag));
    } else {
      NeverAndNot(worlds, steps, i, j, (w, step) => SendsReconnect(w, step, flag));
    }
  }

  // ---------------------------------------------------------------------------------------------
  // The way of a delayed task
  // ---------------------------------------------------------------------------------------------

  /// The step schedules a notification that is due the configured minutes later.
  predicate Schedules(step: Step, seconds: int) {
    step.Lost? && step.written && step.enabled && seconds == if step.threshold < 0 then 0 else 60 * step.threshold
  }

  /// Some step from i up to j is this one.
  predicate Occurs(steps: seq<Step>, i: nat, j: nat, step: Step)
    requires j <= |steps|
  {
    exists k :: i <= k < j && steps[k] == step
  }

  /// What a task scheduled before world i has gone through by world j, according to its phase.
  ghost predicate OnItsWay(worlds: seq<World>, steps: seq<Step>, i: nat, j: nat, task: Id, due: Time)
    requires i <= j <= |steps| < |worlds|
  {
    var w := worlds[j];
    && task < w.nextId
    && (task in w.tasks ==>
          match w.tasks[task].phase
          case Sleeping(deadline) => deadline == due
          case ReadingGateway => Woken(worlds, steps, i, j, task, due)
          case ReadingLocation => FoundDown(worlds, steps, i, j, task, due)
          case Recording => HasLocation(worlds, steps, i, j, task, due))
    && (task in w.recorded ==> RecordedProperly(worlds, steps, i, j, task, due))
  }

  ghost predicate Woken(worlds: seq<World>, steps: seq<Step>, i: nat, j: nat, task: Id, due: Time)
    requires j <= |steps| < |worlds|
  {
    exists a :: i <= a < j && steps[a] == Wake(task) && due <= worlds[a].now
  }

  ghost predicate FoundDown(worlds: seq<World>, steps: seq<Step>, i: nat, j: nat, task: Id, due: Time)
    requires j <= |steps| < |worlds|
  {
    exists b: nat :: b < j && Woken(worlds, steps, i, b, task, due) && steps[b] == ReadGateway(task, true)
  }

  ghost predicate HasLocation(worlds: seq<World>, steps: seq<Step>, i: nat, j: nat, task: Id, due: Time)
    requires j <= |steps| < |worlds|
  {
    exists c: nat :: c < j && FoundDown(worlds, steps, i, c, task, due) && steps[c] == ReadLocation(task, true)
  }

  /// The task woke no earlier than it was due, then read the gateway as down, then the location, and
  /// then set the flag.
  ghost predicate RecordedProperly(worlds: seq<World>, steps: seq<Step>, i: nat, j: nat, task: Id, due: Time)
    requires j <= |steps| < |worlds|
  {
    exists d: nat :: d < j && HasLocation(worlds, steps, i, d, task, due) && steps[d] == Record(task)
  }

  lemma Later(worlds: seq<World>, steps: seq<Step>, i: nat, j: nat, task: Id, due: Time)
    requires j < |steps| < |worlds|
    ensures Woken(worlds, steps, i, j, task, due) ==> Woken(worlds, steps, i, j + 1, task, due)
    ensures FoundDown(worlds, steps, i, j, task, due) ==> FoundDown(worlds, steps, i, j + 1, task, due)
    ensures HasLocation(worlds, steps, i, j, task, due) ==> HasLocation(worlds, steps, i, j + 1, task, due)
    ensures RecordedProperly(worlds, steps, i, j, task, due) ==> RecordedProperly(worlds, steps, i, j + 1, task, due)
  {
  }

  /// A step leaves a task alone, takes it one phase on, records it, or ends it.
  lemma StepMovesTask(w: World, step: Step, task: Id)
    requires Enabled(w, step) && task < w.nextId
    ensures var w' := Take(w, step);
            && task < w'.nextId
            && (task in w'.tasks ==> task in w.tasks)
            && (task in w'.tasks && w'.tasks[task].phase != w.tasks[task].phase ==>
                  || (step == Wake(task) && w.tasks[task].phase.Sleeping? && w.tasks[task].phase.deadline <= w.now
                      && w'.tasks[task].phase == ReadingGateway)
                  || (step == ReadGateway(task, true) && w.tasks[task].phase == ReadingGateway
                      && w'.tasks[task].phase == ReadingLocation)
                  || (step == ReadLocation(task, true) && w.tasks[task].phase == ReadingLocation
                      && w'.tasks[task].phase == Recording))
            && (task in w'.recorded && task !in w.recorded ==>
                  step == Record(task) && task in w.tasks && w.tasks[task].phase == Recording)
  {
  }

  lemma StepOnItsWay(worlds: seq<World>, steps: seq<Step>, i: nat, j: nat, task: Id, due: Time)
    requires i <= j < |steps| < |worlds| && OnItsWay(worlds, steps, i, j, task, due)
    requires Enabled(worlds[j], steps[j]) && worlds[j + 1] == Take(worlds[j], steps[j])
    ensures OnItsWay(worlds, steps, i, j + 1, task, due)
  {
    StepMovesTask(worlds[j], steps[j], task);
    Later(worlds, steps, i, j, task, due);
    hide Enabled, Take;
  }

  lemma {:induction false} RunOnItsWay(worlds: seq<World>, steps: seq<Step>, i: nat, j: nat, task: Id, due: Time)
    requires IsRun(worlds, steps) && i <= j < |worlds|
    requires |worlds| == |steps| + 1 && OnItsWay(worlds, steps, i, i, task, due)
    ensures OnItsWay(worlds, steps, i, j, task, due)
    decreases j
  {
    if i < j {
      hide Enabled, Take, OnItsWay;
      RunOnItsWay(worlds, steps, i, j - 1, task, due);
      StepOnItsWay(worlds, steps, i, j - 1, task, due);
    }
  }

  /// A scheduled task sleeps for exactly the configured minutes. Whatever is done in the meantime, it
  /// can be woken from then on and not before; and its notification is recorded only after it woke,
  /// then read the gateway as down, and then found its location.
  lemma ScheduledProperly(worlds: seq<World>, steps: seq<Step>, i: nat, j: nat, seconds: int)
    requires IsRun(worlds, steps) && Paired(worlds[0]) && Fresh(worlds[0]) && i < j < |worlds| && Schedules(steps[i], seconds)
    ensures |worlds| == |steps| + 1
    ensures var task := worlds[i].nextId;
            && task in worlds[i + 1].tasks && worlds[i + 1].handlers[steps[i].handler].pending == Some(task)
            && (task in worlds[j].tasks && worlds[j].tasks[task].phase.Sleeping? ==>
                  (Enabled(worlds[j], Wake(task)) <==> worlds[j].now - worlds[i].now >= seconds))
            && (task in worlds[j].recorded ==>
                  RecordedProperly(worlds, steps, i + 1, j, task, worlds[i].now + seconds))
  {
    RunKeepsPaired(worlds, steps, i);
    RunKeepsFresh(worlds, steps, i);
    assert worlds[i + 1] == Take(worlds[i], steps[i]);
    RunOnItsWay(worlds, steps, i + 1, j, worlds[i].nextId, worlds[i].now + seconds);
  }

  /// A handler stays until it was aborted.
  lemma {:induction false} HandlersStay(worlds: seq<World>, steps: seq<Step>, i: nat, j: nat, h: Id)
    requires IsRun(worlds, steps) && i <= j < |worlds|
    requires Paired(worlds[0]) && h in worlds[i].handlers && !worlds[i].handlers[h].aborted
    requires forall k :: i <= k < j ==> steps[k] != AbortHandler(h)
    ensures h in worlds[j].handlers && !worlds[j].handlers[h].aborted && worlds[j].handlers[h].flag == worlds[i].handlers[h].flag
    decreases j
  {
    if i < j {
      hide Enabled, Take, Paired;
      HandlersStay(worlds, steps, i, j - 1, h);
      RunKeepsPaired(worlds, steps, j - 1);
      StepKeepsHandler(worlds[j - 1], steps[j - 1], h);
    }
  }

  lemma StepKeepsHandler(w: World, step: Step, h: Id)
    requires Paired(w) && Enabled(w, step) && h in w.handlers && !w.handlers[h].aborted && step != AbortHandler(h)
    ensures var w' := Take(w, step); h in w'.handlers && !w'.handlers[h].aborted && w'.handlers[h].flag == w.handlers[h].flag
  {
    hide Delay, Swap, Store, Balanced;
    AbortLeavesHandlers(w);
    hide Abort;
  }
}
