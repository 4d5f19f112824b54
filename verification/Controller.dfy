/** The controller's acts on one pipeline.  Any number of act tasks are spawned by the
    reconcile loop and by pub/sub messages; a lock per pipeline lets one act at a time.  The
    machine runs them in every interleaving, with the controller crashing and starting over
    at any point, while nobody else writes the pipeline's state. */
module Controller {
  import opened Wrappers
  import opened Models
  import opened Repository

  // ---------------------------------------------------------------- what acts and triggers look at

  predicate IsIdle(status: Status) {
    status == Created || status == Stopped || status == Failed
  }

  predicate IsAlreadyStopped(status: Status) {
    IsIdle(status) || status == Stopping
  }

  /** An act on this state returns without doing anything. */
  predicate ActIsQuiet(s: PipelineState) {
    match s.desired
    case WantRunning => s.status == Running || s.status == Starting
    case WantStopped => IsAlreadyStopped(s.status)
  }

  /** The reconcile loop's triggers. */
  predicate NeedsAct(s: PipelineState) {
    || (s.desired == WantRunning && IsIdle(s.status))
    || (s.desired == WantStopped && !IsAlreadyStopped(s.status))
  }

  /** Triggers and acts agree except on a pipeline that is wanted running and caught in
      STOPPING: there an act would start it, but the reconcile loop never asks for one. */
  lemma TriggersMatchActs(s: PipelineState)
    ensures NeedsAct(s) <==> !ActIsQuiet(s) && !(s.desired == WantRunning && s.status == Stopping)
  {
  }

  /** How a runtime call ends: it returns the producer's name (none after a stop), or raises
      with a message. */
  datatype Outcome = Returned(producer: string) | Raised(message: string)

  /** The state while the runtime call runs. */
  function MarkedState(s: PipelineState): PipelineState {
    match s.desired
    case WantRunning => s.(status := Starting, lastError := "")
    case WantStopped => s.(status := Stopping)
  }

  /** The state an act leaves behind. */
  function Settled(s: PipelineState, outcome: Outcome): PipelineState {
    match (s.desired, outcome)
    case (WantRunning, Returned(producer)) => PipelineState(WantRunning, Starting, Some(producer), "")
    case (WantRunning, Raised(message)) => PipelineState(WantStopped, Failed, s.producer, message)
    case (WantStopped, Returned(_)) => PipelineState(WantStopped, Stopped, None, s.lastError)
    case (WantStopped, Raised(message)) => PipelineState(WantStopped, Failed, s.producer, message)
  }

  /** Whatever the runtime does, an act leaves nothing more to do, for acts and triggers
      alike, not even when it is cut short. */
  lemma SettledIsQuiet(s: PipelineState, outcome: Outcome)
    ensures ActIsQuiet(MarkedState(s)) && !NeedsAct(MarkedState(s))
    ensures ActIsQuiet(Settled(s, outcome)) && !NeedsAct(Settled(s, outcome))
  {
  }

  // ---------------------------------------------------------------- the code

  class Controller {
    const repo: PipelineRepository
    var calls: nat

    constructor (repo: PipelineRepository)
      ensures this.repo == repo && calls == 0
    {
      this.repo, this.calls := repo, 0;
    }

    /** _act, uninterrupted; the runtime's only call ends as given. */
    method Act(id: string, outcome: Outcome)
      modifies repo`states, `calls
      ensures
        if id !in old(repo.states) || id !in repo.configs || ActIsQuiet(old(repo.states)[id])
          then repo.states == old(repo.states) && calls == old(calls)
          else repo.states == old(repo.states)[id := Settled(old(repo.states)[id], outcome)] && calls == old(calls) + 1
      ensures calls == old(calls) + 1 <==>
        && id in old(repo.states) && id in repo.configs
        && var s := old(repo.states)[id];
           if s.desired == WantRunning then s.status != Running && s.status != Starting
           else s.status == Running || s.status == Starting
      ensures calls == old(calls) + 1 && outcome.Raised? ==>
        repo.states[id] == PipelineState(WantStopped, Failed, old(repo.states)[id].producer, outcome.message)
      ensures calls == old(calls) + 1 && outcome.Returned? && old(repo.states)[id].desired == WantRunning ==>
        repo.states[id] == PipelineState(WantRunning, Starting, Some(outcome.producer), "")
      ensures calls == old(calls) + 1 && outcome.Returned? && old(repo.states)[id].desired == WantStopped ==>
        repo.states[id] == PipelineState(WantStopped, Stopped, None, old(repo.states)[id].lastError)
    {
      var state := repo.GetState(id);
      var config := repo.GetConfig(id);
      if state.None? || config.None? {
        return;
      }
      if state.value.desired == WantRunning {
        ActOnRunning(id, state.value, outcome);
      } else {
        ActOnStopped(id, state.value, outcome);
      }
    }

    method ActOnRunning(id: string, seen: PipelineState, outcome: Outcome)
      requires id in repo.states && repo.states[id] == seen && seen.desired == WantRunning
      modifies repo`states, `calls
      ensures
        if ActIsQuiet(seen) then repo.states == old(repo.states) && calls == old(calls)
        else repo.states == old(repo.states)[id := Settled(seen, outcome)] && calls == old(calls) + 1
    {
      if seen.status == Running || seen.status == Starting {
        return;
      }
      var state := repo.UpdateState(id, NOTHING.(status := Some(Starting), lastError := Some("")));
      calls := calls + 1;
      if outcome.Returned? {
        state := repo.UpdateState(id, NOTHING.(status := Some(Starting), producer := Some(Some(outcome.producer))));
      } else {
        state := repo.UpdateState(id,
          NOTHING.(desired := Some(WantStopped), status := Some(Failed), lastError := Some(outcome.message)));
      }
      assert repo.states == old(repo.states)[id := state.value];
    }

    method ActOnStopped(id: string, seen: PipelineState, outcome: Outcome)
      requires id in repo.states && repo.states[id] == seen && seen.desired == WantStopped
      modifies repo`states, `calls
      ensures
        if ActIsQuiet(seen) then repo.states == old(repo.states) && calls == old(calls)
        else repo.states == old(repo.states)[id := Settled(seen, outcome)] && calls == old(calls) + 1
    {
      if IsAlreadyStopped(seen.status) {
        return;
      }
      var state := repo.UpdateState(id, NOTHING.(status := Some(Stopping)));
      calls := calls + 1;
      if outcome.Returned? {
        state := repo.UpdateState(id, NOTHING.(status := Some(Stopped), producer := Some(None)));
      } else {
        state := repo.UpdateState(id, NOTHING.(status := Some(Failed), lastError := Some(outcome.message)));
      }
      assert repo.states == old(repo.states)[id := state.value];
    }

    predicate Triggers(id: string, locked: set<string>)
      reads repo
    {
      && id in repo.configs && id in repo.states && id !in locked
      && repo.configs[id].pipelineType == Live && NeedsAct(repo.states[id])
    }

    /** One pass of the reconcile loop: the pipelines it spawns an act for. */
    method Reconcile(locked: set<string>) returns (spawned: set<string>)
      ensures forall id :: id in spawned <==> Triggers(id, locked)
      ensures forall id :: id in spawned <==>
        && id in repo.configs && id in repo.states && id !in locked
        && repo.configs[id].pipelineType == Live
        && var s := repo.states[id];
           if s.desired == WantRunning then s.status == Created || s.status == Stopped || s.status == Failed
           else s.status == Running || s.status == Starting
    {
      spawned := {};
      var todo := repo.configs.Keys;
      while todo != {}
        invariant todo <= repo.configs.Keys
        invariant forall id :: id in spawned <==> id !in todo && Triggers(id, locked)
        decreases todo
      {
        var id :| id in todo;
        todo := todo - {id};
        var state := repo.GetState(id);
        if state.Some? && repo.configs[id].pipelineType == Live && id !in locked {
          var needsStart := state.value.desired == WantRunning && IsIdle(state.value.status);
          var needsStop := state.value.desired == WantStopped && !IsAlreadyStopped(state.value.status);
          if needsStart || needsStop {
            spawned := spawned + {id};
          }
        }
      }
    }
  }

  // ---------------------------------------------------------------- the machine

  /** Where a task is in _act.  Between Holding and Leaving it has the lock. */
  datatype Phase =
    | Waiting
    | Holding
    | Decided(seen: PipelineState)
    | Calling(seen: PipelineState)
    | Recording(seen: PipelineState, outcome: Outcome)
    | Leaving
    | Finished

  /** How far the acts have got with the pipeline; the program does not keep it. */
  datatype Stage = Untouched | Marked | Called(outcome: Outcome) | Recorded(outcome: Outcome)

  datatype System = System(
    stored: Option<PipelineState>,
    tasks: seq<Phase>,
    lock: Option<nat>,
    calls: nat,
    stage: Stage)

  datatype Event =
    | Spawn
    | Acquire(t: nat)
    | Read(t: nat)
    | Mark(t: nat)
    | Call(t: nat, outcome: Outcome)
    | Record(t: nat)
    | Release(t: nat)
    | Crash

  predicate IsAt(s: System, t: nat) {
    t < |s.tasks|
  }

  predicate Enabled(s: System, e: Event) {
    match e
    case Spawn => true
    case Crash => true
    case Acquire(t) => IsAt(s, t) && s.tasks[t].Waiting? && s.lock == None
    case Read(t) => IsAt(s, t) && s.tasks[t].Holding?
    case Mark(t) => IsAt(s, t) && s.tasks[t].Decided? && s.stored.Some?
    case Call(t, _) => IsAt(s, t) && s.tasks[t].Calling?
    case Record(t) => IsAt(s, t) && s.tasks[t].Recording? && s.stored.Some?
    case Release(t) => IsAt(s, t) && s.tasks[t].Leaving?
  }

  function At(s: System, t: nat, phase: Phase): System
    requires IsAt(s, t)
  {
    s.(tasks := s.tasks[t := phase])
  }

  /** The write after the runtime call, given what the act saw at the start. */
  function RecordUpdate(seen: PipelineState, outcome: Outcome): Update {
    match (seen.desired, outcome)
    case (WantRunning, Returned(producer)) => NOTHING.(status := Some(Starting), producer := Some(Some(producer)))
    case (WantRunning, Raised(message)) =>
      NOTHING.(desired := Some(WantStopped), status := Some(Failed), lastError := Some(message))
    case (WantStopped, Returned(_)) => NOTHING.(status := Some(Stopped), producer := Some(None))
    case (WantStopped, Raised(message)) => NOTHING.(status := Some(Failed), lastError := Some(message))
  }

  /** The write before the runtime call. */
  function MarkUpdate(seen: PipelineState): Update {
    match seen.desired
    case WantRunning => NOTHING.(status := Some(Starting), lastError := Some(""))
    case WantStopped => NOTHING.(status := Some(Stopping))
  }

  function Next(s: System, e: Event): System
    requires Enabled(s, e)
  {
    match e
    case Spawn => s.(tasks := s.tasks + [Waiting])
    case Crash => s.(tasks := [], lock := None)
    case Acquire(t) => At(s, t, Holding).(lock := Some(t))
    case Read(t) =>
      if s.stored.None? || ActIsQuiet(s.stored.value) then At(s, t, Leaving) else At(s, t, Decided(s.stored.value))
    case Mark(t) =>
      At(s, t, Calling(s.tasks[t].seen)).(
        stored := Some(Updated(s.stored.value, MarkUpdate(s.tasks[t].seen))),
        stage := Marked)
    case Call(t, outcome) =>
      At(s, t, Recording(s.tasks[t].seen, outcome)).(calls := s.calls + 1, stage := Called(outcome))
    case Record(t) =>
      At(s, t, Leaving).(
        stored := Some(Updated(s.stored.value, RecordUpdate(s.tasks[t].seen, s.tasks[t].outcome))),
        stage := Stage.Recorded(s.tasks[t].outcome))
    case Release(t) => At(s, t, Finished).(lock := None)
  }

  predicate Run(s: System, events: seq<Event>)
    decreases |events|
  {
    events != [] ==> Enabled(s, events[0]) && Run(Next(s, events[0]), events[1..])
  }

  function Exec(s: System, events: seq<Event>): System
    requires Run(s, events)
    decreases |events|
  {
    if events == [] then s else Exec(Next(s, events[0]), events[1..])
  }

  function Initially(stored: Option<PipelineState>): System {
    System(stored, [], None, 0, Untouched)
  }

  // ---------------------------------------------------------------- the invariant

  /** What is stored at each stage, given what was stored at first. */
  function StoredAt(first: Option<PipelineState>, stage: Stage): Option<PipelineState> {
    match first
    case None => None
    case Some(s) =>
      match stage
      case Untouched => Some(s)
      case Marked => Some(MarkedState(s))
      case Called(_) => Some(MarkedState(s))
      case Recorded(outcome) => Some(Settled(s, outcome))
  }

  predicate QuietNow(s: System) {
    s.stored.None? || ActIsQuiet(s.stored.value)
  }

  predicate HasLock(p: Phase) {
    !p.Waiting? && !p.Finished?
  }

  /** What a task's phase says about the pipeline. */
  predicate PhaseFits(s: System, first: Option<PipelineState>, p: Phase) {
    match p
    case Decided(seen) => first == Some(seen) && s.stage == Untouched && !ActIsQuiet(seen)
    case Calling(seen) => first == Some(seen) && s.stage == Marked && s.calls == 0
    case Recording(seen, outcome) => first == Some(seen) && s.stage == Called(outcome)
    case Leaving => QuietNow(s)
    case Finished => QuietNow(s)
    case _ => true
  }

  ghost predicate Inv(s: System, first: Option<PipelineState>) {
    && s.stored == StoredAt(first, s.stage)
    && (s.stage != Untouched ==> first.Some? && QuietNow(s))
    && s.calls == (if s.stage == Untouched || s.stage == Marked then 0 else 1)
    && (forall t :: 0 <= t < |s.tasks| ==> PhaseFits(s, first, s.tasks[t]))
    && (forall t: nat :: IsAt(s, t) && HasLock(s.tasks[t]) ==> s.lock == Some(t))
    && (s.lock.Some? ==> IsAt(s, s.lock.value) && HasLock(s.tasks[s.lock.value]))
  }

  lemma LockInv(s: System, first: Option<PipelineState>, e: Event)
    requires Inv(s, first) && Enabled(s, e)
    requires e.Acquire? || e.Read? || e.Release?
    ensures Inv(Next(s, e), first)
  {
  }

  lemma MarkInv(s: System, first: Option<PipelineState>, t: nat)
    requires Inv(s, first) && Enabled(s, Mark(t))
    ensures Inv(Next(s, Mark(t)), first)
  {
  }

  lemma CallInv(s: System, first: Option<PipelineState>, t: nat, outcome: Outcome)
    requires Inv(s, first) && Enabled(s, Call(t, outcome))
    ensures Inv(Next(s, Call(t, outcome)), first)
  {
  }

  lemma RecordInv(s: System, first: Option<PipelineState>, t: nat)
    requires Inv(s, first) && Enabled(s, Record(t))
    ensures Inv(Next(s, Record(t)), first)
  {
  }

  lemma StepInv(s: System, first: Option<PipelineState>, e: Event)
    requires Inv(s, first) && Enabled(s, e)
    ensures Inv(Next(s, e), first)
  {
    match e
    case Mark(t) => MarkInv(s, first, t);
    case Call(t, outcome) => CallInv(s, first, t, outcome);
    case Record(t) => RecordInv(s, first, t);
    case Spawn =>
    case Crash =>
    case _ => LockInv(s, first, e);
  }

  lemma {:induction false} RunInv(s: System, first: Option<PipelineState>, events: seq<Event>)
    requires Inv(s, first) && Run(s, events)
    ensures Inv(Exec(s, events), first)
    decreases |events|
  {
    if events != [] {
      StepInv(s, first, events[0]);
      RunInv(Next(s, events[0]), first, events[1..]);
    }
  }

  // ---------------------------------------------------------------- at most one call

  /** In every interleaving of any number of tasks, through any number of crashes, the acts
      make at most one runtime call; once a task is through, or the call has been made, no
      act and no trigger has anything left to do. */
  lemma AtMostOneCall(stored: Option<PipelineState>, events: seq<Event>)
    requires Run(Initially(stored), events)
    ensures
      var s := Exec(Initially(stored), events);
      && s.calls <= 1
      && (s.calls == 1 || Finished in s.tasks ==> s.stored.Some? ==>
          ActIsQuiet(s.stored.value) && !NeedsAct(s.stored.value))
  {
    RunInv(Initially(stored), stored, events);
    var s := Exec(Initially(stored), events);
    if s.stored.Some? && ActIsQuiet(s.stored.value) {
      TriggersMatchActs(s.stored.value);
    }
  }

  // ---------------------------------------------------------------- settling

  /** Steps that a task has still to take. */
  function StepsLeft(p: Phase): nat {
    match p
    case Waiting => 6
    case Holding => 5
    case Decided(_) => 4
    case Calling(_) => 3
    case Recording(_, _) => 2
    case Leaving => 1
    case Finished => 0
  }

  function Work(tasks: seq<Phase>): nat {
    if tasks == [] then 0 else StepsLeft(tasks[0]) + Work(tasks[1..])
  }

  lemma {:induction false} WorkAt(tasks: seq<Phase>, t: nat, p: Phase)
    requires t < |tasks|
    ensures Work(tasks[t := p]) == Work(tasks) - StepsLeft(tasks[t]) + StepsLeft(p)
  {
    if t > 0 {
      WorkAt(tasks[1..], t - 1, p);
      assert tasks[t := p][1..] == tasks[1..][t - 1 := p];
    }
  }

  predicate IsOwnStep(e: Event) {
    !e.Spawn? && !e.Crash?
  }

  lemma StepWorks(s: System, e: Event)
    requires Enabled(s, e) && IsOwnStep(e)
    ensures Work(Next(s, e).tasks) < Work(s.tasks)
  {
    var t := e.t;
    WorkAt(s.tasks, t, Next(s, e).tasks[t]);
  }

  /** The acts come to an end: a run without new tasks is no longer than the work left. */
  lemma {:induction false} RunsEnd(s: System, events: seq<Event>)
    requires Run(s, events) && forall i :: 0 <= i < |events| ==> IsOwnStep(events[i])
    ensures |events| + Work(Exec(s, events).tasks) <= Work(s.tasks)
    decreases |events|
  {
    if events != [] {
      StepWorks(s, events[0]);
      RunsEnd(Next(s, events[0]), events[1..]);
    }
  }

  /** The next step of the task that has the lock. */
  function NextStep(p: Phase, t: nat): Event
    requires HasLock(p)
  {
    match p
    case Holding => Read(t)
    case Decided(_) => Mark(t)
    case Calling(_) => Call(t, Raised(""))
    case Recording(_, _) => Record(t)
    case Leaving => Release(t)
  }

  /** No deadlock: as long as a task is unfinished, some task can take a step. */
  lemma SomeTaskCanStep(s: System, first: Option<PipelineState>, t: nat) returns (e: Event)
    requires Inv(s, first) && IsAt(s, t) && !s.tasks[t].Finished?
    ensures Enabled(s, e) && IsOwnStep(e)
  {
    if s.lock.Some? {
      e := NextStep(s.tasks[s.lock.value], s.lock.value);
    } else {
      e := Acquire(t);
    }
  }

  /** Nothing about the pipeline has moved, and no task is about to move it. */
  predicate LeftAlone(s: System, stored: PipelineState, calls: nat, stage: Stage) {
    && s.stored == Some(stored) && s.calls == calls && s.stage == stage
    && forall t :: 0 <= t < |s.tasks| ==> s.tasks[t] in {Waiting, Holding, Leaving, Finished}
  }

  /** Nothing the controller can do, in any number of tasks and restarts, moves a quiet
      pipeline. */
  lemma {:induction false} QuietIsLeftAlone(s: System, stored: PipelineState, calls: nat, stage: Stage,
                                            events: seq<Event>)
    requires ActIsQuiet(stored) && LeftAlone(s, stored, calls, stage) && Run(s, events)
    ensures LeftAlone(Exec(s, events), stored, calls, stage)
    decreases |events|
  {
    if events != [] {
      QuietIsLeftAlone(Next(s, events[0]), stored, calls, stage, events[1..]);
    }
  }

  predicate AllFinished(s: System) {
    forall t :: 0 <= t < |s.tasks| ==> s.tasks[t].Finished?
  }

  // ---------------------------------------------------------------- acts cut short

  /** An act is between its first write and its last. */
  predicate InFlight(stage: Stage) {
    stage.Marked? || stage.Called?
  }

  /** Some crash falls while an act is in flight. */
  predicate CutShort(s: System, events: seq<Event>)
    requires Run(s, events)
    decreases |events|
  {
    events != [] && ((events[0].Crash? && InFlight(s.stage)) || CutShort(Next(s, events[0]), events[1..]))
  }

  /** An act in flight is in the hands of the task that has the lock. */
  predicate InHand(s: System) {
    match s.stage
    case Marked => s.lock.Some? && IsAt(s, s.lock.value) && s.tasks[s.lock.value].Calling?
    case Called(_) => s.lock.Some? && IsAt(s, s.lock.value) && s.tasks[s.lock.value].Recording?
    case _ => true
  }

  lemma StepInHand(s: System, first: Option<PipelineState>, e: Event)
    requires Inv(s, first) && InHand(s) && Enabled(s, e) && !(e.Crash? && InFlight(s.stage))
    ensures InHand(Next(s, e))
  {
    if InFlight(s.stage) && (e.Acquire? || e.Read? || e.Mark? || e.Call? || e.Record? || e.Release?) {
      assert e.t == s.lock.value || e.Acquire?;
    }
  }

  lemma {:induction false} RunInHand(s: System, first: Option<PipelineState>, events: seq<Event>)
    requires Inv(s, first) && InHand(s) && Run(s, events) && !CutShort(s, events)
    ensures InHand(Exec(s, events))
    decreases |events|
  {
    if events != [] {
      StepInHand(s, first, events[0]);
      StepInv(s, first, events[0]);
      RunInHand(Next(s, events[0]), first, events[1..]);
    }
  }

  /** After a crash in flight the pipeline says STARTING or STOPPING for good. */
  lemma {:induction false} CutShortIsFinal(s: System, stored: PipelineState, events: seq<Event>)
    requires Inv(s, Some(stored)) && Run(s, events) && CutShort(s, events)
    ensures InFlight(Exec(s, events).stage)
    decreases |events|
  {
    var t := Next(s, events[0]);
    if events[0].Crash? && InFlight(s.stage) {
      SettledIsQuiet(stored, Raised(""));
      QuietIsLeftAlone(t, MarkedState(stored), s.calls, s.stage, events[1..]);
    } else {
      StepInv(s, Some(stored), events[0]);
      CutShortIsFinal(t, stored, events[1..]);
    }
  }

  /** A crash in flight is never made good by the controller itself: whether it fell before
      or after the runtime call, in every continuation the stored state stays what the act
      wrote first, and the runtime is not called again. */
  lemma AbandonedForGood(stored: PipelineState, before: seq<Event>, later: seq<Event>)
    requires Run(Initially(Some(stored)), before)
    requires
      var s := Exec(Initially(Some(stored)), before);
      InFlight(s.stage) && Run(Next(s, Crash), later)
    ensures
      var s := Exec(Initially(Some(stored)), before);
      var t := Exec(Next(s, Crash), later);
      t.stored == Some(MarkedState(stored)) && t.calls == s.calls
  {
    RunInv(Initially(Some(stored)), Some(stored), before);
    var s := Exec(Initially(Some(stored)), before);
    SettledIsQuiet(stored, Raised(""));
    QuietIsLeftAlone(Next(s, Crash), MarkedState(stored), s.calls, s.stage, later);
  }

  /** Where a pipeline ends up, exactly: in every run, with any number of tasks and crashes,
      once a task was spawned and all are finished since the last crash, a pipeline with
      nothing to do is untouched; otherwise it is exactly where a single act leaves it, if
      no crash fell while an act was in flight, and else where the act's first write left
      it. */
  lemma SettlesExactly(stored: PipelineState, events: seq<Event>)
    requires Run(Initially(Some(stored)), events)
    requires
      var s := Exec(Initially(Some(stored)), events);
      s.tasks != [] && AllFinished(s)
    ensures
      var s := Exec(Initially(Some(stored)), events);
      if ActIsQuiet(stored) then s.stored == Some(stored) && s.calls == 0
      else if CutShort(Initially(Some(stored)), events) then
        s.stored == Some(MarkedState(stored)) && s.calls == (if s.stage.Called? then 1 else 0)
      else s.calls == 1 && s.stage.Recorded? && s.stored == Some(Settled(stored, s.stage.outcome))
  {
    var start := Initially(Some(stored));
    RunInv(start, Some(stored), events);
    var s := Exec(start, events);
    if ActIsQuiet(stored) {
      QuietIsLeftAlone(start, stored, 0, Untouched, events);
    } else if CutShort(start, events) {
      CutShortIsFinal(start, stored, events);
    } else {
      RunInHand(start, Some(stored), events);
      assert s.tasks[0].Finished?;
      assert PhaseFits(s, Some(stored), s.tasks[0]);
    }
  }

  /** The two differ, but for a start that returned the producer's name already stored. */
  lemma MarkedIsSettled(s: PipelineState, outcome: Outcome)
    ensures MarkedState(s) == Settled(s, outcome) <==>
      s.desired == WantRunning && outcome.Returned? && s.producer == Some(outcome.producer)
  {
  }

  // ---------------------------------------------------------------- such a crash

  lemma StepOn(s: System, e: Event, events: seq<Event>)
    requires Enabled(s, e) && Run(Next(s, e), events)
    ensures Run(s, [e] + events) && Exec(s, [e] + events) == Exec(Next(s, e), events)
  {
    assert ([e] + events)[1..] == events;
  }

  /** The window is there for every pipeline that needs an act. */
  lemma CrashAfterMark(stored: PipelineState)
    requires !ActIsQuiet(stored)
    ensures
      var events := [Spawn] + ([Acquire(0)] + ([Read(0)] + ([Mark(0)] + [Crash])));
      && Run(Initially(Some(stored)), events)
      && Exec(Initially(Some(stored)), events) == System(Some(MarkedState(stored)), [], None, 0, Marked)
  {
    var s0 := Initially(Some(stored));
    var s1 := Next(s0, Spawn);
    var s2 := Next(s1, Acquire(0));
    var s3 := Next(s2, Read(0));
    var s4 := Next(s3, Mark(0));
    assert Next(s4, Crash) == System(Some(MarkedState(stored)), [], None, 0, Marked);
    assert Run(s4, [Crash]);
    StepOn(s3, Mark(0), [Crash]);
    StepOn(s2, Read(0), [Mark(0)] + [Crash]);
    StepOn(s1, Acquire(0), [Read(0)] + ([Mark(0)] + [Crash]));
    StepOn(s0, Spawn, [Acquire(0)] + ([Read(0)] + ([Mark(0)] + [Crash])));
  }
}
