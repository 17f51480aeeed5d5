// The single-flight reloader: one running task, at most one pending behind it,
// and every later caller shares the pending one.
//
// The lock is never held across an await, so each critical section is one step;
// a task may be scheduled late, and any caller may arrive between two steps.
module Reload {
  import opened Base

  datatype Kind = First | Queued // started by `_wrap_run` or by `_wrap_after_current`

  datatype Phase =
    | Created
    | Awaiting(previous: nat)
    | Executing(since: nat)
    | Unwinding(since: nat, ok: bool) // `_execute` is over, the slots are not yet shifted
    | Done(since: nat, ok: bool)

  datatype Task = Task(kind: Kind, phase: Phase)

  datatype Call = Call(task: nat, at: nat)

  datatype State = State(
    clock: nat,
    tasks: seq<Task>,
    running: Option<nat>,
    pending: Option<nat>,
    calls: seq<Call>)

  datatype Step =
    | Request           // reload()
    | Schedule(t: nat)  // the task's first step
    | Wake(t: nat)      // the awaited task is done, or failed
    | Return(t: nat, ok: bool)
    | Shift(t: nat)     // the finally block

  predicate Enabled(s: State, step: Step) {
    match step
    case Request => true
    case Schedule(t) => t < |s.tasks| && s.tasks[t].phase == Created
    case Wake(t) =>
      && t < |s.tasks| && s.tasks[t].phase.Awaiting?
      && s.tasks[t].phase.previous < |s.tasks| && s.tasks[s.tasks[t].phase.previous].phase.Done?
    case Return(t, ok) => t < |s.tasks| && s.tasks[t].phase.Executing?
    case Shift(t) => t < |s.tasks| && s.tasks[t].phase.Unwinding?
  }

  function Enter(s: State, t: nat, phase: Phase): State
    requires t < |s.tasks|
  {
    s.(clock := s.clock + 1, tasks := s.tasks[t := s.tasks[t].(phase := phase)])
  }

  /** The slot a new caller ends up waiting on. */
  function Admit(s: State): State {
    var n := |s.tasks|;
    if s.running == None then
      s.(tasks := s.tasks + [Task(First, Created)], running := Some(n), calls := s.calls + [Call(n, s.clock)])
    else if s.pending == None then
      s.(tasks := s.tasks + [Task(Queued, Created)], pending := Some(n), calls := s.calls + [Call(n, s.clock)])
    else
      s.(calls := s.calls + [Call(s.pending.value, s.clock)])
  }

  function Apply(s: State, step: Step): State
    requires Enabled(s, step)
  {
    match step
    case Request => Admit(s).(clock := s.clock + 1)
    case Schedule(t) =>
      // A promoted task finds itself in the running slot: awaiting itself raises,
      // the exception is swallowed, and it goes straight on to execute.
      if s.tasks[t].kind == First || s.running == None || s.running == Some(t)
      then Enter(s, t, Executing(s.clock))
      else Enter(s, t, Awaiting(s.running.value))
    case Wake(t) => Enter(s, t, Executing(s.clock))
    case Return(t, ok) => Enter(s, t, Unwinding(s.tasks[t].phase.since, ok))
    case Shift(t) =>
      Enter(s, t, Done(s.tasks[t].phase.since, s.tasks[t].phase.ok)).(running := s.pending, pending := None)
  }

  function Init(): State {
    State(0, [], None, None, [])
  }

  ghost predicate IsRun(states: seq<State>, steps: seq<Step>) {
    && |states| == |steps| + 1 && states[0] == Init()
    && forall i :: 0 <= i < |steps| ==> Enabled(states[i], steps[i]) && states[i + 1] == Apply(states[i], steps[i])
  }

  // ---- invariant

  predicate Live(s: State, t: nat) {
    t < |s.tasks| && !s.tasks[t].phase.Done?
  }

  predicate Began(s: State, t: nat) {
    t < |s.tasks| && (s.tasks[t].phase.Executing? || s.tasks[t].phase.Unwinding? || s.tasks[t].phase.Done?)
  }

  predicate Active(s: State, t: nat) {
    t < |s.tasks| && s.tasks[t].phase.Executing?
  }

  function DoneCount(tasks: seq<Task>): nat {
    if tasks == [] then 0
    else DoneCount(tasks[..|tasks| - 1]) + (if tasks[|tasks| - 1].phase.Done? then 1 else 0)
  }

  function Occupied(slot: Option<nat>): nat {
    if slot.Some? then 1 else 0
  }

  ghost predicate SlotsOk(s: State) {
    && (s.running.Some? ==> Live(s, s.running.value))
    && (s.pending.Some? ==>
          && s.running.Some? && s.running != s.pending && s.pending.value < |s.tasks|
          && var p := s.tasks[s.pending.value];
             p.kind == Queued && (p.phase == Created || p.phase == Awaiting(s.running.value)))
    && (forall t: nat :: Live(s, t) ==> s.running == Some(t) || s.pending == Some(t))
    && (forall t: nat :: t < |s.tasks| && s.tasks[t].phase.Awaiting? && s.running == Some(t) ==>
          s.tasks[t].phase.previous < |s.tasks| && s.tasks[s.tasks[t].phase.previous].phase.Done?)
  }

  predicate CallsOk(s: State) {
    && (forall c :: 0 <= c < |s.calls| ==>
          && s.calls[c].task < |s.tasks| && s.calls[c].at < s.clock
          && (Began(s, s.calls[c].task) ==> s.calls[c].at < s.tasks[s.calls[c].task].phase.since))
  }

  /** Every task ever created is finished or sits in a slot. */
  predicate Accounted(s: State) {
    |s.tasks| == DoneCount(s.tasks) + Occupied(s.running) + Occupied(s.pending)
  }

  ghost predicate Inv(s: State) {
    SlotsOk(s) && CallsOk(s) && Accounted(s)
  }

  lemma {:induction false} DoneCountUpdate(tasks: seq<Task>, t: nat, task: Task)
    requires t < |tasks|
    ensures DoneCount(tasks[t := task])
         == DoneCount(tasks) + (if task.phase.Done? then 1 else 0) - (if tasks[t].phase.Done? then 1 else 0)
  {
    var n := |tasks| - 1;
    if t < n {
      assert tasks[t := task][..n] == tasks[..n][t := task];
      DoneCountUpdate(tasks[..n], t, task);
    } else {
      assert tasks[t := task][..n] == tasks[..n];
    }
  }

  lemma RequestKeeps(s: State)
    requires Inv(s)
    ensures Inv(Apply(s, Request))
  {
    var s' := Apply(s, Request);
    if |s'.tasks| > |s.tasks| { assert s'.tasks[..|s.tasks|] == s.tasks; }
    assert forall t: nat :: Live(s', t) && t < |s.tasks| ==> Live(s, t);
  }

  /** A task moving on inside its slot, not yet done. */
  lemma MoveKeeps(s: State, t: nat, phase: Phase, s': State)
    requires Inv(s) && Live(s, t) && s' == Enter(s, t, phase) && !phase.Done?
    requires !phase.Created?
    requires phase.Executing? ==> s.running == Some(t) && phase.since == s.clock
    requires phase.Unwinding? ==> s.tasks[t].phase.Executing? && phase.since == s.tasks[t].phase.since
    requires phase.Awaiting? ==> s.pending == Some(t) && s.running == Some(phase.previous)
    ensures Inv(s')
  {
    DoneCountUpdate(s.tasks, t, s'.tasks[t]);
    assert forall u: nat :: Live(s', u) <==> Live(s, u);
    assert forall c :: 0 <= c < |s.calls| ==> s.calls[c].at < s.clock;
  }

  lemma ShiftKeeps(s: State, t: nat)
    requires Inv(s) && Enabled(s, Shift(t))
    ensures Inv(Apply(s, Shift(t)))
  {
    var s' := Apply(s, Shift(t));
    assert Live(s, t) && s.running == Some(t);
    DoneCountUpdate(s.tasks, t, s'.tasks[t]);
    assert forall u: nat :: Live(s', u) <==> Live(s, u) && u != t;
    assert forall c :: 0 <= c < |s.calls| ==> s.calls[c].at < s.clock;
  }

  lemma InvPreserved(s: State, step: Step)
    requires Inv(s) && Enabled(s, step)
    ensures Inv(Apply(s, step))
  {
    match step {
      case Request => RequestKeeps(s);
      case Shift(t) => ShiftKeeps(s, t);
      case _ =>
        assert Live(s, step.t);
        MoveKeeps(s, step.t, Apply(s, step).tasks[step.t].phase, Apply(s, step));
    }
  }

  lemma {:induction false} RunKeepsInv(states: seq<State>, steps: seq<Step>, i: nat)
    requires IsRun(states, steps) && i < |states|
    ensures Inv(states[i])
  {
    if i > 0 {
      RunKeepsInv(states, steps, i - 1);
      InvPreserved(states[i - 1], steps[i - 1]);
    } else {
      assert Inv(Init());
    }
  }

  // ---- theorems

  /** At most one reload executes, and it is the running one. */
  lemma SingleFlight(states: seq<State>, steps: seq<Step>, i: nat, t: nat, u: nat)
    requires IsRun(states, steps) && i < |states| && Active(states[i], t)
    ensures states[i].running == Some(t)
    ensures Active(states[i], u) ==> t == u
  {
    RunKeepsInv(states, steps, i);
    assert Live(states[i], t);
    assert Active(states[i], u) ==> Live(states[i], u);
  }

  /** The pending reload has not begun, so sharing it gives a fresh result. */
  lemma PendingIsFresh(states: seq<State>, steps: seq<Step>, i: nat)
    requires IsRun(states, steps) && i < |states| && states[i].pending.Some?
    ensures !Began(states[i], states[i].pending.value) && states[i].running.Some?
  {
    RunKeepsInv(states, steps, i);
  }

  /** Every answer comes from an execution that began after the call was made. */
  lemma AnswersAreFresh(states: seq<State>, steps: seq<Step>, i: nat, c: nat)
    requires IsRun(states, steps) && i < |states| && c < |states[i].calls|
    ensures var call := states[i].calls[c];
            && call.task < |states[i].tasks|
            && (states[i].tasks[call.task].phase.Done? ==> call.at < states[i].tasks[call.task].phase.since)
  {
    RunKeepsInv(states, steps, i);
    assert states[i].calls[c].at < states[i].clock;
  }

  // ---- the same, read off the steps of the run: the clock counts them

  lemma {:induction false} ClockCounts(states: seq<State>, steps: seq<Step>, i: nat)
    requires IsRun(states, steps) && i < |states|
    ensures states[i].clock == i
  {
    if i > 0 {
      ClockCounts(states, steps, i - 1);
      assert Enabled(states[i - 1], steps[i - 1]) && states[i] == Apply(states[i - 1], steps[i - 1]);
    }
  }

  /**
   * A call was made by the request step it is stamped with, and waits on a new task
   * if nothing was running then, and otherwise on the one pending task.
   */
  lemma {:induction false} CallsAreRequests(states: seq<State>, steps: seq<Step>, i: nat, c: nat)
    requires IsRun(states, steps) && i < |states| && c < |states[i].calls|
    ensures var Call(task, at) := states[i].calls[c];
            && at < i && steps[at] == Request && |states[at].calls| == c
            && (if states[at].running == None
                then task == |states[at].tasks| && states[at + 1].running == Some(task)
                else states[at + 1].pending == Some(task))
  {
    assert i > 0;
    ClockCounts(states, steps, i - 1);
    assert Enabled(states[i - 1], steps[i - 1]) && states[i] == Apply(states[i - 1], steps[i - 1]);
    if c < |states[i - 1].calls| {
      CallsAreRequests(states, steps, i - 1, c);
      assert states[i].calls[c] == states[i - 1].calls[c];
    }
  }

  /** The steps before `i` in which task `t` began executing and returned. */
  ghost predicate Happened(steps: seq<Step>, i: nat, t: nat, phase: Phase)
    requires i <= |steps|
  {
    match phase
    case Executing(since) => since < i && (steps[since] == Schedule(t) || steps[since] == Wake(t))
    case Unwinding(since, ok) =>
      && since < i && (steps[since] == Schedule(t) || steps[since] == Wake(t))
      && exists r :: since < r < i && steps[r] == Return(t, ok)
    case Done(since, ok) =>
      && since < i && (steps[since] == Schedule(t) || steps[since] == Wake(t))
      && exists r :: since < r < i && steps[r] == Return(t, ok)
    case _ => true
  }

  lemma {:induction false} TasksHappened(states: seq<State>, steps: seq<Step>, i: nat, t: nat)
    requires IsRun(states, steps) && i < |states| && t < |states[i].tasks|
    ensures Happened(steps, i, t, states[i].tasks[t].phase)
  {
    if i > 0 {
      ClockCounts(states, steps, i - 1);
      assert Enabled(states[i - 1], steps[i - 1]) && states[i] == Apply(states[i - 1], steps[i - 1]);
      if t < |states[i - 1].tasks| {
        TasksHappened(states, steps, i - 1, t);
      }
    }
  }

  /**
   * Every answer is what an execution returned that began after the call: the call,
   * the beginning and the return are steps of the run, in this order.
   */
  lemma AnswersAreReturned(states: seq<State>, steps: seq<Step>, i: nat, c: nat) returns (began: nat, returned: nat)
    requires IsRun(states, steps) && i < |states| && c < |states[i].calls|
    requires states[i].calls[c].task < |states[i].tasks| && states[i].tasks[states[i].calls[c].task].phase.Done?
    ensures var Call(t, at) := states[i].calls[c];
            && at < began < returned < i && steps[at] == Request
            && (steps[began] == Schedule(t) || steps[began] == Wake(t))
            && steps[returned] == Return(t, states[i].tasks[t].phase.ok)
  {
    var Call(t, at) := states[i].calls[c];
    AnswersAreFresh(states, steps, i, c);
    CallsAreRequests(states, steps, i, c);
    TasksHappened(states, steps, i, t);
    began := states[i].tasks[t].phase.since;
    returned :| began < returned < i && steps[returned] == Return(t, states[i].tasks[t].phase.ok);
  }

  function Shifts(steps: seq<Step>): nat {
    if steps == [] then 0 else Shifts(steps[..|steps| - 1]) + (if steps[|steps| - 1].Shift? then 1 else 0)
  }

  predicate CountsStep(s: State, s': State, step: Step) {
    DoneCount(s'.tasks) == DoneCount(s.tasks) + (if step.Shift? then 1 else 0)
  }

  lemma {:induction false} CountsChain(states: seq<State>, steps: seq<Step>, i: nat, j: nat)
    requires i <= j <= |steps| < |states|
    requires forall m :: i <= m < j ==> CountsStep(states[m], states[m + 1], steps[m])
    ensures DoneCount(states[j].tasks) == DoneCount(states[i].tasks) + Shifts(steps[i..j])
    decreases j
  {
    if i < j {
      CountsChain(states, steps, i, j - 1);
      assert CountsStep(states[j - 1], states[j - 1 + 1], steps[j - 1]);
      assert steps[i..j][..j - 1 - i] == steps[i..j - 1];
    }
  }

  lemma ShiftsCountDone(states: seq<State>, steps: seq<Step>, i: nat, j: nat)
    requires IsRun(states, steps) && i <= j < |states|
    ensures DoneCount(states[j].tasks) == DoneCount(states[i].tasks) + Shifts(steps[i..j])
  {
    forall m | i <= m < j ensures CountsStep(states[m], states[m + 1], steps[m]) {
      StepCountsDone(states[m], steps[m]);
    }
    CountsChain(states, steps, i, j);
  }

  lemma StepCountsDone(s: State, step: Step)
    requires Enabled(s, step)
    ensures CountsStep(s, Apply(s, step), step)
  {
    var s' := Apply(s, step);
    match step {
      case Request => if |s'.tasks| > |s.tasks| { assert s'.tasks[..|s.tasks|] == s.tasks; }
      case _ => DoneCountUpdate(s.tasks, step.t, s'.tasks[step.t]);
    }
  }

  /**
   * Coalescing: over any stretch of a run, however many calls arrive, the reloads
   * created are those that finished plus the change in occupied slots: never more
   * than two beyond the number that finished.
   */
  lemma Coalesced(states: seq<State>, steps: seq<Step>, i: nat, j: nat)
    requires IsRun(states, steps) && i <= j < |states|
    ensures |states[j].tasks| - |states[i].tasks|
         == Shifts(steps[i..j]) + (Occupied(states[j].running) + Occupied(states[j].pending))
            - (Occupied(states[i].running) + Occupied(states[i].pending))
  {
    RunKeepsInv(states, steps, i);
    RunKeepsInv(states, steps, j);
    ShiftsCountDone(states, steps, i, j);
  }

  // ---- the reloader always drains

  function Rank(phase: Phase): nat {
    match phase
    case Created => 4
    case Awaiting(_) => 3
    case Executing(_) => 2
    case Unwinding(_, _) => 1
    case Done(_, _) => 0
  }

  function SlotRank(s: State, slot: Option<nat>): nat {
    if slot.Some? && slot.value < |s.tasks| then Rank(s.tasks[slot.value].phase) else 0
  }

  function Work(s: State): nat {
    SlotRank(s, s.running) + SlotRank(s, s.pending)
  }

  /** Nothing deadlocks: while a slot is occupied, the running task can take a step. */
  lemma NeverStuck(s: State)
    requires Inv(s) && s.running.Some?
    ensures exists step: Step :: !step.Request? && Enabled(s, step)
  {
    var r := s.running.value;
    assert Live(s, r);
    match s.tasks[r].phase {
      case Created => assert Enabled(s, Schedule(r));
      case Awaiting(p) => assert Enabled(s, Wake(r));
      case Executing(_) => assert Enabled(s, Return(r, true));
      case Unwinding(_, _) => assert Enabled(s, Shift(r));
    }
  }

  lemma StepsDoWork(s: State, step: Step)
    requires Inv(s) && Enabled(s, step) && !step.Request?
    ensures Work(Apply(s, step)) < Work(s)
  {
    assert Live(s, step.t);
  }

  lemma {:induction false} WorkBoundsSteps(states: seq<State>, steps: seq<Step>, i: nat, j: nat)
    requires IsRun(states, steps) && i <= j < |states|
    requires forall m :: i <= m < j ==> !steps[m].Request?
    ensures Work(states[j]) + (j - i) <= Work(states[i])
    decreases j
  {
    if i < j {
      WorkBoundsSteps(states, steps, i, j - 1);
      RunKeepsInv(states, steps, j - 1);
      StepsDoWork(states[j - 1], steps[j - 1]);
    }
  }

  /**
   * Once calls stop, at most eight more steps happen; and whenever no step is
   * possible, both slots are empty and every caller has its answer.
   */
  lemma Drains(states: seq<State>, steps: seq<Step>, i: nat, j: nat)
    requires IsRun(states, steps) && i <= j < |states|
    requires forall m :: i <= m < j ==> !steps[m].Request?
    ensures j - i <= 8
    ensures (forall step: Step :: Enabled(states[j], step) ==> step.Request?) ==>
              && states[j].running == None && states[j].pending == None
              && forall c :: 0 <= c < |states[j].calls| ==>
                   states[j].calls[c].task < |states[j].tasks| && states[j].tasks[states[j].calls[c].task].phase.Done?
  {
    WorkBoundsSteps(states, steps, i, j);
    RunKeepsInv(states, steps, j);
    var s := states[j];
    if forall step: Step :: Enabled(s, step) ==> step.Request? {
      if s.running.Some? { NeverStuck(s); }
      forall c | 0 <= c < |s.calls| ensures s.calls[c].task < |s.tasks| && s.tasks[s.calls[c].task].phase.Done? {
        assert s.calls[c].at < s.clock;
        assert Live(s, s.calls[c].task) ==> s.running.Some?;
      }
    }
  }

  ghost predicate FindsItself(states: seq<State>, steps: seq<Step>, i: nat, t: nat) {
    && IsRun(states, steps) && i < |steps| && steps[i] == Schedule(t)
    && t < |states[i].tasks| && states[i].tasks[t].kind == Queued && states[i].running == Some(t)
    && Active(states[i + 1], t)
  }

  /** The corner case is real: a queued task can be promoted before its first step. */
  lemma PromotedBeforeItsFirstStep()
    ensures exists states: seq<State>, steps: seq<Step> :: FindsItself(states, steps, 5, 1)
  {
    var steps := [Request, Request, Schedule(0), Return(0, true), Shift(0), Schedule(1)];
    var s0 := Init();
    var s1 := Apply(s0, Request);
    var s2 := Apply(s1, Request);
    var s3 := Apply(s2, Schedule(0));
    var s4 := Apply(s3, Return(0, true));
    var s5 := Apply(s4, Shift(0));
    var s6 := Apply(s5, Schedule(1));
    assert FindsItself([s0, s1, s2, s3, s4, s5, s6], steps, 5, 1);
  }

  // ---- the object

  class Reloader {
    var tasks: seq<Task>
    var running: Option<nat>
    var pending: Option<nat>
    var clock: nat // counts steps; stands for the time
    ghost var calls: seq<Call>

    ghost function View(): State reads this {
      State(clock, tasks, running, pending, calls)
    }

    constructor ()
      ensures View() == Init()
    {
      tasks := [];
      running := None;
      pending := None;
      clock := 0;
      calls := [];
    }

    /** The critical section of `reload`; the caller then awaits the returned task. */
    method Reload() returns (task: nat)
      requires Inv(View())
      modifies this
      ensures View() == Apply(old(View()), Request) && Inv(View())
      ensures task < |tasks| && calls == old(calls) + [Call(task, old(clock))]
      ensures !Began(View(), task)
    {
      InvPreserved(View(), Request);
      if running == None {
        task := |tasks|;
        tasks := tasks + [Task(First, Created)];
        running := Some(task);
      } else if pending == None {
        task := |tasks|;
        tasks := tasks + [Task(Queued, Created)];
        pending := Some(task);
      } else {
        task := pending.value;
      }
      calls := calls + [Call(task, clock)];
      clock := clock + 1;
    }

    /** First step of `_wrap_run`. */
    method BeginRun(t: nat)
      requires Inv(View()) && t < |tasks| && tasks[t] == Task(First, Created)
      modifies this
      ensures View() == Apply(old(View()), Schedule(t)) && Inv(View()) && Active(View(), t)
    {
      InvPreserved(View(), Schedule(t));
      tasks := tasks[t := tasks[t].(phase := Executing(clock))];
      clock := clock + 1;
    }

    /** `_wrap_after_current` up to its first suspension. */
    method ReadPrevious(t: nat)
      requires Inv(View()) && t < |tasks| && tasks[t] == Task(Queued, Created)
      modifies this
      ensures View() == Apply(old(View()), Schedule(t)) && Inv(View())
      ensures Active(View(), t) <==> old(running) == Some(t)
    {
      assert Live(View(), t);
      InvPreserved(View(), Schedule(t));
      var previous := running;
      if previous == None || previous.value == t {
        tasks := tasks[t := tasks[t].(phase := Executing(clock))];
      } else {
        tasks := tasks[t := tasks[t].(phase := Awaiting(previous.value))];
      }
      clock := clock + 1;
    }

    /** The finally block of either wrapper: promote the pending task. */
    method Promote(t: nat)
      requires Inv(View()) && t < |tasks| && tasks[t].phase.Unwinding?
      modifies this
      ensures View() == Apply(old(View()), Shift(t)) && Inv(View())
      ensures running == old(pending) && pending == None
    {
      InvPreserved(View(), Shift(t));
      tasks := tasks[t := tasks[t].(phase := Done(tasks[t].phase.since, tasks[t].phase.ok))];
      running := pending;
      pending := None;
      clock := clock + 1;
    }
  }
}
