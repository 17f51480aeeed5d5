// One run of a job: the executor's step loop, the events it persists, and the
// worker that opens the run and closes run and job together.
//
// What the outside world does is a script: how every step ends, which delays
// fire, and after how many awaits the job timeout cancels the executor. An event
// number is taken before its row is written, so a cancelled or failed write
// leaves a hole in the numbers.
module RunLog {
  import opened Base
  import opened Jobs
  import opened Workflows
  import opened Sync
  import RoundRobin

  datatype Event =
    | Started
    | Delayed(step: nat)
    | Acted(step: nat, nth: nat)
    | StepFailed(step: nat, error: string)
    | Finished(success: bool, cause: Option<string>)

  datatype Entry = Entry(number: nat, event: Event)

  /** How a step's action ends; its own timeout cancels it, `lost` if in the middle of writing an event. */
  datatype End = Done | TimedOut | Raised(error: string)

  datatype Act = Act(delay: bool, events: nat, lost: bool, end: End)

  predicate Failed(act: Act) {
    !act.end.Done?
  }

  function ErrorOf(end: End): string
    requires !end.Done?
  {
    match end
    case TimedOut => "step_timeout"
    case Raised(error) => error
  }

  /** A failure that ends the run. */
  predicate Stops(step: ActionStep, act: Act) {
    Failed(act) && !step.continueOnError
  }

  datatype ExecutionResult = ExecutionResult(success: bool, error: Option<string>, stepErrors: seq<(nat, string)>)

  datatype Execution = Returned(result: ExecutionResult) | JobTimeout | Escaped(error: string)

  // ---- what a run should log

  function ActedEvents(step: nat, count: nat): seq<Event> {
    seq(count, (n: nat) => Acted(step, n))
  }

  function DelayEvents(i: nat, act: Act): seq<Event> {
    if act.delay then [Delayed(i)] else []
  }

  function FailureEvents(i: nat, act: Act): seq<Event> {
    if Failed(act) then [StepFailed(i, ErrorOf(act.end))] else []
  }

  /** The events of one attempted step, in order. */
  function StepEvents(i: nat, act: Act): seq<Event> {
    DelayEvents(i, act) + ActedEvents(i, act.events) + FailureEvents(i, act)
  }

  function FirstEvents(acts: seq<Act>, n: nat): seq<Event>
    requires n <= |acts|
  {
    if n == 0 then [] else FirstEvents(acts, n - 1) + StepEvents(n - 1, acts[n - 1])
  }

  function FirstErrors(acts: seq<Act>, n: nat): seq<(nat, string)>
    requires n <= |acts|
  {
    if n == 0 then []
    else FirstErrors(acts, n - 1) + (if Failed(acts[n - 1]) then [(n - 1, ErrorOf(acts[n - 1].end))] else [])
  }

  /** The attempted steps are the first `n`: none before the last of them stops the run. */
  predicate Attempts(steps: seq<ActionStep>, acts: seq<Act>, n: nat)
    requires |steps| == |acts|
  {
    n <= |steps| && forall i :: 0 <= i < n - 1 ==> !Stops(steps[i], acts[i])
  }

  /** The run went as far as it goes: to the end, or to the first stopping failure. */
  predicate Complete(steps: seq<ActionStep>, acts: seq<Act>, n: nat)
    requires |steps| == |acts| && n <= |steps|
  {
    n == |steps| || (n > 0 && Stops(steps[n - 1], acts[n - 1]))
  }

  predicate NoStop(steps: seq<ActionStep>, acts: seq<Act>)
    requires |steps| == |acts|
  {
    forall i :: 0 <= i < |steps| ==> !Stops(steps[i], acts[i])
  }

  // ---- how many awaits a run takes, which is when the job timeout strikes

  /** Of `before` awaits until the timeout, `n` more are taken: cut exactly if there are not that many. */
  predicate Spent(before: Option<nat>, after: Option<nat>, n: nat, cut: bool) {
    if before == None then !cut && after == None
    else (cut <==> before.value < n) && (!cut ==> after == Some(before.value - n))
  }

  lemma SpentAdds(before: Option<nat>, mid: Option<nat>, after: Option<nat>, n: nat, m: nat, cut: bool)
    requires Spent(before, mid, n, false) && Spent(mid, after, m, cut)
    ensures Spent(before, after, n + m, cut)
  {
  }

  /** The delay and its event, each event's write, the action's end, and the failure's event. */
  function StepAwaits(act: Act): nat {
    (if act.delay then 3 else 0) + 2 * act.events + 1 + (if Failed(act) then 2 else 0)
  }

  function AwaitsOf(acts: seq<Act>, n: nat): nat
    requires n <= |acts|
  {
    if n == 0 then 0 else AwaitsOf(acts, n - 1) + StepAwaits(acts[n - 1])
  }

  /** There is one more sleep after each step but the last, if the plan has a delay between steps. */
  function Sleeps(interDelay: bool, n: nat, total: nat): nat {
    if !interDelay then 0 else if n < total then n else if total > 0 then total - 1 else 0
  }

  lemma AwaitsGrow(acts: seq<Act>, i: nat, interDelay: bool)
    requires i < |acts|
    ensures AwaitsOf(acts, i + 1) == AwaitsOf(acts, i) + StepAwaits(acts[i])
    ensures Sleeps(interDelay, i + 1, |acts|)
         == Sleeps(interDelay, i, |acts|) + (if interDelay && i < |acts| - 1 then 1 else 0)
    ensures Sleeps(interDelay, i + 1, i + 1) == Sleeps(interDelay, i, |acts|)
  {
  }

  // ---- the mutable context

  function EventsOf(entries: seq<Entry>): (events: seq<Event>)
    ensures |events| == |entries|
  {
    seq(|entries|, i requires 0 <= i < |entries| => entries[i].event)
  }

  predicate NumbersIncrease(entries: seq<Entry>) {
    forall i, j :: 0 <= i < j < |entries| ==> entries[i].number < entries[j].number
  }

  /** Numbers increase, so they are distinct, and none is ahead of the counter. */
  predicate Numbered(entries: seq<Entry>, next: nat) {
    && NumbersIncrease(entries)
    && (forall i :: 0 <= i < |entries| ==> entries[i].number < next)
  }

  class ActionContext {
    var nextNumber: nat
    var entries: seq<Entry>         // the run's rows, as committed by the event writer
    var stepIndex: nat
    var awaitsLeft: Option<nat>     // awaits until the job timeout strikes, if armed and ever

    ghost predicate Valid() reads this {
      Numbered(entries, nextNumber)
    }

    ghost function Events(): seq<Event> reads this {
      EventsOf(entries)
    }

    constructor ()
      ensures Valid() && Events() == [] && awaitsLeft == None
    {
      nextNumber, entries, stepIndex, awaitsLeft := 0, [], 0, None;
    }

    /** One await: true if the job timeout strikes in it. */
    method Await() returns (cut: bool)
      modifies this`awaitsLeft
      ensures Spent(old(awaitsLeft), awaitsLeft, 1, cut)
    {
      cut := false;
      if awaitsLeft.Some? {
        if awaitsLeft.value == 0 {
          cut := true;
        } else {
          awaitsLeft := Some(awaitsLeft.value - 1);
        }
      }
    }

    /** Take a number, then write the row: cut before the commit, after it, or not at all. */
    method Emit(event: Event) returns (cut: bool)
      requires Valid()
      modifies this`nextNumber, this`entries, this`awaitsLeft
      ensures Valid() && nextNumber == old(nextNumber) + 1
      ensures Events() == old(Events()) + [event] || (cut && Events() == old(Events()))
      ensures Spent(old(awaitsLeft), awaitsLeft, 2, cut)
    {
      var number := nextNumber;
      nextNumber := nextNumber + 1;
      cut := Await();
      if cut { return; }
      entries := entries + [Entry(number, event)];
      assert Events() == old(Events()) + [event];
      cut := Await();
    }

    /** `_run_step`: the action emits its events and then ends. */
    method RunStep(i: nat, act: Act) returns (cut: bool)
      requires Valid()
      modifies this`nextNumber, this`entries, this`awaitsLeft
      ensures Valid()
      ensures Events() == old(Events()) + ActedEvents(i, act.events)
           || (cut && exists n :: 0 <= n <= act.events && Events() == old(Events()) + ActedEvents(i, n))
      ensures Spent(old(awaitsLeft), awaitsLeft, 2 * act.events + 1, cut)
    {
      for n := 0 to act.events
        invariant Valid() && Events() == old(Events()) + ActedEvents(i, n)
        invariant Spent(old(awaitsLeft), awaitsLeft, 2 * n, false)
      {
        ghost var soFar := Events();
        cut := Emit(Acted(i, n));
        assert ActedEvents(i, n + 1) == ActedEvents(i, n) + [Acted(i, n)];
        if cut {
          if Events() == soFar + [Acted(i, n)] {
            assert Events() == old(Events()) + ActedEvents(i, n + 1);
          }
          return;
        }
      }
      if act.lost {
        nextNumber := nextNumber + 1;
      }
      cut := Await();
    }
  }

  /** Where the step loop stands: the first `n` steps are logged in full. */
  ghost predicate LoggedUpTo(base: seq<Event>, events: seq<Event>, acts: seq<Act>, n: nat)
    requires n <= |acts|
  {
    events == base + FirstEvents(acts, n)
  }

  /** Cut off: some of the events of the first `n` steps, from the front. */
  ghost predicate LoggedPart(base: seq<Event>, events: seq<Event>, acts: seq<Act>, n: nat)
    requires n <= |acts|
  {
    base <= events <= base + FirstEvents(acts, n)
  }

  lemma PartOfStep(base: seq<Event>, events: seq<Event>, acts: seq<Act>, i: nat, part: seq<Event>)
    requires i < |acts| && part <= StepEvents(i, acts[i]) && events == base + FirstEvents(acts, i) + part
    ensures LoggedPart(base, events, acts, i + 1)
    ensures part == StepEvents(i, acts[i]) ==> LoggedUpTo(base, events, acts, i + 1)
  {
    var before, all := base + FirstEvents(acts, i), StepEvents(i, acts[i]);
    PrefixOfAppended(before, part, all);
    StepAppends(base, acts, i);
  }

  lemma StepAppends(base: seq<Event>, acts: seq<Act>, i: nat)
    requires i < |acts|
    ensures base + FirstEvents(acts, i + 1) == base + FirstEvents(acts, i) + StepEvents(i, acts[i])
  {
    assert base + (FirstEvents(acts, i) + StepEvents(i, acts[i]))
        == base + FirstEvents(acts, i) + StepEvents(i, acts[i]);
  }

  lemma PrefixOfAppended(before: seq<Event>, part: seq<Event>, all: seq<Event>)
    requires part <= all
    ensures before <= before + part <= before + all
  {
    assert before + all == before + part + all[|part|..];
  }

  /** The delay before a step, outside its timeout. */
  method DelayBefore(ctx: ActionContext, i: nat, act: Act) returns (cut: bool, ghost part: seq<Event>)
    requires ctx.Valid()
    modifies ctx
    ensures ctx.Valid() && ctx.stepIndex == old(ctx.stepIndex)
    ensures ctx.Events() == old(ctx.Events()) + part && part <= DelayEvents(i, act)
    ensures !cut ==> part == DelayEvents(i, act)
    ensures Spent(old(ctx.awaitsLeft), ctx.awaitsLeft, if act.delay then 3 else 0, cut)
  {
    cut, part := false, [];
    assert ctx.Events() == old(ctx.Events()) + part;
    if act.delay {
      cut := ctx.Await();
      if cut { return; }
      cut := ctx.Emit(Delayed(i));
      if ctx.Events() != old(ctx.Events()) { part := [Delayed(i)]; }
    }
  }

  lemma PartOfActions(i: nat, act: Act, n: nat)
    requires n <= act.events
    ensures DelayEvents(i, act) + ActedEvents(i, n) <= StepEvents(i, act)
  {
    assert ActedEvents(i, n) <= ActedEvents(i, act.events);
  }

  /** The failure event of a step that failed. */
  method LogFailure(ctx: ActionContext, i: nat, act: Act) returns (cut: bool, ghost part: seq<Event>)
    requires ctx.Valid()
    modifies ctx
    ensures ctx.Valid() && ctx.stepIndex == old(ctx.stepIndex)
    ensures ctx.Events() == old(ctx.Events()) + part && part <= FailureEvents(i, act)
    ensures !cut ==> part == FailureEvents(i, act)
    ensures Spent(old(ctx.awaitsLeft), ctx.awaitsLeft, if Failed(act) then 2 else 0, cut)
  {
    cut, part := false, [];
    assert ctx.Events() == old(ctx.Events()) + part;
    if Failed(act) {
      cut := ctx.Emit(StepFailed(i, ErrorOf(act.end)));
      if ctx.Events() != old(ctx.Events()) { part := [StepFailed(i, ErrorOf(act.end))]; }
    }
  }

  /** One turn of the step loop up to the failure decision: what it logs of the step. */
  method AttemptStep(ctx: ActionContext, i: nat, act: Act) returns (cut: bool, ghost part: seq<Event>)
    requires ctx.Valid()
    modifies ctx
    ensures ctx.Valid() && ctx.stepIndex == i
    ensures ctx.Events() == old(ctx.Events()) + part && part <= StepEvents(i, act)
    ensures !cut ==> part == StepEvents(i, act)
    ensures Spent(old(ctx.awaitsLeft), ctx.awaitsLeft, StepAwaits(act), cut)
  {
    ctx.stepIndex := i;
    cut, part := DelayBefore(ctx, i, act);
    if cut { return; }
    ghost var delayed := ctx.Events();
    cut := ctx.RunStep(i, act);
    if cut {
      ghost var n :| 0 <= n <= act.events && ctx.Events() == delayed + ActedEvents(i, n);
      PartOfActions(i, act, n);
      part := part + ActedEvents(i, n);
      return;
    }
    ghost var failure;
    cut, failure := LogFailure(ctx, i, act);
    part := part + ActedEvents(i, act.events) + failure;
  }

  /** The same against what has been logged of the steps before. */
  method LogStep(ctx: ActionContext, i: nat, acts: seq<Act>, ghost base: seq<Event>) returns (cut: bool)
    requires ctx.Valid() && i < |acts| && LoggedUpTo(base, ctx.Events(), acts, i)
    modifies ctx
    ensures ctx.Valid() && LoggedPart(base, ctx.Events(), acts, i + 1)
    ensures !cut ==> LoggedUpTo(base, ctx.Events(), acts, i + 1)
    ensures Spent(old(ctx.awaitsLeft), ctx.awaitsLeft, StepAwaits(acts[i]), cut)
  {
    ghost var part;
    cut, part := AttemptStep(ctx, i, acts[i]);
    PartOfStep(base, ctx.Events(), acts, i, part);
  }

  /** One turn of the step loop: the step, then the sleep between steps unless the run stops here. */
  method TakeTurn(ctx: ActionContext, i: nat, steps: seq<ActionStep>, acts: seq<Act>, interDelay: bool,
                  ghost base: seq<Event>)
    returns (cut: bool, stopped: bool)
    requires ctx.Valid() && i < |steps| == |acts| && LoggedUpTo(base, ctx.Events(), acts, i)
    modifies ctx
    ensures ctx.Valid() && LoggedPart(base, ctx.Events(), acts, i + 1)
    ensures !cut ==> LoggedUpTo(base, ctx.Events(), acts, i + 1)
    ensures !cut ==> (stopped <==> Stops(steps[i], acts[i]))
    ensures Spent(old(ctx.awaitsLeft), ctx.awaitsLeft,
                  StepAwaits(acts[i]) + (if interDelay && i < |steps| - 1 && !stopped then 1 else 0), cut)
  {
    stopped := false;
    cut := LogStep(ctx, i, acts, base);
    if cut { return; }
    if Failed(acts[i]) && !steps[i].continueOnError {
      stopped := true;
      return;
    }
    if i < |steps| - 1 && interDelay {
      cut := ctx.Await();
    }
  }

  /** The step loop of `execute`. */
  method RunSteps(ctx: ActionContext, steps: seq<ActionStep>, acts: seq<Act>, interDelay: bool)
    returns (r: Execution, attempted: nat)
    requires ctx.Valid() && |steps| == |acts|
    modifies ctx
    ensures ctx.Valid() && Executed(r, old(ctx.Events()), ctx.Events(), steps, acts, attempted)
    ensures !r.Escaped?
    ensures r.Returned? ==>
              Spent(old(ctx.awaitsLeft), ctx.awaitsLeft,
                    AwaitsOf(acts, attempted) + Sleeps(interDelay, attempted, attempted), false)
    ensures r.JobTimeout? ==>
              && old(ctx.awaitsLeft).Some?
              && old(ctx.awaitsLeft).value < AwaitsOf(acts, attempted) + Sleeps(interDelay, attempted, |steps|)
  {
    var result := ExecutionResult(true, None, []);
    attempted := 0;
    ghost var base, spent: nat := ctx.Events(), 0;
    assert base == base + FirstEvents(acts, 0);
    for i := 0 to |steps|
      invariant ctx.Valid() && attempted == i
      invariant LoggedUpTo(base, ctx.Events(), acts, i)
      invariant result == ExecutionResult(true, None, FirstErrors(acts, i))
      invariant NoStopBefore(steps, acts, i)
      invariant spent == AwaitsOf(acts, i) + Sleeps(interDelay, i, |steps|)
      invariant Spent(old(ctx.awaitsLeft), ctx.awaitsLeft, spent, false)
    {
      attempted := i + 1;
      ghost var left := ctx.awaitsLeft;
      AwaitsGrow(acts, i, interDelay);
      var cut, stopped := TakeTurn(ctx, i, steps, acts, interDelay, base);
      ghost var more := StepAwaits(acts[i]) + (if interDelay && i < |steps| - 1 && !stopped then 1 else 0);
      SpentAdds(old(ctx.awaitsLeft), left, ctx.awaitsLeft, spent, more, cut);
      spent := spent + more;
      if cut {
        CutIsExecuted(base, ctx.Events(), steps, acts, i + 1);
        return JobTimeout, attempted;
      }
      if Failed(acts[i]) {
        result := result.(stepErrors := result.stepErrors + [(i, ErrorOf(acts[i].end))]);
      }
      if stopped {
        result := result.(success := false, error := Some("step failed"));
        StoppedIsExecuted(result, base, ctx.Events(), steps, acts, i);
        return Returned(result), attempted;
      }
    }
    FinishedIsExecuted(result, base, ctx.Events(), steps, acts);
    r := Returned(result);
  }

  /** What the outside world does to one run. */
  datatype Script = Script(
    random: nat,                       // the random variant
    bumpError: Option<string>,         // the counter update fails
    acts: nat -> Act,                  // how each step goes
    interDelay: bool,                  // the plan sleeps between steps
    budget: Option<nat>)               // awaits until the job timeout

  function ActsOf(script: Script, n: nat): (acts: seq<Act>)
    ensures |acts| == n
  {
    seq(n, (i: nat) => script.acts(i))
  }

  /**
   * What an execution promises. `body` is what it logged: if it returned, the
   * attempted steps in full, reaching the end or the first stopping failure, and
   * success means there was none; if it was cut off, part of that.
   */
  ghost predicate Executed(r: Execution, base: seq<Event>, events: seq<Event>, steps: seq<ActionStep>, acts: seq<Act>,
                           attempted: nat)
    requires |steps| == |acts|
  {
    && Attempts(steps, acts, attempted) && LoggedPart(base, events, acts, attempted)
    && (r.Returned? ==>
          && Complete(steps, acts, attempted) && LoggedUpTo(base, events, acts, attempted)
          && r.result.stepErrors == FirstErrors(acts, attempted)
          && (r.result.success <==> NoStop(steps, acts)) && (r.result.success <==> r.result.error == None))
  }

  /** Each of the first `n` steps was done, or may be continued from. */
  predicate MayContinue(steps: seq<ActionStep>, acts: seq<Act>, n: nat)
    requires n <= |steps| == |acts|
  {
    forall i :: 0 <= i < n ==> acts[i].end == Done || steps[i].continueOnError
  }

  /**
   * When a run stops, in terms of how the steps ended: no step before the last
   * attempted one failed unless it may be continued from; a run that returned short
   * of the end did so at a step that failed and may not; and it is a success exactly
   * if every step was attempted and only such steps failed as may be continued from.
   */
  lemma StopsExactly(r: Execution, base: seq<Event>, events: seq<Event>, steps: seq<ActionStep>, acts: seq<Act>,
                     attempted: nat)
    requires |steps| == |acts| && Executed(r, base, events, steps, acts, attempted)
    ensures attempted <= |steps|
    ensures forall i :: 0 <= i < attempted - 1 ==> acts[i].end == Done || steps[i].continueOnError
    ensures r.Returned? && attempted < |steps| ==>
              attempted > 0 && acts[attempted - 1].end != Done && !steps[attempted - 1].continueOnError
    ensures r.Returned? ==>
              (r.result.success
               <==> attempted == |steps| && MayContinue(steps, acts, |steps|))
  {
    if r.Returned? && attempted < |steps| {
      assert Stops(steps[attempted - 1], acts[attempted - 1]);
    }
    assert MayContinue(steps, acts, |steps|) <==> NoStop(steps, acts);
  }

  /** The error text of a step: none if it was done. */
  predicate EndsWith(end: End, error: string) {
    (end == TimedOut && error == "step_timeout") || end == Raised(error)
  }

  /** The step errors of a returned run: those of its attempted steps, in order. */
  lemma {:induction false} ErrorsExactly(acts: seq<Act>, n: nat)
    requires n <= |acts|
    ensures forall i: nat, error :: (i, error) in FirstErrors(acts, n) <==> i < n && EndsWith(acts[i].end, error)
    ensures forall j, k :: 0 <= j < k < |FirstErrors(acts, n)| ==> FirstErrors(acts, n)[j].0 < FirstErrors(acts, n)[k].0
  {
    if n > 0 {
      ErrorsExactly(acts, n - 1);
      var earlier := FirstErrors(acts, n - 1);
      forall j | 0 <= j < |earlier| ensures earlier[j].0 < n - 1 {
        assert (earlier[j].0, earlier[j].1) in earlier;
      }
    }
  }

  /** The event of a step `a` comes before `b`: by step, then delay, actions in order, failure. */
  predicate Precedes(a: Event, b: Event) {
    match a
    case Delayed(i) => (b.Delayed? || b.Acted? || b.StepFailed?) && (i < b.step || (i == b.step && !b.Delayed?))
    case Acted(i, n) =>
      || ((b.Delayed? || b.Acted? || b.StepFailed?) && i < b.step)
      || (b.Acted? && i == b.step && n < b.nth) || (b.StepFailed? && i == b.step)
    case StepFailed(i, _) => (b.Delayed? || b.Acted? || b.StepFailed?) && i < b.step
    case _ => false
  }

  predicate InOrder(events: seq<Event>) {
    forall j, k :: 0 <= j < k < |events| ==> Precedes(events[j], events[k])
  }

  /** Which events the first `n` steps leave behind. */
  predicate Leaves(acts: seq<Act>, n: nat, e: Event)
    requires n <= |acts|
  {
    match e
    case Delayed(i) => i < n && acts[i].delay
    case Acted(i, k) => i < n && k < acts[i].events
    case StepFailed(i, error) => i < n && EndsWith(acts[i].end, error)
    case _ => false
  }

  lemma StepEventsExactly(acts: seq<Act>, i: nat)
    requires i < |acts|
    ensures forall e :: e in StepEvents(i, acts[i]) <==> Leaves(acts, i + 1, e) && !Leaves(acts, i, e)
    ensures InOrder(StepEvents(i, acts[i]))
  {
    var act := acts[i];
    var acted := ActedEvents(i, act.events);
    forall k: nat | k < act.events ensures Acted(i, k) in acted {
      assert acted[k] == Acted(i, k);
    }
    forall e ensures e in StepEvents(i, act) <==> Leaves(acts, i + 1, e) && !Leaves(acts, i, e) {
    }
  }

  /** The events of the attempted steps are those the steps leave, each once, in the order of the steps. */
  lemma {:induction false} EventsExactly(acts: seq<Act>, n: nat)
    requires n <= |acts|
    ensures forall e :: e in FirstEvents(acts, n) <==> Leaves(acts, n, e)
    ensures InOrder(FirstEvents(acts, n))
  {
    if n > 0 {
      EventsExactly(acts, n - 1);
      StepEventsExactly(acts, n - 1);
      LeavesGrow(acts, n - 1);
      OrderAppends(acts, n - 1);
    }
  }

  lemma LeavesGrow(acts: seq<Act>, i: nat)
    requires i < |acts|
    ensures forall e :: Leaves(acts, i, e) ==> Leaves(acts, i + 1, e)
  {
  }

  lemma OrderAppends(acts: seq<Act>, i: nat)
    requires i < |acts| && InOrder(FirstEvents(acts, i)) && InOrder(StepEvents(i, acts[i]))
    requires forall e :: e in FirstEvents(acts, i) ==> Leaves(acts, i, e)
    requires forall e :: e in StepEvents(i, acts[i]) ==> Leaves(acts, i + 1, e) && !Leaves(acts, i, e)
    ensures InOrder(FirstEvents(acts, i + 1))
  {
    var a, b := FirstEvents(acts, i), StepEvents(i, acts[i]);
    forall j, k | 0 <= j < k < |a + b| ensures Precedes((a + b)[j], (a + b)[k]) {
      if j < |a| <= k {
        assert a[j] in a && b[k - |a|] in b;
      }
    }
  }

  predicate NoStopBefore(steps: seq<ActionStep>, acts: seq<Act>, n: nat)
    requires n <= |steps| == |acts|
  {
    forall k :: 0 <= k < n ==> !Stops(steps[k], acts[k])
  }

  lemma {:induction false} CutIsExecuted(base: seq<Event>, events: seq<Event>, steps: seq<ActionStep>,
                                         acts: seq<Act>, n: nat)
    requires 0 < n <= |steps| == |acts| && NoStopBefore(steps, acts, n - 1) && LoggedPart(base, events, acts, n)
    ensures Executed(JobTimeout, base, events, steps, acts, n)
  {
  }

  lemma {:induction false} StoppedIsExecuted(result: ExecutionResult, base: seq<Event>, events: seq<Event>,
                                             steps: seq<ActionStep>, acts: seq<Act>, i: nat)
    requires i < |steps| == |acts| && NoStopBefore(steps, acts, i) && LoggedUpTo(base, events, acts, i + 1)
    requires Stops(steps[i], acts[i]) && !result.success && result.error.Some?
    requires result.stepErrors == FirstErrors(acts, i + 1)
    ensures Executed(Returned(result), base, events, steps, acts, i + 1)
  {
  }

  lemma {:induction false} FinishedIsExecuted(result: ExecutionResult, base: seq<Event>, events: seq<Event>,
                                              steps: seq<ActionStep>, acts: seq<Act>)
    requires |steps| == |acts| && NoStopBefore(steps, acts, |steps|) && LoggedUpTo(base, events, acts, |steps|)
    requires result == ExecutionResult(true, None, FirstErrors(acts, |steps|))
    ensures Executed(Returned(result), base, events, steps, acts, |steps|)
  {
  }

  /**
   * The attempted steps are those the plan selects; cut off or failed during the
   * selection, none is attempted and the counter is bumped at most once.
   */
  ghost predicate FromPlan(plan: Plan, rows: Table, w: nat, owner: nat, random: nat, r: Execution,
                           steps: seq<ActionStep>, attempted: nat, rows': Table)
    requires RoundRobin.CanSelect(plan, random)
  {
    || RoundRobin.Selected(plan, rows, w, owner, random, steps, rows')
    || (steps == [] && attempted == 0 && !r.Returned? && plan.variants != [] && plan.roundRobin
        && (rows' == rows || rows' == RoundRobin.BumpedRows(rows, w, owner)))
  }

  /**
   * The job timeout strikes exactly when the awaits run out: a run that returned had
   * enough for all it did, one that was cut off had too few for what it began.
   */
  predicate InTime(r: Execution, plan: Plan, budget: Option<nat>, steps: seq<ActionStep>, acts: seq<Act>,
                   interDelay: bool, attempted: nat)
    requires attempted <= |steps| == |acts|
  {
    var selecting := if plan.variants != [] && plan.roundRobin then 2 else 0;
    match r
    case Returned(_) =>
      budget.Some? ==>
        budget.value >= selecting + AwaitsOf(acts, attempted) + Sleeps(interDelay, attempted, attempted)
    case JobTimeout =>
      budget.Some? && budget.value < selecting + AwaitsOf(acts, attempted) + Sleeps(interDelay, attempted, |steps|)
    case Escaped(_) => true
  }

  /** `ActionPlanExecutor.execute`: select the steps, then run them. */
  method Execute(ctx: ActionContext, plan: Plan, table: WorkflowTable, w: nat, owner: nat, script: Script)
    returns (r: Execution, steps: seq<ActionStep>, attempted: nat)
    requires ctx.Valid() && table.Valid() && RoundRobin.CanSelect(plan, script.random)
    modifies ctx, table
    ensures ctx.Valid() && table.Valid()
    ensures Executed(r, old(ctx.Events()), ctx.Events(), steps, ActsOf(script, |steps|), attempted)
    ensures FromPlan(plan, old(table.rows), w, owner, script.random, r, steps, attempted, table.rows)
    ensures InTime(r, plan, old(ctx.awaitsLeft), steps, ActsOf(script, |steps|), script.interDelay, attempted)
    ensures r.Escaped? ==> plan.variants != [] && plan.roundRobin && script.bumpError == Some(r.error)
  {
    ghost var base := ctx.Events();
    assert base + FirstEvents(ActsOf(script, 0), 0) == base;
    if plan.variants != [] && plan.roundRobin {
      var cut := ctx.Await();
      if cut {
        return JobTimeout, [], 0;
      }
      if script.bumpError.Some? {
        return Escaped(script.bumpError.value), [], 0;
      }
    }
    var index;
    steps, index := RoundRobin.SelectSteps(plan, table, w, owner, script.random);
    if index.Some? && plan.roundRobin {
      var cut := ctx.Await();
      if cut {
        return JobTimeout, [], 0;
      }
    }
    r, attempted := RunSteps(ctx, steps, ActsOf(script, |steps|), script.interDelay);
  }

  // ---- the worker

  datatype RunStatus = RunRunning | RunSucceeded | RunFailed

  datatype Run = Run(owner: nat, workflow: nat, account: nat, job: nat, status: RunStatus, startedAt: Time,
                     finishedAt: Option<Time>, error: Option<string>)

  function Finish(run: Run, status: RunStatus, error: Option<string>, now: Time): Run {
    run.(status := status, error := error, finishedAt := Some(now))
  }

  class RunTable {
    var rows: map<nat, Run>
    var nextId: nat

    ghost predicate Valid() reads this {
      forall id :: id in rows ==> id < nextId
    }

    constructor ()
      ensures Valid() && rows == map[]
    {
      rows := map[];
      nextId := 0;
    }

    method CreateRun(owner: nat, workflow: nat, account: nat, job: nat, now: Time) returns (id: nat)
      requires Valid()
      modifies this
      ensures Valid() && id !in old(rows)
      ensures rows == old(rows)[id := Run(owner, workflow, account, job, RunRunning, now, None, None)]
    {
      id := nextId;
      rows := rows[id := Run(owner, workflow, account, job, RunRunning, now, None, None)];
      nextId := nextId + 1;
    }

    /** Guarded: a run is finished at most once. */
    method MarkFinished(id: nat, owner: nat, status: RunStatus, error: Option<string>, now: Time) returns (done: bool)
      requires Valid() && status != RunRunning
      modifies this
      ensures Valid()
      ensures done <==> id in old(rows) && old(rows)[id].owner == owner && old(rows)[id].status == RunRunning
      ensures rows == if done then old(rows)[id := Finish(old(rows)[id], status, error, now)] else old(rows)
    {
      done := id in rows && rows[id].owner == owner && rows[id].status == RunRunning;
      if done {
        rows := rows[id := Finish(rows[id], status, error, now)];
      }
    }
  }

  /** run.started first, run.finished last, and neither anywhere else. */
  predicate Bracketed(events: seq<Event>, success: bool, error: Option<string>) {
    && |events| >= 2 && events[0] == Started && events[|events| - 1] == Finished(success, error)
    && forall i :: 0 < i < |events| - 1 ==> !events[i].Started? && !events[i].Finished?
  }

  lemma {:induction false} StepsDoNotBracket(acts: seq<Act>, n: nat)
    requires n <= |acts|
    ensures forall e :: e in FirstEvents(acts, n) ==> !e.Started? && !e.Finished?
  {
    if n > 0 { StepsDoNotBracket(acts, n - 1); }
  }

  lemma PartIsBracketed(events: seq<Event>, acts: seq<Act>, n: nat, success: bool, error: Option<string>)
    requires n <= |acts| && LoggedPart([Started], events, acts, n)
    ensures Bracketed(events + [Finished(success, error)], success, error)
  {
    StepsDoNotBracket(acts, n);
    var full := [Started] + FirstEvents(acts, n);
    forall i | 0 < i < |events| ensures !events[i].Started? && !events[i].Finished? {
      assert events[i] == full[i] && full[i] in FirstEvents(acts, n);
    }
  }

  function Outcome(r: Execution): ExecutionResult {
    match r
    case Returned(result) => result
    case JobTimeout => ExecutionResult(false, Some("job_timeout"), [])
    case Escaped(error) => ExecutionResult(false, Some(error), [])
  }

  /** The stored log of a run: run.started, the execution's events, run.finished with its outcome. */
  ghost predicate IsRunLog(entries: seq<Entry>, r: Execution, steps: seq<ActionStep>, acts: seq<Act>, attempted: nat)
    requires |steps| == |acts|
  {
    && NumbersIncrease(entries) && entries != []
    && Bracketed(EventsOf(entries), Outcome(r).success, Outcome(r).error)
    && Executed(r, [Started], EventsOf(entries)[..|entries| - 1], steps, acts, attempted)
  }

  /** The part of `handle_job` that runs under one context. */
  method Perform(plan: Plan, table: WorkflowTable, w: nat, owner: nat, script: Script)
    returns (r: Execution, entries: seq<Entry>, steps: seq<ActionStep>, attempted: nat)
    requires table.Valid() && RoundRobin.CanSelect(plan, script.random)
    modifies table
    ensures table.Valid() && IsRunLog(entries, r, steps, ActsOf(script, |steps|), attempted)
    ensures FromPlan(plan, old(table.rows), w, owner, script.random, r, steps, attempted, table.rows)
    ensures InTime(r, plan, script.budget, steps, ActsOf(script, |steps|), script.interDelay, attempted)
    ensures r.Escaped? ==> plan.variants != [] && plan.roundRobin && script.bumpError == Some(r.error)
  {
    var ctx := new ActionContext();
    var _ := ctx.Emit(Started);
    assert ctx.Events() == [Started];
    ctx.awaitsLeft := script.budget;
    r, steps, attempted := Execute(ctx, plan, table, w, owner, script);
    ctx.awaitsLeft := None;
    ghost var body := ctx.Events();
    PartIsBracketed(body, ActsOf(script, |steps|), attempted, Outcome(r).success, Outcome(r).error);
    var _ := ctx.Emit(Finished(Outcome(r).success, Outcome(r).error));
    entries := ctx.entries;
    assert EventsOf(entries)[..|entries| - 1] == body;
  }

  predicate Found(jobs: Rows, id: nat, owner: nat) {
    id in jobs && jobs[id].owner == owner
  }

  /** What `_mark_terminal` makes of the job. */
  function Marked(job: Job, result: ExecutionResult, run: Option<nat>, now: Time): Job {
    if result.success then Succeed(job, run, now)
    else Fail(job, if result.error.Some? then result.error.value else "unknown", run, now)
  }

  /**
   * `handle_job`, end to end. A missing workflow fails the job without a run;
   * otherwise the run, the job and the last event record the same outcome,
   * whatever the script.
   */
  method HandleJob(id: nat, job: Job, owner: nat, account: nat, table: WorkflowTable, runs: RunTable, jobs: JobTable,
                   script: Script, start: Time, end: Time)
    returns (r: Execution, run: Option<nat>, entries: seq<Entry>, steps: seq<ActionStep>, attempted: nat)
    requires table.Valid() && runs.Valid()
    requires job.workflow in table.rows ==> RoundRobin.CanSelect(table.rows[job.workflow].plan, script.random)
    modifies table, runs, jobs
    ensures table.Valid() && runs.Valid()
    ensures run.Some? <==> job.workflow in old(table.rows) && old(table.rows)[job.workflow].owner == owner
    ensures run == None ==>
              && Outcome(r) == ExecutionResult(false, Some("workflow_not_found"), [])
              && entries == [] && runs.rows == old(runs.rows)
              && table.rows == old(table.rows)
    ensures run.Some? ==>
              var plan := old(table.rows)[job.workflow].plan;
              && FromPlan(plan, old(table.rows), job.workflow, owner, script.random, r, steps, attempted, table.rows)
              && attempted <= |steps|
              && InTime(r, plan, script.budget, steps, ActsOf(script, |steps|), script.interDelay, attempted)
              && (r.Escaped? ==> plan.variants != [] && plan.roundRobin && script.bumpError == Some(r.error))
    ensures run.Some? ==>
              && run.value !in old(runs.rows) && IsRunLog(entries, r, steps, ActsOf(script, |steps|), attempted)
              && runs.rows == old(runs.rows)[run.value := Run(owner, job.workflow, account, id,
                   if Outcome(r).success then RunSucceeded else RunFailed, start, Some(end), Outcome(r).error)]
    ensures jobs.rows == if Found(old(jobs.rows), id, owner)
                         then old(jobs.rows)[id := Marked(old(jobs.rows)[id], Outcome(r), run, end)] else old(jobs.rows)
  {
    if !(job.workflow in table.rows && table.rows[job.workflow].owner == owner) {
      var _ := jobs.MarkFailed(id, owner, "workflow_not_found", None, end);
      return Escaped("workflow_not_found"), None, [], [], 0;
    }
    var plan := table.rows[job.workflow].plan;
    var runId := runs.CreateRun(owner, job.workflow, account, id, start);
    r, entries, steps, attempted := Perform(plan, table, job.workflow, owner, script);
    var result := Outcome(r);
    var _ := runs.MarkFinished(runId, owner, if result.success then RunSucceeded else RunFailed, result.error, end);
    if result.success {
      var _ := jobs.MarkSucceeded(id, owner, Some(runId), end);
    } else {
      var _ := jobs.MarkFailed(id, owner, if result.error.Some? then result.error.value else "unknown", Some(runId),
          end);
    }
    run := Some(runId);
  }

  /** What the job's row becomes, column by column, for each way the execution can go. */
  lemma MarkedExactly(job: Job, r: Execution, run: Option<nat>, now: Time)
    ensures var marked := Marked(job, Outcome(r), run, now);
            && marked.finishedAt == Some(now) && marked.run == (if run == None then job.run else run)
            && SameIdentity(job, marked) && marked.startedAt == job.startedAt
            && (r.Returned? && r.result.success ==> marked.status == Succeeded && marked.reason == job.reason)
            && (r.Returned? && !r.result.success && r.result.error.Some? ==>
                  marked.status == Status.Failed && marked.reason == r.result.error)
            && (r.JobTimeout? ==> marked.status == Status.Failed && marked.reason == Some("job_timeout"))
            && (r.Escaped? ==> marked.status == Status.Failed && marked.reason == Some(r.error))
  {
  }

  /** One success, three records: job, run and last event say the same. */
  lemma OutcomeIsRecordedOnce(entries: seq<Entry>, r: Execution, steps: seq<ActionStep>, acts: seq<Act>,
                              attempted: nat, job: Job, run: nat, now: Time)
    requires |steps| == |acts| && IsRunLog(entries, r, steps, acts, attempted)
    ensures var events, marked := EventsOf(entries), Marked(job, Outcome(r), Some(run), now);
            && (forall i :: 0 <= i < |events| && events[i].Finished? ==> i == |events| - 1)
            && (marked.status == Succeeded <==> events[|events| - 1].success)
            && (marked.status == Succeeded <==> r.Returned? && r.result.success)
            && events[|events| - 1].cause ==
                 (match r case Returned(result) => result.error
                          case JobTimeout => Some("job_timeout") case Escaped(error) => Some(error))
            && (marked.status == Status.Failed <==> !events[|events| - 1].success)
            && (marked.status == Succeeded ==> attempted == |steps| && MayContinue(steps, acts, |steps|))
            && (marked.status == Status.Failed && r.Returned? ==>
                  attempted > 0 && acts[attempted - 1].end != Done && !steps[attempted - 1].continueOnError)
  {
    var events := EventsOf(entries);
    StopsExactly(r, [Started], events[..|entries| - 1], steps, acts, attempted);
    forall i | 0 <= i < |events| && events[i].Finished? ensures i == |events| - 1 {
      assert i > 0;
    }
    if r.Returned? && !r.result.success && attempted == |steps| {
      var k :| 0 <= k < |steps| && Stops(steps[k], acts[k]);
      assert k == attempted - 1;
    }
  }
}
