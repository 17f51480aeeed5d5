// The per-account throttle: one lock, a minimum interval between calls, and
// FloodWait retries that sleep while still holding the lock. Callers interleave
// at every await; time only moves forward.
module Throttle {
  import opened Base
  import opened Jobs

  datatype Config = Config(minInterval: real, maxRetries: int, padding: real)

  datatype Phase =
    | Waiting                  // for the lock
    | Pausing(until: Time)     // holding it, for the minimum interval
    | Calling                  // holding it, inside fn
    | BackingOff(until: Time)  // holding it, after a FloodWait
    | Gone                     // returned or raised

  datatype Caller = Caller(phase: Phase, retriesLeft: int)

  datatype Ending = Ongoing | Completed | Flooded(wait: real, retried: bool) | Crashed

  /** One invocation of fn. */
  datatype Invocation = Invocation(caller: nat, start: Time, end: Time, ending: Ending)

  datatype State = State(now: Time, holder: Option<nat>, last: Option<Time>, callers: map<nat, Caller>,
      log: seq<Invocation>)

  datatype Step =
    | Tick(now: Time)
    | Arrive(c: nat)
    | Acquire(c: nat)
    | Wake(c: nat)
    | Return(c: nat)
    | FloodWait(c: nat, seconds: real)
    | Crash(c: nat)
    | Resume(c: nat)

  function BackoffFor(cfg: Config, seconds: real): real {
    (if seconds > 0.0 then seconds else 0.0) + cfg.padding
  }

  function At(s: State, c: nat): Phase {
    if c in s.callers then s.callers[c].phase else Gone
  }

  /** How long the caller still has to wait for the minimum interval. */
  function PauseLeft(cfg: Config, s: State): real {
    if s.last.Some? then cfg.minInterval - (s.now - s.last.value) else 0.0
  }

  predicate Enabled(cfg: Config, s: State, step: Step) {
    match step
    case Tick(now) => now >= s.now
    case Arrive(c) => c !in s.callers
    case Acquire(c) => At(s, c) == Waiting && s.holder == None
    case Wake(c) => At(s, c).Pausing? && s.now >= At(s, c).until
    case Return(c) => At(s, c) == Calling && s.log != []
    case FloodWait(c, seconds) => At(s, c) == Calling && s.log != []
    case Crash(c) => At(s, c) == Calling && s.log != []
    case Resume(c) => At(s, c).BackingOff? && s.now >= At(s, c).until
  }

  function Move(s: State, c: nat, phase: Phase): State
    requires c in s.callers
  {
    s.(callers := s.callers[c := s.callers[c].(phase := phase)])
  }

  function StartCall(s: State, c: nat): State
    requires c in s.callers
  {
    Move(s, c, Calling).(holder := Some(c), log := s.log + [Invocation(c, s.now, s.now, Ongoing)])
  }

  function EndCall(s: State, ending: Ending): State
    requires s.log != []
  {
    var n := |s.log| - 1;
    s.(log := s.log[n := s.log[n].(end := s.now, ending := ending)])
  }

  function Apply(cfg: Config, s: State, step: Step): State
    requires Enabled(cfg, s, step)
  {
    match step
    case Tick(now) => s.(now := now)
    case Arrive(c) => s.(callers := s.callers[c := Caller(Waiting, cfg.maxRetries)])
    case Acquire(c) =>
      var wait := PauseLeft(cfg, s);
      if wait > 0.0 then Move(s, c, Pausing(s.now + wait)).(holder := Some(c)) else StartCall(s, c)
    case Wake(c) => StartCall(s, c)
    case Return(c) => Move(EndCall(s, Completed), c, Gone).(holder := None, last := Some(s.now))
    case FloodWait(c, seconds) =>
      var wait := BackoffFor(cfg, seconds);
      if s.callers[c].retriesLeft <= 0 then
        Move(EndCall(s, Flooded(wait, false)), c, Gone).(holder := None, last := Some(s.now))
      else
        var s' := Move(EndCall(s, Flooded(wait, true)), c, BackingOff(s.now + wait)).(last := Some(s.now));
        s'.(callers := s'.callers[c := s'.callers[c].(retriesLeft := s.callers[c].retriesLeft - 1)])
    case Crash(c) => Move(EndCall(s, Crashed), c, Gone).(holder := None)
    case Resume(c) => Move(s, c, Waiting).(holder := None)
  }

  predicate Init(s: State) {
    s.holder == None && s.last == None && s.callers == map[] && s.log == []
  }

  predicate IsRun(cfg: Config, states: seq<State>, steps: seq<Step>) {
    && |states| == |steps| + 1 && Init(states[0])
    && forall i :: 0 <= i < |steps| ==>
        Enabled(cfg, states[i], steps[i]) && states[i + 1] == Apply(cfg, states[i], steps[i])
  }

  // ---- what the log promises

  /** How long after it ended an invocation keeps the next one away. */
  function Quiet(cfg: Config, a: Invocation): real {
    match a.ending
    case Ongoing => 0.0
    case Completed => cfg.minInterval
    case Flooded(wait, retried) => if retried && wait > cfg.minInterval then wait else cfg.minInterval
    case Crashed => 0.0
  }

  /** `b` starts after `a` has ended and its quiet time is over. */
  predicate Clear(cfg: Config, a: Invocation, b: Invocation) {
    a.ending != Ongoing && b.start >= a.end && b.start >= a.end + Quiet(cfg, a)
  }

  predicate AllClear(cfg: Config, log: seq<Invocation>) {
    forall i, j :: 0 <= i < j < |log| ==> Clear(cfg, log[i], log[j])
  }

  function CountBy(log: seq<Invocation>, c: nat): nat {
    if log == [] then 0 else CountBy(log[..|log| - 1], c) + (if log[|log| - 1].caller == c then 1 else 0)
  }

  // ---- the invariant

  predicate HoldsLock(p: Phase) {
    p.Pausing? || p.Calling? || p.BackingOff?
  }

  ghost predicate LockOk(s: State) {
    forall c: nat :: HoldsLock(At(s, c)) <==> s.holder == Some(c)
  }

  /** The last entry is ongoing exactly while the lock holder is inside fn. */
  ghost predicate LogOk(s: State) {
    && (forall i :: 0 <= i < |s.log| - 1 ==> s.log[i].ending != Ongoing)
    && (forall i :: 0 <= i < |s.log| ==> s.log[i].start <= s.log[i].end <= s.now)
    && (forall c: nat :: At(s, c) == Calling ==>
        s.log != [] && s.log[|s.log| - 1].ending == Ongoing && s.log[|s.log| - 1].caller == c)
    && (s.log != [] && s.log[|s.log| - 1].ending == Ongoing ==> At(s, s.log[|s.log| - 1].caller) == Calling)
  }

  /** When the next invocation may start, as far as past `a` is concerned. */
  predicate Reckoned(cfg: Config, s: State, a: Invocation) {
    match a.ending
    case Ongoing => true
    case Crashed => true
    case Completed => s.last.Some? && a.end <= s.last.value
    case Flooded(wait, retried) =>
      && s.last.Some? && a.end <= s.last.value
      && (retried ==> s.now >= a.end + wait || (s.holder.Some? && BacksOffUntil(At(s, s.holder.value), a.end + wait)))
  }

  predicate BacksOffUntil(p: Phase, t: Time) {
    p.BackingOff? && p.until >= t
  }

  ghost predicate TimesOk(cfg: Config, s: State) {
    && (s.last.Some? ==> s.last.value <= s.now)
    && (forall c: nat :: At(s, c).Pausing? ==> s.last.Some? && At(s, c).until >= s.last.value + cfg.minInterval)
    && (forall i :: 0 <= i < |s.log| ==> Reckoned(cfg, s, s.log[i]))
  }

  /** Invocations made plus retries left never exceed what a call is entitled to. */
  predicate BudgetOk(cfg: Config, s: State, c: nat) {
    var used := CountBy(s.log, c);
    if c !in s.callers then used == 0
    else
      var Caller(phase, left) := s.callers[c];
      && (left >= 0 || left == cfg.maxRetries)
      && (if phase == Gone then used <= (if cfg.maxRetries > 0 then cfg.maxRetries else 0) + 1
          else used + left <= cfg.maxRetries + (if phase == Calling then 1 else 0))
  }

  ghost predicate Inv(cfg: Config, s: State) {
    && LockOk(s) && LogOk(s) && TimesOk(cfg, s) && AllClear(cfg, s.log)
    && forall c: nat :: BudgetOk(cfg, s, c)
  }

  lemma CountAppends(log: seq<Invocation>, a: Invocation, c: nat)
    ensures CountBy(log + [a], c) == CountBy(log, c) + (if a.caller == c then 1 else 0)
  {
    assert (log + [a])[..|log|] == log;
  }

  lemma CountIgnoresEnding(log: seq<Invocation>, a: Invocation, c: nat)
    requires log != [] && a.caller == log[|log| - 1].caller
    ensures CountBy(log[|log| - 1 := a], c) == CountBy(log, c)
  {
    assert log[|log| - 1 := a][..|log| - 1] == log[..|log| - 1];
  }

  predicate MayStart(cfg: Config, s: State, c: nat) {
    && c in s.callers && ((At(s, c) == Waiting && s.holder == None) || At(s, c).Pausing?)
    && (s.last.Some? ==> s.now >= s.last.value + cfg.minInterval)
  }

  lemma StartIsClear(cfg: Config, s: State, c: nat)
    requires Inv(cfg, s) && MayStart(cfg, s, c)
    ensures AllClear(cfg, StartCall(s, c).log)
  {
    var s' := StartCall(s, c);
    assert HoldsLock(At(s, c)) <==> s.holder == Some(c);
    forall i | 0 <= i < |s.log| ensures Clear(cfg, s.log[i], s'.log[|s.log|]) {
      assert Reckoned(cfg, s, s.log[i]);
    }
    forall i, j | 0 <= i < j < |s.log| ensures Clear(cfg, s'.log[i], s'.log[j]) {
      assert Clear(cfg, s.log[i], s.log[j]);
    }
  }

  lemma StartKeepsBudget(cfg: Config, s: State, c: nat)
    requires Inv(cfg, s) && MayStart(cfg, s, c)
    ensures forall d: nat :: BudgetOk(cfg, StartCall(s, c), d)
  {
    var s' := StartCall(s, c);
    forall d: nat ensures BudgetOk(cfg, s', d) {
      CountAppends(s.log, s'.log[|s.log|], d);
      assert BudgetOk(cfg, s, d);
    }
  }

  lemma StartKeepsTimes(cfg: Config, s: State, c: nat)
    requires Inv(cfg, s) && MayStart(cfg, s, c)
    ensures TimesOk(cfg, StartCall(s, c))
  {
    var s' := StartCall(s, c);
    assert HoldsLock(At(s, c)) <==> s.holder == Some(c);
    forall i | 0 <= i < |s.log| ensures Reckoned(cfg, s', s'.log[i]) {
      assert Reckoned(cfg, s, s.log[i]);
    }
    forall d: nat ensures At(s', d).Pausing? ==> At(s', d) == At(s, d) {
    }
  }

  /** A caller that has the lock, or can take it, with the interval over, may start. */
  lemma StartKeepsInv(cfg: Config, s: State, c: nat)
    requires Inv(cfg, s) && MayStart(cfg, s, c)
    ensures Inv(cfg, StartCall(s, c))
  {
    StartIsClear(cfg, s, c);
    StartKeepsBudget(cfg, s, c);
    StartKeepsTimes(cfg, s, c);
    var s' := StartCall(s, c);
    forall d: nat ensures (HoldsLock(At(s', d)) <==> s'.holder == Some(d)) && (At(s', d) == Calling ==> d == c) {
      assert HoldsLock(At(s, d)) <==> s.holder == Some(d);
    }
    assert forall i :: 0 <= i < |s.log| ==> s'.log[i] == s.log[i] && Clear(cfg, s'.log[i], s'.log[|s.log|]);
  }

  /** Leaving fn: the last entry gets its ending; nothing before it changes. */
  lemma EndKeepsClear(cfg: Config, s: State, c: nat, ending: Ending)
    requires Inv(cfg, s) && At(s, c) == Calling && s.log != []
    ensures AllClear(cfg, EndCall(s, ending).log)
    ensures forall d: nat :: CountBy(EndCall(s, ending).log, d) == CountBy(s.log, d)
  {
    var n := |s.log| - 1;
    var log := EndCall(s, ending).log;
    forall i, j | 0 <= i < j < |log| ensures Clear(cfg, log[i], log[j]) {
      assert Clear(cfg, s.log[i], s.log[j]);
    }
    forall d: nat ensures CountBy(log, d) == CountBy(s.log, d) {
      CountIgnoresEnding(s.log, log[n], d);
    }
  }

  /** The caller that was inside fn moves on and records when. */
  predicate Moved(cfg: Config, s: State, s': State, c: nat, ending: Ending) {
    && c in s.callers && s.log != [] && s'.now == s.now
    && s'.callers.Keys == s.callers.Keys
    && (forall d: nat :: d in s.callers && d != c ==> s'.callers[d] == s.callers[d])
    && s'.log == EndCall(s, ending).log && !ending.Ongoing?
  }

  lemma EndKeepsBudget(cfg: Config, s: State, s': State, c: nat, ending: Ending)
    requires Inv(cfg, s) && At(s, c) == Calling && Moved(cfg, s, s', c, ending)
    requires var left := s.callers[c].retriesLeft;
             s'.callers[c] == Caller(Gone, left)
             || (left > 0 && s'.callers[c].phase.BackingOff? && s'.callers[c].retriesLeft == left - 1)
    ensures forall d: nat :: BudgetOk(cfg, s', d)
  {
    EndKeepsClear(cfg, s, c, ending);
    forall d: nat ensures BudgetOk(cfg, s', d) {
      assert BudgetOk(cfg, s, d);
    }
  }

  lemma EndKeepsTimes(cfg: Config, s: State, s': State, c: nat, ending: Ending)
    requires Inv(cfg, s) && At(s, c) == Calling && Moved(cfg, s, s', c, ending)
    requires s'.last == (if ending == Crashed then s.last else Some(s.now))
    requires Reckoned(cfg, s', s'.log[|s'.log| - 1])
    requires !s'.callers[c].phase.Pausing?
    ensures TimesOk(cfg, s')
  {
    forall i | 0 <= i < |s'.log| - 1 ensures Reckoned(cfg, s', s'.log[i]) {
      assert Reckoned(cfg, s, s.log[i]) && s.holder == Some(c);
    }
    forall d: nat ensures !At(s', d).Pausing? {
      assert HoldsLock(At(s, d)) <==> s.holder == Some(d);
    }
  }

  lemma EndKeepsLog(cfg: Config, s: State, s': State, c: nat, ending: Ending)
    requires Inv(cfg, s) && At(s, c) == Calling && Moved(cfg, s, s', c, ending) && s'.callers[c].phase != Calling
    ensures LogOk(s')
  {
    var n := |s.log| - 1;
    assert s'.log[n].ending == ending;
    forall d: nat ensures At(s', d) != Calling {
      assert HoldsLock(At(s, d)) <==> s.holder == Some(d);
    }
  }

  lemma EndKeepsInv(cfg: Config, s: State, s': State, c: nat, ending: Ending)
    requires Inv(cfg, s) && At(s, c) == Calling && Moved(cfg, s, s', c, ending) && s'.callers[c].phase != Calling
    requires s'.last == (if ending == Crashed then s.last else Some(s.now))
    requires Reckoned(cfg, s', s'.log[|s'.log| - 1])
    requires var left := s.callers[c].retriesLeft;
             s'.callers[c] == Caller(Gone, left)
             || (left > 0 && s'.callers[c].phase.BackingOff? && s'.callers[c].retriesLeft == left - 1)
    requires s'.holder == if s'.callers[c].phase == Gone then None else Some(c)
    ensures Inv(cfg, s')
  {
    EndKeepsClear(cfg, s, c, ending);
    EndKeepsBudget(cfg, s, s', c, ending);
    EndKeepsTimes(cfg, s, s', c, ending);
    EndKeepsLog(cfg, s, s', c, ending);
    forall d: nat ensures HoldsLock(At(s', d)) <==> s'.holder == Some(d) {
      assert HoldsLock(At(s, d)) <==> s.holder == Some(d);
    }
  }

  /** Steps that touch neither the log nor the last call time. */
  lemma OtherKeepsInv(cfg: Config, s: State, step: Step)
    requires Inv(cfg, s) && Enabled(cfg, s, step)
    requires step.Tick? || step.Arrive? || step.Resume? || (step.Acquire? && PauseLeft(cfg, s) > 0.0)
    ensures Inv(cfg, Apply(cfg, s, step))
  {
    var s' := Apply(cfg, s, step);
    forall i | 0 <= i < |s.log| ensures Reckoned(cfg, s', s.log[i]) {
      assert Reckoned(cfg, s, s.log[i]);
    }
    forall d: nat ensures BudgetOk(cfg, s', d) && (HoldsLock(At(s', d)) <==> s'.holder == Some(d)) {
      assert BudgetOk(cfg, s, d) && (HoldsLock(At(s, d)) <==> s.holder == Some(d));
    }
  }

  lemma StepKeepsInv(cfg: Config, s: State, step: Step)
    requires Inv(cfg, s) && Enabled(cfg, s, step)
    ensures Inv(cfg, Apply(cfg, s, step))
  {
    var s' := Apply(cfg, s, step);
    match step
    case Tick(now) => OtherKeepsInv(cfg, s, step);
    case Arrive(c) => OtherKeepsInv(cfg, s, step);
    case Resume(c) => OtherKeepsInv(cfg, s, step);
    case Acquire(c) => if PauseLeft(cfg, s) > 0.0 { OtherKeepsInv(cfg, s, step); } else { StartKeepsInv(cfg, s, c); }
    case Wake(c) => StartKeepsInv(cfg, s, c);
    case Return(c) => EndKeepsInv(cfg, s, s', c, Completed);
    case FloodWait(c, seconds) =>
      EndKeepsInv(cfg, s, s', c, Flooded(BackoffFor(cfg, seconds), s.callers[c].retriesLeft > 0));
    case Crash(c) => EndKeepsInv(cfg, s, s', c, Crashed);
  }

  lemma {:induction false} RunKeepsInv(cfg: Config, states: seq<State>, steps: seq<Step>)
    requires IsRun(cfg, states, steps)
    ensures Inv(cfg, states[|steps|])
  {
    if steps != [] {
      var n := |steps| - 1;
      RunKeepsInv(cfg, states[..n + 1], steps[..n]);
      StepKeepsInv(cfg, states[n], steps[n]);
    }
  }

  // ---- the guarantees, over every run

  /** Executions of fn never overlap, whoever the callers are. */
  lemma CallsNeverOverlap(cfg: Config, states: seq<State>, steps: seq<Step>)
    requires IsRun(cfg, states, steps)
    ensures var log := states[|steps|].log;
            && (forall i, j :: 0 <= i < j < |log| ==> log[i].ending != Ongoing && log[i].end <= log[j].start)
            && (forall c: nat, d: nat :: At(states[|steps|], c) == Calling && At(states[|steps|], d) == Calling ==>
                c == d)
  {
    RunKeepsInv(cfg, states, steps);
    var s := states[|steps|];
    forall i, j | 0 <= i < j < |s.log| ensures s.log[i].ending != Ongoing && s.log[i].end <= s.log[j].start {
      assert Clear(cfg, s.log[i], s.log[j]);
    }
    forall c: nat, d: nat | At(s, c) == Calling && At(s, d) == Calling ensures c == d {
      assert (HoldsLock(At(s, c)) <==> s.holder == Some(c)) && (HoldsLock(At(s, d)) <==> s.holder == Some(d));
    }
  }

  /**
   * Every start is at least the minimum interval after every earlier success or
   * FloodWait, and after a retried FloodWait also its own wait plus the padding.
   */
  lemma CallsAreSpaced(cfg: Config, states: seq<State>, steps: seq<Step>, i: nat, j: nat)
    requires IsRun(cfg, states, steps) && i < j < |states[|steps|].log|
    ensures var a, b := states[|steps|].log[i], states[|steps|].log[j];
            && (a.ending.Completed? || a.ending.Flooded? ==> b.start >= a.end + cfg.minInterval)
            && (a.ending.Flooded? && a.ending.retried ==> b.start >= a.end + a.ending.wait)
  {
    RunKeepsInv(cfg, states, steps);
    assert Clear(cfg, states[|steps|].log[i], states[|steps|].log[j]);
  }

  /** One call invokes fn at most max_retries + 1 times. */
  lemma RetriesAreBounded(cfg: Config, states: seq<State>, steps: seq<Step>, c: nat)
    requires IsRun(cfg, states, steps)
    ensures CountBy(states[|steps|].log, c) <= (if cfg.maxRetries > 0 then cfg.maxRetries else 0) + 1
  {
    RunKeepsInv(cfg, states, steps);
    assert BudgetOk(cfg, states[|steps|], c);
  }

  // ---- the same, read off the steps of the run

  lemma EndedStays(cfg: Config, s: State, step: Step, i: nat)
    requires LogOk(s) && Enabled(cfg, s, step) && i < |s.log| && s.log[i].ending != Ongoing
    ensures var log := Apply(cfg, s, step).log; |s.log| <= |log| && log[i] == s.log[i]
  {
  }

  lemma {:induction false} EndedStaysOverRun(cfg: Config, states: seq<State>, steps: seq<Step>, m: nat, n: nat, i: nat)
    requires IsRun(cfg, states, steps) && m <= n < |states| && i < |states[m].log|
    requires states[m].log[i].ending != Ongoing
    ensures i < |states[n].log| && states[n].log[i] == states[m].log[i]
    decreases n
  {
    if m < n {
      EndedStaysOverRun(cfg, states, steps, m, n - 1, i);
      RunKeepsInv(cfg, states[..n], steps[..n - 1]);
      EndedStays(cfg, states[n - 1], steps[n - 1], i);
    }
  }

  /** An invocation begins at step `n`. */
  predicate Begins(states: seq<State>, n: nat) {
    n + 1 < |states| && |states[n + 1].log| > |states[n].log|
  }

  lemma BeginsNow(cfg: Config, s: State, step: Step)
    requires Enabled(cfg, s, step) && |Apply(cfg, s, step).log| > |s.log|
    ensures var log := Apply(cfg, s, step).log; |log| == |s.log| + 1 && log[|s.log|].start == s.now
  {
  }

  /**
   * After fn has returned or raised a FloodWait, no invocation by anyone begins
   * before the minimum interval is over, and after a FloodWait that is retried none
   * begins before the seconds the server asked for and the padding are over.
   */
  lemma RestIsServed(cfg: Config, states: seq<State>, steps: seq<Step>, m: nat, n: nat)
    requires IsRun(cfg, states, steps) && m < n < |steps| && Begins(states, n)
    ensures steps[m].Return? || steps[m].FloodWait? ==> states[n].now >= states[m].now + cfg.minInterval
    ensures steps[m].FloodWait? && states[m].callers[steps[m].c].retriesLeft > 0 ==>
              && states[n].now >= states[m].now + steps[m].seconds + cfg.padding
              && states[n].now >= states[m].now + cfg.padding
  {
    if steps[m].Return? || steps[m].FloodWait? {
      var s, i := states[m + 1], |states[m].log| - 1;
      RunKeepsInv(cfg, states[..n + 2], steps[..n + 1]);
      assert s == Apply(cfg, states[m], steps[m]) && s.log[i].end == states[m].now;
      EndedStaysOverRun(cfg, states, steps, m + 1, n + 1, i);
      EndedStaysOverRun(cfg, states, steps, m + 1, n, i);
      BeginsNow(cfg, states[n], steps[n]);
      assert Clear(cfg, states[n + 1].log[i], states[n + 1].log[|states[n].log|]);
    }
  }

  /** Invocations made and retries left add up. */
  predicate BudgetExact(cfg: Config, s: State, c: nat) {
    c in s.callers && s.callers[c].phase != Gone ==>
      CountBy(s.log, c) + s.callers[c].retriesLeft == cfg.maxRetries + (if s.callers[c].phase == Calling then 1 else 0)
  }

  lemma StartIsExact(cfg: Config, s: State, d: nat, c: nat)
    requires Inv(cfg, s) && MayStart(cfg, s, d) && BudgetExact(cfg, s, c)
    ensures BudgetExact(cfg, StartCall(s, d), c)
  {
    CountAppends(s.log, Invocation(d, s.now, s.now, Ongoing), c);
    assert (HoldsLock(At(s, d)) <==> s.holder == Some(d)) && (HoldsLock(At(s, c)) <==> s.holder == Some(c));
  }

  lemma EndIsExact(cfg: Config, s: State, s': State, d: nat, ending: Ending, c: nat)
    requires Inv(cfg, s) && At(s, d) == Calling && Moved(cfg, s, s', d, ending) && BudgetExact(cfg, s, c)
    requires s'.callers[d].phase == Gone
             || (s'.callers[d].phase.BackingOff? && s'.callers[d].retriesLeft == s.callers[d].retriesLeft - 1)
    ensures BudgetExact(cfg, s', c)
  {
    EndKeepsClear(cfg, s, d, ending);
  }

  lemma OtherIsExact(cfg: Config, s: State, step: Step, c: nat)
    requires Inv(cfg, s) && Enabled(cfg, s, step) && BudgetExact(cfg, s, c)
    requires step.Tick? || step.Arrive? || step.Resume? || (step.Acquire? && PauseLeft(cfg, s) > 0.0)
    ensures BudgetExact(cfg, Apply(cfg, s, step), c)
  {
    assert BudgetOk(cfg, s, c);
  }

  lemma ExactPreserved(cfg: Config, s: State, step: Step, c: nat)
    requires Inv(cfg, s) && Enabled(cfg, s, step) && BudgetExact(cfg, s, c)
    ensures BudgetExact(cfg, Apply(cfg, s, step), c)
  {
    var s' := Apply(cfg, s, step);
    match step
    case Acquire(d) =>
      if PauseLeft(cfg, s) > 0.0 { OtherIsExact(cfg, s, step, c); } else { StartIsExact(cfg, s, d, c); }
    case Wake(d) => StartIsExact(cfg, s, d, c);
    case Return(d) => EndIsExact(cfg, s, s', d, Completed, c);
    case FloodWait(d, seconds) =>
      EndIsExact(cfg, s, s', d, Flooded(BackoffFor(cfg, seconds), s.callers[d].retriesLeft > 0), c);
    case Crash(d) => EndIsExact(cfg, s, s', d, Crashed, c);
    case _ => OtherIsExact(cfg, s, step, c);
  }

  lemma {:induction false} RunIsExact(cfg: Config, states: seq<State>, steps: seq<Step>, c: nat)
    requires IsRun(cfg, states, steps)
    ensures BudgetExact(cfg, states[|steps|], c)
  {
    if steps != [] {
      var n := |steps| - 1;
      RunIsExact(cfg, states[..n + 1], steps[..n], c);
      RunKeepsInv(cfg, states[..n + 1], steps[..n]);
      ExactPreserved(cfg, states[n], steps[n], c);
    }
  }

  /** A FloodWait is raised to the caller exactly if fn has been invoked max_retries + 1 times for this call. */
  lemma GivesUpExactly(cfg: Config, states: seq<State>, steps: seq<Step>, m: nat)
    requires IsRun(cfg, states, steps) && m < |steps| && steps[m].FloodWait?
    ensures At(states[m + 1], steps[m].c) == Gone <==> CountBy(states[m].log, steps[m].c) >= cfg.maxRetries + 1
    ensures At(states[m + 1], steps[m].c) == Gone <==> states[m].callers[steps[m].c].retriesLeft <= 0
  {
    RunIsExact(cfg, states[..m + 1], steps[..m], steps[m].c);
    assert Enabled(cfg, states[m], steps[m]) && states[m + 1] == Apply(cfg, states[m], steps[m]);
  }

  /** fn has come back from the server at this step: the interval counts from here. */
  predicate Answers(steps: seq<Step>, m: nat) {
    m < |steps| && (steps[m].Return? || steps[m].FloodWait?)
  }

  /** Step `m` is the last answer before state `i`. */
  ghost predicate LastAnswer(steps: seq<Step>, m: nat, i: nat) {
    m < i && Answers(steps, m) && forall k :: m < k < i ==> !Answers(steps, k)
  }

  /** What the throttle remembers is the time of the last answer; a crash of fn is none. */
  lemma {:induction false} RemembersTheLastAnswer(cfg: Config, states: seq<State>, steps: seq<Step>, i: nat)
    returns (m: nat)
    requires IsRun(cfg, states, steps) && i < |states|
    ensures states[i].last.Some? ==> LastAnswer(steps, m, i) && states[i].last.value == states[m].now
    ensures states[i].last == None ==> forall k :: 0 <= k < i ==> !Answers(steps, k)
  {
    m := 0;
    if i > 0 {
      m := RemembersTheLastAnswer(cfg, states, steps, i - 1);
      assert Enabled(cfg, states[i - 1], steps[i - 1]) && states[i] == Apply(cfg, states[i - 1], steps[i - 1]);
      if Answers(steps, i - 1) {
        m := i - 1;
      }
    }
  }

  /** What a caller that sleeps holding the lock sleeps for. */
  ghost predicate SleepsFor(cfg: Config, states: seq<State>, steps: seq<Step>, i: nat, c: nat, m: nat)
    requires |states| == |steps| + 1 && i < |states|
  {
    match At(states[i], c)
    case Pausing(until) => LastAnswer(steps, m, i) && until == states[m].now + cfg.minInterval
    case BackingOff(until) =>
      && LastAnswer(steps, m, i) && steps[m].FloodWait? && steps[m].c == c
      && until == states[m].now + (if steps[m].seconds > 0.0 then steps[m].seconds else 0.0) + cfg.padding
    case _ => true
  }

  lemma SleepBegins(cfg: Config, s: State, step: Step, c: nat)
    requires Enabled(cfg, s, step) && At(Apply(cfg, s, step), c) != At(s, c)
    ensures var p := At(Apply(cfg, s, step), c);
            && (p.Pausing? ==> step == Acquire(c) && s.last.Some? && p.until == s.last.value + cfg.minInterval)
            && (p.BackingOff? ==>
                  && step.FloodWait? && step.c == c
                  && p.until == s.now + (if step.seconds > 0.0 then step.seconds else 0.0) + cfg.padding)
  {
  }

  lemma NobodyElseAnswers(cfg: Config, s: State, step: Step, c: nat)
    requires Inv(cfg, s) && Enabled(cfg, s, step) && (At(s, c).Pausing? || At(s, c).BackingOff?)
    ensures !step.Return? && !step.FloodWait?
  {
    assert forall d: nat :: HoldsLock(At(s, d)) ==> s.holder == Some(d);
  }

  /**
   * No caller sleeps longer than it has to: the pause ends exactly the minimum
   * interval after the last answer, and a back-off exactly the seconds asked for,
   * if positive, and the padding after the caller's own FloodWait.
   */
  lemma {:induction false} SleepsExactly(cfg: Config, states: seq<State>, steps: seq<Step>, i: nat, c: nat)
    returns (m: nat)
    requires IsRun(cfg, states, steps) && i < |states|
    ensures SleepsFor(cfg, states, steps, i, c, m)
  {
    m := 0;
    if i > 0 {
      assert Enabled(cfg, states[i - 1], steps[i - 1]) && states[i] == Apply(cfg, states[i - 1], steps[i - 1]);
      if At(states[i], c) == At(states[i - 1], c) {
        m := SleepsExactly(cfg, states, steps, i - 1, c);
        RunKeepsInv(cfg, states[..i], steps[..i - 1]);
        if At(states[i - 1], c).Pausing? || At(states[i - 1], c).BackingOff? {
          NobodyElseAnswers(cfg, states[i - 1], steps[i - 1], c);
        }
      } else {
        SleepBegins(cfg, states[i - 1], steps[i - 1], c);
        if steps[i - 1].FloodWait? {
          m := i - 1;
        } else {
          m := RemembersTheLastAnswer(cfg, states, steps, i - 1);
        }
      }
    }
  }

  // ---- one caller

  /** How one invocation of fn goes. */
  datatype Attempt = Ok(took: real) | FloodWaitError(took: real, seconds: real) | OtherError(took: real)

  predicate Retried(a: Invocation) {
    a.ending.Flooded? && a.ending.retried
  }

  /** The log entry of an invocation says how it went. */
  predicate Records(a: Invocation, attempt: Attempt) {
    && a.end == a.start + attempt.took
    && (a.ending.Completed? <==> attempt.Ok?) && (a.ending.Flooded? <==> attempt.FloodWaitError?)
    && (a.ending.Crashed? <==> attempt.OtherError?)
  }

  /** After a FloodWait: the interval, the seconds asked for and the padding are over. */
  predicate Rested(cfg: Config, a: Invocation, attempt: Attempt, t: Time) {
    && attempt.FloodWaitError? && t >= a.end + cfg.minInterval
    && t >= a.end + attempt.seconds + cfg.padding && t >= a.end + cfg.padding
  }

  predicate BeginsRested(cfg: Config, made: seq<Invocation>, fn: nat -> Attempt, i: nat)
    requires i < |made|
  {
    Records(made[i], fn(i)) && (i > 0 ==> Rested(cfg, made[i - 1], fn(i - 1), made[i].start))
  }

  /** The log says how each invocation went, and each but the first begins rested. */
  predicate Served(cfg: Config, made: seq<Invocation>, fn: nat -> Attempt) {
    forall i :: 0 <= i < |made| ==> BeginsRested(cfg, made, fn, i)
  }

  lemma ServedAppends(cfg: Config, made: seq<Invocation>, fn: nat -> Attempt, a: Invocation)
    requires Served(cfg, made, fn) && Records(a, fn(|made|))
    requires made != [] ==> Rested(cfg, made[|made| - 1], fn(|made| - 1), a.start)
    ensures Served(cfg, made + [a], fn)
  {
    forall i | 0 <= i < |made| ensures BeginsRested(cfg, made + [a], fn, i) {
      assert BeginsRested(cfg, made, fn, i);
    }
  }

  lemma ClearAppends(cfg: Config, made: seq<Invocation>, a: Invocation)
    requires AllClear(cfg, made) && forall i :: 0 <= i < |made| ==> Clear(cfg, made[i], a)
    ensures AllClear(cfg, made + [a])
  {
  }

  class AccountThrottle {
    const cfg: Config
    var lastCalledAt: Option<Time>

    constructor (cfg: Config)
      ensures this.cfg == cfg && lastCalledAt == None
    {
      this.cfg := cfg;
      lastCalledAt := None;
    }

    /**
     * `call` for a caller that finds the lock free each time: its invocations are
     * spaced, all but the last are retried FloodWaits, and it gives up on a
     * FloodWait only when the retries are used up.
     */
    method Call(c: nat, start: Time, fn: nat -> Attempt) returns (made: seq<Invocation>, now: Time)
      requires forall k :: fn(k).took >= 0.0
      requires lastCalledAt.Some? ==> lastCalledAt.value <= start
      modifies this
      ensures Served(cfg, made, fn)
      ensures made != [] && AllClear(cfg, made) && now >= made[|made| - 1].end && made[0].start >= start
      ensures old(lastCalledAt).Some? ==> made[0].start >= old(lastCalledAt).value + cfg.minInterval
      ensures forall i :: 0 <= i < |made| - 1 ==> Retried(made[i])
      ensures !Retried(made[|made| - 1]) && made[|made| - 1].ending != Ongoing
      ensures |made| <= (if cfg.maxRetries > 0 then cfg.maxRetries else 0) + 1
      ensures made[|made| - 1].ending.Flooded? ==> |made| == (if cfg.maxRetries > 0 then cfg.maxRetries else 0) + 1
      ensures lastCalledAt == if made[|made| - 1].ending.Crashed?
                              then (if |made| > 1 then Some(made[|made| - 2].end) else old(lastCalledAt))
                              else Some(made[|made| - 1].end)
    {
      var retriesLeft := cfg.maxRetries;
      made, now := [], start;
      while true
        invariant lastCalledAt.Some? ==> lastCalledAt.value <= now
        invariant lastCalledAt == if made == [] then old(lastCalledAt) else Some(made[|made| - 1].end)
        invariant AllClear(cfg, made) && forall i :: 0 <= i < |made| ==> Retried(made[i])
        invariant Served(cfg, made, fn)
        invariant made != [] ==> Rested(cfg.(minInterval := 0.0), made[|made| - 1], fn(|made| - 1), now)
        invariant made == [] ==> now >= start
        invariant made != [] ==> made[0].start >= start
        invariant made != [] && old(lastCalledAt).Some? ==>
                    made[0].start >= old(lastCalledAt).value + cfg.minInterval
        invariant forall i :: 0 <= i < |made| ==> made[i].end <= now && made[i].end + made[i].ending.wait <= now
        invariant forall i :: 0 <= i < |made| ==> lastCalledAt.Some? && made[i].end <= lastCalledAt.value
        invariant |made| + retriesLeft == cfg.maxRetries && (retriesLeft >= 0 || made == [])
        decreases retriesLeft
      {
        if lastCalledAt.Some? {
          var wait := cfg.minInterval - (now - lastCalledAt.value);
          if wait > 0.0 {
            now := now + wait;
          }
        }
        assert forall i :: 0 <= i < |made| ==> Clear(cfg, made[i], Invocation(c, now, now, Ongoing));
        var attempt := fn(|made|);
        var begun := now;
        now := now + attempt.took;
        match attempt
        case Ok(_) =>
          lastCalledAt := Some(now);
          ServedAppends(cfg, made, fn, Invocation(c, begun, now, Completed));
          ClearAppends(cfg, made, Invocation(c, begun, now, Completed));
          made := made + [Invocation(c, begun, now, Completed)];
          return;
        case OtherError(_) =>
          ServedAppends(cfg, made, fn, Invocation(c, begun, now, Crashed));
          ClearAppends(cfg, made, Invocation(c, begun, now, Crashed));
          made := made + [Invocation(c, begun, now, Crashed)];
          return;
        case FloodWaitError(_, seconds) =>
          lastCalledAt := Some(now);
          var pause := BackoffFor(cfg, seconds);
          ServedAppends(cfg, made, fn, Invocation(c, begun, now, Flooded(pause, retriesLeft > 0)));
          ClearAppends(cfg, made, Invocation(c, begun, now, Flooded(pause, retriesLeft > 0)));
          made := made + [Invocation(c, begun, now, Flooded(pause, retriesLeft > 0))];
          if retriesLeft <= 0 {
            return;
          }
          retriesLeft := retriesLeft - 1;
          now := now + (if pause > 0.0 then pause else 0.0);
      }
    }
  }
}
