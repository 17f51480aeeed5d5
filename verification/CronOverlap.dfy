// Cron passes of one workflow that overlap. A pass reads its anchor, inserts slot
// by slot and commits; what it inserts is invisible to others until then. Passes
// and other transactions interleave freely. An occurrence is created twice
// exactly when two overlapping passes collide.
module CronOverlap {
  import opened Base
  import opened Jobs
  import opened Cron
  import opened CronRuns
  import opened CronHiding

  // ---- when two ticks create the same slot

  /**
   * What both ticks know before they insert: the first slot of the later-anchored
   * one has come for both, and the other one's cap reaches it.
   */
  ghost predicate Meets(a: Round, b: Round, next: Time -> Time, cap: nat) {
    && a.anchor <= b.anchor && next(b.anchor) <= a.now && next(b.anchor) <= b.now
    && AmongNext(next, a.anchor, cap, next(b.anchor))
  }

  ghost predicate Collide(a: Round, b: Round, next: Time -> Time, cap: nat) {
    Meets(a, b, next, cap) || Meets(b, a, next, cap)
  }

  ghost predicate Share(a: seq<Time>, b: seq<Time>) {
    exists x :: x in a && x in b
  }

  /** Going through the occurrences one by one, the first one after y is not jumped over. */
  lemma {:induction false} NthHits(next: Time -> Time, from: Time, y: Time, k: nat, cap: nat)
    requires IsSchedule(next) && from <= y && k < cap && Nth(next, from, k) >= next(y)
    ensures AmongNext(next, from, cap, next(y))
  {
    var previous := if k == 0 then from else Nth(next, from, k - 1);
    if previous >= next(y) {
      NthHits(next, from, y, k - 1, cap);
    } else {
      assert next(previous) == next(y);
      assert Nth(next, from, k) == next(y);
    }
  }

  lemma SharedMeets(a: Round, b: Round, next: Time -> Time, lookback: real, cap: nat, x: Time)
    requires IsSchedule(next) && IsRound(a, next, lookback, cap) && IsRound(b, next, lookback, cap)
    requires a.anchor <= b.anchor && x in a.slots && x in b.slots
    ensures Meets(a, b, next, cap)
  {
    SlotExactly(a, next, lookback, cap, x);
    SlotExactly(b, next, lookback, cap, x);
    var k: nat :| k < cap && Nth(next, b.anchor, k) == x;
    NthIncreases(next, b.anchor, 0, k);
    var m: nat :| m < cap && Nth(next, a.anchor, m) == x;
    NthHits(next, a.anchor, b.anchor, m, cap);
  }

  lemma MeetingIsShared(a: Round, b: Round, next: Time -> Time, lookback: real, cap: nat)
    requires IsSchedule(next) && IsRound(a, next, lookback, cap) && IsRound(b, next, lookback, cap)
    requires Meets(a, b, next, cap)
    ensures next(b.anchor) in a.slots && next(b.anchor) in b.slots
  {
    var x := next(b.anchor);
    assert cap > 0 && Nth(next, b.anchor, 0) == x;
    SlotExactly(a, next, lookback, cap, x);
    SlotExactly(b, next, lookback, cap, x);
  }

  /** Two ticks, whatever each has seen of the other, create a common slot exactly if they collide. */
  lemma ShareExactly(a: Round, b: Round, next: Time -> Time, lookback: real, cap: nat)
    requires IsSchedule(next) && IsRound(a, next, lookback, cap) && IsRound(b, next, lookback, cap)
    ensures Share(a.slots, b.slots) <==> Collide(a, b, next, cap)
  {
    if Share(a.slots, b.slots) {
      var x :| x in a.slots && x in b.slots;
      if a.anchor <= b.anchor {
        SharedMeets(a, b, next, lookback, cap, x);
      } else {
        SharedMeets(b, a, next, lookback, cap, x);
      }
    }
    if Meets(a, b, next, cap) {
      MeetingIsShared(a, b, next, lookback, cap);
    } else if Meets(b, a, next, cap) {
      MeetingIsShared(b, a, next, lookback, cap);
    }
  }

  /** A tick that has seen the other's slots does not collide with it. */
  lemma SeenDoesNotCollide(a: Round, b: Round, next: Time -> Time, lookback: real, cap: nat)
    requires IsSchedule(next) && IsRound(a, next, lookback, cap) && IsRound(b, next, lookback, cap)
    requires forall x :: x in a.slots ==> x in b.before
    ensures !Collide(a, b, next, cap)
  {
    ShareExactly(a, b, next, lookback, cap);
  }

  /** Over any list of ticks, whatever each has seen: no instant is created twice exactly if no two collide. */
  lemma NoDuplicatesExactly(rounds: seq<Round>, next: Time -> Time, lookback: real, cap: nat)
    requires IsSchedule(next) && forall i :: 0 <= i < |rounds| ==> IsRound(rounds[i], next, lookback, cap)
    ensures (forall i, j :: 0 <= i < j < |rounds| ==> !Share(rounds[i].slots, rounds[j].slots))
       <==> (forall i, j :: 0 <= i < j < |rounds| ==> !Collide(rounds[i], rounds[j], next, cap))
  {
    forall i, j | 0 <= i < j < |rounds|
      ensures Share(rounds[i].slots, rounds[j].slots) <==> Collide(rounds[i], rounds[j], next, cap)
    {
      ShareExactly(rounds[i], rounds[j], next, lookback, cap);
    }
  }

  /** Ticks one after the other are the case in which the condition is never met. */
  lemma SequentialTicksNeverCollide(rounds: seq<Round>, next: Time -> Time, lookback: real, cap: nat, i: nat, j: nat)
    requires IsSchedule(next) && Rounds(rounds, next, lookback, cap) && i < j < |rounds|
    ensures !Collide(rounds[i], rounds[j], next, cap) && !Share(rounds[i].slots, rounds[j].slots)
  {
    AfterIsSeen(rounds, next, lookback, cap, i, j);
    assert IsRound(rounds[i], next, lookback, cap) && IsRound(rounds[j], next, lookback, cap);
    SeenDoesNotCollide(rounds[i], rounds[j], next, lookback, cap);
    ShareExactly(rounds[i], rounds[j], next, lookback, cap);
  }

  lemma {:induction false} AfterIsSeen(rounds: seq<Round>, next: Time -> Time, lookback: real, cap: nat, i: nat, j: nat)
    requires Rounds(rounds, next, lookback, cap) && i < j < |rounds|
    ensures forall f :: f in rounds[i].after ==> f in rounds[j].before
    ensures forall f :: f in rounds[i].slots ==> f in rounds[j].before
    decreases j
  {
    assert IsRound(rounds[i], next, lookback, cap) && IsRound(rounds[j - 1], next, lookback, cap);
    assert Follows(rounds[j - 1], rounds[j]);
    if i + 1 < j {
      AfterIsSeen(rounds, next, lookback, cap, i, j - 1);
    }
  }

  // ---- passes cut into read, inserts and commit

  /** `before` are the fire times it read, `seen` how many passes had committed then. */
  datatype Pass = Pass(before: set<Time>, now: Time, anchor: Time, made: seq<Time>, seen: nat)

  datatype State = State(fires: set<Time>, open: map<nat, Pass>, committed: seq<Pass>)

  datatype Step =
    | Read(p: nat, now: Time, anchor: Time)
    | Insert(p: nat)
    | Commit(p: nat)
    | Rollback(p: nat)
    | Foreign(fire: Time) // another transaction inserts a job for the workflow

  datatype Setting = Setting(next: Time -> Time, lookback: real, cap: nat)

  /** The loop of the pass goes on. */
  predicate More(c: Setting, pass: Pass) {
    |pass.made| < c.cap && c.next(Cursor(pass.anchor, pass.made)) <= pass.now
  }

  ghost predicate Enabled(c: Setting, s: State, step: Step) {
    match step
    case Read(p, now, anchor) => p !in s.open && IsAnchor(s.fires, now, c.lookback, anchor)
    case Insert(p) => p in s.open && More(c, s.open[p])
    case Commit(p) => p in s.open && !More(c, s.open[p])
    case Rollback(p) => p in s.open
    case Foreign(fire) => true
  }

  ghost function Apply(c: Setting, s: State, step: Step): State
    requires Enabled(c, s, step)
  {
    match step
    case Read(p, now, anchor) => s.(open := s.open[p := Pass(s.fires, now, anchor, [], |s.committed|)])
    case Insert(p) =>
      var pass := s.open[p];
      s.(open := s.open[p := pass.(made := pass.made + [c.next(Cursor(pass.anchor, pass.made))])])
    case Commit(p) =>
      State(s.fires + Elements(s.open[p].made), s.open - {p}, s.committed + [s.open[p]])
    case Rollback(p) => s.(open := s.open - {p})
    case Foreign(fire) => s.(fires := s.fires + {fire})
  }

  ghost predicate IsRun(c: Setting, states: seq<State>, steps: seq<Step>) {
    && |states| == |steps| + 1 && states[0].open == map[] && states[0].committed == []
    && forall i :: 0 <= i < |steps| ==>
         Enabled(c, states[i], steps[i]) && states[i + 1] == Apply(c, states[i], steps[i])
  }

  /** A finished pass is one tick on what it read. */
  function RoundOf(pass: Pass): Round {
    Round(pass.before, pass.now, pass.anchor, pass.made, pass.before + Elements(pass.made))
  }

  /** A pass has read what was committed before it, and has inserted a gap-free block so far. */
  ghost predicate PassOk(c: Setting, s: State, pass: Pass) {
    && IsAnchor(pass.before, pass.now, c.lookback, pass.anchor)
    && Block(c.next, pass.anchor, pass.now, pass.made) && |pass.made| <= c.cap
    && pass.seen <= |s.committed|
    && forall i, x :: 0 <= i < pass.seen && x in s.committed[i].made ==> x in pass.before
  }

  ghost predicate Inv(c: Setting, s: State) {
    && (forall p :: p in s.open ==> PassOk(c, s, s.open[p]))
    && (forall i :: 0 <= i < |s.committed| ==>
          PassOk(c, s, s.committed[i]) && s.committed[i].seen <= i && !More(c, s.committed[i]))
    && (forall i, x :: 0 <= i < |s.committed| && x in s.committed[i].made ==> x in s.fires)
  }

  /** Committing more does not change what a pass has read. */
  lemma PassStaysOk(c: Setting, s: State, s': State, pass: Pass)
    requires PassOk(c, s, pass) && s.committed <= s'.committed
    ensures PassOk(c, s', pass)
  {
  }

  lemma InsertKeepsPass(c: Setting, s: State, pass: Pass)
    requires IsSchedule(c.next) && PassOk(c, s, pass) && More(c, pass)
    ensures PassOk(c, s, pass.(made := pass.made + [c.next(Cursor(pass.anchor, pass.made))]))
  {
    SlotExtends(c.next, pass.anchor, pass.now, c.cap, pass.made);
  }

  lemma StepKeepsInv(c: Setting, s: State, step: Step)
    requires IsSchedule(c.next) && Inv(c, s) && Enabled(c, s, step)
    ensures Inv(c, Apply(c, s, step))
  {
    var s' := Apply(c, s, step);
    forall p | p in s'.open ensures PassOk(c, s', s'.open[p]) {
      if step.Insert? && step.p == p {
        InsertKeepsPass(c, s, s.open[p]);
        PassStaysOk(c, s, s', s'.open[p]);
      } else if p in s.open && s'.open[p] == s.open[p] {
        PassStaysOk(c, s, s', s.open[p]);
      }
    }
    forall i | 0 <= i < |s'.committed|
      ensures PassOk(c, s', s'.committed[i]) && s'.committed[i].seen <= i && !More(c, s'.committed[i])
    {
      PassStaysOk(c, s, s', s'.committed[i]);
    }
  }

  lemma {:induction false} RunKeepsInv(c: Setting, states: seq<State>, steps: seq<Step>)
    requires IsSchedule(c.next) && IsRun(c, states, steps)
    ensures Inv(c, states[|steps|])
  {
    if steps != [] {
      var n := |steps| - 1;
      RunKeepsInv(c, states[..n + 1], steps[..n]);
      StepKeepsInv(c, states[n], steps[n]);
    }
  }

  lemma FinishedIsRound(c: Setting, s: State, pass: Pass)
    requires IsSchedule(c.next) && PassOk(c, s, pass) && !More(c, pass)
    ensures IsRound(RoundOf(pass), c.next, c.lookback, c.cap)
  {
    if |pass.made| < c.cap {
      SlotExtends(c.next, pass.anchor, pass.now, c.cap, pass.made);
    }
  }

  /** The pass at `j` read before the pass at `i` had committed, and committed after it. */
  predicate Overlap(committed: seq<Pass>, i: nat, j: nat) {
    i < j < |committed| && committed[j].seen <= i
  }

  /**
   * In any run of passes and other transactions, two committed passes have created
   * the same slot exactly if they overlapped and collide.
   */
  lemma CreatedTwiceExactly(c: Setting, states: seq<State>, steps: seq<Step>, i: nat, j: nat)
    requires IsSchedule(c.next) && IsRun(c, states, steps) && i < j < |states[|steps|].committed|
    ensures var passes := states[|steps|].committed;
            Share(passes[i].made, passes[j].made)
            <==> Overlap(passes, i, j) && Collide(RoundOf(passes[i]), RoundOf(passes[j]), c.next, c.cap)
  {
    RunKeepsInv(c, states, steps);
    var s := states[|steps|];
    var a, b := s.committed[i], s.committed[j];
    FinishedIsRound(c, s, a);
    FinishedIsRound(c, s, b);
    ShareExactly(RoundOf(a), RoundOf(b), c.next, c.lookback, c.cap);
    if !Overlap(s.committed, i, j) {
      SeenDoesNotCollide(RoundOf(a), RoundOf(b), c.next, c.lookback, c.cap);
    }
  }

  /** So no slot is created twice in a run exactly if no two overlapping passes collide. */
  lemma NothingCreatedTwiceExactly(c: Setting, states: seq<State>, steps: seq<Step>)
    requires IsSchedule(c.next) && IsRun(c, states, steps)
    ensures var passes := states[|steps|].committed;
            (forall i, j :: 0 <= i < j < |passes| ==> !Share(passes[i].made, passes[j].made))
            <==> (forall i: nat, j: nat :: Overlap(passes, i, j) ==>
                    !Collide(RoundOf(passes[i]), RoundOf(passes[j]), c.next, c.cap))
  {
    var passes := states[|steps|].committed;
    forall i: nat, j: nat | i < j < |passes|
      ensures Share(passes[i].made, passes[j].made)
              <==> Overlap(passes, i, j) && Collide(RoundOf(passes[i]), RoundOf(passes[j]), c.next, c.cap)
    {
      CreatedTwiceExactly(c, states, steps, i, j);
    }
  }

  // ---- it happens

  const DEFAULTS := Setting(EveryWhole, LOOKBACK, MAX_CATCHUP)

  function EarlyPass(made: seq<Time>): Pass {
    Pass({10.0}, 11.5, 10.0, made, 0)
  }

  function LatePass(made: seq<Time>): Pass {
    Pass({10.0}, 12.0, 10.0, made, 0)
  }

  function TwicePasses(i: nat): map<nat, Pass>
    requires i <= 7
  {
    if i == 0 then map[]
    else if i == 1 then map[1 := EarlyPass([])]
    else if i == 2 then map[1 := EarlyPass([]), 2 := LatePass([])]
    else if i == 3 then map[1 := EarlyPass([11.0]), 2 := LatePass([])]
    else if i == 4 then map[2 := LatePass([])]
    else if i == 5 then map[2 := LatePass([11.0])]
    else if i == 6 then map[2 := LatePass([11.0, 12.0])]
    else map[]
  }

  function TwiceState(i: nat): State
    requires i <= 7
  {
    var start: set<Time> := {10.0};
    if i < 4 then State(start, TwicePasses(i), [])
    else if i < 7 then State(start + Elements([11.0]), TwicePasses(i), [EarlyPass([11.0])])
    else State(start + Elements([11.0]) + Elements([11.0, 12.0]), TwicePasses(i),
               [EarlyPass([11.0]), LatePass([11.0, 12.0])])
  }

  function TwiceStep(i: nat): Step
    requires i < 7
  {
    [Read(1, 11.5, 10.0), Read(2, 12.0, 10.0), Insert(1), Commit(1), Insert(2), Insert(2), Commit(2)][i]
  }

  lemma WholeSteps()
    ensures EveryWhole(10.0) == 11.0 && EveryWhole(11.0) == 12.0 && EveryWhole(12.0) == 13.0
  {
  }

  lemma TwiceReads(i: nat)
    requires i < 2
    ensures Enabled(DEFAULTS, TwiceState(i), TwiceStep(i))
    ensures Apply(DEFAULTS, TwiceState(i), TwiceStep(i)) == TwiceState(i + 1)
  {
    assert TwicePasses(i)[i + 1 := if i == 0 then EarlyPass([]) else LatePass([])] == TwicePasses(i + 1);
  }

  lemma TwiceInserts(i: nat)
    requires i == 2 || i == 4 || i == 5
    ensures Enabled(DEFAULTS, TwiceState(i), TwiceStep(i))
    ensures Apply(DEFAULTS, TwiceState(i), TwiceStep(i)) == TwiceState(i + 1)
  {
    WholeSteps();
    assert [] + [11.0] == [11.0] && [11.0] + [12.0] == [11.0, 12.0];
    var p := if i == 2 then 1 else 2;
    assert TwicePasses(i)[p := TwicePasses(i + 1)[p]] == TwicePasses(i + 1);
  }

  lemma TwiceCommits(i: nat)
    requires i == 3 || i == 6
    ensures Enabled(DEFAULTS, TwiceState(i), TwiceStep(i))
    ensures Apply(DEFAULTS, TwiceState(i), TwiceStep(i)) == TwiceState(i + 1)
  {
    WholeSteps();
    assert TwicePasses(i) - {if i == 3 then 1 else 2} == TwicePasses(i + 1);
  }

  /**
   * One pass reads at 11.5 and another at 12, both before either has committed:
   * the slot at 11 is in the table twice.
   */
  lemma OverlappingPassesCreateASlotTwice() returns (states: seq<State>, steps: seq<Step>)
    ensures IsSchedule(DEFAULTS.next) && IsRun(DEFAULTS, states, steps)
    ensures |states[|steps|].committed| == 2
    ensures var passes := states[|steps|].committed;
            passes[0].now == 11.5 && passes[1].now == 12.0 && 11.0 in passes[0].made && 11.0 in passes[1].made
  {
    EveryWholeIsSchedule();
    states := seq(8, i requires 0 <= i < 8 => TwiceState(i));
    steps := seq(7, i requires 0 <= i < 7 => TwiceStep(i));
    forall i | 0 <= i < 7
      ensures Enabled(DEFAULTS, states[i], steps[i]) && states[i + 1] == Apply(DEFAULTS, states[i], steps[i])
    {
      if i < 2 {
        TwiceReads(i);
      } else if i == 3 || i == 6 {
        TwiceCommits(i);
      } else {
        TwiceInserts(i);
      }
    }
  }
}
